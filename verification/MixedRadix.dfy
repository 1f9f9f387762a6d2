/** Flattened indices of a box: x runs fastest, then y, then z. */
module MixedRadix {
  import opened Arith

  function Flat(x: nat, y: nat, z: nat, nx: nat, ny: nat): nat {
    z * nx * ny + y * nx + x
  }

  function DigitX(i: nat, nx: nat): (x: nat)
    requires nx > 0
    ensures x < nx
  {
    i % nx
  }

  function DigitY(i: nat, nx: nat, ny: nat): (y: nat)
    requires nx > 0 && ny > 0
    ensures y < ny
  {
    (i / nx) % ny
  }

  function DigitZ(i: nat, nx: nat, ny: nat): nat
    requires nx > 0 && ny > 0
  {
    (i / nx) / ny
  }

  lemma FlatHorner(x: nat, y: nat, z: nat, nx: nat, ny: nat)
    ensures Flat(x, y, z, nx, ny) == (z * ny + y) * nx + x
  {
    assert (z * ny + y) * nx == (z * ny) * nx + y * nx;
    assert (z * ny) * nx == z * nx * ny;
  }

  lemma DigitsOfFlat(x: nat, y: nat, z: nat, nx: nat, ny: nat)
    requires x < nx && y < ny
    ensures var i := Flat(x, y, z, nx, ny); DigitX(i, nx) == x && DigitY(i, nx, ny) == y && DigitZ(i, nx, ny) == z
  {
    FlatHorner(x, y, z, nx, ny);
    DivModUnique(Flat(x, y, z, nx, ny), nx, z * ny + y, x);
    DivModUnique(z * ny + y, ny, z, y);
  }

  lemma FlatOfDigits(i: nat, nx: nat, ny: nat)
    requires nx > 0 && ny > 0
    ensures Flat(DigitX(i, nx), DigitY(i, nx, ny), DigitZ(i, nx, ny), nx, ny) == i
  {
    FlatHorner(DigitX(i, nx), DigitY(i, nx, ny), DigitZ(i, nx, ny), nx, ny);
    var q := i / nx;
    assert q == (q / ny) * ny + q % ny;
    assert i == q * nx + i % nx;
  }

  lemma FlatBound(x: nat, y: nat, z: nat, nx: nat, ny: nat, nz: nat)
    requires x < nx && y < ny && z < nz
    ensures Flat(x, y, z, nx, ny) < Volume(nx, ny, nz)
  {
    FlatHorner(x, y, z, nx, ny);
    MulMonotone(z + 1, nz, ny);
    assert (z + 1) * ny == z * ny + ny;
    MulMonotone(z * ny + y + 1, nz * ny, nx);
    assert (z * ny + y + 1) * nx == (z * ny + y) * nx + nx;
    VolumeHorner(nx, ny, nz);
  }

  function Volume(nx: nat, ny: nat, nz: nat): nat {
    nx * ny * nz
  }

  lemma VolumeHorner(nx: nat, ny: nat, nz: nat)
    ensures Volume(nx, ny, nz) == (nz * ny) * nx
  {
    assert nx * ny * nz == nx * (ny * nz);
  }

  lemma DigitZBound(i: nat, nx: nat, ny: nat, nz: nat)
    requires nx > 0 && ny > 0 && i < Volume(nx, ny, nz)
    ensures DigitZ(i, nx, ny) < nz
  {
    VolumeHorner(nx, ny, nz);
    FlatOfDigits(i, nx, ny);
    var x, y, z := DigitX(i, nx), DigitY(i, nx, ny), DigitZ(i, nx, ny);
    FlatHorner(x, y, z, nx, ny);
    if z >= nz {
      MulMonotone(nz, z, ny);
      MulMonotone(nz * ny, z * ny + y, nx);
    }
  }

  lemma Steps(x: nat, y: nat, z: nat, nx: nat, ny: nat)
    ensures Flat(x + 1, y, z, nx, ny) == Flat(x, y, z, nx, ny) + 1
    ensures Flat(0, y + 1, z, nx, ny) == Flat(0, y, z, nx, ny) + nx
    ensures Flat(nx, y, z, nx, ny) == Flat(0, y + 1, z, nx, ny)
    ensures Flat(0, ny, z, nx, ny) == Flat(0, 0, z + 1, nx, ny)
  {
    FlatHorner(0, y, z, nx, ny);
    FlatHorner(nx, y, z, nx, ny);
    FlatHorner(0, y + 1, z, nx, ny);
    FlatHorner(0, ny, z, nx, ny);
    FlatHorner(0, 0, z + 1, nx, ny);
    assert (z * ny + y + 1) * nx == (z * ny + y) * nx + nx;
    assert z * ny + ny == (z + 1) * ny;
  }

  lemma FlatEnd(nx: nat, ny: nat, nz: nat)
    ensures Flat(0, 0, nz, nx, ny) == Volume(nx, ny, nz)
  {
    FlatHorner(0, 0, nz, nx, ny);
    VolumeHorner(nx, ny, nz);
  }
}
