/** The cache directory of akita/mem/cache/directory.go and its LRU victim finder. Go slices are modelled with their
    backing array, because Visit works on a copy of the set and takes effect only through that array. */
module Directories {
  import opened Wrappers
  import opened Arith
  import I = Interleaving

  class Block {
    const setID: nat
    const wayID: nat
    var pid: nat
    var tag: nat
    var isValid: bool
    var isLocked: bool

    constructor (setID: nat, wayID: nat)
      ensures this.setID == setID && this.wayID == wayID && !isValid && !isLocked
    {
      this.setID, this.wayID := setID, wayID;
      pid, tag, isValid, isLocked := 0, 0, false, false;
    }
  }

  /* ----- Slices ----- */

  /** A slice header that starts at the beginning of its array; the capacity is the array's length. */
  datatype Slice = Slice(data: array<Block>, len: nat)

  ghost predicate SliceOk(s: Slice) {
    s.len <= s.data.Length
  }

  ghost function Elems(s: Slice): seq<Block>
    reads s.data
  {
    if s.len <= s.data.Length then s.data[..s.len] else []
  }

  /** append(s, x): in place when there is room, otherwise into a new array of twice the capacity. */
  method Append(s: Slice, x: Block) returns (t: Slice)
    requires SliceOk(s)
    modifies s.data
    ensures SliceOk(t) && t.len == s.len + 1 && Elems(t) == old(Elems(s)) + [x]
    ensures if s.len < s.data.Length then t.data == s.data && s.data[..] == old(s.data[..])[s.len := x]
            else fresh(t.data) && s.data[..] == old(s.data[..])
  {
    if s.len < s.data.Length {
      s.data[s.len] := x;
      return Slice(s.data, s.len + 1);
    }
    var grown := new Block[if s.len == 0 then 1 else 2 * s.len](_ => x);
    var i := 0;
    while i < s.len
      invariant i <= s.len && grown[..i] == s.data[..i] && s.data[..] == old(s.data[..])
      invariant forall k :: i <= k < grown.Length ==> grown[k] == x
    {
      grown[i] := s.data[i];
      i := i + 1;
    }
    return Slice(grown, s.len + 1);
  }

  /** append(s[:i], s[i+1:]...): the later elements move one place forward, in the same array. */
  method DeleteAt(s: Slice, i: nat) returns (t: Slice)
    requires SliceOk(s) && i < s.len
    modifies s.data
    ensures t == Slice(s.data, s.len - 1)
    ensures Elems(t) == old(Elems(s))[..i] + old(Elems(s))[i + 1..]
    ensures s.data[s.len - 1..] == old(s.data[s.len - 1..])
  {
    var k := i;
    while k < s.len - 1
      invariant i <= k <= s.len - 1
      invariant forall j :: 0 <= j < s.data.Length ==>
              s.data[j] == if i <= j < k then old(s.data[j + 1]) else old(s.data[j])
    {
      s.data[k] := s.data[k + 1];
      k := k + 1;
    }
    return Slice(s.data, s.len - 1);
  }

  /* ----- Least recently visited first ----- */

  /** Moving b from where it stands to the end. */
  function MovedToBack(q: seq<Block>, b: Block): seq<Block> {
    if b !in q then q else if q[0] == b then q[1..] + [b] else [q[0]] + MovedToBack(q[1..], b)
  }

  lemma {:induction false} MovedAt(q: seq<Block>, b: Block, i: nat)
    requires i < |q| && q[i] == b && b !in q[..i]
    ensures MovedToBack(q, b) == q[..i] + q[i + 1..] + [b]
  {
    if i > 0 {
      assert q[..i][0] == q[0] && q[1..][..i - 1] == q[..i][1..];
      MovedAt(q[1..], b, i - 1);
      assert q[1..][i..] == q[i + 1..];
      assert [q[0]] + (q[1..][..i - 1] + q[1..][i..] + [b]) == q[..i] + q[i + 1..] + [b];
    }
  }

  /** The last place of b in the visits, or -1. */
  function LastVisit(visits: seq<Block>, b: Block): (k: int)
    ensures -1 <= k < |visits|
  {
    if visits == [] then -1
    else if visits[|visits| - 1] == b then |visits| - 1
    else LastVisit(visits[..|visits| - 1], b)
  }

  lemma {:induction false} LastVisitIsLast(visits: seq<Block>, b: Block, j: nat)
    requires j < |visits|
    ensures visits[j] == b ==> j <= LastVisit(visits, b)
    ensures LastVisit(visits, b) >= 0 ==> visits[LastVisit(visits, b)] == b
  {
    if visits[|visits| - 1] != b && |visits| > 1 {
      LastVisitIsLast(visits[..|visits| - 1], b, if j < |visits| - 1 then j else 0);
    }
  }

  lemma LastVisitAfter(visits: seq<Block>, v: Block, b: Block)
    ensures LastVisit(visits + [v], b) == if b == v then |visits| else LastVisit(visits, b)
  {
    assert (visits + [v])[..|visits|] == visits;
  }

  /** a was visited before b; blocks never visited come first, in way order. */
  predicate Older(visits: seq<Block>, a: Block, b: Block) {
    LastVisit(visits, a) < LastVisit(visits, b)
        || (LastVisit(visits, a) == LastVisit(visits, b) == -1 && a.wayID < b.wayID)
  }

  ghost predicate ByAge(q: seq<Block>, visits: seq<Block>) {
    forall i, j :: 0 <= i < j < |q| ==> Older(visits, q[i], q[j])
  }

  ghost predicate NoRepeat(q: seq<Block>) {
    forall i, j :: 0 <= i < j < |q| ==> q[i] != q[j]
  }

  /** Visiting a block keeps the queue ordered by last visit. */
  lemma VisitKeepsAge(q: seq<Block>, visits: seq<Block>, b: Block)
    requires ByAge(q, visits) && NoRepeat(q)
    ensures ByAge(MovedToBack(q, b), visits + [b]) && NoRepeat(MovedToBack(q, b))
            && multiset(MovedToBack(q, b)) == multiset(q)
  {
    hide LastVisit;
    hide MovedToBack;
    if b in q {
      var i := Place(q, b);
      MovedAt(q, b, i);
      var q' := MovedToBack(q, b);
      forall j, k | 0 <= j < k < |q'| ensures Older(visits + [b], q'[j], q'[k]) && q'[j] != q'[k] {
        LastVisitAfter(visits, b, q'[j]);
        LastVisitAfter(visits, b, q'[k]);
        var j' := if j < i then j else j + 1;
        assert q'[j] == q[j'];
        if k < |q| - 1 {
          assert q'[k] == q[if k < i then k else k + 1];
        }
      }
      assert q == q[..i] + [b] + q[i + 1..];
    } else {
      NotMoved(q, b);
      forall j, k | 0 <= j < k < |q| ensures Older(visits + [b], q[j], q[k]) {
        LastVisitAfter(visits, b, q[j]);
        LastVisitAfter(visits, b, q[k]);
        assert q[j] in q && q[k] in q;
      }
    }
  }

  lemma NotMoved(q: seq<Block>, b: Block)
    requires b !in q
    ensures MovedToBack(q, b) == q
  {
  }

  lemma {:induction false} Place(q: seq<Block>, b: Block) returns (i: nat)
    requires b in q
    ensures i < |q| && q[i] == b && b !in q[..i]
  {
    if q[0] == b {
      i := 0;
    } else {
      i := Place(q[1..], b);
      assert q[..i + 1] == [q[0]] + q[1..][..i];
      i := i + 1;
    }
  }

  /* ----- The directory ----- */

  datatype Set = Set(blocks: seq<Block>, lruQueue: Slice)

  /** The queue is a permutation of the blocks of set i, least recently visited first. */
  ghost predicate OneSetOk(s: Set, i: nat, numWays: nat, visits: seq<Block>)
    reads s.lruQueue.data
  {
    && SliceOk(s.lruQueue) && |s.blocks| == numWays
    && (forall j :: 0 <= j < numWays ==> s.blocks[j].setID == i && s.blocks[j].wayID == j)
    && multiset(Elems(s.lruQueue)) == multiset(s.blocks)
    && NoRepeat(Elems(s.lruQueue)) && ByAge(Elems(s.lruQueue), visits)
  }

  class Directory {
    const numSets: nat
    const numWays: nat
    const blockSize: nat
    const addrConverter: Option<I.Converter>
    var sets: seq<Set>
    ghost var visits: seq<Block>

    ghost predicate SetOk(i: nat)
      requires i < |sets|
      reads this, sets[i].lruQueue.data
    {
      OneSetOk(sets[i], i, numWays, visits)
    }

    ghost function Arrays(): set<array<Block>>
      reads this
    {
      set i | 0 <= i < |sets| :: sets[i].lruQueue.data
    }

    /** Sets do not share backing arrays, and every queue is its set's blocks, least recently visited first. */
    ghost predicate Valid()
      reads this, Arrays()
    {
      && |sets| == numSets
      && (forall i, j :: 0 <= i < j < |sets| ==> sets[i].lruQueue.data != sets[j].lruQueue.data)
      && (forall i :: 0 <= i < |sets| ==> SetOk(i))
    }

    constructor (numSets: nat, numWays: nat, blockSize: nat, addrConverter: Option<I.Converter>)
      ensures Valid() && this.numSets == numSets && this.numWays == numWays && this.blockSize == blockSize
              && visits == []
      ensures this.addrConverter == addrConverter
    {
      this.numSets, this.numWays, this.blockSize, this.addrConverter := numSets, numWays, blockSize, addrConverter;
      sets, visits := [], [];
      new;
      Reset();
    }

    /** One set of fresh blocks. */
    method NewSet(i: nat) returns (s: Set)
      ensures fresh(s.lruQueue.data) && OneSetOk(s, i, numWays, []) && Elems(s.lruQueue) == s.blocks
      ensures forall b :: b in s.blocks ==> !b.isValid && !b.isLocked && fresh(b)
    {
      hide LastVisit;
      hide Older;
      var empty := new Block[0];
      var queue := Slice(empty, 0);
      var blocks := [];
      var j := 0;
      while j < numWays
        invariant j <= numWays && |blocks| == j && fresh(queue.data) && SliceOk(queue) && Elems(queue) == blocks
        invariant forall k :: 0 <= k < j ==>
                blocks[k].setID == i && blocks[k].wayID == k && !blocks[k].isValid && !blocks[k].isLocked
                    && fresh(blocks[k])
      {
        var block := new Block(i, j);
        blocks := blocks + [block];
        queue := Append(queue, block);
        j := j + 1;
      }
      NeverVisited(blocks);
      return Set(blocks, queue);
    }

    /** All blocks new and invalid; nothing visited. */
    method Reset()
      modifies this`sets, this`visits
      ensures Valid() && visits == []
      ensures forall s, b :: s in sets && b in s.blocks ==> !b.isValid
    {
      hide OneSetOk;
      sets, visits := [], [];
      var i := 0;
      while i < numSets
        invariant i <= numSets && |sets| == i && visits == []
        invariant forall k :: 0 <= k < i ==> fresh(sets[k].lruQueue.data) && SetOk(k)
        invariant forall s, b :: s in sets && b in s.blocks ==> !b.isValid && fresh(b)
        invariant forall k, m :: 0 <= k < m < i ==> sets[k].lruQueue.data != sets[m].lruQueue.data
      {
        var s := NewSet(i);
        sets := sets + [s];
        i := i + 1;
      }
    }

    static lemma NeverVisited(blocks: seq<Block>)
      requires forall j :: 0 <= j < |blocks| ==> blocks[j].wayID == j
      ensures NoRepeat(blocks) && ByAge(blocks, [])
    {
      forall i, j | 0 <= i < j < |blocks| ensures blocks[i] != blocks[j] && Older([], blocks[i], blocks[j]) {
        assert blocks[i].wayID != blocks[j].wayID;
      }
    }

    static lemma SameElements(q: seq<Block>, blocks: seq<Block>)
      requires multiset(q) == multiset(blocks)
      ensures |q| == |blocks| && forall b :: b in q <==> b in blocks
    {
      assert |multiset(q)| == |multiset(blocks)|;
      forall b ensures b in q <==> b in blocks {
        assert b in multiset(q) <==> b in multiset(blocks);
      }
    }

    /** A block that is not in set k has no place in its queue. */
    static lemma NotInOtherQueue(q: seq<Block>, blocks: seq<Block>, k: nat, block: Block)
      requires multiset(q) == multiset(blocks) && (forall j :: 0 <= j < |blocks| ==> blocks[j].setID == k)
              && block.setID != k
      ensures block !in q
    {
      SameElements(q, blocks);
    }

    /** The steps of Visit on the copied slice. */
    method MoveToBack(slice: Slice, block: Block)
      requires SliceOk(slice)
      modifies slice.data
      ensures SliceOk(slice) && Elems(slice) == MovedToBack(old(Elems(slice)), block)
    {
      hide MovedToBack;
      ghost var q := Elems(slice);
      var queue := slice;
      var i := 0;
      while i < slice.len && slice.data[i] != block
        invariant i <= slice.len && block !in q[..i] && slice.data[..] == old(slice.data[..])
      {
        assert q[..i + 1] == q[..i] + [q[i]];
        i := i + 1;
      }
      if i < slice.len {
        MovedAt(q, block, i);
        queue := DeleteAt(queue, i);
        queue := Append(queue, block);
      } else {
        assert q[..i] == q;
        NotMoved(q, block);
        queue := Append(queue, block);
      }
    }

    /** Works on a copy of the set; its queue changes because the copy shares the backing array. A block that is not in
        the queue of its set changes nothing that the directory can see. */
    method Visit(block: Block)
      requires Valid() && block.setID < numSets
      modifies this`visits, sets[block.setID].lruQueue.data
      ensures Valid() && visits == old(visits) + [block]
      ensures Elems(sets[block.setID].lruQueue) == MovedToBack(old(Elems(sets[block.setID].lruQueue)), block)
    {
      hide LastVisit;
      hide MovedToBack;
      hide Older;
      hide ByAge;
      hide NoRepeat;
      var theSet := sets[block.setID];
      assert SetOk(block.setID);
      ghost var before := visits;
      MoveToBack(theSet.lruQueue, block);
      visits := visits + [block];
      forall k | 0 <= k < |sets| ensures SetOk(k) {
        assert old(SetOk(k));
        VisitKeepsAge(old(Elems(sets[k].lruQueue)), before, block);
        if k != block.setID {
          NotInOtherQueue(old(Elems(sets[k].lruQueue)), sets[k].blocks, k, block);
          NotMoved(old(Elems(sets[k].lruQueue)), block);
        }
      }
    }

    /** The address converter, if there is one, accepts the address; otherwise it panics. */
    predicate Converts(reqAddr: nat) {
      addrConverter.Some? ==>
        I.ConverterOk(addrConverter.value) && I.ConvertExternalToInternal(addrConverter.value, reqAddr).Ok?
    }

    function Internal(reqAddr: nat): (a: nat)
      requires Converts(reqAddr)
      ensures addrConverter.None? ==> a == reqAddr
      ensures addrConverter.Some? ==> I.ConvertExternalToInternal(addrConverter.value, reqAddr) == I.Ok(a)
    {
      if addrConverter.Some? then I.ConvertExternalToInternal(addrConverter.value, reqAddr).internal else reqAddr
    }

    /** getSet. */
    function SetIDOf(reqAddr: nat): (i: nat)
      requires blockSize > 0 && numSets > 0 && Converts(reqAddr)
      ensures i < numSets
    {
      Internal(reqAddr) / blockSize % numSets
    }

    /** Blocks go to the sets in turn: block i of every row of numSets blocks goes to set i. */
    lemma BlocksInTurn(reqAddr: nat, q: nat, i: nat, r: nat)
      requires blockSize > 0 && numSets > 0 && Converts(reqAddr) && i < numSets && r < blockSize
      requires Internal(reqAddr) == (q * numSets + i) * blockSize + r
      ensures SetIDOf(reqAddr) == i
    {
      hide Internal;
      DivModUnique(Internal(reqAddr), blockSize, q * numSets + i, r);
      DivModUnique(q * numSets + i, numSets, q, i);
    }

    /** Addresses of one block have the same set, and those of the next block the next set. */
    lemma NeighbourSets(a: nat, b: nat, k: nat, r: nat, r': nat)
      requires blockSize > 0 && numSets > 0 && Converts(a) && Converts(b) && r < blockSize && r' < blockSize
      requires Internal(a) == k * blockSize + r
      ensures Internal(b) == k * blockSize + r' ==> SetIDOf(b) == SetIDOf(a)
      ensures Internal(b) == (k + 1) * blockSize + r' ==>
                SetIDOf(b) == if SetIDOf(a) + 1 < numSets then SetIDOf(a) + 1 else 0
    {
      hide Internal;
      hide SetIDOf;
      SetOfBlock(a, k, r);
      if Internal(b) == k * blockSize + r' {
        SetOfBlock(b, k, r');
      }
      if Internal(b) == (k + 1) * blockSize + r' {
        SetOfBlock(b, k + 1, r');
        NextRemainder(k, numSets);
      }
    }

    lemma SetOfBlock(reqAddr: nat, k: nat, r: nat)
      requires blockSize > 0 && numSets > 0 && Converts(reqAddr) && r < blockSize
      requires Internal(reqAddr) == k * blockSize + r
      ensures SetIDOf(reqAddr) == k % numSets
    {
      hide Internal;
      DivModUnique(Internal(reqAddr), blockSize, k, r);
    }

    /** The first valid block of the set with this tag and process. */
    method Lookup(pid: nat, reqAddr: nat) returns (block: Option<Block>)
      requires Valid() && blockSize > 0 && numSets > 0 && Converts(reqAddr)
      ensures block.Some? ==>
                && block.value in sets[SetIDOf(reqAddr)].blocks && block.value.isValid
                && block.value.tag == reqAddr && block.value.pid == pid
      ensures block.None? ==> forall b :: b in sets[SetIDOf(reqAddr)].blocks ==>
              !(b.isValid && b.tag == reqAddr && b.pid == pid)
    {
      var blocks := sets[SetIDOf(reqAddr)].blocks;
      var i := 0;
      while i < |blocks|
        invariant i <= |blocks| && forall b :: b in blocks[..i] ==> !(b.isValid && b.tag == reqAddr && b.pid == pid)
      {
        if blocks[i].isValid && blocks[i].tag == reqAddr && blocks[i].pid == pid {
          return Some(blocks[i]);
        }
        assert blocks[..i + 1] == blocks[..i] + [blocks[i]];
        i := i + 1;
      }
      assert blocks[..i] == blocks;
      return None;
    }

    /** The least recently visited block that is neither valid nor locked; else the least recently visited one that is
        not locked; else the least recently visited one. */
    method FindVictim(addr: nat) returns (block: Block)
      requires Valid() && blockSize > 0 && numSets > 0 && numWays > 0 && Converts(addr)
      ensures block in sets[SetIDOf(addr)].blocks
      ensures var blocks := sets[SetIDOf(addr)].blocks;
              if exists b :: b in blocks && !b.isValid && !b.isLocked then
                && !block.isValid && !block.isLocked
                && forall b :: b in blocks && !b.isValid && !b.isLocked && b != block ==> Older(visits, block, b)
              else if exists b :: b in blocks && !b.isLocked then
                !block.isLocked && forall b :: b in blocks && !b.isLocked && b != block ==> Older(visits, block, b)
              else
                forall b :: b in blocks && b != block ==> Older(visits, block, b)
    {
      hide Older;
      var s := sets[SetIDOf(addr)];
      assert SetOk(SetIDOf(addr));
      ghost var q := Elems(s.lruQueue);
      SameElements(q, s.blocks);
      var found, at := LRUFindVictim(s.lruQueue);
      block := found;
      FirstIsOldest(q, visits, at);
    }

    static lemma InPrefix(q: seq<Block>, at: nat)
      requires at <= |q|
      ensures forall j :: 0 <= j < at ==> q[j] in q[..at]
    {
      forall j | 0 <= j < at ensures q[j] in q[..at] {
        assert q[..at][j] == q[j];
      }
    }

    /** A block is older than all that stand behind it. */
    static lemma FirstIsOldest(q: seq<Block>, visits: seq<Block>, at: nat)
      requires at < |q| && ByAge(q, visits)
      ensures forall b :: b in q && b != q[at] && b !in q[..at] ==> Older(visits, q[at], b)
    {
      hide Older;
      InPrefix(q, at);
      forall b | b in q && b != q[at] && b !in q[..at] ensures Older(visits, q[at], b) {
        var j :| 0 <= j < |q| && q[j] == b;
      }
    }
  }

  /** LRUVictimFinder.FindVictim: two passes over the queue, then its head. */
  method LRUFindVictim(queue: Slice) returns (block: Block, ghost at: nat)
    requires SliceOk(queue) && queue.len > 0
    ensures at < queue.len && block == queue.data[at]
    ensures var q := Elems(queue);
            if exists b :: b in q && !b.isValid && !b.isLocked then
              !block.isValid && !block.isLocked && forall b :: b in q[..at] ==> b.isValid || b.isLocked
            else if exists b :: b in q && !b.isLocked then
              !block.isLocked && forall b :: b in q[..at] ==> b.isLocked
            else at == 0
  {
    ghost var q := Elems(queue);
    var i := 0;
    while i < queue.len
      invariant i <= queue.len && forall b :: b in q[..i] ==> b.isValid || b.isLocked
    {
      if !queue.data[i].isValid && !queue.data[i].isLocked {
        assert q[i] in q;
        return queue.data[i], i;
      }
      assert q[..i + 1] == q[..i] + [q[i]];
      i := i + 1;
    }
    assert q[..i] == q;
    i := 0;
    while i < queue.len
      invariant i <= queue.len && forall b :: b in q[..i] ==> b.isLocked
    {
      if !queue.data[i].isLocked {
        assert q[i] in q;
        return queue.data[i], i;
      }
      assert q[..i + 1] == q[..i] + [q[i]];
      i := i + 1;
    }
    assert q[..i] == q;
    return queue.data[0], 0;
  }
}
