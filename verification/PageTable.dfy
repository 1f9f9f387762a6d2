/** akita/mem/vm/pagetable.go: per process a list of pages in insertion order and a map into that list. */
module PageTables {
  import opened Wrappers
  import opened Storages

  datatype Page = Page(pid: nat, vAddr: nat, pAddr: nat, pageSize: nat, deviceID: nat, accessCounts: nat)

  /** A list element: Update changes it in place. */
  class Element {
    var value: Page

    constructor (value: Page)
      ensures this.value == value
    {
      this.value := value;
    }
  }

  /** At most one page of a list starts at any address. */
  ghost predicate OnePerAddress(pages: seq<Page>) {
    forall i, j :: 0 <= i < j < |pages| ==> pages[i].vAddr != pages[j].vAddr
  }

  /** The place of the page that starts at v, or the length. */
  function IndexOf(pages: seq<Page>, v: nat): (i: nat)
    ensures i <= |pages| && (i < |pages| ==> pages[i].vAddr == v)
    ensures forall j :: 0 <= j < i ==> pages[j].vAddr != v
  {
    if pages == [] || pages[0].vAddr == v then 0 else 1 + IndexOf(pages[1..], v)
  }

  function Without(pages: seq<Page>, i: nat): seq<Page>
    requires i < |pages|
  {
    pages[..i] + pages[i + 1..]
  }

  /** The table of one process. */
  class ProcessTable {
    const pageSize: nat
    var entries: seq<Element>
    var entriesTable: map<nat, Element>

    /** Element i is in the map under its address. */
    ghost predicate Listed(i: nat)
      reads this, entries
      requires i < |entries|
    {
      var e := entries[i];
      e.value.vAddr in entriesTable && entriesTable[e.value.vAddr] == e
    }

    /** What the map has for v is in the list. */
    ghost predicate Mapped(v: nat)
      reads this, entries
      requires v in entriesTable
    {
      exists i :: 0 <= i < |entries| && entries[i] == entriesTable[v] && entries[i].value.vAddr == v
    }

    ghost predicate Distinct()
      reads this
    {
      forall i, j :: 0 <= i < j < |entries| ==> entries[i] != entries[j]
    }

    ghost predicate Valid()
      reads this, entries
    {
      && pageSize > 0 && Distinct()
      && (forall i :: 0 <= i < |entries| ==> Listed(i))
      && (forall v :: v in entriesTable ==> Mapped(v))
    }

    /** The pages in list order. */
    ghost function Pages(): (r: seq<Page>)
      reads this, entries
      ensures |r| == |entries| && forall i :: 0 <= i < |r| ==> r[i] == entries[i].value
    {
      seq(|entries|, i requires 0 <= i < |entries| reads this, entries => entries[i].value)
    }

    constructor (pageSize: nat)
      requires pageSize > 0
      ensures Valid() && Pages() == [] && entries == [] && this.pageSize == pageSize
    {
      this.pageSize, entries, entriesTable := pageSize, [], map[];
    }

    /** The list never holds two pages of one address, and the map finds exactly what the list holds. */
    lemma Consistent(v: nat)
      requires Valid()
      ensures OnePerAddress(Pages())
      ensures v in entriesTable <==> IndexOf(Pages(), v) < |Pages()|
      ensures v in entriesTable ==> entries[IndexOf(Pages(), v)] == entriesTable[v]
    {
      hide IndexOf;
      forall i, j | 0 <= i < j < |Pages()| ensures Pages()[i].vAddr != Pages()[j].vAddr {
        assert Listed(i) && Listed(j);
      }
      var k := IndexOf(Pages(), v);
      if v in entriesTable {
        assert Mapped(v);
        var i :| 0 <= i < |entries| && entries[i] == entriesTable[v] && entries[i].value.vAddr == v;
        assert Pages()[i].vAddr == v;
      }
      if k < |Pages()| {
        assert Listed(k);
      }
    }

    /** Panics when a page of this address exists. */
    method Insert(page: Page) returns (panics: bool)
      requires Valid()
      modifies this`entries, this`entriesTable
      ensures Valid() && (panics <==> IndexOf(old(Pages()), page.vAddr) < |old(Pages())|)
      ensures panics ==> entries == old(entries)
      ensures !panics ==> Pages() == old(Pages()) + [page]
    {
      hide IndexOf;
      hide Pages;
      Consistent(page.vAddr);
      if page.vAddr in entriesTable {
        return true;
      }
      var elem := new Element(page);
      ghost var n := |entries|;
      entries := entries + [elem];
      entriesTable := entriesTable[page.vAddr := elem];
      forall i | 0 <= i < |entries| ensures Listed(i) {
        assert i < n ==> old(Listed(i));
      }
      forall v | v in entriesTable ensures Mapped(v) {
        if v == page.vAddr {
          assert entries[n] == entriesTable[v];
        } else {
          assert old(Mapped(v));
          var i :| 0 <= i < n && old(entries)[i] == old(entriesTable)[v] && old(entries[i].value).vAddr == v;
          assert entries[i] == entriesTable[v];
        }
      }
      return false;
    }

    /** Where an element of the list stands. */
    method PlaceOf(elem: Element, ghost at: nat) returns (i: nat)
      requires Distinct() && at < |entries| && entries[at] == elem
      ensures i == at
    {
      i := 0;
      while entries[i] != elem
        invariant i <= at
        decreases at - i
      {
        i := i + 1;
      }
    }

    /** Removes the page that starts at exactly this address; panics when there is none. Find aligns its address,
        Remove does not. */
    method Remove(vAddr: nat) returns (panics: bool)
      requires Valid()
      modifies this`entries, this`entriesTable
      ensures Valid() && (panics <==> IndexOf(old(Pages()), vAddr) == |old(Pages())|)
      ensures panics ==> entries == old(entries)
      ensures !panics ==> Pages() == Without(old(Pages()), IndexOf(old(Pages()), vAddr))
    {
      hide IndexOf;
      hide Pages;
      Consistent(vAddr);
      if vAddr !in entriesTable {
        return true;
      }
      ghost var at := IndexOf(Pages(), vAddr);
      var i := PlaceOf(entriesTable[vAddr], at);
      Erase(i);
      return false;
    }

    /** Takes element i out of the list and its address out of the map. */
    method Erase(i: nat)
      requires Valid() && i < |entries|
      modifies this`entries, this`entriesTable
      ensures Valid() && Pages() == Without(old(Pages()), i)
    {
      ghost var was := entries;
      assert Listed(i);
      entriesTable := entriesTable - {entries[i].value.vAddr};
      entries := entries[..i] + entries[i + 1..];
      assert forall j :: 0 <= j < |entries| ==> entries[j] == was[if j < i then j else j + 1];
      forall j | 0 <= j < |entries| ensures Listed(j) {
        var j' := if j < i then j else j + 1;
        assert old(Listed(j')) && entries[j] == was[j'];
      }
      forall v | v in entriesTable ensures Mapped(v) {
        assert old(Mapped(v));
        var j' :| 0 <= j' < |was| && was[j'] == old(entriesTable)[v] && was[j'].value.vAddr == v;
        assert entries[if j' < i then j' else j' - 1] == entriesTable[v];
      }
    }

    /** Replaces the page of the same address where it stands; panics when there is none. */
    method Update(page: Page) returns (panics: bool)
      requires Valid()
      modifies entries
      ensures Valid() && (panics <==> IndexOf(old(Pages()), page.vAddr) == |old(Pages())|)
      ensures Pages() == if panics then old(Pages()) else old(Pages())[IndexOf(old(Pages()), page.vAddr) := page]
    {
      hide IndexOf;
      hide Pages;
      Consistent(page.vAddr);
      if page.vAddr !in entriesTable {
        return true;
      }
      ghost var at := IndexOf(Pages(), page.vAddr);
      var elem := entriesTable[page.vAddr];
      elem.value := page;
      forall i | 0 <= i < |entries| ensures Listed(i) {
        assert old(Listed(i));
      }
      forall v | v in entriesTable ensures Mapped(v) {
        assert old(Mapped(v));
      }
      return false;
    }

    /** The page that starts where the page of vAddr starts. */
    method Find(vAddr: nat) returns (page: Option<Page>)
      requires Valid()
      ensures pageSize > 0
      ensures var i := IndexOf(Pages(), Base(vAddr, pageSize)); page == if i < |Pages()| then Some(Pages()[i]) else None
    {
      hide IndexOf;
      hide Pages;
      var aligned := Base(vAddr, pageSize);
      Consistent(aligned);
      if aligned in entriesTable {
        return Some(entriesTable[aligned].value);
      }
      return None;
    }

    /** Adds one to the access count of the page that holds vaddr, if there is one. */
    method UpdateAccessCounts(vaddr: nat)
      requires Valid()
      modifies entries
      ensures Valid()
      ensures var i := IndexOf(old(Pages()), Base(vaddr, pageSize));
              Pages() == if i == |old(Pages())| then old(Pages())
                  else old(Pages())[i := old(Pages())[i].(accessCounts := old(Pages())[i].accessCounts + 1)]
    {
      hide IndexOf;
      hide Pages;
      var page := Find(vaddr);
      if page.None? {
        return;
      }
      var panics := Update(page.value.(accessCounts := page.value.accessCounts + 1));
    }

    method GetLastPage() returns (page: Option<Page>)
      ensures page == if Pages() == [] then None else Some(Pages()[|Pages()| - 1])
    {
      if |entries| == 0 {
        return None;
      }
      return Some(entries[|entries| - 1].value);
    }
  }

  /* ----- Laws of the list ----- */

  /** The first place of an address is determined. */
  lemma IndexIs(pages: seq<Page>, v: nat, i: nat)
    requires i <= |pages| && (forall j :: 0 <= j < i ==> pages[j].vAddr != v) && (i < |pages| ==> pages[i].vAddr == v)
    ensures IndexOf(pages, v) == i
  {
    assert IndexOf(pages, v) >= i;
  }

  /** Inserting a page and removing it again restores the list; the inserted page is the last one meanwhile. */
  lemma InsertThenRemove(pages: seq<Page>, page: Page)
    requires IndexOf(pages, page.vAddr) == |pages|
    ensures IndexOf(pages + [page], page.vAddr) == |pages|
    ensures Without(pages + [page], IndexOf(pages + [page], page.vAddr)) == pages
  {
    hide IndexOf;
    IndexIs(pages + [page], page.vAddr, |pages|);
  }

  /** An updated page is found at once, keeps its place, and no other page is found differently. */
  lemma UpdateIsFound(pages: seq<Page>, page: Page, v: nat)
    requires IndexOf(pages, page.vAddr) < |pages| && OnePerAddress(pages)
    ensures var pages' := pages[IndexOf(pages, page.vAddr) := page];
            && OnePerAddress(pages') && IndexOf(pages', v) == IndexOf(pages, v)
            && (v != page.vAddr && IndexOf(pages, v) < |pages| ==>
               pages'[IndexOf(pages, v)] == pages[IndexOf(pages, v)])
  {
    hide IndexOf;
    IndexIs(pages[IndexOf(pages, page.vAddr) := page], v, IndexOf(pages, v));
  }

  /** After a removal the page is not found, and every other page is found as before. */
  lemma RemoveForgets(pages: seq<Page>, v: nat, w: nat)
    requires IndexOf(pages, v) < |pages| && OnePerAddress(pages)
    ensures var k, rest := IndexOf(pages, v), Without(pages, IndexOf(pages, v));
            && IndexOf(rest, v) == |rest|
            && (w != v ==> IndexOf(rest, w) == if IndexOf(pages, w) < k then IndexOf(pages, w)
               else IndexOf(pages, w) - 1)
            && (w != v && IndexOf(pages, w) < |pages| ==> rest[IndexOf(rest, w)] == pages[IndexOf(pages, w)])
  {
    hide IndexOf;
    var k := IndexOf(pages, v);
    var rest := Without(pages, k);
    assert forall j :: 0 <= j < |rest| ==> rest[j] == pages[if j < k then j else j + 1];
    IndexIs(rest, v, |rest|);
    if w != v {
      var a := IndexOf(pages, w);
      IndexIs(rest, w, if a < k then a else a - 1);
    }
  }

  /** The page that contains v can be removed by v exactly if v is where it starts. */
  lemma RemovableIffAligned(pages: seq<Page>, size: nat, v: nat)
    requires size > 0 && IndexOf(pages, Base(v, size)) < |pages|
    requires forall i :: 0 <= i < |pages| ==> Base(pages[i].vAddr, size) == pages[i].vAddr
    ensures IndexOf(pages, v) < |pages| <==> Base(v, size) == v
  {
    hide IndexOf;
    hide Base;
  }

  /** Find sees the page at 4096 under address 4100; Remove panics. */
  lemma UnalignedRemovePanics(pages: seq<Page>)
    requires |pages| == 1 && pages[0].vAddr == 4096
    ensures IndexOf(pages, Base(4100, 4096)) == 0 && IndexOf(pages, 4100) == |pages|
  {
    IndexIs(pages, 4096, 0);
    IndexIs(pages, 4100, 1);
  }
}
