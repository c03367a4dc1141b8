/**
 A VM object's resident pages: a list kept in index order and a radix index of the same pages,
 updated together.  The radix tree is a finite map; inserting into it may fail for lack of memory.
 */
module ObjectList {
  import opened Seqs

  // ----- a list and an index of the same pages -----

  ghost predicate Ascends(keys: seq<nat>) {
    forall i, j :: 0 <= i < j < |keys| ==> keys[i] < keys[j]
  }

  ghost predicate Indexed<P>(list: seq<P>, keys: seq<nat>, rtree: map<nat, P>) {
    && |list| == |keys|
    && (forall i :: 0 <= i < |keys| ==> keys[i] in rtree && rtree[keys[i]] == list[i])
    && (forall k :: k in rtree ==> k in keys)
  }

  /** The list, whose pages have indices `keys`, is exactly what the index holds, in strictly increasing order. */
  ghost predicate Agree<P>(list: seq<P>, keys: seq<nat>, rtree: map<nat, P>) {
    Ascends(keys) && Indexed(list, keys, rtree)
  }

  function Insert<T>(s: seq<T>, i: nat, x: T): seq<T>
    requires i <= |s|
  {
    s[..i] + [x] + s[i..]
  }

  /** Where index `k` goes. */
  ghost predicate Gap(keys: seq<nat>, i: nat, k: nat) {
    i <= |keys| && (i > 0 ==> keys[i - 1] < k) && (i < |keys| ==> keys[i] > k)
  }

  lemma GapSorts(keys: seq<nat>, i: nat, k: nat)
    requires Ascends(keys) && Gap(keys, i, k)
    ensures forall j :: 0 <= j < i ==> keys[j] < k
    ensures forall j :: i <= j < |keys| ==> k < keys[j]
  {
  }

  lemma InsertPlaces<T>(s: seq<T>, i: nat, x: T)
    requires i <= |s|
    ensures |Insert(s, i, x)| == |s| + 1 && Insert(s, i, x)[i] == x
    ensures forall j :: 0 <= j <= |s| && j != i ==> Insert(s, i, x)[j] == s[if j < i then j else j - 1]
  {
  }

  lemma InsertAscends(keys: seq<nat>, i: nat, k: nat)
    requires Ascends(keys) && Gap(keys, i, k)
    ensures Ascends(Insert<nat>(keys, i, k))
  {
    hide Insert;
    GapSorts(keys, i, k);
    InsertPlaces<nat>(keys, i, k);
  }

  lemma InsertHas<T>(s: seq<T>, i: nat, x: T, y: T)
    requires i <= |s| && y in s
    ensures y in Insert(s, i, x)
  {
    var j :| 0 <= j < |s| && s[j] == y;
    assert Insert(s, i, x)[if j < i then j else j + 1] == y;
  }

  lemma InsertIndexed<P>(list: seq<P>, keys: seq<nat>, rtree: map<nat, P>, i: nat, m: P, k: nat)
    requires Indexed(list, keys, rtree) && Ascends(keys) && Gap(keys, i, k)
    ensures k !in rtree && Indexed(Insert(list, i, m), Insert<nat>(keys, i, k), rtree[k := m])
  {
    hide Insert;
    GapSorts(keys, i, k);
    InsertPlaces<nat>(keys, i, k);
    InsertPlaces(list, i, m);
    forall x | x in rtree[k := m] ensures x in Insert<nat>(keys, i, k) {
      if x == k {
        assert Insert<nat>(keys, i, k)[i] == k;
      } else {
        InsertHas<nat>(keys, i, k, x);
      }
    }
  }

  lemma CutAscends(keys: seq<nat>, i: nat)
    requires Ascends(keys) && i < |keys|
    ensures Ascends(Cut(keys, i))
  {
    hide Cut;
    CutPlaces(keys, i);
  }

  lemma CutHas(keys: seq<nat>, i: nat, x: nat)
    requires i < |keys| && x in keys && x != keys[i]
    ensures x in Cut(keys, i)
  {
    hide Cut;
    var j :| 0 <= j < |keys| && keys[j] == x;
    CutKeeps(keys, i, j);
  }

  lemma CutIndexed<P>(list: seq<P>, keys: seq<nat>, rtree: map<nat, P>, i: nat)
    requires Indexed(list, keys, rtree) && Ascends(keys) && i < |keys|
    ensures Indexed(Cut(list, i), Cut(keys, i), rtree - {keys[i]})
  {
    hide Cut;
    CutPlaces(keys, i);
    CutPlaces(list, i);
    forall x | x in rtree - {keys[i]} ensures x in Cut(keys, i) {
      CutHas(keys, i, x);
    }
  }

  lemma SwapIndexed<P>(list: seq<P>, keys: seq<nat>, rtree: map<nat, P>, i: nat, m: P)
    requires Indexed(list, keys, rtree) && Ascends(keys) && i < |keys|
    ensures Indexed(list[i := m], keys, rtree[keys[i] := m])
  {
  }

  /** Two strictly increasing lists of the same indices are one list. */
  lemma {:induction false} KeysAreDetermined(a: seq<nat>, b: seq<nat>)
    requires Ascends(a) && Ascends(b) && (forall k: int :: k in a <==> k in b)
    ensures a == b
    decreases |a|
  {
    SomeKey(a);
    SomeKey(b);
    if a != [] && b != [] {
      var n, l := |a| - 1, |b| - 1;
      LastIsSame(a, b);
      forall k: int ensures k in a[..n] <==> k in b[..l] {
        InPrefix(a, k);
        InPrefix(b, k);
      }
      KeysAreDetermined(a[..n], b[..l]);
      assert a == a[..n] + [a[n]] && b == b[..l] + [b[l]];
    }
  }

  lemma LastIsGreatest(a: seq<nat>, k: int)
    requires Ascends(a) && k in a
    ensures k <= a[|a| - 1]
  {
  }

  lemma LastIsSame(a: seq<nat>, b: seq<nat>)
    requires Ascends(a) && Ascends(b) && (forall k: int :: k in a <==> k in b) && a != [] && b != []
    ensures a[|a| - 1] == b[|b| - 1]
  {
    hide Ascends;
    assert a[|a| - 1] in a && b[|b| - 1] in b;
    LastIsGreatest(a, b[|b| - 1]);
    LastIsGreatest(b, a[|a| - 1]);
  }

  lemma SomeKey(b: seq<nat>)
    ensures b != [] <==> exists k: int :: k in b
  {
    assert b != [] ==> b[0] in b;
  }

  lemma InPrefix(a: seq<nat>, k: int)
    requires Ascends(a) && a != []
    ensures k in a[..|a| - 1] <==> k in a && k != a[|a| - 1]
  {
  }

  /** The index determines the list. */
  lemma ListIsDetermined<P>(a: seq<P>, b: seq<P>, keys: seq<nat>, others: seq<nat>, rtree: map<nat, P>)
    requires Agree(a, keys, rtree) && Agree(b, others, rtree)
    ensures a == b
  {
    KeysAreDetermined(keys, others);
  }

  lemma AscendsAt(keys: seq<nat>, i: nat, j: nat)
    requires Ascends(keys) && i < |keys| && j < |keys|
    ensures keys[i] < keys[j] <==> i < j
  {
    assert i != j ==> keys[i] != keys[j];
  }

  lemma EntryAt<P>(list: seq<P>, keys: seq<nat>, rtree: map<nat, P>, i: nat)
    requires Agree(list, keys, rtree) && i < |list|
    ensures i < |keys| && keys[i] in rtree && rtree[keys[i]] == list[i]
  {
  }

  /** The index has the next key exactly when the next place of the list does. */
  lemma NextKey<P>(list: seq<P>, keys: seq<nat>, rtree: map<nat, P>, i: nat)
    requires Agree(list, keys, rtree) && i < |keys|
    ensures |list| == |keys|
    ensures keys[i] + 1 in rtree <==> i + 1 < |keys| && keys[i + 1] == keys[i] + 1
    ensures i + 1 < |keys| && keys[i + 1] == keys[i] + 1 ==> rtree[keys[i] + 1] == list[i + 1]
  {
    if keys[i] + 1 in rtree {
      var j :| 0 <= j < |keys| && keys[j] == keys[i] + 1;
      var next := if i + 1 < |keys| then i + 1 else i;
      AscendsAt(keys, i, j);
      AscendsAt(keys, i, next);
      AscendsAt(keys, next, j);
    }
  }

  lemma PrevKey<P>(list: seq<P>, keys: seq<nat>, rtree: map<nat, P>, i: nat)
    requires Agree(list, keys, rtree) && i < |keys|
    ensures |list| == |keys|
    ensures keys[i] > 0 && keys[i] - 1 in rtree <==> i > 0 && keys[i - 1] + 1 == keys[i]
    ensures i > 0 && keys[i - 1] + 1 == keys[i] ==> rtree[keys[i] - 1] == list[i - 1]
  {
    if keys[i] > 0 && keys[i] - 1 in rtree {
      var j :| 0 <= j < |keys| && keys[j] == keys[i] - 1;
      var prev := if i > 0 then i - 1 else i;
      AscendsAt(keys, j, i);
      AscendsAt(keys, prev, i);
      AscendsAt(keys, j, prev);
    }
  }

  /** The least key not below `k`, if there is one. */
  ghost predicate Least<P>(rtree: map<nat, P>, k: nat, found: bool, least: nat) {
    if found then least in rtree && least >= k && forall x :: x in rtree && x >= k ==> least <= x
    else forall x :: x in rtree ==> x < k
  }

  /** The greatest key not above `k`, if there is one. */
  ghost predicate Greatest<P>(rtree: map<nat, P>, k: nat, found: bool, greatest: nat) {
    if found then greatest in rtree && greatest <= k && forall x :: x in rtree && x <= k ==> x <= greatest
    else forall x :: x in rtree ==> x > k
  }

  lemma FirstIsLeast<P>(list: seq<P>, keys: seq<nat>, rtree: map<nat, P>, k: nat)
    requires Agree(list, keys, rtree) && (keys != [] ==> keys[0] >= k)
    ensures Least(rtree, k, keys != [], if keys == [] then 0 else keys[0])
  {
  }

  /** The page with the greatest index below `k` is the one to link after. */
  lemma GreatestIsGap<P>(list: seq<P>, keys: seq<nat>, rtree: map<nat, P>, k: nat, found: bool, g: nat) returns (i: nat)
    requires Agree(list, keys, rtree) && k !in rtree && Greatest(rtree, k, found, g)
    ensures i <= |list| == |keys| && Gap(keys, i, k)
    ensures if found then g in rtree && i > 0 && list[i - 1] == rtree[g] && keys[i - 1] == g else i == 0
  {
    i := 0;
    if found {
      var j :| 0 <= j < |keys| && keys[j] == g;
      i := j + 1;
    }
  }

  // ----- pages and objects -----

  class Page {
    var owner: VmObject?
    var pindex: nat

    constructor ()
      ensures owner == null
    {
      owner, pindex := null, 0;
    }
  }

  /** The indices of listed pages. */
  ghost function KeysOf(list: seq<Page>): (k: seq<nat>)
    reads list
    ensures |k| == |list| && forall i :: 0 <= i < |list| ==> k[i] == list[i].pindex
  {
    seq(|list|, i requires 0 <= i < |list| reads list => list[i].pindex)
  }

  lemma AgreeInsert<P>(list: seq<P>, keys: seq<nat>, rtree: map<nat, P>, i: nat, m: P, k: nat)
    requires Agree(list, keys, rtree) && Gap(keys, i, k)
    ensures i <= |list| && k !in rtree && Agree(Insert(list, i, m), Insert<nat>(keys, i, k), rtree[k := m])
  {
    hide Insert;
    InsertAscends(keys, i, k);
    InsertIndexed(list, keys, rtree, i, m, k);
  }

  lemma AgreeCut<P>(list: seq<P>, keys: seq<nat>, rtree: map<nat, P>, i: nat)
    requires Agree(list, keys, rtree) && i < |keys|
    ensures i < |list| && keys[i] in rtree && rtree[keys[i]] == list[i]
            && Agree(Cut(list, i), Cut<nat>(keys, i), rtree - {keys[i]})
  {
    hide Cut;
    CutAscends(keys, i);
    CutIndexed(list, keys, rtree, i);
  }

  /** A page linked in among others. */
  lemma KeysInsert(list: seq<Page>, keys: seq<nat>, i: nat, m: Page)
    requires i <= |list| && KeysOf(list) == keys
    ensures KeysOf(Insert(list, i, m)) == Insert<nat>(keys, i, m.pindex)
  {
    hide Insert;
    InsertPlaces(list, i, m);
    InsertPlaces<nat>(keys, i, m.pindex);
    var a, b := KeysOf(Insert(list, i, m)), Insert<nat>(keys, i, m.pindex);
    forall j | 0 <= j < |a| ensures a[j] == b[j] {
      if j != i {
        var l := if j < i then j else j - 1;
        assert list[l].pindex == keys[l];
      }
    }
  }

  lemma KeysCut(list: seq<Page>, keys: seq<nat>, i: nat)
    requires i < |list| && KeysOf(list) == keys
    ensures KeysOf(Cut(list, i)) == Cut<nat>(keys, i)
  {
    hide Cut;
    CutPlaces(list, i);
    CutPlaces<nat>(keys, i);
  }

  /** Pages of different indices are different pages. */
  lemma PagesDiffer(list: seq<Page>, i: nat, j: nat)
    requires Ascends(KeysOf(list)) && i < |list| && j < |list| && i != j
    ensures list[i] != list[j]
  {
  }

  lemma OthersStay(list: seq<Page>, i: nat, j: nat)
    requires Ascends(KeysOf(list)) && i < |list| && j < |Cut(list, i)|
    ensures Cut(list, i)[j] != list[i] && Cut(list, i)[j] in list
  {
    hide Cut, KeysOf, Ascends;
    CutPlaces(list, i);
    PagesDiffer(list, i, if j < i then j else j + 1);
  }

  class VmObject {
    var memq: seq<Page>
    var rtree: map<nat, Page>
    var resident: int

    constructor ()
      ensures Valid() && rtree == map[]
    {
      memq, rtree, resident := [], map[], 0;
    }

    ghost function Keys(): seq<nat>
      reads this, memq
    {
      KeysOf(memq)
    }

    /** The list is the index, in order, and is counted; its pages know their object. */
    ghost predicate Valid()
      reads this, memq
    {
      && resident == |memq| && Agree(memq, Keys(), rtree)
      && forall i :: 0 <= i < |memq| ==> memq[i].owner == this
    }

    /** The same, apart from the indices `extra` the radix tree has already, or still. */
    ghost predicate ValidBut(extra: set<nat>)
      reads this, memq
    {
      && resident == |memq| && Agree(memq, Keys(), rtree - extra)
      && forall i :: 0 <= i < |memq| ==> memq[i].owner == this
    }

    lemma ValidButNothing()
      ensures ValidBut({}) <==> Valid()
    {
      assert rtree - {} == rtree;
    }

    /** Where a page linked in after `mpred` goes. */
    function After(mpred: Page?): (i: nat)
      reads this
      requires mpred != null ==> mpred in memq
      ensures i <= |memq| && (if mpred == null then i == 0 else i > 0 && memq[i - 1] == mpred)
    {
      if mpred == null then 0 else IndexOf(memq, mpred, 0) + 1
    }

    /** Everything but the list and the count already has page `m`. */
    ghost predicate Hooked(m: Page)
      reads this, memq, m
    {
      && m.owner == this && m.pindex in rtree && rtree[m.pindex] == m
      && resident == |memq| && Agree(memq, Keys(), rtree - {m.pindex})
      && forall i :: 0 <= i < |memq| ==> memq[i].owner == this
    }

    /** vm_page_insert_radixdone: the rest of an insertion after the radix tree. */
    method InsertRadixDone(m: Page, mpred: Page?)
      requires Hooked(m) && (mpred != null ==> mpred in memq) && Gap(Keys(), After(mpred), m.pindex)
      modifies this`memq, this`resident
      ensures Valid()
    {
      hide Agree, Insert, Gap, KeysOf;
      ghost var list, keys, i := memq, Keys(), After(mpred);
      AgreeInsert(list, keys, rtree - {m.pindex}, i, m, m.pindex);
      KeysInsert(list, keys, i, m);
      InsertPlaces(list, i, m);
      assert (rtree - {m.pindex})[m.pindex := m] == rtree;
      memq := Insert(memq, After(mpred), m);
      resident := resident + 1;
    }

    /** vm_page_insert_after; it tells whether the radix tree ran out of memory. */
    method InsertAfter(m: Page, pindex: nat, mpred: Page?, noMemory: bool) returns (failed: bool)
      requires Valid() && m.owner == null && (mpred != null ==> mpred in memq) && Gap(Keys(), After(mpred), pindex)
      modifies this, m
      ensures Valid() && failed == noMemory
      ensures failed ==> m.owner == null && rtree == old(rtree) && memq == old(memq)
      ensures !failed ==> m.owner == this && m.pindex == pindex && pindex !in old(rtree)
                          && rtree == old(rtree)[pindex := m]
    {
      hide Agree, Insert, Gap, KeysOf;
      ghost var keys, before := Keys(), rtree;
      AgreeInsert(memq, keys, rtree, After(mpred), m, pindex);
      m.owner := this;
      m.pindex := pindex;
      if noMemory {
        m.owner := null;
        m.pindex := 0;
        assert KeysOf(memq) == keys;
        return true;
      }
      rtree := rtree[pindex := m];
      assert rtree - {pindex} == before;
      assert KeysOf(memq) == keys;
      InsertRadixDone(m, mpred);
      return false;
    }

    /** vm_page_next: the page at the next index, if it is resident. */
    method Next(m: Page) returns (next: Page?)
      requires Valid() && m in memq
      ensures next != null <==> m.pindex + 1 in rtree
      ensures next != null ==> next == rtree[m.pindex + 1]
    {
      hide Agree;
      var i := IndexOf(memq, m, 0);
      NextKey(memq, Keys(), rtree, i);
      next := if i + 1 < |memq| then memq[i + 1] else null;
      if next != null && next.pindex != m.pindex + 1 {
        next := null;
      }
    }

    /** vm_page_prev. */
    method Prev(m: Page) returns (prev: Page?)
      requires Valid() && m in memq
      ensures prev != null <==> m.pindex > 0 && m.pindex - 1 in rtree
      ensures prev != null ==> prev == rtree[m.pindex - 1]
    {
      hide Agree;
      var i := IndexOf(memq, m, 0);
      PrevKey(memq, Keys(), rtree, i);
      prev := if i > 0 then memq[i - 1] else null;
      if prev != null && prev.pindex != m.pindex - 1 {
        prev := null;
      }
    }

    /** The radix tree's own search for the least index from `k` on. */
    method LookupGe(k: nat) returns (found: bool, least: nat)
      ensures Least(rtree, k, found, least)
    {
      found, least := false, 0;
      var rest := rtree.Keys;
      while rest != {}
        invariant rest <= rtree.Keys
        invariant found ==> least in rtree && least >= k
        invariant forall x :: x in rtree && x !in rest && x >= k ==> found && least <= x
      {
        var x :| x in rest;
        if x >= k && (!found || x < least) {
          found, least := true, x;
        }
        rest := rest - {x};
      }
    }

    method LookupLe(k: nat) returns (found: bool, greatest: nat)
      ensures Greatest(rtree, k, found, greatest)
    {
      found, greatest := false, 0;
      var rest := rtree.Keys;
      while rest != {}
        invariant rest <= rtree.Keys
        invariant found ==> greatest in rtree && greatest <= k
        invariant forall x :: x in rtree && x !in rest && x <= k ==> found && x <= greatest
      {
        var x :| x in rest;
        if x <= k && (!found || x > greatest) {
          found, greatest := true, x;
        }
        rest := rest - {x};
      }
    }

    /** vm_page_lookup. */
    function Lookup(k: nat): (m: Page?)
      reads this, memq
      requires Valid()
      ensures m != null <==> k in Keys()
      ensures m != null ==> m in memq && m.pindex == k
    {
      if k in rtree then FoundAt(memq, Keys(), rtree, k); rtree[k] else null
    }

    /** vm_page_find_least: the resident page of least index from `k` on. */
    method FindLeast(k: nat) returns (m: Page?)
      requires Valid()
      ensures m == null ==> forall x :: x in rtree ==> x < k
      ensures m != null ==> m in memq && Least(rtree, k, true, m.pindex) && rtree[m.pindex] == m
    {
      hide Agree;
      m := if |memq| > 0 then memq[0] else null;
      if m != null && m.pindex < k {
        var found, least := LookupGe(k);
        m := if found then rtree[least] else null;
        if found {
          FoundAt(memq, Keys(), rtree, least);
        }
      } else {
        FirstIsLeast(memq, Keys(), rtree, k);
        if m != null {
          EntryAt(memq, Keys(), rtree, 0);
        }
      }
    }

    /** Unlinking a page of this object: the radix tree gives back the very page. */
    method Unlink(m: Page, ghost extra: set<nat>)
      requires ValidBut(extra) && m in memq
      modifies this, m`owner
      ensures ValidBut(extra) && m.owner == null && m !in memq && m.pindex !in extra
      ensures m.pindex in old(rtree) && old(rtree)[m.pindex] == m && rtree == old(rtree) - {m.pindex}
      ensures m.pindex == old(m.pindex)
    {
      hide Agree, KeysOf, Cut;
      ghost var list, keys, tree := memq, Keys(), rtree - extra;
      ghost var i := IndexOf(memq, m, 0);
      AgreeCut(memq, keys, tree, i);
      KeysCut(list, keys, i);
      AgreeAscends(list, keys, tree);
      var mrem := rtree[m.pindex];
      assert mrem == m;
      rtree := rtree - {m.pindex};
      assert rtree - extra == tree - {m.pindex};
      memq := Remove(memq, m);
      resident := resident - 1;
      m.owner := null;
      forall j | 0 <= j < |memq| ensures memq[j] != m && memq[j] in list {
        OthersStay(list, i, j);
      }
      CutPlaces(list, i);
    }

    /** vm_page_replace: `mnew` in the place of the page at `pindex`. */
    method Replace(mnew: Page, pindex: nat) returns (mold: Page)
      requires Valid() && mnew.owner == null && pindex in rtree
      modifies this, mnew, rtree[pindex]
      ensures Valid() && mold == old(rtree[pindex]) && mold.owner == null && mold.pindex == pindex
      ensures rtree == old(rtree)[pindex := mnew] && mnew.owner == this && mnew.pindex == pindex
              && resident == old(resident)
    {
      hide Agree, KeysOf, Insert, Cut, Remove, IndexOf;
      ghost var list, keys := memq, Keys();
      FoundAt(list, keys, rtree, pindex);
      AgreeAscends(list, keys, rtree);
      mold := rtree[pindex];
      ghost var i := IndexOf(list, mold, 0);
      assert i < |list| && list[i] == mold by { PlaceFound(list, mold); }
      SwappedOut(list, i, mnew);
      AgreeSwap(list, keys, rtree, i, mnew);
      SwapByLinks(list, mold, mnew);
      mnew.owner := this;
      mnew.pindex := pindex;
      rtree := rtree[pindex := mnew];
      memq := Insert(memq, IndexOf(memq, mold, 0) + 1, mnew);
      memq := Remove(memq, mold);
      assert KeysOf(memq) == keys;
      mold.owner := null;
      assert KeysOf(memq) == keys;
    }

    /** The page found as the one below `k` is the one to link after. */
    lemma LinksAfter(tree: map<nat, Page>, k: nat, mpred: Page?)
      requires Agree(memq, Keys(), tree) && k !in tree
      requires mpred != null ==> mpred.pindex in tree && tree[mpred.pindex] == mpred
      requires Greatest(tree, k, mpred != null, if mpred != null then mpred.pindex else 0)
      ensures (mpred != null ==> mpred in memq) && Gap(Keys(), After(mpred), k)
    {
      hide Agree, KeysOf, Gap, Greatest;
      var i := GreatestIsGap(memq, Keys(), tree, k, mpred != null, if mpred != null then mpred.pindex else 0);
      AgreeAscends(memq, Keys(), tree);
      if mpred != null && i != After(mpred) {
        PagesDiffer(memq, i - 1, After(mpred) - 1);
      }
    }

    /** The page found below a free index is `m` exactly when the index of `m` is the greatest below it. */
    lemma PanicsIff(m: Page, k: nat, mpred: Page?)
      requires Valid() && m in memq
      requires mpred != null ==> mpred.pindex in rtree && rtree[mpred.pindex] == mpred
      requires Greatest(rtree, k, mpred != null, if mpred != null then mpred.pindex else 0)
      ensures mpred == m <==> Greatest(rtree, k, true, m.pindex)
    {
      assert exists i :: 0 <= i < |memq| && memq[i] == m && Keys()[i] == m.pindex;
      assert m.pindex in rtree && rtree[m.pindex] == m;
    }

    /** The radix tree without another page gives the same page to link after. */
    lemma StillGreatest(tree: map<nat, Page>, k: nat, mpred: Page?, gone: nat)
      requires mpred != null ==> mpred.pindex in tree && tree[mpred.pindex] == mpred && mpred.pindex != gone
      requires Greatest(tree, k, mpred != null, if mpred != null then mpred.pindex else 0)
      ensures Greatest(tree - {gone}, k, mpred != null, if mpred != null then mpred.pindex else 0)
    {
    }

    /** The page to link after: the radix tree's search for the greatest index below a free one. */
    method Predecessor(k: nat) returns (mpred: Page?)
      requires Valid() && k !in rtree
      ensures (mpred != null ==> mpred in memq) && Gap(Keys(), After(mpred), k)
      ensures mpred != null ==> mpred.pindex in rtree && rtree[mpred.pindex] == mpred
      ensures Greatest(rtree, k, mpred != null, if mpred != null then mpred.pindex else 0)
    {
      hide Agree, KeysOf, Gap, Greatest;
      var found, g := LookupLe(k);
      GreatestFound(memq, Keys(), rtree, k, found, g);
      mpred := if found then rtree[g] else null;
      LinksAfter(rtree, k, mpred);
    }

    /**
     vm_page_rename of a page of this object, to a free index of `dest`: the radix insertion comes
     first, and if it fails nothing has changed.  `panicked` is the assertion that the page linked
     after has a smaller index; it fails exactly when that page is `m` itself, going up in its own
     object with no page between.
     */
    method Rename(m: Page, dest: VmObject, pindex: nat, noMemory: bool) returns (failed: bool, panicked: bool)
      requires Valid() && dest.Valid() && m in memq && pindex !in dest.rtree
      modifies this, dest, m
      ensures failed == noMemory
      ensures panicked <==> !failed && dest == this && Greatest(old(rtree), pindex, true, old(m.pindex))
      ensures !panicked ==> Valid() && dest.Valid()
      ensures failed ==> rtree == old(rtree) && dest.rtree == old(dest.rtree) && m.owner == this
                         && m.pindex == old(m.pindex)
      ensures !failed && !panicked ==> m.owner == dest && m.pindex == pindex
      ensures !failed && !panicked ==>
                if dest == this then rtree == (old(rtree) - {old(m.pindex)})[pindex := m]
                else rtree == old(rtree) - {old(m.pindex)} && dest.rtree == old(dest.rtree)[pindex := m]
    {
      hide Valid, Greatest;
      panicked := false;
      if dest == this {
        failed, panicked := RenameWithin(m, pindex, noMemory);
      } else {
        failed := RenameInto(m, dest, pindex, noMemory);
      }
    }

    /** The end of vm_page_rename: the radix tree has the page already. */
    method LinkIn(m: Page, pindex: nat, mpred: Page?)
      requires ValidBut({pindex}) && m !in memq && pindex in rtree && rtree[pindex] == m
      requires (mpred != null ==> mpred in memq) && Gap(Keys(), After(mpred), pindex)
      modifies this`memq, this`resident, m
      ensures Valid() && m.owner == this && m.pindex == pindex
    {
      hide Agree, KeysOf, Gap;
      ghost var keys := Keys();
      m.pindex := pindex;
      m.owner := this;
      assert KeysOf(memq) == keys;
      InsertRadixDone(m, mpred);
    }

    method RenameInto(m: Page, dest: VmObject, pindex: nat, noMemory: bool) returns (failed: bool)
      requires Valid() && dest.Valid() && dest != this && m in memq && pindex !in dest.rtree
      modifies this, dest, m
      ensures Valid() && dest.Valid() && failed == noMemory
      ensures failed ==> rtree == old(rtree) && dest.rtree == old(dest.rtree) && m.owner == this
                         && m.pindex == old(m.pindex)
      ensures !failed ==> m.owner == dest && m.pindex == pindex
      ensures !failed ==> rtree == old(rtree) - {old(m.pindex)} && dest.rtree == old(dest.rtree)[pindex := m]
    {
      hide Agree, KeysOf, Insert, Cut, Gap, Greatest;
      ghost var keys, mine, before := dest.Keys(), Keys(), dest.rtree;
      var mpred := dest.Predecessor(pindex);
      var opidx := m.pindex;
      m.pindex := pindex;
      if noMemory {
        m.pindex := opidx;
        assert KeysOf(memq) == mine && KeysOf(dest.memq) == keys;
        return true;
      }
      dest.rtree := dest.rtree[pindex := m];
      m.pindex := opidx;
      assert KeysOf(memq) == mine;
      ValidButNothing();
      Unlink(m, {});
      ValidButNothing();
      assert dest.rtree - {pindex} == before;
      assert KeysOf(dest.memq) == keys;
      dest.LinkIn(m, pindex, mpred);
      return false;
    }

    method RenameWithin(m: Page, pindex: nat, noMemory: bool) returns (failed: bool, panicked: bool)
      requires Valid() && m in memq && pindex !in rtree
      modifies this, m
      ensures failed == noMemory
      ensures panicked <==> !failed && Greatest(old(rtree), pindex, true, old(m.pindex))
      ensures !panicked ==> Valid()
      ensures failed ==> rtree == old(rtree) && m.owner == this && m.pindex == old(m.pindex)
      ensures !failed && !panicked ==>
                m.owner == this && m.pindex == pindex && rtree == (old(rtree) - {old(m.pindex)})[pindex := m]
    {
      hide Agree, KeysOf, Insert, Cut, Gap, Greatest;
      ghost var keys, before := Keys(), rtree;
      var mpred := Predecessor(pindex);
      PanicsIff(m, pindex, mpred);
      var opidx := m.pindex;
      m.pindex := pindex;
      if noMemory {
        m.pindex := opidx;
        assert KeysOf(memq) == keys;
        return true, false;
      }
      rtree := rtree[pindex := m];
      m.pindex := opidx;
      assert KeysOf(memq) == keys;
      assert rtree - {pindex} == before;
      Unlink(m, {pindex});
      assert rtree - {pindex} == before - {opidx};
      if mpred == m {
        m.pindex := pindex;
        m.owner := this;
        return false, true;
      }
      StillGreatest(before, pindex, mpred, opidx);
      LinksAfter(rtree - {pindex}, pindex, mpred);
      LinkIn(m, pindex, mpred);
      return false, false;
    }
  }

  /** vm_page_remove: out of the object it is in, if it is in one. */
  method RemovePage(m: Page)
    requires m.owner != null ==> m.owner.Valid() && m in m.owner.memq
    modifies m`owner, if m.owner == null then {} else {m.owner}
    ensures m.owner == null && m.pindex == old(m.pindex)
    ensures var o := old(m.owner); o != null ==> o.Valid() && m !in o.memq && o.rtree == old(o.rtree) - {m.pindex}
  {
    var o := m.owner;
    if o == null {
      return;
    }
    o.ValidButNothing();
    o.Unlink(m, {});
    o.ValidButNothing();
  }

  lemma AgreeSwap<P>(list: seq<P>, keys: seq<nat>, rtree: map<nat, P>, i: nat, m: P)
    requires Agree(list, keys, rtree) && i < |keys|
    ensures i < |list| && Agree(list[i := m], keys, rtree[keys[i] := m])
  {
    SwapIndexed(list, keys, rtree, i, m);
  }

  lemma PlaceFound<P>(list: seq<P>, m: P)
    requires m in list
    ensures IndexOf(list, m, 0) < |list| && list[IndexOf(list, m, 0)] == m
  {
    var i :| 0 <= i < |list| && list[i] == m;
    IndexFound(list, m, i);
  }

  /** The page swapped out is no longer listed. */
  lemma SwappedOut(list: seq<Page>, i: nat, mnew: Page)
    requires Ascends(KeysOf(list)) && i < |list| && mnew != list[i]
    ensures list[i] !in list[i := mnew]
  {
    hide Ascends, KeysOf;
    var swapped := list[i := mnew];
    forall j | 0 <= j < |list| ensures swapped[j] != list[i] {
      if j != i { PagesDiffer(list, i, j); }
    }
  }

  lemma GreatestFound(list: seq<Page>, keys: seq<nat>, rtree: map<nat, Page>, k: nat, found: bool, g: nat)
    requires Agree(list, keys, rtree) && keys == KeysOf(list) && Greatest(rtree, k, found, g)
    ensures found ==> g in rtree && rtree[g] in list && rtree[g].pindex == g
    ensures Greatest(rtree, k, found, if found then g else 0)
  {
  }

  /** Linking the new page in after the old one and unlinking the old one puts it in its place. */
  lemma SwapByLinks<P>(list: seq<P>, mold: P, mnew: P)
    requires IndexOf(list, mold, 0) < |list|
    ensures var i := IndexOf(list, mold, 0); Remove(Insert(list, i + 1, mnew), mold) == list[i := mnew]
  {
    hide IndexOf, Insert, Cut, Remove;
    var i := IndexOf(list, mold, 0);
    InsertKeepsFirst(list, i + 1, mnew, mold);
    CutInserted(list, i, mnew);
    RemoveAt(Insert(list, i + 1, mnew), mold, i);
  }

  lemma CutInserted<P>(list: seq<P>, i: nat, mnew: P)
    requires i < |list|
    ensures i < |Insert(list, i + 1, mnew)| && Cut(Insert(list, i + 1, mnew), i) == list[i := mnew]
  {
    var s := Insert(list, i + 1, mnew);
    assert s[..i] == list[..i];
    assert s[i + 1..] == [mnew] + list[i + 1..];
  }

  lemma InsertKeepsFirst<P>(list: seq<P>, i: nat, mnew: P, mold: P)
    requires i <= |list| && IndexOf(list, mold, 0) < i
    ensures IndexOf(Insert(list, i, mnew), mold, 0) == IndexOf(list, mold, 0)
  {
    IndexIs(Insert(list, i, mnew), mold, IndexOf(list, mold, 0));
  }

  lemma FoundAt<P>(list: seq<P>, keys: seq<nat>, rtree: map<nat, P>, k: nat)
    requires Agree(list, keys, rtree)
    ensures k in rtree <==> k in keys
    ensures k in rtree ==> exists i :: 0 <= i < |keys| == |list| && keys[i] == k && list[i] == rtree[k]
  {
  }

  lemma AgreeAscends<P>(list: seq<P>, keys: seq<nat>, rtree: map<nat, P>)
    requires Agree(list, keys, rtree)
    ensures Ascends(keys) && |list| == |keys|
  {
  }
}
