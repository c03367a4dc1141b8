/** Finding an entry in a list and cutting it out, as the kernel's tail queues do by pointer. */
module Seqs {

  function Cut<T>(s: seq<T>, i: nat): seq<T>
    requires i < |s|
  {
    s[..i] + s[i + 1..]
  }

  function IndexOf<T(==)>(s: seq<T>, x: T, from: nat): (i: nat)
    requires from <= |s|
    ensures from <= i <= |s| && (i < |s| ==> s[i] == x) && forall j :: from <= j < i ==> s[j] != x
    decreases |s| - from
  {
    if from == |s| || s[from] == x then from else IndexOf(s, x, from + 1)
  }

  function Remove<T(==)>(s: seq<T>, x: T): seq<T> {
    var i := IndexOf(s, x, 0);
    if i < |s| then Cut(s, i) else s
  }

  /** The entries of a cut list, by place. */
  lemma CutPlaces<T>(s: seq<T>, i: nat)
    requires i < |s|
    ensures |Cut(s, i)| == |s| - 1
    ensures forall j :: 0 <= j < |s| - 1 ==> Cut(s, i)[j] == s[if j < i then j else j + 1]
  {
  }

  lemma CutKeeps<T>(s: seq<T>, i: nat, j: nat)
    requires i < |s| && j < |s| && j != i
    ensures |Cut(s, i)| == |s| - 1 && Cut(s, i)[if j < i then j else j - 1] == s[j]
  {
  }

  lemma RemoveAt<T>(s: seq<T>, x: T, i: nat)
    requires i < |s| && IndexOf(s, x, 0) == i
    ensures Remove(s, x) == Cut(s, i)
  {
  }

  lemma IndexFound<T>(s: seq<T>, x: T, i: nat)
    requires i < |s| && s[i] == x
    ensures IndexOf(s, x, 0) <= i
  {
  }

  lemma IndexIs<T>(s: seq<T>, x: T, i: nat)
    requires i < |s| && s[i] == x && forall j :: 0 <= j < i ==> s[j] != x
    ensures IndexOf(s, x, 0) == i
  {
    IndexFound(s, x, i);
  }

  lemma IndexAfterCut<T>(s: seq<T>, i: nat, x: T)
    requires i < |s| && IndexOf(s, x, 0) < |s| && IndexOf(s, x, 0) != i
    ensures IndexOf(Cut(s, i), x, 0) < |Cut(s, i)|
  {
    CutPlaces(s, i);
    var j := IndexOf(s, x, 0);
    IndexFound(Cut(s, i), x, if j < i then j else j - 1);
  }
}
