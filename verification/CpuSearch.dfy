/**
 The search of the CPU topology tree for the least or the most loaded CPU, on the least or
 most loaded path: at each group the child groups and the CPUs directly in it compete by
 their total load, and the winner's own winner is taken.
 */
module CpuSearch {
  import opened Prelude

  /** A cpu_group: its mask and its children. */
  datatype Group = Group(mask: set<int>, children: seq<Group>)

  /** The fields of a tdq that the search looks at. */
  datatype CpuInfo = CpuInfo(load: nat, lowpri: nat, transferable: int)


  datatype Mode = Lowest | Highest

  /** struct cpu_search, as the caller fills it in. */
  datatype Request = Request(mode: Mode, mask: set<int>, pri: int, limit: int)

  /** What is found: the CPU or -1, the load it won by, and the randomised load that breaks ties. */
  datatype Best = Best(cpu: int, load: int, tie: int)

  const NOTHING := Best(-1, 0, 0)

  type Cpus = seq<CpuInfo>

  /** Child groups are disjoint subsets of their parent. */
  ghost predicate GroupOk(g: Group, n: nat) {
    && (forall c :: c in g.mask ==> 0 <= c < n)
    && (forall k :: 0 <= k < |g.children| ==> GroupOk(g.children[k], n) && g.children[k].mask <= g.mask)
    && (forall j, k :: 0 <= j < k < |g.children| ==> g.children[j].mask !! g.children[k].mask)
  }

  // ----- loads -----

  /** A CPU's load, in 256ths, less a bonus for the preferred CPU. */
  function LoadOf(cpus: Cpus, prefer: Option<int>, c: int): int
    requires 0 <= c < |cpus|
  {
    cpus[c].load * 256 - (if prefer == Some(c) then 64 else 0)
  }

  /** The loads of the CPUs of `s` below `n`. */
  ghost function Sum(cpus: Cpus, prefer: Option<int>, s: set<int>, n: nat): int
    requires n <= |cpus|
  {
    if n == 0 then 0
    else Sum(cpus, prefer, s, n - 1) + (if n - 1 in s then LoadOf(cpus, prefer, n - 1) else 0)
  }

  ghost function TotalLoad(cpus: Cpus, prefer: Option<int>, s: set<int>): int {
    Sum(cpus, prefer, s, |cpus|)
  }

  lemma {:induction false} SumUnion(cpus: Cpus, prefer: Option<int>, s: set<int>, t: set<int>, n: nat)
    requires n <= |cpus| && s !! t
    ensures Sum(cpus, prefer, s + t, n) == Sum(cpus, prefer, s, n) + Sum(cpus, prefer, t, n)
    decreases n
  {
    if n > 0 { SumUnion(cpus, prefer, s, t, n - 1); }
  }

  lemma {:induction false} SumOne(cpus: Cpus, prefer: Option<int>, c: int, n: nat)
    requires n <= |cpus| && 0 <= c < |cpus|
    ensures Sum(cpus, prefer, {c}, n) == if c < n then LoadOf(cpus, prefer, c) else 0
    decreases n
  {
    if n > 0 { SumOne(cpus, prefer, c, n - 1); }
  }

  // ----- what the search is to find -----

  predicate Eligible(cpus: Cpus, req: Request, c: int)
    requires 0 <= c < |cpus|
  {
    c in req.mask &&
    match req.mode
    case Lowest => cpus[c].lowpri > req.pri && cpus[c].load <= req.limit
    case Highest => cpus[c].load >= req.limit && cpus[c].transferable != 0
  }

  predicate Better(mode: Mode, a: int, b: int) {
    match mode
    case Lowest => a < b
    case Highest => a > b
  }

  /** The child group CPU `c` belongs to, or -1 when it is directly in the group. */
  function ChildOf(children: seq<Group>, c: int): (k: int)
    ensures -1 <= k < |children|
    ensures k >= 0 ==> c in children[k].mask
    ensures k == -1 ==> forall j :: 0 <= j < |children| ==> c !in children[j].mask
  {
    if children == [] then -1
    else if c in children[|children| - 1].mask then |children| - 1
    else ChildOf(children[..|children| - 1], c)
  }

  /** The total of the item that `c` competes in: its child group, or itself. */
  ghost function ItemLoad(cpus: Cpus, prefer: Option<int>, g: Group, c: int): int
    requires 0 <= c < |cpus|
  {
    var k := ChildOf(g.children, c);
    if k >= 0 then TotalLoad(cpus, prefer, g.children[k].mask) else LoadOf(cpus, prefer, c)
  }

  /** Two CPUs compete as one item. */
  predicate SameItem(g: Group, c: int, d: int) {
    ChildOf(g.children, c) == ChildOf(g.children, d) && (ChildOf(g.children, c) == -1 ==> c == d)
  }

  /** `c` is eligible and lies, at every level, in an item no worse than any other with an eligible CPU. */
  ghost predicate OnBestPath(cpus: Cpus, prefer: Option<int>, req: Request, g: Group, c: int)
    requires GroupOk(g, |cpus|)
    decreases g, 3
  {
    && c in g.mask && Eligible(cpus, req, c)
    && (forall d :: d in g.mask && Eligible(cpus, req, d)
          ==> !Better(req.mode, ItemLoad(cpus, prefer, g, d), ItemLoad(cpus, prefer, g, c)))
    && TieBroken(cpus, prefer, req, g, g.mask, c)
    && var k := ChildOf(g.children, c);
       k >= 0 ==> OnBestPath(cpus, prefer, req, g.children[k], c)
  }

  /** Of the items among `seen` that are as good as that of `c`, none has a best CPU that is better than `c`. */
  ghost predicate TieBroken(cpus: Cpus, prefer: Option<int>, req: Request, g: Group, seen: set<int>, c: int)
    requires GroupOk(g, |cpus|) && seen <= g.mask && c in g.mask
    decreases g, 2
  {
    forall d :: d in seen && Eligible(cpus, req, d) && ItemLoad(cpus, prefer, g, d) == ItemLoad(cpus, prefer, g, c)
      ==> HasRival(cpus, prefer, req, g, d, c)
  }

  /** The item of `d` has a best CPU that is no better than `c`. */
  ghost predicate HasRival(cpus: Cpus, prefer: Option<int>, req: Request, g: Group, d: int, c: int)
    requires GroupOk(g, |cpus|) && c in g.mask
    decreases g, 1
  {
    exists w :: w in g.mask && IsBestOf(cpus, prefer, req, g, d, w)
                && !Better(req.mode, LoadOf(cpus, prefer, w), LoadOf(cpus, prefer, c))
  }

  /** `w` is a best CPU of the item of `d`. */
  ghost predicate IsBestOf(cpus: Cpus, prefer: Option<int>, req: Request, g: Group, d: int, w: int)
    requires GroupOk(g, |cpus|)
    decreases g, 0
  {
    && w in g.mask && Eligible(cpus, req, w) && SameItem(g, d, w)
    && var k := ChildOf(g.children, w);
       k >= 0 ==> OnBestPath(cpus, prefer, req, g.children[k], w)
  }

  /** The randomised load of the best CPU: at most 31 less than its load. */
  predicate TieFits(cpus: Cpus, prefer: Option<int>, best: Best) {
    best.cpu >= 0
    ==> && best.cpu < |cpus|
        && LoadOf(cpus, prefer, best.cpu) - 31 <= best.tie <= LoadOf(cpus, prefer, best.cpu)
  }

  ghost predicate NoneEligible(cpus: Cpus, req: Request, s: set<int>) {
    forall c :: c in s && 0 <= c < |cpus| ==> !Eligible(cpus, req, c)
  }

  /** The search succeeds exactly when some CPU is eligible, and then finds one on the best path. */
  ghost predicate Found(cpus: Cpus, prefer: Option<int>, req: Request, g: Group, cpu: int)
    requires GroupOk(g, |cpus|)
  {
    if cpu == -1 then NoneEligible(cpus, req, g.mask) else OnBestPath(cpus, prefer, req, g, cpu)
  }

  // ----- the search so far -----

  /** Among the CPUs of the items seen so far, `best` is what Found asks of the whole group. */
  ghost predicate SoFar(cpus: Cpus, prefer: Option<int>, req: Request, g: Group, seen: set<int>, best: Best)
    requires GroupOk(g, |cpus|) && seen <= g.mask
  {
    if best.cpu == -1 then NoneEligible(cpus, req, seen)
    else
      && best.cpu in seen && Eligible(cpus, req, best.cpu)
      && best.load == ItemLoad(cpus, prefer, g, best.cpu)
      && (forall d :: d in seen && Eligible(cpus, req, d)
            ==> !Better(req.mode, ItemLoad(cpus, prefer, g, d), best.load))
      && TieFits(cpus, prefer, best) && TieBroken(cpus, prefer, req, g, seen, best.cpu)
      && var k := ChildOf(g.children, best.cpu);
         k >= 0 ==> OnBestPath(cpus, prefer, req, g.children[k], best.cpu)
  }

  /**
   The comparison of an item with the best so far; a first find always wins (lload starts at
   INT_MAX, hload at INT_MIN).
   */
  function Compared(mode: Mode, best: Best, item: Best): Best {
    if item.cpu >= 0 && (best.cpu == -1 || Better(mode, item.load, best.load)
                         || (item.load == best.load && Better(mode, item.tie, best.tie)))
    then item else best
  }

  /** What is known of one item once it has been searched. */
  ghost predicate ItemOk(cpus: Cpus, prefer: Option<int>, req: Request, g: Group, part: set<int>, item: Best)
    requires GroupOk(g, |cpus|) && part <= g.mask
  {
    && (forall d :: d in part ==> ItemLoad(cpus, prefer, g, d) == item.load)
    && (item.cpu >= 0 || item.cpu == -1)
    && if item.cpu == -1 then NoneEligible(cpus, req, part)
       else
         && item.cpu in part && Eligible(cpus, req, item.cpu) && TieFits(cpus, prefer, item)
         && (forall d :: d in part ==> SameItem(g, d, item.cpu))
         && var k := ChildOf(g.children, item.cpu);
            k >= 0 ==> OnBestPath(cpus, prefer, req, g.children[k], item.cpu)
  }

  lemma OneMoreItem(cpus: Cpus, prefer: Option<int>, req: Request, g: Group, seen: set<int>, best: Best,
                    part: set<int>, item: Best)
    requires GroupOk(g, |cpus|) && seen <= g.mask && part <= g.mask
    requires SoFar(cpus, prefer, req, g, seen, best) && ItemOk(cpus, prefer, req, g, part, item)
    ensures SoFar(cpus, prefer, req, g, seen + part, Compared(req.mode, best, item))
  {
    hide ItemLoad, OnBestPath, TieBroken, LoadOf, SameItem, GroupOk, HasRival;
    MaskRange(g, |cpus|);
    var r := Compared(req.mode, best, item);
    if r.cpu != -1 {
      forall d | d in seen + part && Eligible(cpus, req, d)
                 && ItemLoad(cpus, prefer, g, d) == ItemLoad(cpus, prefer, g, r.cpu)
        ensures HasRival(cpus, prefer, req, g, d, r.cpu)
      {
        if d in part {
          PartRival(cpus, prefer, req, g, seen, best, part, item, d);
        } else {
          SeenRival(cpus, prefer, req, g, seen, best, part, item, d);
        }
      }
      TieBrokenIf(cpus, prefer, req, g, seen + part, r.cpu);
    }
  }

  lemma TieBrokenIf(cpus: Cpus, prefer: Option<int>, req: Request, g: Group, seen: set<int>, c: int)
    requires GroupOk(g, |cpus|) && seen <= g.mask && c in g.mask
    requires forall d :: d in seen && Eligible(cpus, req, d)
                         && ItemLoad(cpus, prefer, g, d) == ItemLoad(cpus, prefer, g, c)
                         ==> HasRival(cpus, prefer, req, g, d, c)
    ensures TieBroken(cpus, prefer, req, g, seen, c)
  {
  }

  /** The order of the randomised loads is that of the loads, which are multiples of 64. */
  lemma TieOrder(cpus: Cpus, prefer: Option<int>, mode: Mode, a: Best, b: Best)
    requires TieFits(cpus, prefer, a) && TieFits(cpus, prefer, b) && 0 <= a.cpu < |cpus| && 0 <= b.cpu < |cpus|
    ensures Better(mode, a.tie, b.tie) ==> !Better(mode, LoadOf(cpus, prefer, b.cpu), LoadOf(cpus, prefer, a.cpu))
    ensures !Better(mode, a.tie, b.tie) ==> !Better(mode, LoadOf(cpus, prefer, a.cpu), LoadOf(cpus, prefer, b.cpu))
  {
  }

  lemma SameItemBoth(g: Group, c: int, d: int)
    requires SameItem(g, c, d)
    ensures SameItem(g, d, c)
  {
  }

  /** The new item's own best CPU is the rival of its CPUs. */
  lemma PartRival(cpus: Cpus, prefer: Option<int>, req: Request, g: Group, seen: set<int>, best: Best,
                  part: set<int>, item: Best, d: int)
    requires GroupOk(g, |cpus|) && seen <= g.mask && part <= g.mask
    requires SoFar(cpus, prefer, req, g, seen, best) && ItemOk(cpus, prefer, req, g, part, item)
    requires d in part && Eligible(cpus, req, d)
    requires var c := Compared(req.mode, best, item).cpu;
             0 <= c < |cpus| && c in g.mask && ItemLoad(cpus, prefer, g, d) == ItemLoad(cpus, prefer, g, c)
    ensures HasRival(cpus, prefer, req, g, d, Compared(req.mode, best, item).cpu)
  {
    hide ItemLoad, OnBestPath, TieBroken, LoadOf, SameItem, GroupOk;
    MaskRange(g, |cpus|);
    SameItemBoth(g, d, item.cpu);
    assert IsBestOf(cpus, prefer, req, g, d, item.cpu);
    if best.cpu != -1 {
      TieOrder(cpus, prefer, req.mode, item, best);
    }
  }

  /** A rival of the old best is one of the new. */
  lemma SeenRival(cpus: Cpus, prefer: Option<int>, req: Request, g: Group, seen: set<int>, best: Best,
                  part: set<int>, item: Best, d: int)
    requires GroupOk(g, |cpus|) && seen <= g.mask && part <= g.mask
    requires SoFar(cpus, prefer, req, g, seen, best) && ItemOk(cpus, prefer, req, g, part, item)
    requires d in seen && Eligible(cpus, req, d)
    requires var c := Compared(req.mode, best, item).cpu;
             0 <= c < |cpus| && c in g.mask && ItemLoad(cpus, prefer, g, d) == ItemLoad(cpus, prefer, g, c)
    ensures HasRival(cpus, prefer, req, g, d, Compared(req.mode, best, item).cpu)
  {
    hide ItemLoad, OnBestPath, IsBestOf, LoadOf, SameItem, GroupOk;
    MaskRange(g, |cpus|);
    assert best.cpu in g.mask && ItemLoad(cpus, prefer, g, d) == ItemLoad(cpus, prefer, g, best.cpu);
    assert HasRival(cpus, prefer, req, g, d, best.cpu);
    var w :| w in g.mask && IsBestOf(cpus, prefer, req, g, d, w)
             && !Better(req.mode, LoadOf(cpus, prefer, w), LoadOf(cpus, prefer, best.cpu));
    if item.cpu >= 0 {
      TieOrder(cpus, prefer, req.mode, item, best);
    }
  }

  lemma SameChild(g: Group, n: nat, j: nat, k: nat, c: int)
    requires GroupOk(g, n) && j < |g.children| && k < |g.children| && c in g.children[j].mask && c in g.children[k].mask
    ensures j == k
  {
  }

  /** A child group's own search makes it an item. */
  lemma ChildItem(cpus: Cpus, prefer: Option<int>, req: Request, g: Group, k: nat, cpu: int, tie: int)
    requires GroupOk(g, |cpus|) && k < |g.children|
    requires GroupOk(g.children[k], |cpus|) && g.children[k].mask <= g.mask
    requires Found(cpus, prefer, req, g.children[k], cpu) && (cpu == -1 || cpu >= 0)
    requires TieFits(cpus, prefer, Best(cpu, 0, tie))
    ensures ItemOk(cpus, prefer, req, g, g.children[k].mask,
            Best(cpu, TotalLoad(cpus, prefer, g.children[k].mask), tie))
  {
    forall d | d in g.children[k].mask ensures ChildOf(g.children, d) == k {
      SameChild(g, |cpus|, ChildOf(g.children, d), k, d);
    }
  }

  /** A CPU directly in the group is an item by itself. */
  lemma CpuItem(cpus: Cpus, prefer: Option<int>, req: Request, g: Group, c: int, tie: int)
    requires GroupOk(g, |cpus|) && c in g.mask && 0 <= c < |cpus|
    requires forall k :: 0 <= k < |g.children| ==> c !in g.children[k].mask
    requires LoadOf(cpus, prefer, c) - 31 <= tie <= LoadOf(cpus, prefer, c)
    ensures ItemOk(cpus, prefer, req, g, {c},
                   Best(if Eligible(cpus, req, c) then c else -1, LoadOf(cpus, prefer, c), tie))
  {
    assert ChildOf(g.children, c) == -1;
  }

  lemma SeenAll(cpus: Cpus, prefer: Option<int>, req: Request, g: Group, best: Best)
    requires GroupOk(g, |cpus|) && SoFar(cpus, prefer, req, g, g.mask, best)
    ensures Found(cpus, prefer, req, g, best.cpu) && TieFits(cpus, prefer, best)
  {
  }

  // ----- the search -----

  /** The least number in a set of CPUs (CPU_FFS less one), or -1. */
  method FirstCpu(s: set<int>, n: nat) returns (cpu: int)
    requires forall c :: c in s ==> 0 <= c < n
    ensures cpu == -1 <==> s == {}
    ensures cpu != -1 ==> cpu in s && forall c :: c in s ==> cpu <= c
  {
    for i := 0 to n
      invariant forall c :: c in s ==> i <= c
    {
      if i in s {
        return i;
      }
    }
    cpu := -1;
  }

  /** The CPUs of the child groups from the `i`-th on: those the loop has been through. */
  ghost function ChildMasks(children: seq<Group>, i: nat): set<int>
    requires i <= |children|
  {
    set k, c | i <= k < |children| && c in children[k].mask :: c
  }

  lemma ChildMasksNext(g: Group, n: nat, i: nat)
    requires GroupOk(g, n) && i < |g.children|
    ensures ChildMasks(g.children, i) == ChildMasks(g.children, i + 1) + g.children[i].mask
    ensures ChildMasks(g.children, i + 1) !! g.children[i].mask
    ensures ChildMasks(g.children, i + 1) <= g.mask && g.children[i].mask <= g.mask && GroupOk(g.children[i], n)
  {
    var a, b := ChildMasks(g.children, i), ChildMasks(g.children, i + 1);
    forall c | c in a ensures c in b || c in g.children[i].mask {
      var k :| i <= k < |g.children| && c in g.children[k].mask;
    }
    forall c | c in g.children[i].mask ensures c in a {
    }
    forall c | c in b ensures c in a && c in g.mask && c !in g.children[i].mask {
      var k :| i + 1 <= k < |g.children| && c in g.children[k].mask;
      assert g.children[k].mask <= g.mask;
    }
  }

  lemma TotalUnion(cpus: Cpus, prefer: Option<int>, s: set<int>, t: set<int>)
    requires s !! t
    ensures TotalLoad(cpus, prefer, s + t) == TotalLoad(cpus, prefer, s) + TotalLoad(cpus, prefer, t)
  {
    SumUnion(cpus, prefer, s, t, |cpus|);
  }

  /** The two searches the match argument asks for, and the total that each needs. */
  ghost predicate Searching(cpus: Cpus, prefer: Option<int>, low: Option<Request>, high: Option<Request>, g: Group,
                            seen: set<int>, total: int, l: Best, h: Best)
    requires GroupOk(g, |cpus|)
  {
    && seen <= g.mask && total == TotalLoad(cpus, prefer, seen)
    && l.cpu >= -1 && h.cpu >= -1
    && (low.Some? ==> SoFar(cpus, prefer, low.value, g, seen, l))
    && (high.Some? ==> SoFar(cpus, prefer, high.value, g, seen, h))
  }

  /** The best so far of a search that is asked for. */
  function Updated(req: Option<Request>, best: Best, item: Best): Best {
    if req.Some? then Compared(req.value.mode, best, item) else best
  }

  /** A CPU, as the candidate of a search that is asked for. */
  function Candidate(cpus: Cpus, req: Option<Request>, c: int): int
    requires 0 <= c < |cpus|
  {
    if req.Some? && Eligible(cpus, req.value, c) then c else -1
  }

  /** One more item, in both searches. */
  lemma OneMore(cpus: Cpus, prefer: Option<int>, low: Option<Request>, high: Option<Request>, g: Group,
                seen: set<int>, total: int, l: Best, h: Best, part: set<int>, lItem: Best, hItem: Best)
    requires GroupOk(g, |cpus|) && Searching(cpus, prefer, low, high, g, seen, total, l, h)
    requires part <= g.mask && part !! seen && lItem.cpu >= -1 && hItem.cpu >= -1
    requires low.Some? ==> ItemOk(cpus, prefer, low.value, g, part, lItem)
    requires high.Some? ==> ItemOk(cpus, prefer, high.value, g, part, hItem)
    ensures Searching(cpus, prefer, low, high, g, seen + part, total + TotalLoad(cpus, prefer, part),
                      Updated(low, l, lItem),
                      Updated(high, h, hItem))
  {
    hide SoFar, ItemOk, GroupOk, TotalLoad;
    TotalUnion(cpus, prefer, seen, part);
    if low.Some? { OneMoreItem(cpus, prefer, low.value, g, seen, l, part, lItem); }
    if high.Some? { OneMoreItem(cpus, prefer, high.value, g, seen, h, part, hItem); }
  }

  /** The loop of cpu_search: the children are taken from the last down, then the CPUs left in the mask. */
  ghost predicate Turning(cpus: Cpus, prefer: Option<int>, low: Option<Request>, high: Option<Request>, g: Group,
                          i: nat, seen: set<int>, cpumask: set<int>, total: int, l: Best, h: Best)
    requires GroupOk(g, |cpus|)
  {
    && i <= |g.children| && Searching(cpus, prefer, low, high, g, seen, total, l, h)
    && cpumask == g.mask - seen && seen <= g.mask
    && (if i > 0 then seen == ChildMasks(g.children, i) else ChildMasks(g.children, 0) <= seen)
  }

  /** A turn of the loop on a child group that has been searched. */
  lemma ChildTurn(cpus: Cpus, prefer: Option<int>, low: Option<Request>, high: Option<Request>, g: Group, i: nat,
                  seen: set<int>, cpumask: set<int>, total: int, l: Best, h: Best, load: int, lItem: Best, hItem: Best)
    requires GroupOk(g, |cpus|) && 0 < i <= |g.children|
    requires Turning(cpus, prefer, low, high, g, i, seen, cpumask, total, l, h)
    requires GroupOk(g.children[i - 1], |cpus|) && load == TotalLoad(cpus, prefer, g.children[i - 1].mask)
    requires lItem.cpu >= -1 && hItem.cpu >= -1 && lItem.load == hItem.load == load
    requires low.Some? ==> Found(cpus, prefer, low.value, g.children[i - 1], lItem.cpu)
    requires high.Some? ==> Found(cpus, prefer, high.value, g.children[i - 1], hItem.cpu)
    requires (low.Some? ==> TieFits(cpus, prefer, lItem)) && (high.Some? ==> TieFits(cpus, prefer, hItem))
    ensures Turning(cpus, prefer, low, high, g, i - 1, seen + g.children[i - 1].mask, cpumask - g.children[i - 1].mask,
                    total + load, Updated(low, l, lItem), Updated(high, h, hItem))
  {
    hide Searching, Found, GroupOk, TotalLoad, ItemOk, ChildMasks, Updated;
    var part := g.children[i - 1].mask;
    ChildMasksNext(g, |cpus|, i - 1);
    MinusMore(g.mask, seen, part);
    if low.Some? { ChildItem(cpus, prefer, low.value, g, i - 1, lItem.cpu, lItem.tie); }
    if high.Some? { ChildItem(cpus, prefer, high.value, g, i - 1, hItem.cpu, hItem.tie); }
    OneMore(cpus, prefer, low, high, g, seen, total, l, h, part, lItem, hItem);
  }

  /** A turn of the loop on a CPU directly in the group. */
  lemma CpuTurn(cpus: Cpus, prefer: Option<int>, low: Option<Request>, high: Option<Request>, g: Group,
                seen: set<int>, cpumask: set<int>, total: int, l: Best, h: Best, c: int, tie: int)
    requires GroupOk(g, |cpus|) && Turning(cpus, prefer, low, high, g, 0, seen, cpumask, total, l, h)
    requires c in cpumask && 0 <= c < |cpus|
    requires LoadOf(cpus, prefer, c) - 31 <= tie <= LoadOf(cpus, prefer, c)
    ensures |cpumask - {c}| < |cpumask|
    ensures var load := LoadOf(cpus, prefer, c);
            Turning(cpus, prefer, low, high, g, 0, seen + {c}, cpumask - {c}, total + load,
                    Updated(low, l, Best(Candidate(cpus, low, c), load, tie)),
                    Updated(high, h, Best(Candidate(cpus, high, c), load, tie)))
  {
    hide Searching, GroupOk, TotalLoad, ItemOk, LoadOf, Eligible, ChildMasks, Updated;
    var load := LoadOf(cpus, prefer, c);
    DirectCpu(g, |cpus|, seen, c);
    MinusMore(g.mask, seen, {c});
    if low.Some? { CpuItem(cpus, prefer, low.value, g, c, tie); }
    if high.Some? { CpuItem(cpus, prefer, high.value, g, c, tie); }
    OneCpu(cpus, prefer, c);
    OneMore(cpus, prefer, low, high, g, seen, total, l, h, {c}, Best(Candidate(cpus, low, c), load, tie),
            Best(Candidate(cpus, high, c), load, tie));
  }

  lemma ChildGroup(g: Group, n: nat, k: nat)
    requires GroupOk(g, n) && k < |g.children|
    ensures GroupOk(g.children[k], n)
  {
  }

  lemma TurningRange(cpus: Cpus, prefer: Option<int>, low: Option<Request>, high: Option<Request>, g: Group,
                     i: nat, seen: set<int>, cpumask: set<int>, total: int, l: Best, h: Best)
    requires GroupOk(g, |cpus|) && Turning(cpus, prefer, low, high, g, i, seen, cpumask, total, l, h)
    ensures forall c :: c in cpumask ==> 0 <= c < |cpus|
  {
    hide Searching;
    MaskRange(g, |cpus|);
  }

  /**
   cpu_search: `low` and `high` are the requests of the searches the match argument selects.
   The total counts every CPU of the group once.
   */
  method Search(g: Group, cpus: Cpus, prefer: Option<int>, low: Option<Request>, high: Option<Request>)
      returns (total: int, l: Best, h: Best)
    requires GroupOk(g, |cpus|)
    ensures total == TotalLoad(cpus, prefer, g.mask)
    ensures l.cpu >= -1 && h.cpu >= -1
    ensures low.Some? ==> Found(cpus, prefer, low.value, g, l.cpu)
    ensures high.Some? ==> Found(cpus, prefer, high.value, g, h.cpu)
    ensures (low.Some? ==> TieFits(cpus, prefer, l)) && (high.Some? ==> TieFits(cpus, prefer, h))
    decreases g
  {
    hide TotalLoad, Found, GroupOk, LoadOf, Turning, Updated, Candidate;
    total, l, h := 0, NOTHING, NOTHING;
    var i, cpumask := |g.children|, g.mask;
    ghost var seen: set<int> := {};
    SearchBegin(cpus, prefer, low, high, g);
    while true
      invariant 0 <= i <= |g.children| && Turning(cpus, prefer, low, high, g, i, seen, cpumask, total, l, h)
      decreases i, |cpumask|
    {
      if i > 0 {
        var child := g.children[i - 1];
        ChildGroup(g, |cpus|, i - 1);
        var load, lc, hc := Search(child, cpus, prefer, low, high);
        var lItem, hItem := Best(lc.cpu, load, lc.tie), Best(hc.cpu, load, hc.tie);
        ChildTurn(cpus, prefer, low, high, g, i, seen, cpumask, total, l, h, load, lItem, hItem);
        total, l, h := total + load, Updated(low, l, lItem), Updated(high, h, hItem);
        seen, cpumask, i := seen + child.mask, cpumask - child.mask, i - 1;
        if i == 0 && cpumask == {} {
          break;
        }
      } else {
        TurningRange(cpus, prefer, low, high, g, i, seen, cpumask, total, l, h);
        var cpu := FirstCpu(cpumask, |cpus|);
        if cpu < 0 {
          break;
        }
        var load := LoadOf(cpus, prefer, cpu);
        var rnd: int :| 0 <= rnd < 32;
        var tie := load - rnd;
        var lItem, hItem := Best(Candidate(cpus, low, cpu), load, tie), Best(Candidate(cpus, high, cpu), load, tie);
        CpuTurn(cpus, prefer, low, high, g, seen, cpumask, total, l, h, cpu, tie);
        total, l, h := total + load, Updated(low, l, lItem), Updated(high, h, hItem);
        seen, cpumask := seen + {cpu}, cpumask - {cpu};
      }
    }
    SearchEnd(cpus, prefer, low, high, g, i, seen, cpumask, total, l, h);
  }

  lemma MinusMore(all: set<int>, seen: set<int>, part: set<int>)
    requires seen <= all && part <= all
    ensures all - seen - part == all - (seen + part) && seen + part <= all
  {
  }

  lemma OneCpu(cpus: Cpus, prefer: Option<int>, c: int)
    requires 0 <= c < |cpus|
    ensures TotalLoad(cpus, prefer, {c}) == LoadOf(cpus, prefer, c)
  {
    SumOne(cpus, prefer, c, |cpus|);
  }

  lemma DirectCpu(g: Group, n: nat, seen: set<int>, c: int)
    requires GroupOk(g, n) && ChildMasks(g.children, 0) <= seen && c in g.mask - seen
    ensures forall k :: 0 <= k < |g.children| ==> c !in g.children[k].mask
  {
    InChildMasks(g.children, c);
  }

  lemma InChildMasks(children: seq<Group>, c: int)
    ensures forall k :: 0 <= k < |children| && c in children[k].mask ==> c in ChildMasks(children, 0)
  {
  }

  lemma MaskRange(g: Group, n: nat)
    requires GroupOk(g, n)
    ensures forall c :: c in g.mask ==> 0 <= c < n
  {
  }

  lemma {:induction false} SumNone(cpus: Cpus, prefer: Option<int>, n: nat)
    requires n <= |cpus|
    ensures Sum(cpus, prefer, {}, n) == 0
  {
    if n > 0 { SumNone(cpus, prefer, n - 1); }
  }

  lemma SearchBegin(cpus: Cpus, prefer: Option<int>, low: Option<Request>, high: Option<Request>, g: Group)
    requires GroupOk(g, |cpus|)
    ensures Turning(cpus, prefer, low, high, g, |g.children|, {}, g.mask, 0, NOTHING, NOTHING)
  {
    SumNone(cpus, prefer, |cpus|);
    assert ChildMasks(g.children, |g.children|) == {};
  }

  lemma SearchEnd(cpus: Cpus, prefer: Option<int>, low: Option<Request>, high: Option<Request>, g: Group,
                  i: nat, seen: set<int>, cpumask: set<int>, total: int, l: Best, h: Best)
    requires GroupOk(g, |cpus|) && Turning(cpus, prefer, low, high, g, i, seen, cpumask, total, l, h) && cpumask == {}
    ensures l.cpu >= -1 && h.cpu >= -1
    ensures total == TotalLoad(cpus, prefer, g.mask)
    ensures low.Some? ==> Found(cpus, prefer, low.value, g, l.cpu)
    ensures high.Some? ==> Found(cpus, prefer, high.value, g, h.cpu)
    ensures (low.Some? ==> TieFits(cpus, prefer, l)) && (high.Some? ==> TieFits(cpus, prefer, h))
  {
    hide SoFar, Found, GroupOk, TotalLoad;
    assert seen == g.mask by {
      forall c | c in g.mask ensures c in seen { assert c !in g.mask - seen; }
    }
    if low.Some? { SeenAll(cpus, prefer, low.value, g, l); }
    if high.Some? { SeenAll(cpus, prefer, high.value, g, h); }
  }

  // ----- the results in numbers -----

  /** The loads of the CPUs of `s` below `n`, as they stand in the queues. */
  ghost function Loads(cpus: Cpus, s: set<int>, n: nat): nat
    requires n <= |cpus|
  {
    if n == 0 then 0 else Loads(cpus, s, n - 1) + (if n - 1 in s then cpus[n - 1].load else 0)
  }

  /** What a group or a CPU weighs: 256 for each thread, less 64 if the preferred CPU is in it. */
  ghost function Weight(cpus: Cpus, prefer: Option<int>, s: set<int>): int {
    256 * Loads(cpus, s, |cpus|) - (if prefer.Some? && 0 <= prefer.value < |cpus| && prefer.value in s then 64 else 0)
  }

  lemma {:induction false} SumWeighs(cpus: Cpus, prefer: Option<int>, s: set<int>, n: nat)
    requires n <= |cpus|
    ensures Sum(cpus, prefer, s, n)
            == 256 * Loads(cpus, s, n) - (if prefer.Some? && 0 <= prefer.value < n && prefer.value in s then 64 else 0)
    decreases n
  {
    if n > 0 { SumWeighs(cpus, prefer, s, n - 1); }
  }

  /** The totals the search compares are these weights. */
  lemma TotalWeighs(cpus: Cpus, prefer: Option<int>, s: set<int>)
    ensures TotalLoad(cpus, prefer, s) == Weight(cpus, prefer, s)
  {
    SumWeighs(cpus, prefer, s, |cpus|);
  }

  /** What CPU `c` competes as: its child group, or itself alone. */
  ghost predicate IsItem(g: Group, s: set<int>, c: int) {
    || (exists k :: 0 <= k < |g.children| && c in g.children[k].mask && s == g.children[k].mask)
    || (s == {c} && forall k :: 0 <= k < |g.children| ==> c !in g.children[k].mask)
  }

  lemma ItemWeighs(cpus: Cpus, prefer: Option<int>, g: Group, s: set<int>, c: int)
    requires GroupOk(g, |cpus|) && c in g.mask && IsItem(g, s, c)
    ensures 0 <= c < |cpus| && ItemLoad(cpus, prefer, g, c) == Weight(cpus, prefer, s)
  {
    hide Loads, Sum, Weight, TotalLoad;
    var k := ChildOf(g.children, c);
    TotalWeighs(cpus, prefer, s);
    if k < 0 {
      OneCpu(cpus, prefer, c);
    } else {
      OneChild(g, |cpus|, k, c, s);
    }
  }

  lemma OneChild(g: Group, n: nat, k: nat, c: int, s: set<int>)
    requires GroupOk(g, n) && IsItem(g, s, c) && k < |g.children| && c in g.children[k].mask
    ensures s == g.children[k].mask
  {
  }

  /** A CPU sched_lowest may return: in the mask, its lowest priority above `pri`, no more loaded than `maxload`. */
  predicate LowAllowed(cpus: Cpus, mask: set<int>, pri: int, maxload: int, c: int) {
    0 <= c < |cpus| && c in mask && cpus[c].lowpri > pri && cpus[c].load <= maxload
  }

  /** A CPU sched_highest may return: in the mask, at least as loaded as `minload`, with a thread that can move. */
  predicate HighAllowed(cpus: Cpus, mask: set<int>, minload: int, c: int) {
    0 <= c < |cpus| && c in mask && cpus[c].load >= minload && cpus[c].transferable != 0
  }

  /**
   At every level from `g` down to `c`: nothing that could have been chosen weighs less, nor the
   best CPU of an equal.
   */
  ghost predicate Lightest(cpus: Cpus, prefer: int, mask: set<int>, pri: int, maxload: int, g: Group, c: int)
    requires GroupOk(g, |cpus|)
    decreases g, 2
  {
    && c in g.mask && LowAllowed(cpus, mask, pri, maxload, c)
    && (forall s, t, d :: IsItem(g, s, c) && IsItem(g, t, d) && d in g.mask && LowAllowed(cpus, mask, pri, maxload, d)
          ==> && Weight(cpus, Some(prefer), s) <= Weight(cpus, Some(prefer), t)
              && (Weight(cpus, Some(prefer), s) == Weight(cpus, Some(prefer), t)
                 ==> LightestAmong(cpus, prefer, mask, pri, maxload, g, t, c)))
    && (forall k :: 0 <= k < |g.children| && c in g.children[k].mask
                    ==> Lightest(cpus, prefer, mask, pri, maxload, g.children[k], c))
  }

  /** Item `t` has a CPU found in it in the same way, and `c` weighs no more. */
  ghost predicate LightestAmong(cpus: Cpus, prefer: int, mask: set<int>, pri: int, maxload: int, g: Group,
                                t: set<int>, c: int)
    requires GroupOk(g, |cpus|)
    decreases g, 1
  {
    exists w :: LightestIn(cpus, prefer, mask, pri, maxload, g, t, w)
      && Weight(cpus, Some(prefer), {c}) <= Weight(cpus, Some(prefer), {w})
  }

  ghost predicate LightestIn(cpus: Cpus, prefer: int, mask: set<int>, pri: int, maxload: int, g: Group, t: set<int>,
                             w: int)
    requires GroupOk(g, |cpus|)
    decreases g, 0
  {
    && w in t && LowAllowed(cpus, mask, pri, maxload, w)
    && forall k :: 0 <= k < |g.children| && w in g.children[k].mask
                   ==> Lightest(cpus, prefer, mask, pri, maxload, g.children[k], w)
  }

  /** The same for the heaviest. */
  ghost predicate Heaviest(cpus: Cpus, mask: set<int>, minload: int, g: Group, c: int)
    requires GroupOk(g, |cpus|)
    decreases g, 2
  {
    && c in g.mask && HighAllowed(cpus, mask, minload, c)
    && (forall s, t, d :: IsItem(g, s, c) && IsItem(g, t, d) && d in g.mask && HighAllowed(cpus, mask, minload, d)
          ==> && Weight(cpus, None, s) >= Weight(cpus, None, t)
              && (Weight(cpus, None, s) == Weight(cpus, None, t) ==> HeaviestAmong(cpus, mask, minload, g, t, c)))
    && (forall k :: 0 <= k < |g.children| && c in g.children[k].mask
                    ==> Heaviest(cpus, mask, minload, g.children[k], c))
  }

  /** Item `t` has a CPU found in it in the same way, and `c` weighs no less. */
  ghost predicate HeaviestAmong(cpus: Cpus, mask: set<int>, minload: int, g: Group, t: set<int>, c: int)
    requires GroupOk(g, |cpus|)
    decreases g, 1
  {
    exists w :: HeaviestIn(cpus, mask, minload, g, t, w) && Weight(cpus, None, {c}) >= Weight(cpus, None, {w})
  }

  ghost predicate HeaviestIn(cpus: Cpus, mask: set<int>, minload: int, g: Group, t: set<int>, w: int)
    requires GroupOk(g, |cpus|)
    decreases g, 0
  {
    && w in t && HighAllowed(cpus, mask, minload, w)
    && forall k :: 0 <= k < |g.children| && w in g.children[k].mask ==> Heaviest(cpus, mask, minload, g.children[k], w)
  }

  lemma {:induction false} BestIsLightest(cpus: Cpus, prefer: int, mask: set<int>, pri: int, maxload: int, g: Group,
                                          c: int)
    requires GroupOk(g, |cpus|) && OnBestPath(cpus, Some(prefer), Request(Lowest, mask, pri, maxload), g, c)
    ensures Lightest(cpus, prefer, mask, pri, maxload, g, c)
    decreases g, 2
  {
    hide Weight, ItemLoad, IsItem, LightestAmong, TieBroken;
    forall s, t, d | IsItem(g, s, c) && IsItem(g, t, d) && d in g.mask && LowAllowed(cpus, mask, pri, maxload, d)
      ensures Weight(cpus, Some(prefer), s) <= Weight(cpus, Some(prefer), t)
      ensures Weight(cpus, Some(prefer), s) == Weight(cpus, Some(prefer), t)
              ==> LightestAmong(cpus, prefer, mask, pri, maxload, g, t, c)
    {
      ItemWeighs(cpus, Some(prefer), g, s, c);
      ItemWeighs(cpus, Some(prefer), g, t, d);
      if Weight(cpus, Some(prefer), s) == Weight(cpus, Some(prefer), t) {
        RivalIsLightest(cpus, prefer, mask, pri, maxload, g, t, d, c);
      }
    }
    forall k | 0 <= k < |g.children| && c in g.children[k].mask ensures Lightest(cpus, prefer, mask, pri, maxload,
      g.children[k], c) {
      ChildIs(g, |cpus|, k, c);
      BestIsLightest(cpus, prefer, mask, pri, maxload, g.children[k], c);
    }
  }

  lemma {:induction false} RivalIsLightest(cpus: Cpus, prefer: int, mask: set<int>, pri: int, maxload: int, g: Group,
                                           t: set<int>,
                                          d: int, c: int)
    requires GroupOk(g, |cpus|) && c in g.mask && IsItem(g, t, d) && d in g.mask
             && LowAllowed(cpus, mask, pri, maxload, d)
    requires TieBroken(cpus, Some(prefer), Request(Lowest, mask, pri, maxload), g, g.mask, c)
    requires ItemLoad(cpus, Some(prefer), g, d) == ItemLoad(cpus, Some(prefer), g, c)
    ensures LightestAmong(cpus, prefer, mask, pri, maxload, g, t, c)
    decreases g, 1
  {
    hide Weight, ItemLoad, LoadOf, Lightest, OnBestPath, IsItem;
    var req := Request(Lowest, mask, pri, maxload);
    assert Eligible(cpus, req, d) && HasRival(cpus, Some(prefer), req, g, d, c);
    var w :| w in g.mask && IsBestOf(cpus, Some(prefer), req, g, d, w)
             && !Better(req.mode, LoadOf(cpus, Some(prefer), w), LoadOf(cpus, Some(prefer), c));
    InItem(g, |cpus|, t, d, w);
    WeighsAlone(cpus, Some(prefer), c);
    WeighsAlone(cpus, Some(prefer), w);
    forall k | 0 <= k < |g.children| && w in g.children[k].mask ensures Lightest(cpus, prefer, mask, pri, maxload,
      g.children[k], w) {
      ChildIs(g, |cpus|, k, w);
      BestIsLightest(cpus, prefer, mask, pri, maxload, g.children[k], w);
    }
    assert LightestIn(cpus, prefer, mask, pri, maxload, g, t, w);
  }

  lemma {:induction false} BestIsHeaviest(cpus: Cpus, mask: set<int>, minload: int, g: Group, c: int)
    requires GroupOk(g, |cpus|) && OnBestPath(cpus, None, Request(Highest, mask, 0, minload), g, c)
    ensures Heaviest(cpus, mask, minload, g, c)
    decreases g, 2
  {
    hide Weight, ItemLoad, IsItem, HeaviestAmong, TieBroken;
    forall s, t, d | IsItem(g, s, c) && IsItem(g, t, d) && d in g.mask && HighAllowed(cpus, mask, minload, d)
      ensures Weight(cpus, None, s) >= Weight(cpus, None, t)
      ensures Weight(cpus, None, s) == Weight(cpus, None, t) ==> HeaviestAmong(cpus, mask, minload, g, t, c)
    {
      ItemWeighs(cpus, None, g, s, c);
      ItemWeighs(cpus, None, g, t, d);
      if Weight(cpus, None, s) == Weight(cpus, None, t) {
        RivalIsHeaviest(cpus, mask, minload, g, t, d, c);
      }
    }
    forall k | 0 <= k < |g.children| && c in g.children[k].mask ensures Heaviest(cpus, mask, minload, g.children[k],
      c) {
      ChildIs(g, |cpus|, k, c);
      BestIsHeaviest(cpus, mask, minload, g.children[k], c);
    }
  }

  lemma {:induction false} RivalIsHeaviest(cpus: Cpus, mask: set<int>, minload: int, g: Group, t: set<int>,
                                          d: int, c: int)
    requires GroupOk(g, |cpus|) && c in g.mask && IsItem(g, t, d) && d in g.mask && HighAllowed(cpus, mask, minload, d)
    requires TieBroken(cpus, None, Request(Highest, mask, 0, minload), g, g.mask, c)
    requires ItemLoad(cpus, None, g, d) == ItemLoad(cpus, None, g, c)
    ensures HeaviestAmong(cpus, mask, minload, g, t, c)
    decreases g, 1
  {
    hide Weight, ItemLoad, LoadOf, Heaviest, OnBestPath, IsItem;
    var req := Request(Highest, mask, 0, minload);
    assert Eligible(cpus, req, d) && HasRival(cpus, None, req, g, d, c);
    var w :| w in g.mask && IsBestOf(cpus, None, req, g, d, w)
             && !Better(req.mode, LoadOf(cpus, None, w), LoadOf(cpus, None, c));
    InItem(g, |cpus|, t, d, w);
    WeighsAlone(cpus, None, c);
    WeighsAlone(cpus, None, w);
    forall k | 0 <= k < |g.children| && w in g.children[k].mask ensures Heaviest(cpus, mask, minload, g.children[k],
      w) {
      ChildIs(g, |cpus|, k, w);
      BestIsHeaviest(cpus, mask, minload, g.children[k], w);
    }
    assert HeaviestIn(cpus, mask, minload, g, t, w);
  }

  /** A best CPU of the item of `d` is in the item. */
  lemma InItem(g: Group, n: nat, t: set<int>, d: int, w: int)
    requires GroupOk(g, n) && IsItem(g, t, d) && SameItem(g, d, w)
    ensures w in t
  {
    var k := ChildOf(g.children, d);
    if k >= 0 {
      OneChild(g, n, k, d, t);
    }
  }

  lemma WeighsAlone(cpus: Cpus, prefer: Option<int>, c: int)
    requires 0 <= c < |cpus|
    ensures Weight(cpus, prefer, {c}) == LoadOf(cpus, prefer, c)
  {
    OneWeighs(cpus, prefer, c);
  }

  lemma ChildIs(g: Group, n: nat, k: nat, c: int)
    requires GroupOk(g, n) && k < |g.children| && c in g.children[k].mask
    ensures ChildOf(g.children, c) == k
  {
  }

  /**
   sched_lowest: -1 exactly when no CPU of the group is allowed, and else an allowed CPU that lies,
   at every level, in a group no heavier than any other with an allowed CPU.
   */
  method SchedLowest(g: Group, cpus: Cpus, mask: set<int>, pri: int, maxload: int, prefer: int) returns (cpu: int)
    requires GroupOk(g, |cpus|)
    ensures cpu >= -1 && Found(cpus, Some(prefer), Request(Lowest, mask, pri, maxload), g, cpu)
    ensures if cpu == -1 then forall c :: c in g.mask ==> !LowAllowed(cpus, mask, pri, maxload, c)
            else Lightest(cpus, prefer, mask, pri, maxload, g, cpu)
  {
    hide GroupOk, OnBestPath;
    var total, l, h := Search(g, cpus, Some(prefer), Some(Request(Lowest, mask, pri, maxload)), None);
    cpu := l.cpu;
    if cpu != -1 {
      BestIsLightest(cpus, prefer, mask, pri, maxload, g, cpu);
    }
  }

  /** sched_highest: the same for the heaviest. */
  method SchedHighest(g: Group, cpus: Cpus, mask: set<int>, minload: int) returns (cpu: int)
    requires GroupOk(g, |cpus|)
    ensures cpu >= -1 && Found(cpus, None, Request(Highest, mask, 0, minload), g, cpu)
    ensures if cpu == -1 then forall c :: c in g.mask ==> !HighAllowed(cpus, mask, minload, c)
            else Heaviest(cpus, mask, minload, g, cpu)
  {
    hide GroupOk, OnBestPath;
    var total, l, h := Search(g, cpus, None, None, Some(Request(Highest, mask, 0, minload)));
    cpu := h.cpu;
    if cpu != -1 {
      BestIsHeaviest(cpus, mask, minload, g, cpu);
    }
  }

  /** In a group without children the CPU found weighs no more than any other allowed one. */
  lemma LightestInFlat(cpus: Cpus, prefer: int, mask: set<int>, pri: int, maxload: int, g: Group, c: int, d: int)
    requires GroupOk(g, |cpus|) && g.children == [] && Lightest(cpus, prefer, mask, pri, maxload, g, c)
    requires d in g.mask && LowAllowed(cpus, mask, pri, maxload, d)
    ensures 256 * cpus[c].load - (if c == prefer then 64 else 0) <= 256 * cpus[d].load - (if d == prefer then 64 else 0)
  {
    hide Weight;
    assert IsItem(g, {c}, c) && IsItem(g, {d}, d);
    OneWeighs(cpus, Some(prefer), c);
    OneWeighs(cpus, Some(prefer), d);
  }

  lemma HeaviestInFlat(cpus: Cpus, mask: set<int>, minload: int, g: Group, c: int, d: int)
    requires GroupOk(g, |cpus|) && g.children == [] && Heaviest(cpus, mask, minload, g, c)
    requires d in g.mask && HighAllowed(cpus, mask, minload, d)
    ensures cpus[c].load >= cpus[d].load
  {
    hide Weight;
    assert IsItem(g, {c}, c) && IsItem(g, {d}, d);
    OneWeighs(cpus, None, c);
    OneWeighs(cpus, None, d);
  }

  lemma OneWeighs(cpus: Cpus, prefer: Option<int>, c: int)
    requires 0 <= c < |cpus|
    ensures Weight(cpus, prefer, {c}) == 256 * cpus[c].load - (if prefer == Some(c) then 64 else 0)
  {
    OneLoad(cpus, c, |cpus|);
  }

  lemma {:induction false} OneLoad(cpus: Cpus, c: int, n: nat)
    requires n <= |cpus| && 0 <= c < |cpus|
    ensures Loads(cpus, {c}, n) == if c < n then cpus[c].load else 0
    decreases n
  {
    if n > 0 { OneLoad(cpus, c, n - 1); }
  }
}
