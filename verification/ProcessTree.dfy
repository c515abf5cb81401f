/** `collect_tree`: the processes below some roots in a process table, found with a worklist over the
    parent links, and the memory they use. Parent links may be cyclic. */
module ProcessTree {
  datatype Pid = Pid(n: int)

  /** One line of the process table, keyed by pid. */
  datatype Process = Process(ppid: Pid, rss: int, vsz: int)

  type Table = map<Pid, Process>

  /** `path` leads from a positive root down the parent links, through processes of the table. */
  predicate IsPath(roots: seq<Pid>, table: Table, path: seq<Pid>) {
    && path != []
    && path[0].n > 0 && path[0] in roots
    && (forall i :: 0 <= i < |path| ==> path[i] in table)
    && (forall i, j :: 0 <= i < j == i + 1 < |path| ==> table[path[j]].ppid == path[i])
  }

  ghost predicate Reachable(roots: seq<Pid>, table: Table, pid: Pid) {
    exists path :: IsPath(roots, table, path) && path[|path| - 1] == pid
  }

  /** Sum of a column over a list of pids. */
  function SumRss(table: Table, pids: seq<Pid>): int
    requires forall p :: p in pids ==> p in table
  {
    if pids == [] then 0 else SumRss(table, pids[..|pids| - 1]) + table[pids[|pids| - 1]].rss
  }

  function SumVsz(table: Table, pids: seq<Pid>): int
    requires forall p :: p in pids ==> p in table
  {
    if pids == [] then 0 else SumVsz(table, pids[..|pids| - 1]) + table[pids[|pids| - 1]].vsz
  }

  /** The sums are sums: of one process its own figures, of two lists the figures of both, whatever the
      order. */
  lemma {:induction false} SumsAddUp(table: Table, a: seq<Pid>, b: seq<Pid>)
    requires forall p :: p in a + b ==> p in table
    ensures SumRss(table, a + b) == SumRss(table, a) + SumRss(table, b)
    ensures SumVsz(table, a + b) == SumVsz(table, a) + SumVsz(table, b)
    ensures |a| == 1 ==> SumRss(table, a) == table[a[0]].rss && SumVsz(table, a) == table[a[0]].vsz
    decreases b
  {
    assert |a| == 1 ==> a[..0] == [];
    if b == [] {
      assert a + b == a;
    } else {
      var front := b[..|b| - 1];
      assert (a + b)[..|a + b| - 1] == a + front;
      assert forall p :: p in a + front ==> p in a + b;
      SumsAddUp(table, a, front);
    }
  }

  // ---------------------------------------------------------------- the children index

  /** The index lists exactly the children of each parent. */
  ghost predicate Indexes(children: map<Pid, seq<Pid>>, table: Table, done: set<Pid>) {
    && (forall p, c :: p in children && c in children[p] ==> c in done && c in table && table[c].ppid == p)
    && (forall c :: c in done && c in table ==> table[c].ppid in children && c in children[table[c].ppid])
  }

  method IndexChildren(table: Table) returns (children: map<Pid, seq<Pid>>)
    ensures Indexes(children, table, table.Keys)
  {
    children := map[];
    var rest := table.Keys;
    while rest != {}
      invariant rest <= table.Keys
      invariant Indexes(children, table, table.Keys - rest)
      decreases |rest|
    {
      var pid :| pid in rest;
      var ppid := table[pid].ppid;
      var siblings := if ppid in children then children[ppid] else [];
      ghost var before := children;
      children := children[ppid := siblings + [pid]];
      rest := rest - {pid};
      assert forall c :: c in children[ppid] <==> c in siblings || c == pid;
    }
  }

  // ---------------------------------------------------------------- the walk

  ghost function ReachableSet(roots: seq<Pid>, table: Table): iset<Pid> { iset p | Reachable(roots, table, p) }

  /** Everything seen or stacked is in `reach`, and nothing below what was seen is missing. */
  ghost predicate WalkInv(roots: seq<Pid>, table: Table, reach: iset<Pid>, seen: set<Pid>, stack: seq<Pid>) {
    && (forall p :: p in seen ==> p in table && p in reach)
    && (forall p :: p in stack && p in table ==> p in reach)
    && (forall p :: p in roots && p.n > 0 && p in table ==> p in seen || p in stack)
    && (forall c :: c in table && table[c].ppid in seen ==> c in seen || c in stack)
  }

  lemma RootIsReachable(roots: seq<Pid>, table: Table, p: Pid)
    requires p in roots && p.n > 0 && p in table
    ensures Reachable(roots, table, p)
  {
    assert IsPath(roots, table, [p]) && [p][|[p]| - 1] == p;
  }

  lemma ChildIsReachable(roots: seq<Pid>, table: Table, p: Pid, c: Pid)
    requires Reachable(roots, table, p) && c in table && table[c].ppid == p
    ensures Reachable(roots, table, c)
  {
    var path :| IsPath(roots, table, path) && path[|path| - 1] == p;
    var longer := path + [c];
    assert IsPath(roots, table, longer) && longer[|longer| - 1] == c;
  }

  lemma {:induction false} ClosedSetHasPaths(
    roots: seq<Pid>, table: Table, reach: iset<Pid>, seen: set<Pid>, path: seq<Pid>)
    requires WalkInv(roots, table, reach, seen, []) && IsPath(roots, table, path)
    ensures path[|path| - 1] in seen
  {
    if |path| == 1 {
    } else {
      var front := path[..|path| - 1];
      assert IsPath(roots, table, front);
      ClosedSetHasPaths(roots, table, reach, seen, front);
      var i, j := |path| - 2, |path| - 1;
      assert table[path[j]].ppid == path[i] == front[|front| - 1];
    }
  }

  function Below(children: map<Pid, seq<Pid>>, pid: Pid): seq<Pid> {
    if pid in children then children[pid] else []
  }

  lemma StartKeepsInv(roots: seq<Pid>, table: Table)
    ensures WalkInv(roots, table, ReachableSet(roots, table), {}, PositiveOnes(roots))
  {
    forall p | p in PositiveOnes(roots) && p in table
      ensures Reachable(roots, table, p)
    {
      RootIsReachable(roots, table, p);
    }
  }

  lemma SkipKeepsInv(roots: seq<Pid>, table: Table, reach: iset<Pid>, seen: set<Pid>, stack: seq<Pid>, pid: Pid)
    requires WalkInv(roots, table, reach, seen, stack + [pid])
    requires pid in seen || pid !in table
    ensures WalkInv(roots, table, reach, seen, stack)
  {
  }

  lemma VisitKeepsInv(
    roots: seq<Pid>, table: Table, reach: iset<Pid>, below: seq<Pid>, seen: set<Pid>, stack: seq<Pid>, pid: Pid)
    requires WalkInv(roots, table, reach, seen, stack + [pid])
    requires pid in table
    requires forall c :: c in below <==> c in table && table[c].ppid == pid
    requires forall c :: c in below ==> c in reach
    ensures WalkInv(roots, table, reach, seen + {pid}, stack + below)
  {
  }

  lemma ChildrenAreReachable(roots: seq<Pid>, table: Table, children: map<Pid, seq<Pid>>, pid: Pid)
    requires Indexes(children, table, table.Keys)
    ensures forall c :: c in Below(children, pid) <==> c in table && table[c].ppid == pid
    ensures pid in ReachableSet(roots, table) ==>
              forall c :: c in Below(children, pid) ==> c in ReachableSet(roots, table)
  {
    forall c | c in Below(children, pid)
      ensures Reachable(roots, table, pid) ==> Reachable(roots, table, c)
    {
      if Reachable(roots, table, pid) {
        ChildIsReachable(roots, table, pid, c);
      }
    }
  }

  lemma EndIsExact(roots: seq<Pid>, table: Table, seen: set<Pid>, p: Pid)
    requires WalkInv(roots, table, ReachableSet(roots, table), seen, [])
    ensures p in seen <==> Reachable(roots, table, p)
  {
    if Reachable(roots, table, p) {
      var path :| IsPath(roots, table, path) && path[|path| - 1] == p;
      ClosedSetHasPaths(roots, table, ReachableSet(roots, table), seen, path);
    }
  }

  method Walk(roots: seq<Pid>, table: Table) returns (seen: set<Pid>)
    ensures forall p :: p in seen <==> Reachable(roots, table, p)
  {
    ghost var reach := ReachableSet(roots, table);
    var children := IndexChildren(table);
    seen := {};
    var stack := PositiveOnes(roots);
    StartKeepsInv(roots, table);
    while stack != []
      invariant WalkInv(roots, table, reach, seen, stack)
      decreases table.Keys - seen, |stack|
    {
      var pid := stack[|stack| - 1];
      assert stack == stack[..|stack| - 1] + [pid];
      stack := stack[..|stack| - 1];
      if pid in seen || pid !in table {
        SkipKeepsInv(roots, table, reach, seen, stack, pid);
        continue;
      }
      ChildrenAreReachable(roots, table, children, pid);
      VisitKeepsInv(roots, table, reach, Below(children, pid), seen, stack, pid);
      assert pid in table.Keys - seen && pid !in table.Keys - (seen + {pid});
      seen := seen + {pid};
      stack := stack + Below(children, pid);
    }
    forall p
      ensures p in seen <==> Reachable(roots, table, p)
    {
      EndIsExact(roots, table, seen, p);
    }
  }

  function PositiveOnes(pids: seq<Pid>): (kept: seq<Pid>)
    ensures forall p :: p in kept <==> p in pids && p.n > 0
  {
    if pids == [] then []
    else (if pids[0].n > 0 then [pids[0]] else []) + PositiveOnes(pids[1..])
  }

  // ---------------------------------------------------------------- the result

  predicate Ascending(pids: seq<Pid>) { forall i, j :: 0 <= i < j < |pids| ==> pids[i].n < pids[j].n }

  method Sorted(pids: set<Pid>) returns (sorted: seq<Pid>)
    ensures Ascending(sorted)
    ensures forall p :: p in sorted <==> p in pids
  {
    sorted := [];
    var rest := pids;
    while rest != {}
      invariant rest <= pids && Ascending(sorted)
      invariant forall p :: p in sorted <==> p in pids && p !in rest
      invariant forall p, q :: p in sorted && q in rest ==> p.n < q.n
      decreases |rest|
    {
      var least := Least(rest);
      ghost var before := sorted;
      assert forall i :: 0 <= i < |sorted| ==> sorted[i] in sorted;
      sorted := sorted + [least];
      rest := rest - {least};
      assert forall p :: p in sorted <==> p in before || p == least;
    }
  }

  method Least(pids: set<Pid>) returns (least: Pid)
    requires pids != {}
    ensures least in pids && forall p :: p in pids ==> least.n <= p.n
  {
    least :| least in pids;
    var rest := pids - {least};
    while rest != {}
      invariant least in pids && rest <= pids
      invariant forall p :: p in pids && p !in rest ==> least.n <= p.n
      decreases |rest|
    {
      var p :| p in rest;
      if p.n < least.n {
        least := p;
      }
      rest := rest - {p};
    }
  }

  /** On every table, cyclic or not: the pids are exactly the table's processes that some positive
      root leads to, in ascending order without repetition, and each one's memory is summed once. */
  method CollectTree(roots: seq<Pid>, table: Table) returns (rss: int, vsz: int, pids: seq<Pid>)
    ensures Ascending(pids)
    ensures forall p :: p in pids <==> Reachable(roots, table, p)
    ensures forall p :: p in pids ==> p in table
    ensures rss == SumRss(table, pids) && vsz == SumVsz(table, pids)
  {
    var seen := Walk(roots, table);
    pids := Sorted(seen);
    forall p | p in pids
      ensures p in table
    {
      var path :| IsPath(roots, table, path) && path[|path| - 1] == p;
    }
    rss, vsz := 0, 0;
    for i := 0 to |pids|
      invariant rss == SumRss(table, pids[..i]) && vsz == SumVsz(table, pids[..i])
    {
      assert pids[..i + 1][..i] == pids[..i];
      rss, vsz := rss + table[pids[i]].rss, vsz + table[pids[i]].vsz;
    }
    assert pids[..|pids|] == pids;
  }
}
