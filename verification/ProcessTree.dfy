/**
 The CPU time of a process and its descendants, from one listing of all processes. The
 listing is taken at no single moment, so its parent relation may have cycles, repeated
 rows and processes without a parent.
 */
module ProcessTree {
  import opened Wrappers
  import opened Reachability

  // A listing row; the CPU time is None when it does not parse.
  datatype Row = Row(pid: nat, ppid: nat, cpuMs: Option<nat>)

  type Children = map<nat, seq<nat>>

  // The CPU times listed: of two rows for a process the later counts.
  function CpuTimes(rows: seq<Row>): map<nat, nat> {
    if rows == [] then map[]
    else
      var before, last := CpuTimes(rows[..|rows| - 1]), rows[|rows| - 1];
      if last.cpuMs.Some? then before[last.pid := last.cpuMs.value] else before
  }

  // The processes the listing names as children of a process.
  function ChildrenOf(rows: seq<Row>, pid: nat): seq<nat> {
    if rows == [] then []
    else
      var last := rows[|rows| - 1];
      ChildrenOf(rows[..|rows| - 1], pid) + if last.ppid == pid && last.cpuMs.Some? then [last.pid] else []
  }

  // Process 0 is nobody's child.
  function NonZero(pids: seq<nat>): seq<nat> {
    if pids == [] then []
    else NonZero(pids[..|pids| - 1]) + if pids[|pids| - 1] != 0 then [pids[|pids| - 1]] else []
  }

  function Tree(rows: seq<Row>): nat -> seq<nat> {
    (pid: nat) => NonZero(ChildrenOf(rows, pid))
  }

  function CpuOf(cpu: map<nat, nat>, pid: nat): nat {
    if pid in cpu then cpu[pid] else 0
  }

  // The CPU time of a set of processes; one that is not listed has none.
  ghost function Total(cpu: map<nat, nat>, pids: set<nat>): nat {
    if pids == {} then 0
    else
      var pid :| pid in pids;
      CpuOf(cpu, pid) + Total(cpu, pids - {pid})
  }

  lemma {:induction false} TotalOfMore(cpu: map<nat, nat>, pids: set<nat>, pid: nat)
    requires pid !in pids
    ensures Total(cpu, pids + {pid}) == Total(cpu, pids) + CpuOf(cpu, pid)
    decreases |pids|
  {
    var all := pids + {pid};
    var first :| first in all && Total(cpu, all) == CpuOf(cpu, first) + Total(cpu, all - {first});
    if first == pid {
      assert all - {pid} == pids;
    } else {
      assert all - {first} == (pids - {first}) + {pid};
      TotalOfMore(cpu, pids - {first}, pid);
      TotalOfMore(cpu, pids - {first}, first);
      assert (pids - {first}) + {first} == pids;
    }
  }

  function Lookup(children: Children, pid: nat): seq<nat> {
    if pid in children then children[pid] else []
  }

  // Reading the listing into the two maps.
  method Index(rows: seq<Row>) returns (children: Children, cpu: map<nat, nat>)
    ensures forall pid :: Lookup(children, pid) == ChildrenOf(rows, pid)
    ensures cpu == CpuTimes(rows)
  {
    children, cpu := map[], map[];
    for i := 0 to |rows|
      invariant forall pid :: Lookup(children, pid) == ChildrenOf(rows[..i], pid)
      invariant cpu == CpuTimes(rows[..i])
    {
      var row := rows[i];
      assert rows[..i + 1][..i] == rows[..i];
      if row.cpuMs.None? {
        continue;
      }
      cpu := cpu[row.pid := row.cpuMs.value];
      children := children[row.ppid := Lookup(children, row.ppid) + [row.pid]];
    }
    assert rows[..|rows|] == rows;
  }

  lemma {:induction false} NonZeroHas(pids: seq<nat>, pid: nat)
    ensures pid in NonZero(pids) <==> pid in pids && pid != 0
    decreases |pids|
  {
    if pids != [] {
      NonZeroHas(pids[..|pids| - 1], pid);
      assert pids == pids[..|pids| - 1] + [pids[|pids| - 1]];
    }
  }

  lemma {:induction false} ChildIsListed(rows: seq<Row>, pid: nat, child: nat)
    requires child in ChildrenOf(rows, pid)
    ensures exists i :: 0 <= i < |rows| && rows[i].pid == child
    decreases |rows|
  {
    var front := rows[..|rows| - 1];
    if child in ChildrenOf(front, pid) {
      ChildIsListed(front, pid, child);
      var i :| 0 <= i < |front| && front[i].pid == child;
      assert rows[i].pid == child;
    } else {
      assert rows[|rows| - 1].pid == child;
    }
  }

  lemma TreeHas(rows: seq<Row>)
    ensures forall pid: nat, child: nat :: child in Tree(rows)(pid) <==> child in ChildrenOf(rows, pid) && child != 0
  {
    forall pid: nat, child: nat
      ensures child in NonZero(ChildrenOf(rows, pid)) <==> child in ChildrenOf(rows, pid) && child != 0
    {
      NonZeroHas(ChildrenOf(rows, pid), child);
    }
  }

  ghost function Universe(rows: seq<Row>, root: nat): set<nat> {
    {root} + set i | 0 <= i < |rows| :: rows[i].pid
  }

  // The last row of a process that has a CPU time.
  predicate LastTimed(rows: seq<Row>, pid: nat, i: int) {
    && 0 <= i < |rows| && rows[i].pid == pid && rows[i].cpuMs.Some?
    && forall j | i < j < |rows| :: !(rows[j].pid == pid && rows[j].cpuMs.Some?)
  }

  // A process has a time exactly when some row gives one, and then the last such row's.
  lemma {:induction false} CpuTimesAre(rows: seq<Row>, pid: nat) returns (i: int)
    ensures pid in CpuTimes(rows) <==> exists k :: 0 <= k < |rows| && rows[k].pid == pid && rows[k].cpuMs.Some?
    ensures pid in CpuTimes(rows) ==> LastTimed(rows, pid, i) && CpuTimes(rows)[pid] == rows[i].cpuMs.value
    decreases |rows|
  {
    i := -1;
    if rows != [] {
      var front, last := rows[..|rows| - 1], rows[|rows| - 1];
      i := CpuTimesAre(front, pid);
      assert forall k | 0 <= k < |front| :: rows[k] == front[k];
      if last.pid == pid && last.cpuMs.Some? {
        i := |rows| - 1;
      }
    }
  }

  // One process is below another in the tree exactly when a row with a CPU time says so, process
  // 0 being below none.
  lemma TreeIs(rows: seq<Row>, pid: nat, child: nat)
    ensures child in Tree(rows)(pid)
       <==> child != 0 && exists i ::
         0 <= i < |rows| && rows[i] == Row(child, pid, rows[i].cpuMs) && rows[i].cpuMs.Some?
  {
    NonZeroHas(ChildrenOf(rows, pid), child);
    ChildrenAre(rows, pid, child);
  }

  lemma {:induction false} ChildrenAre(rows: seq<Row>, pid: nat, child: nat)
    ensures child in ChildrenOf(rows, pid)
       <==> exists i :: 0 <= i < |rows| && rows[i] == Row(child, pid, rows[i].cpuMs) && rows[i].cpuMs.Some?
    decreases |rows|
  {
    if rows != [] {
      var front, last := rows[..|rows| - 1], rows[|rows| - 1];
      ChildrenAre(front, pid, child);
      assert forall k | 0 <= k < |front| :: rows[k] == front[k];
      if last == Row(child, pid, last.cpuMs) && last.cpuMs.Some? {
        assert rows[|rows| - 1] == last;
      }
    }
  }

  ghost predicate Describes(children: Children, next: nat -> seq<nat>) {
    forall pid: nat, child: nat :: child in next(pid) <==> child in Lookup(children, pid) && child != 0
  }

  lemma SkipOne(children: Children, next: nat -> seq<nat>, root: nat, marked: set<nat>, stack: seq<nat>, pid: nat)
    requires Describes(children, next) && root != 0
    requires Walk(next, root, {0}, marked, stack + [pid]) && (pid == 0 || pid in marked)
    ensures Walk(next, root, {0}, marked, stack)
  {
    WalkSkips(next, root, {0}, marked, stack, pid);
  }

  lemma VisitOne(children: Children, next: nat -> seq<nat>, root: nat, marked: set<nat>, stack: seq<nat>, pid: nat)
    requires Describes(children, next) && Walk(next, root, {0}, marked, stack + [pid]) && pid != 0
    ensures Walk(next, root, {0}, marked + {pid}, stack + Lookup(children, pid))
  {
    WalkVisits(next, root, {0}, marked, stack, pid, Lookup(children, pid));
  }

  // The total is that of exactly the processes reachable from the root.
  ghost predicate TotalsTree(cpu: map<nat, nat>, next: nat -> seq<nat>, root: nat, total: nat) {
    exists tree: set<nat> :: (forall pid :: pid in tree <==> Reachable(next, root, pid)) && total == Total(cpu, tree)
  }

  // The stack loop. `next` is the tree the children map describes.
  method SumTree(children: Children, cpu: map<nat, nat>, root: nat, ghost next: nat -> seq<nat>,
                 ghost universe: set<nat>)
    returns (totalCpuMs: nat)
    requires root != 0 && root in universe
    requires Describes(children, next) && forall pid, child | child in Lookup(children, pid) :: child in universe
    ensures TotalsTree(cpu, next, root, totalCpuMs)
  {
    var marked: set<nat>, stack := {}, [root];
    totalCpuMs := 0;
    WalkStarts(next, root, {0});
    while |stack| > 0
      invariant marked <= universe && forall pid | pid in stack :: pid in universe
      invariant totalCpuMs == Total(cpu, marked)
      invariant Walk(next, root, {0}, marked, stack)
      decreases |universe - marked|, |stack|
    {
      var pid := stack[|stack| - 1];
      ghost var before := stack;
      stack := stack[..|stack| - 1];
      assert before == stack + [pid];
      if pid == 0 || pid in marked {
        SkipOne(children, next, root, marked, stack, pid);
        continue;
      }
      assert pid in before;
      FewerLeft(universe, marked, pid);
      TotalOfMore(cpu, marked, pid);
      VisitOne(children, next, root, marked, stack, pid);
      marked := marked + {pid};
      totalCpuMs := totalCpuMs + CpuOf(cpu, pid);
      stack := stack + Lookup(children, pid);
    }
    WalkEnds(next, root, {0}, marked);
  }

  // The total counts every process reachable from the root over non-zero process ids once,
  // and the walk terminates whatever the listing says. `root` None stands for a missing or
  // zero process id.
  method ReadProcessTreeCpuMs(root: Option<nat>, rows: seq<Row>) returns (total: Option<nat>)
    ensures total.Some? <==> root.Some? && root.value != 0 && root.value in CpuTimes(rows)
    ensures total.Some? ==> TotalsTree(CpuTimes(rows), Tree(rows), root.value, total.value)
  {
    if root.None? || root.value == 0 {
      return None;
    }
    var childrenByParent, cpuByPid := Index(rows);
    if root.value !in cpuByPid {
      return None;
    }
    TreeHas(rows);
    forall pid, child | child in ChildrenOf(rows, pid) ensures child in Universe(rows, root.value) {
      ChildIsListed(rows, pid, child);
    }
    var sum := SumTree(childrenByParent, cpuByPid, root.value, Tree(rows), Universe(rows, root.value));
    return Some(sum);
  }
}
