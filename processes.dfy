/**
 * The process records of the CPU-scheduling simulator (ProcessSchedulingGUI.Process)
 * and what every policy shares: creation from the input arrays, the figures a
 * finished process gets, the Gantt chart's entries, and the "first minimum
 * wins" selection scan.
 */
module Processes {

  /** One process: id, arrival, burst, priority, remaining time and the figures filled in when it finishes. */
  datatype Process = Process(id: int, at: int, bt: int, pr: int, rt: int, ct: int, wt: int, tat: int)

  /** The Gantt chart entry for a tick where no process runs. */
  const IDLE: int := -1

  datatype Option<T> = None | Some(value: T)

  function Arrival(p: Process): int { p.at }

  function Id(p: Process): int { p.id }

  /**
   * The process list built from the input arrays: process i gets id i+1, and its
   * remaining time starts at its burst.
   */
  function Created(at: seq<int>, bt: seq<int>, pr: seq<int>): (ps: seq<Process>)
    requires |at| >= |bt| && |pr| >= |bt|
  {
    seq(|bt|, i requires 0 <= i < |bt| => Process(i + 1, at[i], bt[i], pr[i], bt[i], 0, 0, 0))
  }

  /** The ids of the created processes are 1, 2, ..., n: increasing, and never the idle marker. */
  lemma CreatedIds(at: seq<int>, bt: seq<int>, pr: seq<int>)
    requires |at| >= |bt| && |pr| >= |bt|
    ensures var ps := Created(at, bt, pr);
      && (forall i, j :: 0 <= i < j < |ps| ==> ps[i].id < ps[j].id)
      && (forall i :: 0 <= i < |ps| ==> ps[i].id == i + 1 && ps[i].id != IDLE)
      && (forall i :: 0 <= i < |ps| ==> ps[i].rt == ps[i].bt && ps[i].at == at[i] && ps[i].bt == bt[i] && ps[i].pr == pr[i])
  {
  }

  /** The figures every policy sets when a process completes at time ct: tat = ct - at and wt = tat - bt. */
  function Finished(p: Process, ct: int): Process {
    p.(ct := ct, tat := ct - p.at, wt := ct - p.at - p.bt)
  }

  /** The relation between the figures of a finished process. */
  ghost predicate Settled(p: Process) {
    p.tat == p.ct - p.at && p.wt == p.tat - p.bt
  }

  /** Two records describe the same job: same id, arrival, burst and priority. */
  ghost predicate SameJob(p: Process, q: Process) {
    p.id == q.id && p.at == q.at && p.bt == q.bt && p.pr == q.pr
  }

  /** Rows of a table that keep, one by one, the jobs of a list. */
  ghost predicate SameJobs(table: seq<Process>, q: seq<Process>) {
    |table| == |q| && forall i :: 0 <= i < |q| ==> SameJob(table[i], q[i])
  }

  /** The ids of `ps` are pairwise distinct and none is the idle marker. */
  ghost predicate DistinctIds(ps: seq<Process>) {
    && (forall i, j :: 0 <= i < j < |ps| ==> ps[i].id != ps[j].id)
    && (forall i :: 0 <= i < |ps| ==> ps[i].id != IDLE)
  }

  /** A value occurring at least twice sits at two different positions. */
  lemma {:induction false} TwiceIn<T>(s: seq<T>, v: T)
    requires multiset(s)[v] >= 2
    ensures exists a, b :: 0 <= a < b < |s| && s[a] == v && s[b] == v
  {
    assert s == [s[0]] + s[1..];
    if s[0] == v {
      assert v in multiset(s[1..]);
      var b :| 0 <= b < |s[1..]| && s[1..][b] == v;
      assert s[b + 1] == v;
    } else {
      TwiceIn(s[1..], v);
      var a, b :| 0 <= a < b < |s[1..]| && s[1..][a] == v && s[1..][b] == v;
      assert s[a + 1] == v && s[b + 1] == v;
    }
  }

  /** Reordering a list keeps its ids distinct. */
  lemma DistinctIdsPermuted(ps: seq<Process>, qs: seq<Process>)
    requires multiset(ps) == multiset(qs) && DistinctIds(ps)
    ensures DistinctIds(qs)
  {
    forall i, j | 0 <= i < j < |qs|
      ensures qs[i].id != qs[j].id
    {
      if qs[i] == qs[j] {
        assert qs == qs[..i] + [qs[i]] + qs[i + 1..j] + [qs[j]] + qs[j + 1..];
        TwiceIn(ps, qs[i]);
      } else {
        assert qs[i] in multiset(ps) && qs[j] in multiset(ps);
        var a :| 0 <= a < |ps| && ps[a] == qs[i];
        var b :| 0 <= b < |ps| && ps[b] == qs[j];
        assert a != b;
      }
    }
    forall i | 0 <= i < |qs|
      ensures qs[i].id != IDLE
    {
      assert qs[i] in multiset(ps);
    }
  }

  /** No process of `ps` has id x. */
  ghost predicate NotAnId(ps: seq<Process>, x: int) {
    forall k :: 0 <= k < |ps| ==> ps[k].id != x
  }

  /** The Gantt entries of a run of k ticks of process x: none when k is not positive. */
  function Repeat(x: int, k: int): seq<int> {
    seq(if k > 0 then k else 0, _ => x)
  }

  lemma {:induction false} RepeatCount(x: int, k: int)
    requires k >= 0
    ensures multiset(Repeat(x, k))[x] == k
    ensures forall y :: y != x ==> multiset(Repeat(x, k))[y] == 0
  {
    if k > 0 {
      RepeatCount(x, k - 1);
      assert Repeat(x, k) == Repeat(x, k - 1) + [x];
    }
  }

  /** `for (int i = 0; i < k; i++) gList.add(x);` */
  method AddEntries(gantt: seq<int>, x: int, k: int) returns (gantt': seq<int>)
    ensures gantt' == gantt + Repeat(x, k)
  {
    gantt' := gantt;
    var i := 0;
    while i < k
      invariant 0 <= i && (k >= 0 ==> i <= k) && (k < 0 ==> i == 0)
      invariant gantt' == gantt + Repeat(x, i)
    {
      assert Repeat(x, i + 1) == Repeat(x, i) + [x];
      gantt' := gantt' + [x];
      i := i + 1;
    }
    assert Repeat(x, i) == Repeat(x, k);
  }

  /** A schedule: the process table in its printed order and the Gantt chart. */
  datatype Chart = Chart(table: seq<Process>, gantt: seq<int>)

  /**
   * The selection scan: among the first n candidates (None = not eligible,
   * Some(key) = eligible with that key), the first one whose key is minimal
   * (the comparison is strict, so the earliest wins ties), or None.
   */
  function FirstMin(c: seq<Option<int>>, n: nat): (r: Option<nat>)
    requires n <= |c|
    ensures r.None? <==> forall i :: 0 <= i < n ==> c[i].None?
    ensures r.Some? ==> r.value < n && c[r.value].Some?
    ensures r.Some? ==> forall i :: 0 <= i < n && c[i].Some? ==> c[r.value].value <= c[i].value
    ensures r.Some? ==> forall i :: 0 <= i < r.value && c[i].Some? ==> c[r.value].value < c[i].value
  {
    if n == 0 then None
    else
      var b := FirstMin(c, n - 1);
      if c[n - 1].Some? && (b.None? || c[n - 1].value < c[b.value].value) then Some(n - 1) else b
  }

  /** The criterion of SJF (burst, or remaining time when preemptive) or of Priority (priority number). */
  datatype Criterion = ShortestJob | Priority

  function Max(a: int, b: int): int { if a >= b then a else b }

  function Min(a: int, b: int): int { if a <= b then a else b }

  /** The largest arrival time, or 0 for no processes; the clock passes it only while idle. */
  function LatestArrival(ps: seq<Process>): int {
    if ps == [] then 0 else Max(ps[0].at, LatestArrival(ps[1..]))
  }

  lemma {:induction false} LatestArrivalBounds(ps: seq<Process>)
    ensures forall i :: 0 <= i < |ps| ==> ps[i].at <= LatestArrival(ps)
  {
    if ps != [] {
      LatestArrivalBounds(ps[1..]);
      assert forall i :: 1 <= i < |ps| ==> ps[i] == ps[1..][i - 1];
    }
  }

  /** Records with the same arrival times have the same latest arrival. */
  lemma {:induction false} LatestArrivalSame(ps: seq<Process>, qs: seq<Process>)
    requires |ps| == |qs| && forall i :: 0 <= i < |ps| ==> ps[i].at == qs[i].at
    ensures LatestArrival(ps) == LatestArrival(qs)
  {
    if ps != [] {
      LatestArrivalSame(ps[1..], qs[1..]);
    }
  }

  // ---------------------------------------------------------------------
  // Running processes tick by tick (preemptive policies and Round Robin)

  /** The total time left over all processes. */
  function Left(procs: seq<Process>): nat {
    if procs == [] then 0 else (if procs[0].rt > 0 then procs[0].rt else 0) + Left(procs[1..])
  }

  /** Replacing one record changes the total time left by that record's share only. */
  lemma {:induction false} LeftUpdate(procs: seq<Process>, i: nat, q: Process)
    requires i < |procs|
    ensures Left(procs[i := q]) == Left(procs) - (if procs[i].rt > 0 then procs[i].rt else 0) + (if q.rt > 0 then q.rt else 0)
  {
    if i > 0 {
      LeftUpdate(procs[1..], i - 1, q);
      assert procs[i := q][1..] == procs[1..][i - 1 := q];
    }
  }

  /** A freshly created list: distinct ids, and remaining time equal to a positive burst. */
  ghost predicate Fresh(ps: seq<Process>) {
    DistinctIds(ps) && forall k :: 0 <= k < |ps| ==> ps[k].rt == ps[k].bt > 0
  }

  /** A list not yet run: distinct ids, and remaining time equal to a non-negative burst. */
  ghost predicate Unrun(ps: seq<Process>) {
    DistinctIds(ps) && forall k :: 0 <= k < |ps| ==> ps[k].rt == ps[k].bt >= 0
  }

  /** Process p after running `ex` ticks from `time`; it completes at the end when nothing is left. */
  function Ran(p: Process, ex: int, time: int): Process {
    var q := p.(rt := p.rt - ex);
    if q.rt == 0 then Finished(q, time + ex) else q
  }

  /**
   * A completed process i of the list `init`: settled figures, a completion
   * time not before arrival plus burst and not after the chart's end, its last
   * chart entry in the tick just before completion and none after.
   */
  ghost predicate Completed(init: seq<Process>, procs: seq<Process>, gantt: seq<int>, i: int)
    requires 0 <= i < |init| == |procs|
  {
    && Settled(procs[i])
    && init[i].at + init[i].bt <= procs[i].ct <= |gantt|
    && 1 <= procs[i].ct
    && gantt[procs[i].ct - 1] == init[i].id
    && (forall t :: procs[i].ct <= t < |gantt| ==> gantt[t] != init[i].id)
  }

  /**
   * The chart accounts for the records run so far from the list `init`: every
   * record keeps its job and a remaining time between 0 and its burst; the chart
   * holds `bt - rt` entries of each process, the last of them not before its
   * arrival plus that many ticks; a process with nothing left is Completed;
   * every other entry is idle.
   */
  ghost predicate Accounted(init: seq<Process>, procs: seq<Process>, gantt: seq<int>) {
    && |procs| == |init|
    && (forall i :: 0 <= i < |init| ==> SameJob(procs[i], init[i]) && 0 <= procs[i].rt <= init[i].bt)
    && (forall i :: 0 <= i < |init| ==> multiset(gantt)[init[i].id] == init[i].bt - procs[i].rt)
    && (forall i :: 0 <= i < |init| && procs[i].rt < init[i].bt ==> init[i].at + init[i].bt - procs[i].rt <= |gantt|)
    && (forall i :: 0 <= i < |init| && procs[i].rt == 0 ==> Completed(init, procs, gantt, i))
    && (forall x :: x != IDLE && NotAnId(init, x) ==> multiset(gantt)[x] == 0)
  }

  lemma AccountedStart(ps: seq<Process>)
    requires Fresh(ps)
    ensures Accounted(ps, ps, [])
  {
  }

  /** An idle tick keeps the account. */
  lemma IdleAccounted(init: seq<Process>, procs: seq<Process>, gantt: seq<int>)
    requires Accounted(init, procs, gantt) && Fresh(init)
    ensures Accounted(init, procs, gantt + [IDLE])
  {
    assert multiset(gantt + [IDLE]) == multiset(gantt) + multiset{IDLE};
    forall i | 0 <= i < |init| && procs[i].rt == 0
      ensures Completed(init, procs, gantt + [IDLE], i)
    {
      assert Completed(init, procs, gantt, i);
    }
  }

  /** Running an arrived process for `ex` ticks, at most its remaining time, keeps the account. */
  lemma RunAccounted(init: seq<Process>, procs: seq<Process>, gantt: seq<int>, i: nat, ex: int)
    requires Accounted(init, procs, gantt) && Fresh(init)
    requires i < |procs| && procs[i].at <= |gantt| && 0 < ex <= procs[i].rt
    ensures Accounted(init, procs[i := Ran(procs[i], ex, |gantt|)], gantt + Repeat(procs[i].id, ex))
  {
    var id := init[i].id;
    var block := Repeat(id, ex);
    var g := gantt + block;
    var ps := procs[i := Ran(procs[i], ex, |gantt|)];
    RunCounts(init, procs, gantt, i, ex);
    forall j | 0 <= j < |init| && j != i && procs[j].rt == 0
      ensures Completed(init, ps, g, j)
    {
      assert Completed(init, procs, gantt, j);
      assert init[j].id != id;
      CompletedKept(init, procs, gantt, j, ps, block);
    }
    RanRecord(init, procs, gantt, i, ex);
  }

  /** The record of the process that ran, after `ex` ticks: its job kept, its progress and its completion accounted. */
  lemma RanRecord(init: seq<Process>, procs: seq<Process>, gantt: seq<int>, i: nat, ex: int)
    requires Accounted(init, procs, gantt) && Fresh(init)
    requires i < |procs| && procs[i].at <= |gantt| && 0 < ex <= procs[i].rt
    ensures var ps := procs[i := Ran(procs[i], ex, |gantt|)]; var g := gantt + Repeat(init[i].id, ex);
      && SameJob(ps[i], init[i]) && 0 <= ps[i].rt <= init[i].bt
      && init[i].at + init[i].bt - ps[i].rt <= |g|
      && (ps[i].rt == 0 ==> Completed(init, ps, g, i))
  {
    var ps := procs[i := Ran(procs[i], ex, |gantt|)];
    var block := Repeat(init[i].id, ex);
    var g := gantt + block;
    if ps[i].rt == 0 {
      assert g[ps[i].ct - 1] == block[ex - 1];
    }
  }

  /** The chart counts after running process i for `ex` ticks: its count grows by `ex`, no other changes. */
  lemma RunCounts(init: seq<Process>, procs: seq<Process>, gantt: seq<int>, i: nat, ex: int)
    requires Accounted(init, procs, gantt) && Fresh(init)
    requires i < |procs| && 0 < ex <= procs[i].rt
    ensures var g := gantt + Repeat(init[i].id, ex);
      && multiset(g)[init[i].id] == multiset(gantt)[init[i].id] + ex
      && (forall j :: 0 <= j < |init| && j != i ==> multiset(g)[init[j].id] == multiset(gantt)[init[j].id])
      && (forall x :: x != IDLE && NotAnId(init, x) ==> multiset(g)[x] == 0)
  {
    var id := init[i].id;
    var block := Repeat(id, ex);
    var g := gantt + block;
    assert multiset(g) == multiset(gantt) + multiset(block);
    RepeatCount(id, ex);
    forall j | 0 <= j < |init| && j != i
      ensures multiset(g)[init[j].id] == multiset(gantt)[init[j].id]
    {
      assert init[j].id != id;
    }
  }

  /** Appending entries of other processes leaves a completed record completed. */
  lemma CompletedKept(init: seq<Process>, procs: seq<Process>, gantt: seq<int>, j: nat, ps: seq<Process>, block: seq<int>)
    requires j < |init| == |procs| == |ps| && ps[j] == procs[j]
    requires Completed(init, procs, gantt, j)
    requires forall t :: 0 <= t < |block| ==> block[t] != init[j].id
    ensures Completed(init, ps, gantt + block, j)
  {
    var g := gantt + block;
    assert g[ps[j].ct - 1] == gantt[procs[j].ct - 1];
  }

  /** The facts about a record with nothing left, unpacked. */
  lemma FinalRecord(init: seq<Process>, procs: seq<Process>, gantt: seq<int>, i: nat)
    requires Accounted(init, procs, gantt) && i < |init|
    requires procs[i].rt <= 0
    ensures && SameJob(procs[i], init[i])
            && procs[i].rt == 0
            && Settled(procs[i])
            && procs[i].wt >= 0
            && multiset(gantt)[init[i].id] == init[i].bt
            && 1 <= procs[i].ct <= |gantt|
            && gantt[procs[i].ct - 1] == init[i].id
            && (forall t :: procs[i].ct <= t < |gantt| ==> gantt[t] != init[i].id)
  {
    assert Completed(init, procs, gantt, i);
  }
}
