/**
 * Preemptive SJF and Priority (the "SJF (Preemptive)" and "Priority
 * (Preemptive)" branches of ProcessSchedulingGUI.schedule).  The list keeps its
 * input order.  Each tick, a scan picks the first arrived process with time
 * left whose remaining time (SJF) or priority number (Priority) is smallest; it
 * runs for one tick and completes when its remaining time reaches 0.  When no
 * process is ready the tick is idle.
 */
module Preemptive {

  import opened Processes

  /** The loop's variables: the records, the chart, the clock and the completed count. */
  datatype PState = PState(procs: seq<Process>, gantt: seq<int>, time: int, completed: nat)

  /** The scan's key: remaining time for SJF, priority number for Priority. */
  function PKey(c: Criterion, p: Process): int {
    if c == ShortestJob then p.rt else p.pr
  }

  /** Process i competes when it has arrived by `time` and has time left. */
  function Candidates(c: Criterion, procs: seq<Process>, time: int): seq<Option<int>> {
    seq(|procs|, i requires 0 <= i < |procs| => if procs[i].at <= time && procs[i].rt > 0 then Some(PKey(c, procs[i])) else None)
  }

  /** The number of processes with time left. */
  function Pending(procs: seq<Process>): nat {
    if procs == [] then 0 else (if procs[0].rt > 0 then 1 else 0) + Pending(procs[1..])
  }

  /** Replacing one record changes the pending count by that record's share only. */
  lemma {:induction false} PendingUpdate(procs: seq<Process>, i: nat, q: Process)
    requires i < |procs|
    ensures Pending(procs[i := q]) == Pending(procs) - (if procs[i].rt > 0 then 1 else 0) + (if q.rt > 0 then 1 else 0)
  {
    if i > 0 {
      PendingUpdate(procs[1..], i - 1, q);
      assert procs[i := q][1..] == procs[1..][i - 1 := q];
    }
  }

  /** No process has time left exactly when the pending count is 0. */
  lemma {:induction false} PendingNone(procs: seq<Process>)
    ensures Pending(procs) == 0 <==> forall i :: 0 <= i < |procs| ==> procs[i].rt <= 0
  {
    if procs != [] {
      PendingNone(procs[1..]);
      assert forall i :: 1 <= i < |procs| ==> procs[i] == procs[1..][i - 1];
    }
  }

  /** The loop's bookkeeping: a process is completed exactly when it has no time left. */
  ghost predicate Wf(s: PState) {
    s.completed + Pending(s.procs) == |s.procs|
  }

  /** The idle branch: one idle entry, one tick. */
  function Idle(s: PState): PState {
    s.(gantt := s.gantt + [IDLE], time := s.time + 1)
  }

  /** Process i runs for one tick, completing at the end of the tick when nothing is left. */
  function Tick(s: PState, i: nat): PState
    requires i < |s.procs|
  {
    var p := Ran(s.procs[i], 1, s.time);
    PState(s.procs[i := p], s.gantt + [p.id], s.time + 1, if p.rt == 0 then s.completed + 1 else s.completed)
  }

  /** One iteration of `while (completed < n)`. */
  function Step(c: Criterion, s: PState): PState {
    match FirstMin(Candidates(c, s.procs, s.time), |s.procs|)
    case None => Idle(s)
    case Some(i) => Tick(s, i)
  }

  /** Ticks the clock still has to idle before the last arrival. */
  function Wait(s: PState): nat {
    if LatestArrival(s.procs) > s.time then LatestArrival(s.procs) - s.time else 0
  }

  /** A step keeps the bookkeeping and either uses up one tick of work or idles towards the last arrival. */
  lemma StepProgress(c: Criterion, s: PState)
    requires Wf(s) && s.completed < |s.procs|
    ensures Wf(Step(c, s))
    ensures Left(Step(c, s).procs) < Left(s.procs)
      || (Step(c, s).procs == s.procs && Wait(Step(c, s)) < Wait(s))
  {
    var cands := Candidates(c, s.procs, s.time);
    match FirstMin(cands, |s.procs|)
    case None =>
      PendingNone(s.procs);
      var k :| 0 <= k < |s.procs| && s.procs[k].rt > 0;
      assert cands[k].None?;
      LatestArrivalBounds(s.procs);
    case Some(i) =>
      assert cands[i].Some?;
      PendingUpdate(s.procs, i, Ran(s.procs[i], 1, s.time));
      LeftUpdate(s.procs, i, Ran(s.procs[i], 1, s.time));
  }

  /** The whole loop, from state s until every process is completed. */
  function Run(c: Criterion, s: PState): PState
    requires Wf(s)
    decreases Left(s.procs), Wait(s)
  {
    if s.completed >= |s.procs| then s
    else
      StepProgress(c, s);
      Run(c, Step(c, s))
  }

  /** The state the loop starts from; it needs every process to have time left. */
  function Start(ps: seq<Process>): (s: PState)
    requires forall k :: 0 <= k < |ps| ==> ps[k].rt > 0
    ensures Wf(s)
  {
    PendingAll(ps);
    PState(ps, [], 0, 0)
  }

  lemma {:induction false} PendingAll(ps: seq<Process>)
    requires forall k :: 0 <= k < |ps| ==> ps[k].rt > 0
    ensures Pending(ps) == |ps|
  {
    if ps != [] {
      PendingAll(ps[1..]);
    }
  }

  /** The schedule of a process list (in input order) whose processes all have time left. */
  function Preemptive(c: Criterion, ps: seq<Process>): Chart
    requires forall k :: 0 <= k < |ps| ==> ps[k].rt > 0
  {
    var r := Run(c, Start(ps));
    Chart(r.procs, r.gantt)
  }

  // ---------------------------------------------------------------------
  // The selection rule

  /** Process i has arrived by the clock and has time left. */
  ghost predicate Ready(s: PState, i: int)
    requires 0 <= i < |s.procs|
  {
    s.procs[i].at <= s.time && s.procs[i].rt > 0
  }

  /** Process i is ready, no ready process has a smaller key, and every ready one before it has a larger key. */
  ghost predicate FirstBest(c: Criterion, s: PState, i: int)
    requires 0 <= i < |s.procs|
  {
    && Ready(s, i)
    && (forall j :: 0 <= j < |s.procs| && Ready(s, j) ==> PKey(c, s.procs[i]) <= PKey(c, s.procs[j]))
    && (forall j :: 0 <= j < i && Ready(s, j) ==> PKey(c, s.procs[i]) < PKey(c, s.procs[j]))
  }

  /**
   * The tick idles exactly when no process is ready, and otherwise runs the one
   * ready process that is first among those of least key.
   */
  lemma StepRule(c: Criterion, s: PState)
    ensures (forall i :: 0 <= i < |s.procs| ==> !Ready(s, i)) ==> Step(c, s) == Idle(s)
    ensures (exists i :: 0 <= i < |s.procs| && Ready(s, i)) ==>
      exists i :: 0 <= i < |s.procs| && FirstBest(c, s, i)
    ensures forall i :: 0 <= i < |s.procs| && FirstBest(c, s, i) ==> Step(c, s) == Tick(s, i)
  {
    var cands := Candidates(c, s.procs, s.time);
    var r := FirstMin(cands, |s.procs|);
    assert forall i :: 0 <= i < |s.procs| ==> (cands[i].Some? <==> Ready(s, i));
    if r.Some? {
      assert FirstBest(c, s, r.value);
      forall i | 0 <= i < |s.procs| && FirstBest(c, s, i)
        ensures i == r.value
      {
      }
    }
  }

  // ---------------------------------------------------------------------
  // The branch over arrays

  /** The selection scan; -1 when no process is ready. */
  method Pick(c: Criterion, ps: array<Process>, time: int) returns (idx: int)
    ensures idx == match FirstMin(Candidates(c, ps[..], time), ps.Length)
                   case None => -1
                   case Some(i) => i
  {
    ghost var cands := Candidates(c, ps[..], time);
    idx := -1;
    for i := 0 to ps.Length
      invariant FirstMin(cands, i) == if idx < 0 then None else Some(idx)
      invariant idx < i
    {
      var p := ps[i];
      if p.at <= time && p.rt > 0 && (idx < 0 || PKey(c, p) < PKey(c, ps[idx])) {
        idx := i;
      }
    }
  }

  /** The loop's variables as a state. */
  function Snapshot(ps: array<Process>, gantt: seq<int>, time: int, completed: nat): PState
    reads ps
  {
    PState(ps[..], gantt, time, completed)
  }

  /** One iteration of the loop: an idle tick, or one tick of the picked process. */
  method Iterate(c: Criterion, ps: array<Process>, gantt: seq<int>, time: int, completed: nat)
    returns (gantt': seq<int>, time': int, completed': nat)
    modifies ps
    ensures Snapshot(ps, gantt', time', completed') == Step(c, old(Snapshot(ps, gantt, time, completed)))
  {
    ghost var s := Snapshot(ps, gantt, time, completed);
    var idx := Pick(c, ps, time);
    if idx < 0 {
      gantt', time', completed' := gantt + [IDLE], time + 1, completed;
      return;
    }
    assert Step(c, s) == Tick(s, idx);
    var p := ps[idx];
    p := p.(rt := p.rt - 1);
    gantt' := gantt + [p.id];
    completed' := completed;
    if p.rt == 0 {
      p := p.(ct := time + 1);
      p := p.(tat := p.ct - p.at);
      p := p.(wt := p.tat - p.bt);
      completed' := completed + 1;
    }
    ps[idx] := p;
    time' := time + 1;
  }

  /** The branch: the `while (completed < n)` loop over the list in input order. */
  method PreemptiveRun(c: Criterion, ps: array<Process>) returns (gantt: seq<int>)
    requires forall k :: 0 <= k < ps.Length ==> ps[k].rt > 0
    modifies ps
    ensures Chart(ps[..], gantt) == Preemptive(c, old(ps[..]))
  {
    ghost var start := Start(ps[..]);
    var n := ps.Length;
    var time: int, completed: nat := 0, 0;
    gantt := [];
    while completed < n
      invariant n == ps.Length
      invariant Wf(Snapshot(ps, gantt, time, completed))
      invariant Run(c, Snapshot(ps, gantt, time, completed)) == Run(c, start)
      decreases Left(ps[..]), Wait(Snapshot(ps, gantt, time, completed))
    {
      StepProgress(c, Snapshot(ps, gantt, time, completed));
      gantt, time, completed := Iterate(c, ps, gantt, time, completed);
    }
  }

  // ---------------------------------------------------------------------
  // What the loop computes

  /** The facts the loop keeps about the list `init` it started from: one chart entry per tick, and the chart accounts for the records. */
  ghost predicate Good(init: seq<Process>, s: PState) {
    |s.gantt| == s.time && Accounted(init, s.procs, s.gantt)
  }

  /** A step keeps the facts. */
  lemma StepGood(c: Criterion, init: seq<Process>, s: PState)
    requires Good(init, s) && Fresh(init)
    ensures Good(init, Step(c, s))
  {
    match FirstMin(Candidates(c, s.procs, s.time), |s.procs|)
    case None => IdleAccounted(init, s.procs, s.gantt);
    case Some(i) =>
      assert Candidates(c, s.procs, s.time)[i].Some?;
      RunAccounted(init, s.procs, s.gantt, i, 1);
      assert Repeat(s.procs[i].id, 1) == [s.procs[i].id];
  }

  /** The loop keeps the facts, and at its end no process has time left. */
  lemma {:induction false} RunGood(c: Criterion, init: seq<Process>, s: PState)
    requires Wf(s) && Good(init, s) && Fresh(init)
    ensures Good(init, Run(c, s))
    ensures forall i :: 0 <= i < |init| ==> Run(c, s).procs[i].rt <= 0
    decreases Left(s.procs), Wait(s)
  {
    if s.completed >= |s.procs| {
      PendingNone(s.procs);
    } else {
      StepProgress(c, s);
      StepGood(c, init, s);
      RunGood(c, init, Step(c, s));
    }
  }

  /**
   * The schedule of a list with distinct ids whose remaining times equal
   * positive bursts: the table keeps the input order, each record keeps its job,
   * has nothing left and settled figures with a non-negative waiting time; each
   * process has exactly `bt` chart entries, the last one in the tick before its
   * completion time; every other entry is idle.
   */
  lemma PreemptiveCorrect(c: Criterion, ps: seq<Process>)
    requires Fresh(ps)
    ensures var ch := Preemptive(c, ps);
      && |ch.table| == |ps|
      && (forall i :: 0 <= i < |ps| ==>
            && SameJob(ch.table[i], ps[i])
            && ch.table[i].rt == 0
            && Settled(ch.table[i])
            && ch.table[i].wt >= 0
            && multiset(ch.gantt)[ps[i].id] == ps[i].bt
            && 1 <= ch.table[i].ct <= |ch.gantt|
            && ch.gantt[ch.table[i].ct - 1] == ps[i].id
            && (forall t :: ch.table[i].ct <= t < |ch.gantt| ==> ch.gantt[t] != ps[i].id))
      && (forall x :: x != IDLE && NotAnId(ps, x) ==> multiset(ch.gantt)[x] == 0)
  {
    AccountedStart(ps);
    RunGood(c, ps, Start(ps));
    var r := Run(c, Start(ps));
    forall i | 0 <= i < |ps|
      ensures && SameJob(r.procs[i], ps[i])
              && r.procs[i].rt == 0
              && Settled(r.procs[i])
              && r.procs[i].wt >= 0
              && multiset(r.gantt)[ps[i].id] == ps[i].bt
              && 1 <= r.procs[i].ct <= |r.gantt|
              && r.gantt[r.procs[i].ct - 1] == ps[i].id
              && (forall t :: r.procs[i].ct <= t < |r.gantt| ==> r.gantt[t] != ps[i].id)
    {
      FinalRecord(ps, r.procs, r.gantt, i);
    }
  }
}
