/**
 * Non-preemptive SJF and Priority (the "SJF (Non-Preemptive)" and "Priority
 * (Non-Preemptive)" branches of ProcessSchedulingGUI.schedule).  The list is
 * sorted by arrival; then, until every process is done, a scan picks the first
 * arrived, unfinished process with the smallest burst (SJF) or priority number
 * (Priority) and runs it to completion as one block, or, when none has arrived,
 * the chart gets one idle entry and the clock one tick.
 */
module NonPreemptive {

  import opened Processes
  import opened Sorting
  import opened Lists

  /** The loop's variables: the records, the done flags, the chart, the clock and the completed count. */
  datatype NpState = NpState(procs: seq<Process>, done: seq<bool>, gantt: seq<int>, time: int, completed: nat)

  /** The scan's key: burst for SJF, priority number for Priority. */
  function NpKey(c: Criterion, p: Process): int {
    if c == ShortestJob then p.bt else p.pr
  }

  /** Process i competes when it is not done and has arrived by `time`. */
  function Candidates(c: Criterion, procs: seq<Process>, done: seq<bool>, time: int): seq<Option<int>>
    requires |done| == |procs|
  {
    seq(|procs|, i requires 0 <= i < |procs| => if !done[i] && procs[i].at <= time then Some(NpKey(c, procs[i])) else None)
  }

  ghost predicate Wf(s: NpState) {
    |s.done| == |s.procs| && s.completed + Unfinished(s.done) == |s.procs|
  }

  /** The idle branch: one idle entry, one tick. */
  function Idle(s: NpState): NpState {
    s.(gantt := s.gantt + [IDLE], time := s.time + 1)
  }

  /** Process i runs to completion as one block; Priority first moves the clock to its arrival. */
  function RunProcess(c: Criterion, s: NpState, i: nat): NpState
    requires i < |s.procs| == |s.done|
  {
    var p := s.procs[i];
    var start := if c == Priority then Max(s.time, p.at) else s.time;
    var t := start + p.bt;
    NpState(s.procs[i := Finished(p, t)], s.done[i := true], s.gantt + Repeat(p.id, p.bt), t, s.completed + 1)
  }

  /** One iteration of `while (completed < n)`. */
  function Step(c: Criterion, s: NpState): NpState
    requires |s.done| == |s.procs|
  {
    match FirstMin(Candidates(c, s.procs, s.done, s.time), |s.procs|)
    case None => Idle(s)
    case Some(i) => RunProcess(c, s, i)
  }

  /** Process i has arrived by the clock and is not done. */
  ghost predicate Ready(s: NpState, i: int)
    requires 0 <= i < |s.procs| == |s.done|
  {
    !s.done[i] && s.procs[i].at <= s.time
  }

  /** Process i is ready, no ready process has a smaller key, and every ready one before it has a larger key. */
  ghost predicate FirstBest(c: Criterion, s: NpState, i: int)
    requires 0 <= i < |s.procs| == |s.done|
  {
    && Ready(s, i)
    && (forall j :: 0 <= j < |s.procs| && Ready(s, j) ==> NpKey(c, s.procs[i]) <= NpKey(c, s.procs[j]))
    && (forall j :: 0 <= j < i && Ready(s, j) ==> NpKey(c, s.procs[i]) < NpKey(c, s.procs[j]))
  }

  /**
   * The selection rule: the step idles exactly when no process is ready, and
   * otherwise runs the one ready process that is first among those of least key.
   */
  lemma StepRule(c: Criterion, s: NpState)
    requires |s.done| == |s.procs|
    ensures (forall i :: 0 <= i < |s.procs| ==> !Ready(s, i)) ==> Step(c, s) == Idle(s)
    ensures (exists i :: 0 <= i < |s.procs| && Ready(s, i)) ==>
      exists i :: 0 <= i < |s.procs| && FirstBest(c, s, i)
    ensures forall i :: 0 <= i < |s.procs| && FirstBest(c, s, i) ==> Step(c, s) == RunProcess(c, s, i)
  {
    var cands := Candidates(c, s.procs, s.done, s.time);
    var r := FirstMin(cands, |s.procs|);
    assert forall i :: 0 <= i < |s.procs| ==> (cands[i].Some? <==> Ready(s, i));
    if r.Some? {
      assert FirstBest(c, s, r.value);
      forall i | 0 <= i < |s.procs| && FirstBest(c, s, i)
        ensures i == r.value
      {
      }
    }
  }

  /** Ticks the clock still has to idle before the last arrival; it only shrinks on idle steps. */
  function Wait(s: NpState): nat {
    if LatestArrival(s.procs) > s.time then LatestArrival(s.procs) - s.time else 0
  }

  /** A step keeps the state well formed and either completes a process or idles towards the last arrival. */
  lemma StepProgress(c: Criterion, s: NpState)
    requires Wf(s) && s.completed < |s.procs|
    ensures Wf(Step(c, s))
    ensures Unfinished(Step(c, s).done) < Unfinished(s.done)
      || (Unfinished(Step(c, s).done) == Unfinished(s.done) && Wait(Step(c, s)) < Wait(s))
  {
    var cands := Candidates(c, s.procs, s.done, s.time);
    match FirstMin(cands, |s.procs|)
    case None =>
      UnfinishedNone(s.done);
      var k :| 0 <= k < |s.done| && !s.done[k];
      assert cands[k].None?;
      LatestArrivalBounds(s.procs);
    case Some(i) =>
      UnfinishedMark(s.done, i);
  }

  /** The whole loop, from state s until every process is done. */
  function Run(c: Criterion, s: NpState): NpState
    requires Wf(s)
    decreases Unfinished(s.done), Wait(s)
  {
    if s.completed >= |s.procs| then s
    else
      StepProgress(c, s);
      Run(c, Step(c, s))
  }

  /** The state the loop starts from: the list, nothing done, empty chart, clock 0. */
  function Start(ps: seq<Process>): (s: NpState)
    ensures Wf(s)
  {
    UnfinishedAll(|ps|);
    NpState(ps, seq(|ps|, _ => false), [], 0, 0)
  }

  /** The schedule of a process list: its stable sort by arrival, run by the loop. */
  function NonPreemptive(c: Criterion, ps: seq<Process>): Chart {
    var r := Run(c, Start(SortBy(ps, Arrival)));
    Chart(r.procs, r.gantt)
  }

  // ---------------------------------------------------------------------
  // The branch over arrays

  /** The selection scan; -1 when no process competes. */
  method Pick(c: Criterion, ps: array<Process>, done: array<bool>, time: int) returns (idx: int)
    requires done.Length == ps.Length
    ensures idx == match FirstMin(Candidates(c, ps[..], done[..], time), ps.Length)
                   case None => -1
                   case Some(i) => i
  {
    ghost var cands := Candidates(c, ps[..], done[..], time);
    idx := -1;
    var minKey := 0;
    for i := 0 to ps.Length
      invariant FirstMin(cands, i) == if idx < 0 then None else Some(idx)
      invariant idx >= 0 ==> idx < i && minKey == NpKey(c, ps[idx])
    {
      var p := ps[i];
      assert cands[i] == if !done[i] && p.at <= time then Some(NpKey(c, p)) else None;
      if !done[i] && p.at <= time && (idx < 0 || NpKey(c, p) < minKey) {
        idx := i;
        minKey := NpKey(c, p);
      }
    }
  }

  /** The loop body for a picked process: run it as one block and record its figures. */
  method RunBlock(c: Criterion, ps: array<Process>, done: array<bool>, idx: nat, time: int, gantt: seq<int>)
    returns (time': int, gantt': seq<int>)
    requires done.Length == ps.Length && idx < ps.Length
    modifies ps, done
    ensures var p := old(ps[idx]);
      var t := (if c == Priority then Max(time, p.at) else time) + p.bt;
      && ps[..] == old(ps[..])[idx := Finished(p, t)]
      && done[..] == old(done[..])[idx := true]
      && gantt' == gantt + Repeat(p.id, p.bt)
      && time' == t
  {
    var p := ps[idx];
    done[idx] := true;
    time' := time;
    if c == Priority {
      time' := Max(time', p.at);
    }
    gantt' := AddEntries(gantt, p.id, p.bt);
    time' := time' + p.bt;
    p := p.(ct := time');
    p := p.(tat := p.ct - p.at);
    p := p.(wt := p.tat - p.bt);
    ps[idx] := p;
  }

  /** The loop's variables as a state. */
  function Snapshot(ps: array<Process>, done: array<bool>, gantt: seq<int>, time: int, completed: nat): NpState
    reads ps, done
  {
    NpState(ps[..], done[..], gantt, time, completed)
  }

  /** One iteration of the loop: an idle tick, or the picked process run as a block. */
  method Iterate(c: Criterion, ps: array<Process>, done: array<bool>, gantt: seq<int>, time: int, completed: nat)
    returns (gantt': seq<int>, time': int, completed': nat)
    requires done.Length == ps.Length
    modifies ps, done
    ensures Snapshot(ps, done, gantt', time', completed') == Step(c, old(Snapshot(ps, done, gantt, time, completed)))
  {
    var idx := Pick(c, ps, done, time);
    if idx < 0 {
      gantt', time', completed' := gantt + [IDLE], time + 1, completed;
    } else {
      time', gantt' := RunBlock(c, ps, done, idx, time, gantt);
      completed' := completed + 1;
    }
  }

  /** The `while (completed < n)` loop over the sorted list. */
  method Loop(c: Criterion, ps: array<Process>) returns (gantt: seq<int>)
    modifies ps
    ensures var r := Run(c, Start(old(ps[..]))); ps[..] == r.procs && gantt == r.gantt
  {
    ghost var start := Start(ps[..]);
    var n := ps.Length;
    var done := new bool[n](_ => false);
    var time: int, completed: nat := 0, 0;
    gantt := [];
    assert Snapshot(ps, done, gantt, time, completed) == start;
    while completed < n
      invariant done.Length == n == ps.Length
      invariant Wf(Snapshot(ps, done, gantt, time, completed))
      invariant Run(c, Snapshot(ps, done, gantt, time, completed)) == Run(c, start)
      decreases Unfinished(done[..]), Wait(Snapshot(ps, done, gantt, time, completed))
    {
      ghost var s := Snapshot(ps, done, gantt, time, completed);
      StepProgress(c, s);
      gantt, time, completed := Iterate(c, ps, done, gantt, time, completed);
    }
  }

  /** The branch: sort by arrival in place, then loop. */
  method NonPreemptiveRun(c: Criterion, ps: array<Process>) returns (gantt: seq<int>)
    modifies ps
    ensures Chart(ps[..], gantt) == NonPreemptive(c, old(ps[..]))
  {
    SortInPlace(ps, Arrival);
    gantt := Loop(c, ps);
  }

  // ---------------------------------------------------------------------
  // What the loop computes

  /**
   * What the loop keeps about a done process i of the list `init` it started
   * from: settled figures, `bt` chart entries with its id, all of them one block
   * ending at its completion time, which lies after its arrival plus its burst
   * and not after the clock.
   */
  ghost predicate Completed(init: seq<Process>, s: NpState, i: int)
    requires 0 <= i < |init| == |s.procs|
  {
    && Settled(s.procs[i])
    && multiset(s.gantt)[init[i].id] == init[i].bt
    && init[i].at + init[i].bt <= s.procs[i].ct <= s.time
    && 0 <= s.procs[i].ct - init[i].bt
    && s.procs[i].ct <= |s.gantt|
    && s.gantt[s.procs[i].ct - init[i].bt .. s.procs[i].ct] == Repeat(init[i].id, init[i].bt)
  }

  /**
   * The facts the loop keeps about the list `init` it started from: every
   * record keeps its job; the chart has one entry per tick; a done process is
   * Completed; a process not done has no entry; no other entry but idle occurs.
   */
  ghost predicate Good(init: seq<Process>, s: NpState) {
    && |s.procs| == |init| == |s.done|
    && |s.gantt| == s.time
    && (forall i :: 0 <= i < |init| ==> SameJob(s.procs[i], init[i]) && s.procs[i].rt == init[i].rt)
    && (forall i :: 0 <= i < |init| && !s.done[i] ==> multiset(s.gantt)[init[i].id] == 0)
    && (forall i :: 0 <= i < |init| && s.done[i] ==> Completed(init, s, i))
    && (forall x :: x != IDLE && NotAnId(init, x) ==> multiset(s.gantt)[x] == 0)
  }

  lemma StartGood(ps: seq<Process>)
    ensures Good(ps, Start(ps))
  {
  }

  /** Appending to the chart leaves a block already in it as it was. */
  lemma Earlier(g: seq<int>, h: seq<int>, lo: int, hi: int)
    requires 0 <= lo <= hi <= |g|
    ensures (g + h)[lo..hi] == g[lo..hi]
  {
  }

  /** An idle step keeps the facts. */
  lemma IdleGood(init: seq<Process>, s: NpState)
    requires Good(init, s) && DistinctIds(init)
    ensures Good(init, Idle(s))
  {
    var r := Idle(s);
    assert multiset(r.gantt) == multiset(s.gantt) + multiset{IDLE};
    forall i | 0 <= i < |init| && s.done[i]
      ensures Completed(init, r, i)
    {
      IdleCompleted(init, s, i);
    }
  }

  /** An idle tick leaves a done process Completed. */
  lemma IdleCompleted(init: seq<Process>, s: NpState, i: int)
    requires 0 <= i < |init| == |s.procs| && init[i].id != IDLE
    requires Completed(init, s, i)
    ensures Completed(init, Idle(s), i)
  {
    var g := Idle(s).gantt;
    assert multiset(g) == multiset(s.gantt) + multiset{IDLE};
    Earlier(s.gantt, [IDLE], s.procs[i].ct - init[i].bt, s.procs[i].ct);
  }

  /** How running process i as a block changes the chart's counts: its id gains `bt`, nothing else changes. */
  lemma BlockCounts(c: Criterion, init: seq<Process>, s: NpState, i: nat)
    requires Good(init, s) && DistinctIds(init) && i < |init|
    requires init[i].bt >= 0
    ensures var g := RunProcess(c, s, i).gantt;
      && multiset(g)[init[i].id] == multiset(s.gantt)[init[i].id] + init[i].bt
      && (forall x :: x != init[i].id ==> multiset(g)[x] == multiset(s.gantt)[x])
  {
    var p := s.procs[i];
    var block := Repeat(p.id, p.bt);
    assert RunProcess(c, s, i).gantt == s.gantt + block;
    assert multiset(s.gantt + block) == multiset(s.gantt) + multiset(block);
    RepeatCount(p.id, p.bt);
  }

  /** Running a ready process as one block keeps the facts. */
  lemma BlockGood(c: Criterion, init: seq<Process>, s: NpState, i: nat)
    requires Wf(s) && Good(init, s) && DistinctIds(init)
    requires forall k :: 0 <= k < |init| ==> init[k].bt >= 0
    requires i < |s.procs| && Ready(s, i)
    ensures Good(init, RunProcess(c, s, i))
  {
    var p := s.procs[i];
    var r := RunProcess(c, s, i);
    var block := Repeat(p.id, p.bt);
    assert r.time == s.time + p.bt && r.procs[i].ct == r.time;
    assert r.gantt == s.gantt + block;
    BlockCounts(c, init, s, i);
    assert Completed(init, r, i) by {
      assert r.gantt[s.time .. r.time] == block;
    }
    forall j | 0 <= j < |init| && j != i
      ensures multiset(r.gantt)[init[j].id] == multiset(s.gantt)[init[j].id]
    {
      assert init[j].id != init[i].id;
    }
    forall j | 0 <= j < |init| && j != i && s.done[j]
      ensures Completed(init, r, j)
    {
      StillCompleted(c, init, s, i, j);
    }
  }

  /** Running another process as a block leaves a completed process completed. */
  lemma StillCompleted(c: Criterion, init: seq<Process>, s: NpState, i: nat, j: nat)
    requires Wf(s) && |init| == |s.procs| && i < |init| && j < |init| && i != j
    requires Completed(init, s, j)
    requires multiset(RunProcess(c, s, i).gantt)[init[j].id] == multiset(s.gantt)[init[j].id]
    requires RunProcess(c, s, i).time >= s.time
    ensures Completed(init, RunProcess(c, s, i), j)
  {
    var r := RunProcess(c, s, i);
    var block := Repeat(s.procs[i].id, s.procs[i].bt);
    assert r.gantt == s.gantt + block && r.procs[j] == s.procs[j];
    Earlier(s.gantt, block, s.procs[j].ct - init[j].bt, s.procs[j].ct);
  }

  /** A step keeps the facts. */
  lemma StepGood(c: Criterion, init: seq<Process>, s: NpState)
    requires Wf(s) && Good(init, s) && DistinctIds(init)
    requires forall i :: 0 <= i < |init| ==> init[i].bt >= 0
    ensures Good(init, Step(c, s))
  {
    match FirstMin(Candidates(c, s.procs, s.done, s.time), |s.procs|)
    case None => IdleGood(init, s);
    case Some(i) =>
      assert Candidates(c, s.procs, s.done, s.time)[i].Some?;
      BlockGood(c, init, s, i);
  }

  /** The loop keeps the facts, and at its end every process is done. */
  lemma {:induction false} RunGood(c: Criterion, init: seq<Process>, s: NpState)
    requires Wf(s) && Good(init, s) && DistinctIds(init)
    requires forall i :: 0 <= i < |init| ==> init[i].bt >= 0
    ensures Good(init, Run(c, s))
    ensures forall i :: 0 <= i < |init| ==> Run(c, s).done[i]
    decreases Unfinished(s.done), Wait(s)
  {
    if s.completed >= |s.procs| {
      UnfinishedNone(s.done);
    } else {
      StepProgress(c, s);
      StepGood(c, init, s);
      RunGood(c, init, Step(c, s));
    }
  }

  /**
   * The schedule of a list with distinct ids and non-negative bursts: the table
   * is the arrival-sorted list with each record keeping its job and getting
   * settled figures with a non-negative waiting time; each process has exactly
   * `bt` chart entries, all in one block ending at its completion time; every
   * other entry is idle.
   */
  lemma NonPreemptiveCorrect(c: Criterion, ps: seq<Process>)
    requires DistinctIds(ps)
    requires forall k :: 0 <= k < |ps| ==> ps[k].bt >= 0
    ensures var ch := NonPreemptive(c, ps); var q := SortBy(ps, Arrival);
      && |ch.table| == |q| == |ps|
      && (forall i :: 0 <= i < |q| ==>
            && SameJob(ch.table[i], q[i])
            && Settled(ch.table[i])
            && ch.table[i].wt >= 0
            && multiset(ch.gantt)[q[i].id] == q[i].bt
            && 0 <= ch.table[i].ct - q[i].bt <= ch.table[i].ct <= |ch.gantt|
            && ch.gantt[ch.table[i].ct - q[i].bt .. ch.table[i].ct] == Repeat(q[i].id, q[i].bt))
      && (forall x :: x != IDLE && NotAnId(q, x) ==> multiset(ch.gantt)[x] == 0)
  {
    var q := SortBy(ps, Arrival);
    RunRecords(c, ps);
    var r := Run(c, Start(q));
    var ch := NonPreemptive(c, ps);
    assert ch == Chart(r.procs, r.gantt);
    forall i | 0 <= i < |q|
      ensures && SameJob(ch.table[i], q[i])
              && Settled(ch.table[i])
              && ch.table[i].wt >= 0
              && multiset(ch.gantt)[q[i].id] == q[i].bt
              && 0 <= ch.table[i].ct - q[i].bt <= ch.table[i].ct <= |ch.gantt|
              && ch.gantt[ch.table[i].ct - q[i].bt .. ch.table[i].ct] == Repeat(q[i].id, q[i].bt)
    {
      assert Block(ch.table[i], q[i], ch.gantt);
    }
  }

  /**
   * The final record p of the job `job` in the chart: it keeps the job, has
   * settled figures and a non-negative waiting time, and the chart holds exactly
   * `bt` entries of the job, as one block ending at the completion time.
   */
  ghost predicate Block(p: Process, job: Process, gantt: seq<int>) {
    && SameJob(p, job)
    && Settled(p)
    && p.wt >= 0
    && multiset(gantt)[job.id] == job.bt
    && 0 <= p.ct - job.bt <= p.ct <= |gantt|
    && gantt[p.ct - job.bt .. p.ct] == Repeat(job.id, job.bt)
  }

  /** The records and chart at the end of the loop over the arrival-sorted list. */
  lemma RunRecords(c: Criterion, ps: seq<Process>)
    requires DistinctIds(ps)
    requires forall k :: 0 <= k < |ps| ==> ps[k].bt >= 0
    ensures var q := SortBy(ps, Arrival); var r := Run(c, Start(q));
      && |r.procs| == |q| == |ps|
      && (forall i :: 0 <= i < |q| ==> Block(r.procs[i], q[i], r.gantt))
      && (forall x :: x != IDLE && NotAnId(q, x) ==> multiset(r.gantt)[x] == 0)
  {
    var q := SortBy(ps, Arrival);
    RunEnd(c, ps);
    var r := Run(c, Start(q));
    forall i | 0 <= i < |q|
      ensures Block(r.procs[i], q[i], r.gantt)
    {
      DoneRecord(q, r, i);
    }
  }

  /** The loop over the arrival-sorted list keeps the facts and ends with every process done. */
  lemma RunEnd(c: Criterion, ps: seq<Process>)
    requires DistinctIds(ps)
    requires forall k :: 0 <= k < |ps| ==> ps[k].bt >= 0
    ensures var q := SortBy(ps, Arrival); var r := Run(c, Start(q));
      && Good(q, r)
      && forall i :: 0 <= i < |q| ==> r.done[i]
  {
    var q := SortBy(ps, Arrival);
    DistinctIdsPermuted(ps, q);
    forall k | 0 <= k < |q|
      ensures q[k].bt >= 0
    {
      assert q[k] in multiset(ps);
    }
    StartGood(q);
    RunGood(c, q, Start(q));
  }

  /** The record of a done process, unpacked. */
  lemma DoneRecord(init: seq<Process>, r: NpState, i: int)
    requires Good(init, r) && 0 <= i < |init| && r.done[i]
    ensures Block(r.procs[i], init[i], r.gantt)
  {
    assert Completed(init, r, i);
  }

  /** The loop changes no process's id, arrival, burst or priority, whatever the bursts. */
  lemma {:induction false} RunJobs(c: Criterion, s: NpState)
    requires Wf(s)
    ensures SameJobs(Run(c, s).procs, s.procs)
    decreases Unfinished(s.done), Wait(s)
  {
    if s.completed < |s.procs| {
      StepProgress(c, s);
      RunJobs(c, Step(c, s));
    }
  }

  /** The table is the arrival-sorted list, each row keeping its entry's job, whatever the bursts. */
  lemma NonPreemptiveJobs(c: Criterion, ps: seq<Process>)
    ensures SameJobs(NonPreemptive(c, ps).table, SortBy(ps, Arrival))
  {
    RunJobs(c, Start(SortBy(ps, Arrival)));
  }
}
