/**
 * Round Robin (the "Round Robin" branch of ProcessSchedulingGUI.schedule).  The
 * list keeps its input order.  Each iteration first admits every arrived
 * process not yet enqueued, in list order; with an empty queue the tick is
 * idle.  Otherwise the head of the queue runs for the quantum or its remaining
 * time, whichever is less; the processes that arrived meanwhile are admitted,
 * and only then the process goes back to the tail if it has time left, or
 * completes.  The queue holds positions in the list.
 */
module RoundRobin {

  import opened Processes
  import opened Lists

  /** The loop's variables: the records, the enqueued flags, the queue, the chart, the clock and the completed count. */
  datatype RrState = RrState(procs: seq<Process>, enqueued: seq<bool>, queue: seq<int>, gantt: seq<int>, time: int, completed: nat)

  /** The positions below k of processes not yet enqueued that have arrived by `time`, in list order. */
  function Arrivals(procs: seq<Process>, enqueued: seq<bool>, time: int, k: nat): seq<int>
    requires k <= |procs| == |enqueued|
  {
    if k == 0 then []
    else Arrivals(procs, enqueued, time, k - 1) + (if !enqueued[k - 1] && procs[k - 1].at <= time then [k - 1] else [])
  }

  /** The admitted positions are exactly the arrived ones not yet enqueued, in increasing order. */
  lemma ArrivalsSpec(procs: seq<Process>, enqueued: seq<bool>, time: int, k: nat)
    requires k <= |procs| == |enqueued|
    ensures var a := Arrivals(procs, enqueued, time, k);
      && (forall x :: x in a <==> 0 <= x < k && !enqueued[x] && procs[x].at <= time)
      && (forall m, n :: 0 <= m < n < |a| ==> a[m] < a[n])
  {
    ArrivalsMembers(procs, enqueued, time, k);
    ArrivalsIncreasing(procs, enqueued, time, k);
  }

  lemma {:induction false} ArrivalsMembers(procs: seq<Process>, enqueued: seq<bool>, time: int, k: nat)
    requires k <= |procs| == |enqueued|
    ensures forall x :: x in Arrivals(procs, enqueued, time, k) <==> 0 <= x < k && !enqueued[x] && procs[x].at <= time
  {
    if k > 0 {
      ArrivalsMembers(procs, enqueued, time, k - 1);
    }
  }

  lemma {:induction false} ArrivalsIncreasing(procs: seq<Process>, enqueued: seq<bool>, time: int, k: nat)
    requires k <= |procs| == |enqueued|
    ensures var a := Arrivals(procs, enqueued, time, k);
      forall m, n :: 0 <= m < n < |a| ==> a[m] < a[n]
  {
    if k > 0 {
      var prev := Arrivals(procs, enqueued, time, k - 1);
      ArrivalsIncreasing(procs, enqueued, time, k - 1);
      ArrivalsMembers(procs, enqueued, time, k - 1);
      forall m | 0 <= m < |prev|
        ensures prev[m] < k - 1
      {
        assert prev[m] in Arrivals(procs, enqueued, time, k - 1);
      }
      var a := Arrivals(procs, enqueued, time, k);
      forall m, n | 0 <= m < n < |a|
        ensures a[m] < a[n]
      {
        if n >= |prev| {
          assert a[m] == prev[m];
        }
      }
    }
  }

  /** The flags after admission: every arrived process is marked. */
  function Marked(procs: seq<Process>, enqueued: seq<bool>, time: int): seq<bool>
    requires |procs| == |enqueued|
  {
    seq(|enqueued|, i requires 0 <= i < |enqueued| => enqueued[i] || procs[i].at <= time)
  }

  /** The admission scan `for (i ...) if (at <= time && !enqueued[i])`. */
  function Admit(s: RrState): RrState
    requires |s.procs| == |s.enqueued|
  {
    s.(enqueued := Marked(s.procs, s.enqueued, s.time),
       queue := s.queue + Arrivals(s.procs, s.enqueued, s.time, |s.procs|))
  }

  /** Process i is gone: enqueued once and no longer in the queue. */
  function Gone(enqueued: seq<bool>, queue: seq<int>): seq<bool> {
    seq(|enqueued|, i requires 0 <= i < |enqueued| => enqueued[i] && i !in queue)
  }

  /** The queue holds distinct positions of enqueued processes. */
  ghost predicate QueueOk(s: RrState) {
    && |s.enqueued| == |s.procs|
    && (forall k :: 0 <= k < |s.queue| ==> 0 <= s.queue[k] < |s.procs| && s.enqueued[s.queue[k]])
    && NoDuplicates(s.queue)
  }

  /** The loop's bookkeeping: the completed processes are exactly the gone ones. */
  ghost predicate Wf(s: RrState) {
    QueueOk(s) && s.completed + Unfinished(Gone(s.enqueued, s.queue)) == |s.procs|
  }

  /** Admission keeps the queue well formed. */
  lemma AdmitQueueOk(s: RrState)
    requires QueueOk(s)
    ensures QueueOk(Admit(s))
  {
    var a := Arrivals(s.procs, s.enqueued, s.time, |s.procs|);
    ArrivalsSpec(s.procs, s.enqueued, s.time, |s.procs|);
    var q := s.queue + a;
    forall m, n | 0 <= m < n < |q|
      ensures q[m] != q[n]
    {
      if n >= |s.queue| && m < |s.queue| {
        assert q[n] in a;
      } else if m >= |s.queue| {
        assert q[m] == a[m - |s.queue|] && q[n] == a[n - |s.queue|];
      }
    }
    forall k | 0 <= k < |q|
      ensures 0 <= q[k] < |s.procs|
    {
      if k >= |s.queue| {
        assert q[k] in a;
      }
    }
  }

  /** Admission changes no process's gone flag: it marks and queues the same processes. */
  lemma AdmitGone(s: RrState)
    requires |s.procs| == |s.enqueued|
    ensures Gone(Admit(s).enqueued, Admit(s).queue) == Gone(s.enqueued, s.queue)
  {
    var a := Arrivals(s.procs, s.enqueued, s.time, |s.procs|);
    ArrivalsSpec(s.procs, s.enqueued, s.time, |s.procs|);
    var e := Marked(s.procs, s.enqueued, s.time);
    forall i | 0 <= i < |s.enqueued|
      ensures Gone(e, s.queue + a)[i] == Gone(s.enqueued, s.queue)[i]
    {
      assert i in s.queue + a <==> i in s.queue || i in a;
    }
  }

  lemma AdmitOk(s: RrState)
    requires QueueOk(s)
    ensures QueueOk(Admit(s))
    ensures Gone(Admit(s).enqueued, Admit(s).queue) == Gone(s.enqueued, s.queue)
  {
    AdmitQueueOk(s);
    AdmitGone(s);
  }

  /** Taking the head off a duplicate-free queue makes it gone. */
  lemma GonePoll(enqueued: seq<bool>, queue: seq<int>)
    requires queue != [] && 0 <= queue[0] < |enqueued| && enqueued[queue[0]] && NoDuplicates(queue)
    ensures Gone(enqueued, queue[1..]) == Gone(enqueued, queue)[queue[0] := true]
  {
    assert queue[0] !in queue[1..];
    forall i | 0 <= i < |enqueued|
      ensures Gone(enqueued, queue[1..])[i] == Gone(enqueued, queue)[queue[0] := true][i]
    {
      assert i in queue <==> i == queue[0] || i in queue[1..];
    }
  }

  /** Putting a process at the tail makes it no longer gone. */
  lemma GoneAppend(enqueued: seq<bool>, queue: seq<int>, i: nat)
    requires i < |enqueued|
    ensures Gone(enqueued, queue + [i]) == Gone(enqueued, queue)[i := false]
  {
    forall j | 0 <= j < |enqueued|
      ensures Gone(enqueued, queue + [i])[j] == Gone(enqueued, queue)[i := false][j]
    {
      assert j in queue + [i] <==> j in queue || j == i;
    }
  }

  /** The idle branch: one idle entry, one tick. */
  function Idle(s: RrState): RrState {
    s.(gantt := s.gantt + [IDLE], time := s.time + 1)
  }

  /** The head of the queue is polled and runs for min(rt, quantum) ticks. */
  function RunHead(quantum: int, s: RrState): RrState
    requires QueueOk(s) && s.queue != []
  {
    var p := s.procs[s.queue[0]];
    var ex := Min(p.rt, quantum);
    RrState(s.procs[s.queue[0] := p.(rt := p.rt - ex)], s.enqueued, s.queue[1..], s.gantt + Repeat(p.id, ex), s.time + ex, s.completed)
  }

  /**
   * A slice: the head runs; the arrivals of that time are admitted; then the
   * process rejoins the tail if it has time left, or completes.
   */
  function Slice(quantum: int, s: RrState): RrState
    requires QueueOk(s) && s.queue != []
  {
    var i := s.queue[0];
    var a := Admit(RunHead(quantum, s));
    if a.procs[i].rt > 0 then a.(queue := a.queue + [i])
    else a.(procs := a.procs[i := Finished(a.procs[i], a.time)], completed := a.completed + 1)
  }

  /** What running the head does: it is gone from the queue, and its record has run as `Ran` says. */
  lemma RunHeadFacts(quantum: int, s: RrState)
    requires QueueOk(s) && s.queue != []
    ensures var b := RunHead(quantum, s); var i := s.queue[0]; var p := s.procs[i];
      && QueueOk(b)
      && Gone(b.enqueued, b.queue) == Gone(s.enqueued, s.queue)[i := true]
      && i !in b.queue
      && (b.procs[i].rt > 0 ==> b.procs == s.procs[i := Ran(p, Min(p.rt, quantum), s.time)])
  {
    GonePoll(s.enqueued, s.queue);
  }

  /** One iteration of `while (completed < n)`. */
  function Step(quantum: int, s: RrState): RrState
    requires QueueOk(s)
  {
    AdmitOk(s);
    var a := Admit(s);
    if a.queue == [] then Idle(a) else Slice(quantum, a)
  }

  /** Ticks the clock still has to idle before the last arrival. */
  function Wait(s: RrState): nat {
    if LatestArrival(s.procs) > s.time then LatestArrival(s.procs) - s.time else 0
  }

  /** A slice keeps the queue well formed; the process it ran is gone exactly when the slice completes it. */
  lemma SliceQueueOk(quantum: int, s: RrState)
    requires QueueOk(s) && s.queue != []
    ensures var r := Slice(quantum, s); var i := s.queue[0];
      && QueueOk(r)
      && r.enqueued[i]
      && Gone(r.enqueued, r.queue) == Gone(s.enqueued, s.queue)[i := r.procs[i].rt <= 0]
  {
    var i := s.queue[0];
    var b := RunHead(quantum, s);
    RunHeadFacts(quantum, s);
    AdmitOk(b);
    var a := Admit(b);
    assert a.enqueued[i];
    assert !Gone(s.enqueued, s.queue)[i];
    assert Gone(a.enqueued, a.queue)[i];
    if a.procs[i].rt > 0 {
      assert i !in a.queue;
      GoneAppend(a.enqueued, a.queue, i);
      assert Gone(s.enqueued, s.queue)[i := true][i := false] == Gone(s.enqueued, s.queue);
    }
  }

  /** A slice keeps the bookkeeping, and either completes its process or uses up a whole quantum. */
  lemma SliceProgress(quantum: int, s: RrState)
    requires Wf(s) && s.queue != [] && quantum > 0
    ensures Wf(Slice(quantum, s))
    ensures Slice(quantum, s).completed == s.completed + 1
      || (Slice(quantum, s).completed == s.completed && Left(Slice(quantum, s).procs) < Left(s.procs))
  {
    var i := s.queue[0];
    var b := RunHead(quantum, s);
    SliceQueueOk(quantum, s);
    assert !Gone(s.enqueued, s.queue)[i];
    if b.procs[i].rt > 0 {
      assert Gone(s.enqueued, s.queue)[i := false] == Gone(s.enqueued, s.queue);
      LeftUpdate(s.procs, i, b.procs[i]);
    } else {
      UnfinishedMark(Gone(s.enqueued, s.queue), i);
    }
  }

  /** A step keeps the bookkeeping, and completes a process, uses up a quantum, or idles towards the last arrival. */
  lemma StepProgress(quantum: int, s: RrState)
    requires Wf(s) && s.completed < |s.procs| && quantum > 0
    ensures Wf(Step(quantum, s))
    ensures Step(quantum, s).completed > s.completed
      || (Step(quantum, s).completed == s.completed && Left(Step(quantum, s).procs) < Left(s.procs))
      || (Step(quantum, s).completed == s.completed && Step(quantum, s).procs == s.procs && Wait(Step(quantum, s)) < Wait(s))
  {
    AdmitOk(s);
    var a := Admit(s);
    if a.queue == [] {
      var g := Gone(a.enqueued, a.queue);
      UnfinishedNone(g);
      var k :| 0 <= k < |g| && !g[k];
      assert !a.enqueued[k];
      LatestArrivalBounds(s.procs);
    } else {
      SliceProgress(quantum, a);
    }
  }

  /** The whole loop, from state s until every process is completed. */
  function Run(quantum: int, s: RrState): RrState
    requires Wf(s) && quantum > 0
    decreases |s.procs| - s.completed, Left(s.procs), Wait(s)
  {
    if s.completed >= |s.procs| then s
    else
      StepProgress(quantum, s);
      Run(quantum, Step(quantum, s))
  }

  /** The state the loop starts from: the list, nothing enqueued, empty queue and chart, clock 0. */
  function Start(ps: seq<Process>): (s: RrState)
    ensures Wf(s)
  {
    UnfinishedAll(|ps|);
    assert Gone(seq(|ps|, _ => false), []) == seq(|ps|, _ => false);
    RrState(ps, seq(|ps|, _ => false), [], [], 0, 0)
  }

  /** The schedule of a process list (in input order) with a positive quantum. */
  function RoundRobin(quantum: int, ps: seq<Process>): Chart
    requires quantum > 0
  {
    var r := Run(quantum, Start(ps));
    Chart(r.procs, r.gantt)
  }

  // ---------------------------------------------------------------------
  // The queue discipline

  /**
   * After a slice that leaves the process time left: the rest of the queue
   * keeps its order at the front, the processes that arrived during the slice
   * follow (exactly those not yet enqueued, in list order), and the preempted
   * process comes last.  After a slice that completes it, the process is out of
   * the queue for good.  Flags once set stay set.
   */
  lemma SliceOrder(quantum: int, s: RrState)
    requires QueueOk(s) && s.queue != []
    ensures var r := Slice(quantum, s); var i := s.queue[0]; var n := |s.queue| - 1;
      && (forall x :: 0 <= x < |s.procs| && s.enqueued[x] ==> r.enqueued[x])
      && (r.procs[i].rt > 0 ==>
            && |r.queue| >= n + 1
            && r.queue[..n] == s.queue[1..]
            && (forall x :: x in r.queue[n .. |r.queue| - 1] <==> 0 <= x < |s.procs| && !s.enqueued[x] && s.procs[x].at <= r.time)
            && (forall m, k :: n <= m < k < |r.queue| - 1 ==> r.queue[m] < r.queue[k])
            && r.queue[|r.queue| - 1] == i)
      && (r.procs[i].rt <= 0 ==> i !in r.queue && r.completed == s.completed + 1)
  {
    SliceMarks(quantum, s);
    if Slice(quantum, s).procs[s.queue[0]].rt > 0 {
      SliceRequeue(quantum, s);
    } else {
      SliceDone(quantum, s);
    }
  }

  /** After a slice leaving time: the old rest, then exactly the new arrivals in list order, then the process. */
  lemma SliceRequeue(quantum: int, s: RrState)
    requires QueueOk(s) && s.queue != []
    requires Slice(quantum, s).procs[s.queue[0]].rt > 0
    ensures var r := Slice(quantum, s); var i := s.queue[0]; var n := |s.queue| - 1;
      && |r.queue| >= n + 1
      && r.queue[..n] == s.queue[1..]
      && (forall x :: x in r.queue[n .. |r.queue| - 1] <==> 0 <= x < |s.procs| && !s.enqueued[x] && s.procs[x].at <= r.time)
      && (forall m, k :: n <= m < k < |r.queue| - 1 ==> r.queue[m] < r.queue[k])
      && r.queue[|r.queue| - 1] == i
  {
    var b := RunHead(quantum, s);
    var arr := Arrivals(b.procs, b.enqueued, b.time, |b.procs|);
    var r := Slice(quantum, s);
    SliceQueue(quantum, s);
    assert r.queue == s.queue[1..] + arr + [s.queue[0]];
    ArrivalsAfterRun(quantum, s);
    ThreeParts(s.queue[1..], arr, s.queue[0], r.queue);
  }

  /** The processes admitted after the head has run: those not yet enqueued that have arrived by then, in list order. */
  lemma ArrivalsAfterRun(quantum: int, s: RrState)
    requires QueueOk(s) && s.queue != []
    ensures var b := RunHead(quantum, s); var arr := Arrivals(b.procs, b.enqueued, b.time, |b.procs|);
      && (forall x :: x in arr <==> 0 <= x < |s.procs| && !s.enqueued[x] && s.procs[x].at <= b.time)
      && (forall m, k :: 0 <= m < k < |arr| ==> arr[m] < arr[k])
  {
    var b := RunHead(quantum, s);
    ArrivalsSpec(b.procs, b.enqueued, b.time, |b.procs|);
    assert forall x :: 0 <= x < |s.procs| ==> b.procs[x].at == s.procs[x].at;
  }

  /** The three parts of `front + mid + [last]`. */
  lemma ThreeParts(front: seq<int>, mid: seq<int>, last: int, q: seq<int>)
    requires q == front + mid + [last]
    ensures |q| == |front| + |mid| + 1
    ensures q[..|front|] == front && q[|front| .. |q| - 1] == mid && q[|q| - 1] == last
  {
  }

  /** After a slice completing the process: it is in no queue position. */
  lemma SliceDone(quantum: int, s: RrState)
    requires QueueOk(s) && s.queue != []
    requires Slice(quantum, s).procs[s.queue[0]].rt <= 0
    ensures s.queue[0] !in Slice(quantum, s).queue
  {
    var i := s.queue[0];
    var b := RunHead(quantum, s);
    var arr := Arrivals(b.procs, b.enqueued, b.time, |b.procs|);
    SliceQueue(quantum, s);
    ArrivalsSpec(b.procs, b.enqueued, b.time, |b.procs|);
    assert i !in arr;
    assert i !in s.queue[1..];
  }

  /** The queue after a slice: the rest of the old queue, the arrivals admitted after the run, then the process if it has time left. */
  lemma SliceQueue(quantum: int, s: RrState)
    requires QueueOk(s) && s.queue != []
    ensures var r := Slice(quantum, s); var b := RunHead(quantum, s);
      && r.time == b.time
      && r.queue == s.queue[1..] + Arrivals(b.procs, b.enqueued, b.time, |b.procs|) + (if r.procs[s.queue[0]].rt > 0 then [s.queue[0]] else [])
  {
  }

  /** The flags after a slice: the old ones, plus every process arrived by its end; a completing slice counts one more. */
  lemma SliceMarks(quantum: int, s: RrState)
    requires QueueOk(s) && s.queue != []
    ensures var r := Slice(quantum, s); var b := RunHead(quantum, s);
      && r.enqueued == Marked(b.procs, s.enqueued, b.time)
      && (r.procs[s.queue[0]].rt <= 0 ==> r.completed == s.completed + 1)
  {
  }

  // ---------------------------------------------------------------------
  // The branch over arrays

  /** The loop's variables as a state. */
  function Snapshot(ps: array<Process>, enqueued: array<bool>, queue: seq<int>, gantt: seq<int>, time: int, completed: nat): RrState
    reads ps, enqueued
  {
    RrState(ps[..], enqueued[..], queue, gantt, time, completed)
  }

  /** The admission scan over the arrays. */
  method AdmitInto(ps: array<Process>, enqueued: array<bool>, queue: seq<int>, time: int) returns (queue': seq<int>)
    requires enqueued.Length == ps.Length
    modifies enqueued
    ensures enqueued[..] == Marked(ps[..], old(enqueued[..]), time)
    ensures queue' == queue + Arrivals(ps[..], old(enqueued[..]), time, ps.Length)
  {
    ghost var flags := enqueued[..];
    queue' := queue;
    for i := 0 to ps.Length
      invariant forall j :: 0 <= j < ps.Length ==> enqueued[j] == if j < i then flags[j] || ps[j].at <= time else flags[j]
      invariant queue' == queue + Arrivals(ps[..], flags, time, i)
    {
      if ps[i].at <= time && !enqueued[i] {
        queue' := queue' + [i];
        enqueued[i] := true;
      }
    }
    assert enqueued[..] == Marked(ps[..], flags, time);
  }

  /** One iteration of the loop: admission, then an idle tick or a slice. */
  method Iterate(quantum: int, ps: array<Process>, enqueued: array<bool>, queue: seq<int>, gantt: seq<int>, time: int, completed: nat)
    returns (queue': seq<int>, gantt': seq<int>, time': int, completed': nat)
    requires QueueOk(Snapshot(ps, enqueued, queue, gantt, time, completed))
    modifies ps, enqueued
    ensures Snapshot(ps, enqueued, queue', gantt', time', completed') == Step(quantum, old(Snapshot(ps, enqueued, queue, gantt, time, completed)))
  {
    AdmitOk(Snapshot(ps, enqueued, queue, gantt, time, completed));
    queue' := AdmitInto(ps, enqueued, queue, time);
    if queue' == [] {
      gantt', time', completed' := gantt + [IDLE], time + 1, completed;
    } else {
      queue', gantt', time', completed' := SliceInto(quantum, ps, enqueued, queue', gantt, time, completed);
    }
  }

  /** The head is polled and runs for min(rt, quantum) ticks. */
  method RunHeadInto(quantum: int, ps: array<Process>, enqueued: array<bool>, queue: seq<int>, gantt: seq<int>, time: int, completed: nat)
    returns (queue': seq<int>, gantt': seq<int>, time': int)
    requires QueueOk(Snapshot(ps, enqueued, queue, gantt, time, completed)) && queue != []
    modifies ps
    ensures Snapshot(ps, enqueued, queue', gantt', time', completed) == RunHead(quantum, old(Snapshot(ps, enqueued, queue, gantt, time, completed)))
  {
    var i := queue[0];
    queue' := queue[1..];
    var p := ps[i];
    var ex := Min(p.rt, quantum);
    gantt' := AddEntries(gantt, p.id, ex);
    p := p.(rt := p.rt - ex);
    time' := time + ex;
    ps[i] := p;
  }

  /** A slice over the arrays: run the head, admit the arrivals, then requeue or complete it. */
  method SliceInto(quantum: int, ps: array<Process>, enqueued: array<bool>, queue: seq<int>, gantt: seq<int>, time: int, completed: nat)
    returns (queue': seq<int>, gantt': seq<int>, time': int, completed': nat)
    requires QueueOk(Snapshot(ps, enqueued, queue, gantt, time, completed)) && queue != []
    modifies ps, enqueued
    ensures Snapshot(ps, enqueued, queue', gantt', time', completed') == Slice(quantum, old(Snapshot(ps, enqueued, queue, gantt, time, completed)))
  {
    ghost var a := Snapshot(ps, enqueued, queue, gantt, time, completed);
    var i := queue[0];
    queue', gantt', time' := RunHeadInto(quantum, ps, enqueued, queue, gantt, time, completed);
    queue' := AdmitInto(ps, enqueued, queue', time');
    completed' := completed;
    var p := ps[i];
    if p.rt > 0 {
      queue' := queue' + [i];
    } else {
      p := p.(ct := time');
      p := p.(tat := p.ct - p.at);
      p := p.(wt := p.tat - p.bt);
      ps[i] := p;
      completed' := completed + 1;
    }
  }

  /** The branch: the `while (completed < n)` loop over the list in input order. */
  method RoundRobinRun(quantum: int, ps: array<Process>) returns (gantt: seq<int>)
    requires quantum > 0
    modifies ps
    ensures Chart(ps[..], gantt) == RoundRobin(quantum, old(ps[..]))
  {
    ghost var start := Start(ps[..]);
    var n := ps.Length;
    var enqueued := new bool[n](_ => false);
    var queue: seq<int> := [];
    var time: int, completed: nat := 0, 0;
    gantt := [];
    assert Snapshot(ps, enqueued, queue, gantt, time, completed) == start;
    while completed < n
      invariant n == ps.Length == enqueued.Length
      invariant Wf(Snapshot(ps, enqueued, queue, gantt, time, completed))
      invariant Run(quantum, Snapshot(ps, enqueued, queue, gantt, time, completed)) == Run(quantum, start)
      decreases n - completed, Left(ps[..]), Wait(Snapshot(ps, enqueued, queue, gantt, time, completed))
    {
      StepProgress(quantum, Snapshot(ps, enqueued, queue, gantt, time, completed));
      queue, gantt, time, completed := Iterate(quantum, ps, enqueued, queue, gantt, time, completed);
    }
  }

  // ---------------------------------------------------------------------
  // What the loop computes

  /**
   * What the flags and the queue say about the records: an enqueued process has
   * arrived, a process not enqueued has not run, a queued process has time left
   * and a gone process has none.
   */
  ghost predicate Flags(init: seq<Process>, s: RrState)
    requires QueueOk(s) && |init| == |s.procs|
  {
    && (forall i :: 0 <= i < |s.procs| && s.enqueued[i] ==> s.procs[i].at <= s.time)
    && (forall i :: 0 <= i < |s.procs| && !s.enqueued[i] ==> s.procs[i].rt == init[i].bt)
    && (forall k :: 0 <= k < |s.queue| ==> s.procs[s.queue[k]].rt > 0)
    && (forall i :: 0 <= i < |s.procs| && Gone(s.enqueued, s.queue)[i] ==> s.procs[i].rt == 0)
  }

  /**
   * The facts the loop keeps about the list `init` it started from: one chart
   * entry per tick, the chart accounts for the records, and the Flags hold.
   */
  ghost predicate Good(init: seq<Process>, s: RrState) {
    && QueueOk(s)
    && |init| == |s.procs|
    && |s.gantt| == s.time
    && Accounted(init, s.procs, s.gantt)
    && Flags(init, s)
  }

  /** Admission keeps the facts. */
  lemma AdmitGood(init: seq<Process>, s: RrState)
    requires Good(init, s) && Fresh(init)
    ensures Good(init, Admit(s))
  {
    AdmitOk(s);
    ArrivalsSpec(s.procs, s.enqueued, s.time, |s.procs|);
    var a := Admit(s);
    forall k | 0 <= k < |a.queue|
      ensures a.procs[a.queue[k]].rt > 0
    {
      if k >= |s.queue| {
        assert a.queue[k] in Arrivals(s.procs, s.enqueued, s.time, |s.procs|);
      }
    }
    forall i | 0 <= i < |a.procs| && Gone(a.enqueued, a.queue)[i]
      ensures a.procs[i].rt == 0
    {
      assert Gone(s.enqueued, s.queue)[i];
    }
  }

  /** What a slice does to the records and the chart: the head has run as `Ran` says. */
  lemma SliceRecords(quantum: int, s: RrState)
    requires QueueOk(s) && s.queue != [] && quantum > 0
    requires s.procs[s.queue[0]].rt > 0
    ensures var r := Slice(quantum, s); var i := s.queue[0]; var p := s.procs[i]; var ex := Min(p.rt, quantum);
      && 0 < ex <= p.rt
      && r.procs == s.procs[i := Ran(p, ex, s.time)]
      && r.gantt == s.gantt + Repeat(p.id, ex)
      && r.time == s.time + ex
  {
  }

  /** After a slice, enqueued processes have arrived and the others have not run. */
  lemma SliceFlagsRecords(quantum: int, init: seq<Process>, s: RrState)
    requires QueueOk(s) && |init| == |s.procs| && Flags(init, s) && Fresh(init)
    requires s.queue != [] && quantum > 0
    ensures var r := Slice(quantum, s);
      && (forall x :: 0 <= x < |r.procs| && r.enqueued[x] ==> r.procs[x].at <= r.time)
      && (forall x :: 0 <= x < |r.procs| && !r.enqueued[x] ==> r.procs[x].rt == init[x].bt)
  {
    var i := s.queue[0];
    var r := Slice(quantum, s);
    SliceRecords(quantum, s);
    var b := RunHead(quantum, s);
    assert r.enqueued == Marked(b.procs, s.enqueued, b.time);
    assert forall x :: 0 <= x < |s.procs| && x != i ==> r.procs[x] == s.procs[x];
    forall x | 0 <= x < |r.procs| && !r.enqueued[x]
      ensures r.procs[x].rt == init[x].bt
    {
      assert !s.enqueued[x];
    }
  }

  /** After a slice, queued processes have time left and gone ones have none. */
  lemma SliceFlagsQueue(quantum: int, init: seq<Process>, s: RrState)
    requires QueueOk(s) && |init| == |s.procs| && Flags(init, s) && Fresh(init)
    requires s.queue != [] && quantum > 0
    ensures var r := Slice(quantum, s);
      && QueueOk(r)
      && (forall k :: 0 <= k < |r.queue| ==> r.procs[r.queue[k]].rt > 0)
      && (forall x :: 0 <= x < |r.procs| && Gone(r.enqueued, r.queue)[x] ==> r.procs[x].rt == 0)
  {
    SliceQueueOk(quantum, s);
    SliceQueuedLeft(quantum, init, s);
    SliceGoneNone(quantum, init, s);
  }

  /** After a slice, every queued process has time left. */
  lemma SliceQueuedLeft(quantum: int, init: seq<Process>, s: RrState)
    requires QueueOk(s) && |init| == |s.procs| && Flags(init, s) && Fresh(init)
    requires s.queue != [] && quantum > 0
    ensures var r := Slice(quantum, s); forall k :: 0 <= k < |r.queue| ==> 0 <= r.queue[k] < |r.procs| && r.procs[r.queue[k]].rt > 0
  {
    var i := s.queue[0];
    var r := Slice(quantum, s);
    var b := RunHead(quantum, s);
    var arr := Arrivals(b.procs, b.enqueued, b.time, |b.procs|);
    SliceQueue(quantum, s);
    ArrivalsAfterRun(quantum, s);
    SliceOthers(quantum, s);
    var front := s.queue[1..];
    var tail := if r.procs[i].rt > 0 then [i] else [];
    forall x | x in front + arr + tail
      ensures 0 <= x < |r.procs| && r.procs[x].rt > 0
    {
      if x in front {
        assert s.queue[0] !in front;
        var k :| 0 <= k < |front| && front[k] == x;
        assert s.queue[k + 1] == x;
      } else if x in arr {
        assert !s.enqueued[x] && x != i;
        assert s.procs[x].rt == init[x].bt;
      } else {
        assert x in tail;
      }
    }
    assert r.queue == front + arr + tail;
    AllLeft(r.queue, r.procs);
  }

  lemma AllLeft(q: seq<int>, procs: seq<Process>)
    requires forall x :: x in q ==> 0 <= x < |procs| && procs[x].rt > 0
    ensures forall k :: 0 <= k < |q| ==> 0 <= q[k] < |procs| && procs[q[k]].rt > 0
  {
    forall k | 0 <= k < |q|
      ensures 0 <= q[k] < |procs| && procs[q[k]].rt > 0
    {
      assert q[k] in q;
    }
  }

  /** A slice changes only the record of the process it ran. */
  lemma SliceOthers(quantum: int, s: RrState)
    requires QueueOk(s) && s.queue != []
    ensures var r := Slice(quantum, s);
      && |r.procs| == |s.procs|
      && forall x :: 0 <= x < |s.procs| && x != s.queue[0] ==> r.procs[x] == s.procs[x]
  {
  }

  /** After a slice, every gone process has no time left. */
  lemma SliceGoneNone(quantum: int, init: seq<Process>, s: RrState)
    requires QueueOk(s) && |init| == |s.procs| && Flags(init, s)
    requires s.queue != [] && quantum > 0
    ensures var r := Slice(quantum, s);
      |r.enqueued| == |r.procs| && forall x :: 0 <= x < |r.procs| && Gone(r.enqueued, r.queue)[x] ==> r.procs[x].rt == 0
  {
    var i := s.queue[0];
    var r := Slice(quantum, s);
    SliceQueueOk(quantum, s);
    assert forall x :: 0 <= x < |s.procs| && x != i ==> r.procs[x] == s.procs[x];
    forall x | 0 <= x < |r.procs| && Gone(r.enqueued, r.queue)[x]
      ensures r.procs[x].rt == 0
    {
      if x != i {
        assert Gone(s.enqueued, s.queue)[x];
      }
    }
  }

  /** A slice keeps the Flags. */
  lemma SliceFlags(quantum: int, init: seq<Process>, s: RrState)
    requires QueueOk(s) && |init| == |s.procs| && Flags(init, s) && Fresh(init)
    requires s.queue != [] && quantum > 0
    ensures QueueOk(Slice(quantum, s)) && Flags(init, Slice(quantum, s))
  {
    SliceFlagsRecords(quantum, init, s);
    SliceFlagsQueue(quantum, init, s);
  }

  /** A slice keeps the facts. */
  lemma SliceGood(quantum: int, init: seq<Process>, s: RrState)
    requires Good(init, s) && Fresh(init) && s.queue != [] && quantum > 0
    ensures Good(init, Slice(quantum, s))
  {
    var i := s.queue[0];
    var p := s.procs[i];
    SliceRecords(quantum, s);
    RunAccounted(init, s.procs, s.gantt, i, Min(p.rt, quantum));
    SliceFlags(quantum, init, s);
  }

  /** A step keeps the facts. */
  lemma StepGood(quantum: int, init: seq<Process>, s: RrState)
    requires Good(init, s) && Fresh(init) && quantum > 0
    ensures Good(init, Step(quantum, s))
  {
    AdmitGood(init, s);
    var a := Admit(s);
    if a.queue == [] {
      IdleAccounted(init, a.procs, a.gantt);
    } else {
      SliceGood(quantum, init, a);
    }
  }

  /** The loop keeps the facts, and at its end no process has time left. */
  lemma {:induction false} RunGood(quantum: int, init: seq<Process>, s: RrState)
    requires Wf(s) && Good(init, s) && Fresh(init) && quantum > 0
    ensures Good(init, Run(quantum, s))
    ensures forall i :: 0 <= i < |init| ==> Run(quantum, s).procs[i].rt == 0
    decreases |s.procs| - s.completed, Left(s.procs), Wait(s)
  {
    if s.completed >= |s.procs| {
      UnfinishedNone(Gone(s.enqueued, s.queue));
      assert forall i :: 0 <= i < |init| ==> Gone(s.enqueued, s.queue)[i];
    } else {
      StepProgress(quantum, s);
      StepGood(quantum, init, s);
      RunGood(quantum, init, Step(quantum, s));
    }
  }

  /**
   * The schedule of a list with distinct ids whose remaining times equal
   * positive bursts: the table keeps the input order, each record keeps its job,
   * has nothing left and settled figures with a non-negative waiting time; each
   * process has exactly `bt` chart entries, the last one in the tick before its
   * completion time; every other entry is idle.
   */
  lemma RoundRobinCorrect(quantum: int, ps: seq<Process>)
    requires Fresh(ps) && quantum > 0
    ensures var ch := RoundRobin(quantum, ps);
      && |ch.table| == |ps|
      && (forall i :: 0 <= i < |ps| ==>
            && SameJob(ch.table[i], ps[i])
            && ch.table[i].rt == 0
            && Settled(ch.table[i])
            && ch.table[i].wt >= 0
            && multiset(ch.gantt)[ps[i].id] == ps[i].bt
            && 1 <= ch.table[i].ct <= |ch.gantt|
            && ch.gantt[ch.table[i].ct - 1] == ps[i].id
            && (forall t :: ch.table[i].ct <= t < |ch.gantt| ==> ch.gantt[t] != ps[i].id))
      && (forall x :: x != IDLE && NotAnId(ps, x) ==> multiset(ch.gantt)[x] == 0)
  {
    RunEnd(quantum, ps);
    var r := Run(quantum, Start(ps));
    forall i | 0 <= i < |ps|
      ensures && SameJob(r.procs[i], ps[i])
              && r.procs[i].rt == 0
              && Settled(r.procs[i])
              && r.procs[i].wt >= 0
              && multiset(r.gantt)[ps[i].id] == ps[i].bt
              && 1 <= r.procs[i].ct <= |r.gantt|
              && r.gantt[r.procs[i].ct - 1] == ps[i].id
              && (forall t :: r.procs[i].ct <= t < |r.gantt| ==> r.gantt[t] != ps[i].id)
    {
      FinalRecord(ps, r.procs, r.gantt, i);
    }
  }

  /** At the end of the loop from a fresh list, the chart accounts for the records and none has time left. */
  lemma RunEnd(quantum: int, ps: seq<Process>)
    requires Fresh(ps) && quantum > 0
    ensures var r := Run(quantum, Start(ps));
      && Accounted(ps, r.procs, r.gantt)
      && forall i :: 0 <= i < |ps| ==> r.procs[i].rt == 0
  {
    AccountedStart(ps);
    RunGood(quantum, ps, Start(ps));
  }

  // ---------------------------------------------------------------------
  // Bursts that may be zero

  /**
   * The chart counts for a run from the list `init`: every record keeps its job
   * and a remaining time between 0 and its burst, the chart holds `bt - rt`
   * entries of each process, and every other entry is idle.
   */
  ghost predicate Counted(init: seq<Process>, s: RrState)
    requires |init| == |s.procs|
  {
    && (forall i :: 0 <= i < |init| ==> SameJob(s.procs[i], init[i]) && 0 <= s.procs[i].rt <= init[i].bt)
    && (forall i :: 0 <= i < |init| ==> multiset(s.gantt)[init[i].id] == init[i].bt - s.procs[i].rt)
    && (forall x :: x != IDLE && NotAnId(init, x) ==> multiset(s.gantt)[x] == 0)
  }

  /**
   * How far the processes have got: an enqueued process has arrived and run all
   * its ticks since, one not enqueued has not run, and a gone one has nothing
   * left, settled figures and a completion time not before arrival plus burst.
   */
  ghost predicate Progress(init: seq<Process>, s: RrState)
    requires QueueOk(s) && |init| == |s.procs|
  {
    && (forall i :: 0 <= i < |init| && s.enqueued[i] ==> init[i].at + init[i].bt - s.procs[i].rt <= s.time)
    && (forall i :: 0 <= i < |init| && !s.enqueued[i] ==> s.procs[i].rt == init[i].bt)
    && (forall i :: 0 <= i < |init| && Gone(s.enqueued, s.queue)[i] ==>
          s.procs[i].rt == 0 && Settled(s.procs[i]) && init[i].at + init[i].bt <= s.procs[i].ct)
  }

  /** The facts the loop keeps about a list `init` not yet run, zero bursts included. */
  ghost predicate Tally(init: seq<Process>, s: RrState) {
    QueueOk(s) && |init| == |s.procs| && Counted(init, s) && Progress(init, s)
  }

  lemma StartTally(ps: seq<Process>)
    requires Unrun(ps)
    ensures Tally(ps, Start(ps))
  {
  }

  /** Admission keeps the tally: it only marks arrived processes that have not run. */
  lemma AdmitTally(init: seq<Process>, s: RrState)
    requires Tally(init, s)
    ensures Tally(init, Admit(s))
  {
    AdmitOk(s);
  }

  /** An idle tick keeps the tally. */
  lemma IdleTally(init: seq<Process>, s: RrState)
    requires Tally(init, s) && Unrun(init)
    ensures Tally(init, Idle(s))
  {
    assert multiset(s.gantt + [IDLE]) == multiset(s.gantt) + multiset{IDLE};
  }

  /** After a slice, the chart counts the ticks the head ran. */
  lemma SliceCounted(quantum: int, init: seq<Process>, s: RrState)
    requires Tally(init, s) && Unrun(init) && s.queue != [] && quantum > 0
    ensures |Slice(quantum, s).procs| == |init| && Counted(init, Slice(quantum, s))
  {
    var i := s.queue[0];
    var p := s.procs[i];
    var ex := Min(p.rt, quantum);
    var r := Slice(quantum, s);
    var block := Repeat(p.id, ex);
    SliceOthers(quantum, s);
    assert r.gantt == s.gantt + block;
    assert multiset(r.gantt) == multiset(s.gantt) + multiset(block);
    RepeatCount(p.id, ex);
    assert r.procs[i].rt == p.rt - ex && SameJob(r.procs[i], init[i]);
    forall j | 0 <= j < |init| && j != i
      ensures multiset(r.gantt)[init[j].id] == init[j].bt - r.procs[j].rt
    {
      assert init[j].id != p.id;
    }
  }

  /** After a slice, the head has run all its ticks since arrival, and completes with its figures settled. */
  lemma SliceProgressed(quantum: int, init: seq<Process>, s: RrState)
    requires Tally(init, s) && Unrun(init) && s.queue != [] && quantum > 0
    ensures QueueOk(Slice(quantum, s)) && |Slice(quantum, s).procs| == |init| && Progress(init, Slice(quantum, s))
  {
    var i := s.queue[0];
    var r := Slice(quantum, s);
    var b := RunHead(quantum, s);
    SliceOthers(quantum, s);
    SliceQueueOk(quantum, s);
    assert r.enqueued == Marked(b.procs, s.enqueued, b.time);
    assert r.time == b.time >= s.time;
    forall j | 0 <= j < |init| && r.enqueued[j]
      ensures init[j].at + init[j].bt - r.procs[j].rt <= r.time
    {
      if j != i && !s.enqueued[j] {
        assert b.procs[j].at <= b.time;
      }
    }
    forall j | 0 <= j < |init| && Gone(r.enqueued, r.queue)[j]
      ensures r.procs[j].rt == 0 && Settled(r.procs[j]) && init[j].at + init[j].bt <= r.procs[j].ct
    {
      if j != i {
        assert Gone(s.enqueued, s.queue)[j];
      }
    }
  }

  /** A slice keeps the tally. */
  lemma SliceTally(quantum: int, init: seq<Process>, s: RrState)
    requires Tally(init, s) && Unrun(init) && s.queue != [] && quantum > 0
    ensures Tally(init, Slice(quantum, s))
  {
    SliceCounted(quantum, init, s);
    SliceProgressed(quantum, init, s);
  }

  /** A step keeps the tally. */
  lemma StepTally(quantum: int, init: seq<Process>, s: RrState)
    requires Tally(init, s) && Unrun(init) && quantum > 0
    ensures Tally(init, Step(quantum, s))
  {
    AdmitTally(init, s);
    var a := Admit(s);
    if a.queue == [] {
      IdleTally(init, a);
    } else {
      SliceTally(quantum, init, a);
    }
  }

  /** The loop keeps the tally, and at its end every process is gone. */
  lemma {:induction false} RunTally(quantum: int, init: seq<Process>, s: RrState)
    requires Wf(s) && Tally(init, s) && Unrun(init) && quantum > 0
    ensures var r := Run(quantum, s);
      && Tally(init, r)
      && forall i :: 0 <= i < |init| ==> Gone(r.enqueued, r.queue)[i]
    decreases |s.procs| - s.completed, Left(s.procs), Wait(s)
  {
    if s.completed >= |s.procs| {
      UnfinishedNone(Gone(s.enqueued, s.queue));
    } else {
      StepProgress(quantum, s);
      StepTally(quantum, init, s);
      RunTally(quantum, init, Step(quantum, s));
    }
  }

  /**
   * The schedule of a list with distinct ids whose remaining times equal
   * non-negative bursts, zero included: the table keeps the input order, each
   * record keeps its job, has nothing left and settled figures with a
   * non-negative waiting time; each process has exactly `bt` chart entries, and
   * every other entry is idle.
   */
  lemma RoundRobinTally(quantum: int, ps: seq<Process>)
    requires Unrun(ps) && quantum > 0
    ensures var ch := RoundRobin(quantum, ps);
      && |ch.table| == |ps|
      && (forall i :: 0 <= i < |ps| ==>
            && SameJob(ch.table[i], ps[i])
            && ch.table[i].rt == 0
            && Settled(ch.table[i])
            && ch.table[i].wt >= 0
            && multiset(ch.gantt)[ps[i].id] == ps[i].bt)
      && (forall x :: x != IDLE && NotAnId(ps, x) ==> multiset(ch.gantt)[x] == 0)
  {
    StartTally(ps);
    RunTally(quantum, ps, Start(ps));
    var r := Run(quantum, Start(ps));
    forall i | 0 <= i < |ps|
      ensures r.procs[i].rt == 0 && Settled(r.procs[i]) && r.procs[i].wt >= 0
    {
      assert Gone(r.enqueued, r.queue)[i];
    }
  }

  /** A step changes no process's id, arrival, burst or priority, whatever the bursts. */
  lemma StepJobs(quantum: int, s: RrState)
    requires QueueOk(s)
    ensures SameJobs(Step(quantum, s).procs, s.procs)
  {
    AdmitOk(s);
    var a := Admit(s);
    if a.queue != [] {
      var i := a.queue[0];
      SliceOthers(quantum, a);
      assert SameJob(Slice(quantum, a).procs[i], a.procs[i]);
    }
  }

  /** The loop changes no process's job, whatever the bursts. */
  lemma {:induction false} RunJobs(quantum: int, s: RrState)
    requires Wf(s) && quantum > 0
    ensures SameJobs(Run(quantum, s).procs, s.procs)
    decreases |s.procs| - s.completed, Left(s.procs), Wait(s)
  {
    if s.completed < |s.procs| {
      StepProgress(quantum, s);
      StepJobs(quantum, s);
      RunJobs(quantum, Step(quantum, s));
    }
  }

  /** The table keeps the input order and each row the job of its input entry, whatever the bursts. */
  lemma RoundRobinJobs(quantum: int, ps: seq<Process>)
    requires quantum > 0
    ensures SameJobs(RoundRobin(quantum, ps).table, ps)
  {
    RunJobs(quantum, Start(ps));
  }
}
