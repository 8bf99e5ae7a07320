/**
 * ProcessSchedulingGUI.schedule: the process list built from the input arrays,
 * scheduled by one of six policies, giving the Gantt chart and the table of
 * records in the order the window prints them.
 */
module ProcessScheduling {

  import opened Processes
  import opened Sorting
  import FcfsScheduling
  import NonPreemptive
  import Preemptive
  import RoundRobin

  /** The six entries of the algorithm box: FCFS, SJF and Priority (each non-preemptive or preemptive), Round Robin. */
  datatype Policy = Fcfs | Sjf(preemptive: bool) | Prio(preemptive: bool) | Rr

  /** The policies whose branch sorts the list by arrival first. */
  predicate SortsByArrival(policy: Policy) {
    policy.Fcfs? || (policy.Sjf? && !policy.preemptive) || (policy.Prio? && !policy.preemptive)
  }

  /** The inputs on which the chosen branch's loop ends: positive bursts for a preemptive policy, a positive quantum for Round Robin. */
  predicate Terminates(policy: Policy, bt: seq<int>, quantum: int) {
    && ((policy.Sjf? || policy.Prio?) && policy.preemptive ==> forall k :: 0 <= k < |bt| ==> bt[k] > 0)
    && (policy.Rr? ==> quantum > 0)
  }

  /** What the window shows: the error message, or a chart and a table. */
  datatype Outcome = Invalid | Scheduled(chart: Chart)

  /** A burst array with more entries than the arrival or priority array makes the list construction fail. */
  predicate WellSized(at: seq<int>, bt: seq<int>, pr: seq<int>) {
    |at| >= |bt| && |pr| >= |bt|
  }

  /** The schedule of the input arrays under a policy. */
  function Schedule(policy: Policy, at: seq<int>, bt: seq<int>, pr: seq<int>, quantum: int): Outcome
    requires Terminates(policy, bt, quantum)
  {
    if !WellSized(at, bt, pr) then Invalid
    else
      var ps := Created(at, bt, pr);
      Scheduled(match policy
        case Fcfs => FcfsScheduling.Fcfs(ps)
        case Sjf(pre) => if pre then Preemptive.Preemptive(ShortestJob, ps) else NonPreemptive.NonPreemptive(ShortestJob, ps)
        case Prio(pre) => if pre then Preemptive.Preemptive(Priority, ps) else NonPreemptive.NonPreemptive(Priority, ps)
        case Rr => RoundRobin.RoundRobin(quantum, ps))
  }

  /** `schedule()` after parsing: builds the list, runs the chosen branch over it, and yields its chart and table. */
  method ScheduleRun(policy: Policy, at: seq<int>, bt: seq<int>, pr: seq<int>, quantum: int) returns (outcome: Outcome)
    requires Terminates(policy, bt, quantum)
    ensures outcome == Schedule(policy, at, bt, pr, quantum)
  {
    if !WellSized(at, bt, pr) {
      return Invalid;
    }
    var ps := new Process[|bt|];
    for i := 0 to |bt|
      invariant ps[..i] == Created(at, bt, pr)[..i]
    {
      ps[i] := Process(i + 1, at[i], bt[i], pr[i], bt[i], 0, 0, 0);
    }
    assert ps[..] == Created(at, bt, pr);
    var gantt;
    match policy {
    case Fcfs =>
      gantt := FcfsScheduling.FcfsRun(ps);
    case Sjf(pre) =>
      if pre {
        gantt := Preemptive.PreemptiveRun(ShortestJob, ps);
      } else {
        gantt := NonPreemptive.NonPreemptiveRun(ShortestJob, ps);
      }
    case Prio(pre) =>
      if pre {
        gantt := Preemptive.PreemptiveRun(Priority, ps);
      } else {
        gantt := NonPreemptive.NonPreemptiveRun(Priority, ps);
      }
    case Rr =>
      gantt := RoundRobin.RoundRobinRun(quantum, ps);
    }
    outcome := Scheduled(Chart(ps[..], gantt));
  }

  // ---------------------------------------------------------------------
  // What every policy computes

  /** The error message appears exactly when the burst array is longer than the arrival or priority array. */
  lemma ScheduleInvalid(policy: Policy, at: seq<int>, bt: seq<int>, pr: seq<int>, quantum: int)
    requires Terminates(policy, bt, quantum)
    ensures Schedule(policy, at, bt, pr, quantum).Invalid? <==> |at| < |bt| || |pr| < |bt|
  {
  }

  /** Chart counts stated for a list q holding the created processes in some order, restated per input position. */
  lemma CountsOfCreated(at: seq<int>, bt: seq<int>, pr: seq<int>, q: seq<Process>, g: seq<int>)
    requires WellSized(at, bt, pr)
    requires multiset(q) == multiset(Created(at, bt, pr))
    requires forall j :: 0 <= j < |q| ==> multiset(g)[q[j].id] == q[j].bt
    requires forall x :: x != IDLE && NotAnId(q, x) ==> multiset(g)[x] == 0
    ensures forall k :: 0 <= k < |bt| ==> multiset(g)[k + 1] == bt[k]
    ensures forall x :: x != IDLE && !(1 <= x <= |bt|) ==> multiset(g)[x] == 0
  {
    var ps := Created(at, bt, pr);
    forall k | 0 <= k < |bt|
      ensures multiset(g)[k + 1] == bt[k]
    {
      assert ps[k] in multiset(q);
      var j :| 0 <= j < |q| && q[j] == ps[k];
    }
    forall x | x != IDLE && !(1 <= x <= |bt|)
      ensures multiset(g)[x] == 0
    {
      forall j | 0 <= j < |q|
        ensures q[j].id != x
      {
        assert q[j] in multiset(ps);
      }
    }
  }

  /**
   * A chart accounts for the bursts: one record per process, each with
   * tat == ct - at, wt == tat - bt and a non-negative waiting time; exactly bt[k]
   * chart entries of process k + 1, and every other entry idle.
   */
  ghost predicate Accounts(bt: seq<int>, ch: Chart) {
    && |ch.table| == |bt|
    && (forall i :: 0 <= i < |bt| ==> Settled(ch.table[i]) && ch.table[i].wt >= 0)
    && (forall k :: 0 <= k < |bt| ==> multiset(ch.gantt)[k + 1] == bt[k])
    && (forall x :: x != IDLE && !(1 <= x <= |bt|) ==> multiset(ch.gantt)[x] == 0)
  }

  /** The arrival-sorted created list keeps non-negative bursts and distinct ids. */
  lemma SortedCreated(at: seq<int>, bt: seq<int>, pr: seq<int>)
    requires WellSized(at, bt, pr)
    requires forall k :: 0 <= k < |bt| ==> bt[k] >= 0
    ensures var q := SortBy(Created(at, bt, pr), Arrival);
      && DistinctIds(q)
      && forall k :: 0 <= k < |q| ==> q[k].bt >= 0
  {
    var ps := Created(at, bt, pr);
    var q := SortBy(ps, Arrival);
    CreatedIds(at, bt, pr);
    DistinctIdsPermuted(ps, q);
    forall k | 0 <= k < |q|
      ensures q[k].bt >= 0
    {
      assert q[k] in multiset(ps);
    }
  }

  lemma FcfsAccounts(at: seq<int>, bt: seq<int>, pr: seq<int>)
    requires WellSized(at, bt, pr)
    requires forall k :: 0 <= k < |bt| ==> bt[k] >= 0
    ensures var ps := Created(at, bt, pr);
      && Accounts(bt, FcfsScheduling.Fcfs(ps))
      && SameJobs(FcfsScheduling.Fcfs(ps).table, SortBy(ps, Arrival))
  {
    var ps := Created(at, bt, pr);
    var q := SortBy(ps, Arrival);
    var ch := FcfsScheduling.FcfsFrom(q, 0);
    assert FcfsScheduling.Fcfs(ps) == ch;
    SortedCreated(at, bt, pr);
    FcfsSettled(q);
    FcfsScheduling.FcfsGantt(q, 0);
    CountsOfCreated(at, bt, pr, q, ch.gantt);
  }

  /** The FCFS table facts needed here, without the completion-time arithmetic. */
  lemma FcfsSettled(q: seq<Process>)
    ensures var t := FcfsScheduling.FcfsFrom(q, 0).table;
      && SameJobs(t, q)
      && forall i :: 0 <= i < |q| ==> Settled(t[i]) && t[i].wt >= 0
  {
    var t := FcfsScheduling.FcfsFrom(q, 0).table;
    FcfsScheduling.FcfsTable(q, 0);
    forall i | 0 <= i < |q|
      ensures SameJob(t[i], q[i]) && Settled(t[i]) && t[i].wt >= 0
    {
      var start := Max(if i == 0 then 0 else t[i - 1].ct, q[i].at);
      assert t[i].wt == start - q[i].at >= 0;
    }
  }

  lemma NonPreemptiveAccounts(c: Criterion, at: seq<int>, bt: seq<int>, pr: seq<int>)
    requires WellSized(at, bt, pr)
    requires forall k :: 0 <= k < |bt| ==> bt[k] >= 0
    ensures var ps := Created(at, bt, pr);
      && Accounts(bt, NonPreemptive.NonPreemptive(c, ps))
      && SameJobs(NonPreemptive.NonPreemptive(c, ps).table, SortBy(ps, Arrival))
  {
    var ps := Created(at, bt, pr);
    CreatedIds(at, bt, pr);
    NonPreemptive.NonPreemptiveCorrect(c, ps);
    CountsOfCreated(at, bt, pr, SortBy(ps, Arrival), NonPreemptive.NonPreemptive(c, ps).gantt);
  }

  lemma PreemptiveAccounts(c: Criterion, at: seq<int>, bt: seq<int>, pr: seq<int>)
    requires WellSized(at, bt, pr)
    requires forall k :: 0 <= k < |bt| ==> bt[k] > 0
    ensures var ps := Created(at, bt, pr);
      && Accounts(bt, Preemptive.Preemptive(c, ps))
      && SameJobs(Preemptive.Preemptive(c, ps).table, ps)
  {
    var ps := Created(at, bt, pr);
    CreatedIds(at, bt, pr);
    Preemptive.PreemptiveCorrect(c, ps);
    CountsOfCreated(at, bt, pr, ps, Preemptive.Preemptive(c, ps).gantt);
  }

  lemma RoundRobinAccounts(quantum: int, at: seq<int>, bt: seq<int>, pr: seq<int>)
    requires WellSized(at, bt, pr) && quantum > 0
    requires forall k :: 0 <= k < |bt| ==> bt[k] >= 0
    ensures var ps := Created(at, bt, pr);
      && Accounts(bt, RoundRobin.RoundRobin(quantum, ps))
      && SameJobs(RoundRobin.RoundRobin(quantum, ps).table, ps)
  {
    var ps := Created(at, bt, pr);
    CreatedIds(at, bt, pr);
    RoundRobin.RoundRobinTally(quantum, ps);
    CountsOfCreated(at, bt, pr, ps, RoundRobin.RoundRobin(quantum, ps).gantt);
  }

  /** Every policy's chart accounts for the bursts, and its table keeps the jobs of the list it printed from. */
  lemma PolicyFacts(policy: Policy, at: seq<int>, bt: seq<int>, pr: seq<int>, quantum: int)
    requires Terminates(policy, bt, quantum) && WellSized(at, bt, pr)
    requires forall k :: 0 <= k < |bt| ==> bt[k] >= 0
    ensures var ch := Schedule(policy, at, bt, pr, quantum).chart; var ps := Created(at, bt, pr);
      && Accounts(bt, ch)
      && SameJobs(ch.table, if SortsByArrival(policy) then SortBy(ps, Arrival) else ps)
  {
    match policy
    case Fcfs => FcfsAccounts(at, bt, pr);
    case Sjf(pre) =>
      if pre {
        PreemptiveAccounts(ShortestJob, at, bt, pr);
      } else {
        NonPreemptiveAccounts(ShortestJob, at, bt, pr);
      }
    case Prio(pre) =>
      if pre {
        PreemptiveAccounts(Priority, at, bt, pr);
      } else {
        NonPreemptiveAccounts(Priority, at, bt, pr);
      }
    case Rr => RoundRobinAccounts(quantum, at, bt, pr);
  }

  /**
   * For well-sized inputs with non-negative bursts, every policy's chart
   * accounts for the bursts.
   */
  lemma ScheduleCorrect(policy: Policy, at: seq<int>, bt: seq<int>, pr: seq<int>, quantum: int)
    requires Terminates(policy, bt, quantum) && WellSized(at, bt, pr)
    requires forall k :: 0 <= k < |bt| ==> bt[k] >= 0
    ensures var ch := Schedule(policy, at, bt, pr, quantum).chart;
      && |ch.table| == |bt|
      && (forall i :: 0 <= i < |bt| ==> Settled(ch.table[i]) && ch.table[i].wt >= 0)
      && (forall k :: 0 <= k < |bt| ==> multiset(ch.gantt)[k + 1] == bt[k])
      && (forall x :: x != IDLE && !(1 <= x <= |bt|) ==> multiset(ch.gantt)[x] == 0)
  {
    PolicyFacts(policy, at, bt, pr, quantum);
  }

  /** Every policy's table keeps the jobs of the list it printed from, whatever the bursts. */
  lemma PolicyJobs(policy: Policy, at: seq<int>, bt: seq<int>, pr: seq<int>, quantum: int)
    requires Terminates(policy, bt, quantum) && WellSized(at, bt, pr)
    ensures var ch := Schedule(policy, at, bt, pr, quantum).chart; var ps := Created(at, bt, pr);
      SameJobs(ch.table, if SortsByArrival(policy) then SortBy(ps, Arrival) else ps)
  {
    var ps := Created(at, bt, pr);
    match policy
    case Fcfs => FcfsScheduling.FcfsTable(SortBy(ps, Arrival), 0);
    case Sjf(pre) =>
      if pre {
        PreemptiveAccounts(ShortestJob, at, bt, pr);
      } else {
        NonPreemptive.NonPreemptiveJobs(ShortestJob, ps);
      }
    case Prio(pre) =>
      if pre {
        PreemptiveAccounts(Priority, at, bt, pr);
      } else {
        NonPreemptive.NonPreemptiveJobs(Priority, ps);
      }
    case Rr => RoundRobin.RoundRobinJobs(quantum, ps);
  }

  /** A table keeping the jobs of the arrival-sorted created list is ordered by arrival, ties by id. */
  lemma SortedJobs(at: seq<int>, bt: seq<int>, pr: seq<int>, t: seq<Process>)
    requires WellSized(at, bt, pr)
    requires SameJobs(t, SortBy(Created(at, bt, pr), Arrival))
    ensures LexSortedBy(t, Arrival, Id)
  {
    var ps := Created(at, bt, pr);
    var q := SortBy(ps, Arrival);
    CreatedIds(at, bt, pr);
    SortByStable(ps, Arrival, Id);
    assert forall i :: 0 <= i < |q| ==> Arrival(t[i]) == Arrival(q[i]) && Id(t[i]) == Id(q[i]);
  }

  /**
   * The order of the printed table: FCFS and the non-preemptive policies print
   * the list sorted by arrival, stably, so by arrival and then by id, each row
   * the job of the sorted list's entry; the other policies print the list in
   * input order, row k for process k + 1.
   */
  lemma ScheduleTableOrder(policy: Policy, at: seq<int>, bt: seq<int>, pr: seq<int>, quantum: int)
    requires Terminates(policy, bt, quantum) && WellSized(at, bt, pr)
    ensures var ch := Schedule(policy, at, bt, pr, quantum).chart; var ps := Created(at, bt, pr);
      && |ch.table| == |bt|
      && (SortsByArrival(policy) ==>
            && LexSortedBy(ch.table, Arrival, Id)
            && (forall i :: 0 <= i < |bt| ==> SameJob(ch.table[i], SortBy(ps, Arrival)[i])))
      && (!SortsByArrival(policy) ==> forall k :: 0 <= k < |bt| ==> SameJob(ch.table[k], ps[k]))
  {
    var ps := Created(at, bt, pr);
    var ch := Schedule(policy, at, bt, pr, quantum).chart;
    PolicyJobs(policy, at, bt, pr, quantum);
    if SortsByArrival(policy) {
      SortedJobs(at, bt, pr, ch.table);
    }
  }
}
