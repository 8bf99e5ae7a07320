/**
 * First come, first served (the "FCFS" branch of ProcessSchedulingGUI.schedule):
 * the processes are sorted by arrival (a stable sort) and run to completion in
 * that order; the clock jumps to a process's arrival when it is ahead, and no
 * idle entries are written for such gaps.
 */
module FcfsScheduling {

  import opened Processes
  import opened Sorting

  /** The record of process p once served from clock `time`: it starts at max(time, at) and runs its whole burst. */
  function Served(p: Process, time: int): Process {
    var start := Max(time, p.at);
    p.(wt := start - p.at, ct := start + p.bt, tat := start + p.bt - p.at)
  }

  /** Runs `ps` in list order from clock `time`. */
  function FcfsFrom(ps: seq<Process>, time: int): Chart
    decreases |ps|
  {
    if ps == [] then Chart([], [])
    else
      var rest := FcfsFrom(ps[1..], Served(ps[0], time).ct);
      Chart([Served(ps[0], time)] + rest.table, Repeat(ps[0].id, ps[0].bt) + rest.gantt)
  }

  /** The FCFS schedule of a process list: its stable sort by arrival, run in order from time 0. */
  function Fcfs(ps: seq<Process>): Chart {
    FcfsFrom(SortBy(ps, Arrival), 0)
  }

  /** The loop body: process k starts at max(time, at), waits start - at, and completes a burst later. */
  method Serve(ps: array<Process>, k: nat, time: int, gantt: seq<int>) returns (time': int, gantt': seq<int>)
    requires k < ps.Length
    modifies ps
    ensures ps[..] == old(ps[..])[k := Served(old(ps[k]), time)]
    ensures time' == Served(old(ps[k]), time).ct
    ensures gantt' == gantt + Repeat(ps[k].id, ps[k].bt)
  {
    var p := ps[k];
    time' := Max(time, p.at);
    p := p.(wt := time' - p.at);
    time' := time' + p.bt;
    p := p.(ct := time');
    p := p.(tat := p.ct - p.at);
    ps[k] := p;
    gantt' := AddEntries(gantt, p.id, p.bt);
  }

  /** The `for (Process p : processes)` loop: serves the list in order from time 0. */
  method ServeAll(ps: array<Process>) returns (gantt: seq<int>)
    modifies ps
    ensures Chart(ps[..], gantt) == FcfsFrom(old(ps[..]), 0)
  {
    ghost var list := ps[..];
    var time := 0;
    gantt := [];
    for k := 0 to ps.Length
      invariant forall j :: k <= j < ps.Length ==> ps[j] == list[j]
      invariant FcfsFrom(list, 0).table == ps[..k] + FcfsFrom(list[k..], time).table
      invariant FcfsFrom(list, 0).gantt == gantt + FcfsFrom(list[k..], time).gantt
    {
      ghost var served := ps[..k];
      ghost var clock := time;
      ghost var rest := FcfsFrom(list[k + 1..], Served(list[k], time).ct);
      assert list[k..][1..] == list[k + 1..];
      assert FcfsFrom(list[k..], time) == Chart([Served(list[k], time)] + rest.table, Repeat(list[k].id, list[k].bt) + rest.gantt);
      time, gantt := Serve(ps, k, time, gantt);
      assert ps[..k + 1] == served + [Served(list[k], clock)];
    }
    assert ps[..ps.Length] == ps[..];
  }

  /** The branch itself: sort the list by arrival in place, then serve it in order. */
  method FcfsRun(ps: array<Process>) returns (gantt: seq<int>)
    modifies ps
    ensures Chart(ps[..], gantt) == Fcfs(old(ps[..]))
  {
    SortInPlace(ps, Arrival);
    gantt := ServeAll(ps);
  }

  /**
   * The table FCFS computes, whatever the bursts: each process keeps its job,
   * starts at the later of the previous completion (or the start clock) and its
   * arrival, so it never waits a negative time, and completes a burst later.
   */
  lemma {:induction false} FcfsTable(ps: seq<Process>, time: int)
    ensures var t := FcfsFrom(ps, time).table;
      && |t| == |ps|
      && (forall k :: 0 <= k < |ps| ==> SameJob(t[k], ps[k]) && t[k].rt == ps[k].rt && Settled(t[k]))
      && (forall k :: 0 <= k < |ps| ==>
            var start := Max(if k == 0 then time else t[k - 1].ct, ps[k].at);
            t[k].ct == start + ps[k].bt && t[k].wt == start - ps[k].at >= 0)
    decreases |ps|
  {
    if ps != [] {
      var tail := ps[1..];
      var c := Served(ps[0], time).ct;
      FcfsTable(tail, c);
      var rest := FcfsFrom(tail, c).table;
      var t := FcfsFrom(ps, time).table;
      assert t == [Served(ps[0], time)] + rest;
      assert forall k :: 1 <= k < |ps| ==> ps[k] == tail[k - 1] && t[k] == rest[k - 1];
    }
  }

  /** The chart FCFS computes: exactly `bt` entries of each process (ids distinct), and no other entry, so no idle entry. */
  lemma {:induction false} FcfsGantt(ps: seq<Process>, time: int)
    requires forall k :: 0 <= k < |ps| ==> ps[k].bt >= 0
    ensures var g := FcfsFrom(ps, time).gantt;
      && (forall x :: NotAnId(ps, x) ==> multiset(g)[x] == 0)
      && (DistinctIds(ps) ==> forall k :: 0 <= k < |ps| ==> multiset(g)[ps[k].id] == ps[k].bt)
    decreases |ps|
  {
    if ps != [] {
      var p := ps[0];
      var tail := ps[1..];
      var c := Served(p, time).ct;
      FcfsGantt(tail, c);
      var rest := FcfsFrom(tail, c).gantt;
      var g := FcfsFrom(ps, time).gantt;
      assert g == Repeat(p.id, p.bt) + rest;
      assert multiset(g) == multiset(Repeat(p.id, p.bt)) + multiset(rest);
      RepeatCount(p.id, p.bt);
      forall x | NotAnId(ps, x)
        ensures multiset(g)[x] == 0
      {
        assert ps[0].id != x;
        assert NotAnId(tail, x) by {
          assert forall k :: 0 <= k < |tail| ==> tail[k] == ps[k + 1];
        }
        assert multiset(Repeat(p.id, p.bt))[x] == 0;
      }
      if DistinctIds(ps) {
        assert forall k :: 0 <= k < |tail| ==> tail[k] == ps[k + 1];
        assert DistinctIds(tail);
        forall k | 0 <= k < |ps| ensures multiset(g)[ps[k].id] == ps[k].bt {
          if k == 0 {
            assert forall j :: 0 <= j < |tail| ==> tail[j].id != p.id;
          } else {
            assert ps[k] == tail[k - 1];
          }
        }
      }
    }
  }

  /** With positive bursts, FCFS completion times strictly increase along the table. */
  lemma FcfsCompletionsIncrease(ps: seq<Process>, time: int)
    requires forall k :: 0 <= k < |ps| ==> ps[k].bt > 0
    ensures var t := FcfsFrom(ps, time).table;
      forall k :: 0 < k < |t| ==> t[k - 1].ct < t[k].ct
  {
    FcfsTable(ps, time);
  }
}
