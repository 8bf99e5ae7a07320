/**
 * Banker's safety check (BankersAlgorithmGUI.bankersAlgorithm).  Given the
 * allocation and maximum matrices (n processes by m resource types) and the
 * available vector, it repeatedly scans the processes in index order, lets every
 * unfinished process whose remaining need fits the work vector finish (returning
 * its allocation to work), and reports either the order in which the processes
 * finished or that a whole pass finished nobody.
 *
 * The functions below state that scan declaratively (Pass, Safety, Verdict);
 * SafetyCheck is the source's loop nest over arrays and is proved equal to it;
 * the lemmas prove that a Safe verdict is a safe sequence and that, with
 * non-negative allocations, an Unsafe verdict means no safe sequence exists.
 */
module Bankers {

  import opened Lists

  datatype Outcome =
    | Safe(sequence: seq<int>)   // the safe sequence, process indices from 0
    | Unsafe                     // a full pass finished no process
    | InputError                 // a matrix row or the max matrix is too short: the source throws

  /**
   * The shapes under which the need computation reads only existing entries:
   * with no resource types nothing is read; otherwise every allocation and
   * maximum row of the n processes has at least m entries.
   */
  predicate Shaped(alloc: seq<seq<int>>, max: seq<seq<int>>, m: nat) {
    m == 0 || (|max| >= |alloc| && forall i :: 0 <= i < |alloc| ==> |alloc[i]| >= m && |max[i]| >= m)
  }

  /** Remaining need of process i for resource j. */
  function Need(alloc: seq<seq<int>>, max: seq<seq<int>>, i: nat, j: nat): int
    requires i < |alloc| && i < |max| && j < |alloc[i]| && j < |max[i]|
  {
    max[i][j] - alloc[i][j]
  }

  /** Process i's whole remaining need fits in `work`. */
  predicate Fits(alloc: seq<seq<int>>, max: seq<seq<int>>, i: nat, work: seq<int>)
    requires Shaped(alloc, max, |work|) && i < |alloc|
  {
    forall j :: 0 <= j < |work| ==> Need(alloc, max, i, j) <= work[j]
  }

  /** `work` after process i returns its allocation `row`. */
  function Release(work: seq<int>, row: seq<int>): seq<int>
    requires |row| >= |work|
  {
    seq(|work|, j requires 0 <= j < |work| => work[j] + row[j])
  }

  /** The scan state: the finish flags, the safe sequence so far and the work vector. */
  datatype State = State(finish: seq<bool>, order: seq<int>, work: seq<int>)

  /**
   * The scan's visit of process i: if it is unfinished and its need fits the
   * work, it finishes, joins the safe sequence and returns its allocation.
   */
  function Visit(alloc: seq<seq<int>>, max: seq<seq<int>>, i: nat, s: State): (r: State)
    requires Shaped(alloc, max, |s.work|) && |s.finish| == |alloc| && i < |alloc|
    ensures |r.finish| == |s.finish| && |r.work| == |s.work|
    ensures |r.order| >= |s.order|
    ensures Unfinished(r.finish) + |r.order| == Unfinished(s.finish) + |s.order|
  {
    if !s.finish[i] && Fits(alloc, max, i, s.work) then
      UnfinishedMark(s.finish, i);
      State(s.finish[i := true], s.order + [i], Release(s.work, alloc[i]))
    else s
  }

  /**
   * One pass over processes i, i+1, ..., n-1, in index order; a process that
   * finishes returns its allocation before the later ones are visited.
   */
  function Pass(alloc: seq<seq<int>>, max: seq<seq<int>>, i: nat, s: State): (r: State)
    requires Shaped(alloc, max, |s.work|) && |s.finish| == |alloc| && i <= |alloc|
    ensures |r.finish| == |s.finish| && |r.work| == |s.work|
    ensures |r.order| >= |s.order|
    ensures Unfinished(r.finish) + |r.order| == Unfinished(s.finish) + |s.order|
    decreases |alloc| - i
  {
    if i == |alloc| then s else Pass(alloc, max, i + 1, Visit(alloc, max, i, s))
  }

  /** The outer loop: passes until everybody has finished (Safe) or a pass finishes nobody (Unsafe). */
  function Safety(alloc: seq<seq<int>>, max: seq<seq<int>>, s: State): Outcome
    requires Shaped(alloc, max, |s.work|) && |s.finish| == |alloc|
    decreases Unfinished(s.finish)
  {
    if |s.order| >= |alloc| then Safe(s.order)
    else
      var r := Pass(alloc, max, 0, s);
      if |r.order| == |s.order| then Unsafe else Safety(alloc, max, r)
  }

  /** The result of the safety check for the given matrices. */
  function Verdict(alloc: seq<seq<int>>, max: seq<seq<int>>, avail: seq<int>): Outcome {
    if !Shaped(alloc, max, |avail|) then InputError
    else Safety(alloc, max, State(seq(|alloc|, _ => false), [], avail))
  }

  // ---------------------------------------------------------------------
  // The source's loop nest

  /** The need matrix, filled in nested loops. */
  method ComputeNeed(alloc: seq<seq<int>>, max: seq<seq<int>>, m: nat) returns (need: array2<int>)
    requires Shaped(alloc, max, m)
    ensures fresh(need) && need.Length0 == |alloc| && need.Length1 == m
    ensures forall i, j :: 0 <= i < |alloc| && 0 <= j < m ==> need[i, j] == Need(alloc, max, i, j)
  {
    need := new int[|alloc|, m];
    for i := 0 to |alloc|
      invariant forall i', j :: 0 <= i' < i && 0 <= j < m ==> need[i', j] == Need(alloc, max, i', j)
    {
      for j := 0 to m
        invariant forall i', j' :: 0 <= i' < i && 0 <= j' < m ==> need[i', j'] == Need(alloc, max, i', j')
        invariant forall j' :: 0 <= j' < j ==> need[i, j'] == Need(alloc, max, i, j')
      {
        need[i, j] := max[i][j] - alloc[i][j];
      }
    }
  }

  /** The `possible` scan: stops at the first resource whose need exceeds the work. */
  method CanFinish(ghost alloc: seq<seq<int>>, ghost max: seq<seq<int>>, need: array2<int>, i: nat, work: array<int>)
    returns (possible: bool)
    requires Shaped(alloc, max, work.Length) && i < |alloc|
    requires need.Length0 == |alloc| && need.Length1 == work.Length
    requires forall i', j :: 0 <= i' < |alloc| && 0 <= j < work.Length ==> need[i', j] == Need(alloc, max, i', j)
    ensures possible == Fits(alloc, max, i, work[..])
  {
    possible := true;
    for j := 0 to work.Length
      invariant forall j' :: 0 <= j' < j ==> need[i, j'] <= work[j']
    {
      if need[i, j] > work[j] {
        possible := false;
        break;
      }
    }
  }

  /** work[k] += alloc[i][k] for every resource k. */
  method ReleaseInto(work: array<int>, row: seq<int>)
    requires |row| >= work.Length
    modifies work
    ensures work[..] == Release(old(work[..]), row)
  {
    for k := 0 to work.Length
      invariant forall k' :: 0 <= k' < k ==> work[k'] == old(work[k']) + row[k']
      invariant forall k' :: k <= k' < work.Length ==> work[k'] == old(work[k'])
    {
      work[k] := work[k] + row[k];
    }
  }

  /** The arrays the scan works on, seen as a scan state. */
  function Snapshot(finish: array<bool>, safeSequence: array<int>, count: nat, work: array<int>): State
    requires count <= safeSequence.Length
    reads finish, safeSequence, work
  {
    State(finish[..], safeSequence[..count], work[..])
  }

  /** The body of the scan for process i: one Visit, on the arrays. */
  method VisitProcess(alloc: seq<seq<int>>, ghost max: seq<seq<int>>, need: array2<int>, i: nat,
                      finish: array<bool>, safeSequence: array<int>, count: nat, work: array<int>)
    returns (count': nat)
    requires Shaped(alloc, max, work.Length) && i < |alloc| && safeSequence != work
    requires finish.Length == safeSequence.Length == |alloc|
    requires need.Length0 == |alloc| && need.Length1 == work.Length
    requires forall i', j :: 0 <= i' < |alloc| && 0 <= j < work.Length ==> need[i', j] == Need(alloc, max, i', j)
    requires Unfinished(finish[..]) + count == |alloc|
    modifies finish, safeSequence, work
    ensures count' <= safeSequence.Length
    ensures Snapshot(finish, safeSequence, count', work) == Visit(alloc, max, i, old(Snapshot(finish, safeSequence, count, work)))
  {
    ghost var cur := Snapshot(finish, safeSequence, count, work);
    count' := count;
    if !finish[i] {
      var possible := CanFinish(alloc, max, need, i, work);
      if possible {
        UnfinishedMark(finish[..], i);
        ReleaseInto(work, alloc[i]);
        safeSequence[count] := i;
        finish[i] := true;
        count' := count + 1;
        assert safeSequence[..count'] == cur.order + [i];
      }
    }
  }

  /** One pass of the `for` loop over all processes; `found` tells whether anybody finished. */
  method ScanPass(alloc: seq<seq<int>>, ghost max: seq<seq<int>>, need: array2<int>,
                  finish: array<bool>, safeSequence: array<int>, count: nat, work: array<int>)
    returns (count': nat, found: bool)
    requires Shaped(alloc, max, work.Length) && safeSequence != work
    requires finish.Length == safeSequence.Length == |alloc|
    requires need.Length0 == |alloc| && need.Length1 == work.Length
    requires forall i', j :: 0 <= i' < |alloc| && 0 <= j < work.Length ==> need[i', j] == Need(alloc, max, i', j)
    requires Unfinished(finish[..]) + count == |alloc|
    modifies finish, safeSequence, work
    ensures count' <= safeSequence.Length
    ensures Snapshot(finish, safeSequence, count', work) == Pass(alloc, max, 0, old(Snapshot(finish, safeSequence, count, work)))
    ensures found <==> count' > count
  {
    ghost var before := Snapshot(finish, safeSequence, count, work);
    count', found := count, false;
    for i := 0 to |alloc|
      invariant Unfinished(finish[..]) + count' == |alloc|
      invariant count' >= count
      invariant found <==> count' > count
      invariant Pass(alloc, max, i, Snapshot(finish, safeSequence, count', work)) == Pass(alloc, max, 0, before)
    {
      var next := VisitProcess(alloc, max, need, i, finish, safeSequence, count', work);
      if next > count' {
        found := true;
      }
      count' := next;
    }
  }

  /** bankersAlgorithm: the verdict is the one the passes of Safety reach. */
  method SafetyCheck(alloc: seq<seq<int>>, max: seq<seq<int>>, avail: seq<int>) returns (v: Outcome)
    ensures v == Verdict(alloc, max, avail)
  {
    var n := |alloc|;
    var m := |avail|;
    if !Shaped(alloc, max, m) {
      return InputError;
    }
    var need := ComputeNeed(alloc, max, m);
    var finish := new bool[n](_ => false);
    var safeSequence := new int[n](_ => 0);
    var count := 0;
    var work := new int[m](j requires 0 <= j < m => avail[j]);
    ghost var init := Snapshot(finish, safeSequence, count, work);
    assert init == State(seq(n, _ => false), [], avail);
    UnfinishedAll(n);
    while count < n
      modifies finish, safeSequence, work
      invariant count <= n
      invariant Unfinished(finish[..]) + count == n
      invariant Safety(alloc, max, Snapshot(finish, safeSequence, count, work)) == Safety(alloc, max, init)
      decreases Unfinished(finish[..])
    {
      var found;
      count, found := ScanPass(alloc, max, need, finish, safeSequence, count, work);
      if !found {
        return Unsafe;
      }
    }
    assert safeSequence[..count] == safeSequence[..];
    return Safe(safeSequence[..]);
  }

  // ---------------------------------------------------------------------
  // What a verdict means

  predicate InRange(order: seq<int>, n: nat) {
    forall t :: 0 <= t < |order| ==> 0 <= order[t] < n
  }

  ghost predicate RowsCover(alloc: seq<seq<int>>, m: nat) {
    forall i :: 0 <= i < |alloc| ==> |alloc[i]| >= m
  }

  /** Resource j's total allocation over the processes in `order`. */
  function Held(alloc: seq<seq<int>>, order: seq<int>, j: nat): int
    requires InRange(order, |alloc|) && RowsCover(alloc, j + 1)
  {
    if order == [] then 0 else alloc[order[0]][j] + Held(alloc, order[1..], j)
  }

  /** The work vector once the processes in `order` have finished: available plus what they held. */
  function Work(alloc: seq<seq<int>>, avail: seq<int>, order: seq<int>): seq<int>
    requires InRange(order, |alloc|) && RowsCover(alloc, |avail|)
  {
    seq(|avail|, j requires 0 <= j < |avail| => avail[j] + Held(alloc, order, j))
  }

  /**
   * A safe sequence: an order of all n processes (a permutation of 0..n-1) in
   * which each process's need fits the available vector plus the allocations of
   * the processes before it.
   */
  ghost predicate IsSafeSequence(alloc: seq<seq<int>>, max: seq<seq<int>>, avail: seq<int>, q: seq<int>)
    requires Shaped(alloc, max, |avail|)
  {
    && |q| == |alloc|
    && InRange(q, |alloc|)
    && NoDuplicates(q)
    && (forall i :: 0 <= i < |alloc| ==> i in q)
    && forall t :: 0 <= t < |q| ==> Fits(alloc, max, q[t], Work(alloc, avail, q[..t]))
  }

  ghost predicate NonNegative(alloc: seq<seq<int>>, m: nat)
    requires RowsCover(alloc, m)
  {
    forall i, j :: 0 <= i < |alloc| && 0 <= j < m ==> alloc[i][j] >= 0
  }

  /** The facts every reachable scan state keeps. */
  ghost predicate Consistent(alloc: seq<seq<int>>, max: seq<seq<int>>, avail: seq<int>, s: State)
    requires Shaped(alloc, max, |avail|)
  {
    && |s.finish| == |alloc|
    && InRange(s.order, |alloc|)
    && NoDuplicates(s.order)
    && s.work == Work(alloc, avail, s.order)
    && (forall i :: 0 <= i < |alloc| ==> (s.finish[i] <==> i in s.order))
    && Unfinished(s.finish) + |s.order| == |alloc|
    && forall t :: 0 <= t < |s.order| ==> Fits(alloc, max, s.order[t], Work(alloc, avail, s.order[..t]))
  }

  lemma {:induction false} HeldAppend(alloc: seq<seq<int>>, order: seq<int>, i: int, j: nat)
    requires InRange(order, |alloc|) && 0 <= i < |alloc| && RowsCover(alloc, j + 1)
    ensures Held(alloc, order + [i], j) == Held(alloc, order, j) + alloc[i][j]
    decreases |order|
  {
    if order != [] {
      assert (order + [i])[1..] == order[1..] + [i];
      HeldAppend(alloc, order[1..], i, j);
    }
  }

  /** Finishing process i moves the state to the work of the longer sequence. */
  lemma ReleaseIsWork(alloc: seq<seq<int>>, avail: seq<int>, order: seq<int>, i: int)
    requires InRange(order, |alloc|) && 0 <= i < |alloc| && RowsCover(alloc, |avail|)
    ensures Release(Work(alloc, avail, order), alloc[i]) == Work(alloc, avail, order + [i])
  {
    forall j | 0 <= j < |avail| {
      HeldAppend(alloc, order, i, j);
    }
  }

  /** Every visit keeps the scan state consistent. */
  lemma VisitConsistent(alloc: seq<seq<int>>, max: seq<seq<int>>, avail: seq<int>, i: nat, s: State)
    requires Shaped(alloc, max, |avail|) && i < |alloc|
    requires Consistent(alloc, max, avail, s)
    ensures Consistent(alloc, max, avail, Visit(alloc, max, i, s))
  {
    if !s.finish[i] && Fits(alloc, max, i, s.work) {
      var o := s.order + [i];
      UnfinishedMark(s.finish, i);
      ReleaseIsWork(alloc, avail, s.order, i);
      assert i !in s.order;
      forall t | 0 <= t < |o| ensures Fits(alloc, max, o[t], Work(alloc, avail, o[..t])) {
        if t < |s.order| {
          assert o[..t] == s.order[..t];
        } else {
          assert o[..t] == s.order;
        }
      }
    }
  }

  /** Every pass keeps the scan state consistent. */
  lemma {:induction false} PassConsistent(alloc: seq<seq<int>>, max: seq<seq<int>>, avail: seq<int>, i: nat, s: State)
    requires Shaped(alloc, max, |avail|) && i <= |alloc|
    requires Consistent(alloc, max, avail, s)
    ensures Consistent(alloc, max, avail, Pass(alloc, max, i, s))
    decreases |alloc| - i
  {
    if i < |alloc| {
      VisitConsistent(alloc, max, avail, i, s);
      PassConsistent(alloc, max, avail, i + 1, Visit(alloc, max, i, s));
    }
  }

  /** A pass that finished nobody found no unfinished process whose need fits the work. */
  lemma {:induction false} NoneFits(alloc: seq<seq<int>>, max: seq<seq<int>>, i: nat, s: State)
    requires Shaped(alloc, max, |s.work|) && |s.finish| == |alloc| && i <= |alloc|
    ensures |Pass(alloc, max, i, s).order| == |s.order| ==>
      forall k :: i <= k < |alloc| && !s.finish[k] ==> !Fits(alloc, max, k, s.work)
    decreases |alloc| - i
  {
    if i < |alloc| && !(!s.finish[i] && Fits(alloc, max, i, s.work)) {
      NoneFits(alloc, max, i + 1, s);
    }
  }

  /** A Safe verdict reached from a consistent state is a safe sequence. */
  lemma {:induction false} SafetySound(alloc: seq<seq<int>>, max: seq<seq<int>>, avail: seq<int>, s: State, q: seq<int>)
    requires Shaped(alloc, max, |avail|) && Consistent(alloc, max, avail, s)
    requires Safety(alloc, max, s) == Safe(q)
    ensures IsSafeSequence(alloc, max, avail, q)
    decreases Unfinished(s.finish)
  {
    if |s.order| >= |alloc| {
      UnfinishedNone(s.finish);
    } else {
      var r := Pass(alloc, max, 0, s);
      PassConsistent(alloc, max, avail, 0, s);
      SafetySound(alloc, max, avail, r, q);
    }
  }

  /** The first element of `q` outside `order`. */
  function FirstOutside(q: seq<int>, order: seq<int>): (t: nat)
    requires exists u :: 0 <= u < |q| && q[u] !in order
    ensures t < |q| && q[t] !in order
    ensures forall u :: 0 <= u < t ==> q[u] in order
  {
    if q[0] !in order then 0
    else
      assert exists u :: 0 <= u < |q[1..]| && q[1..][u] !in order by {
        var u :| 0 <= u < |q| && q[u] !in order;
        assert q[1..][u - 1] == q[u];
      }
      1 + FirstOutside(q[1..], order)
  }

  /** Taking out one process leaves the rest of the total. */
  lemma {:induction false} HeldRemove(alloc: seq<seq<int>>, b: seq<int>, x: int, j: nat)
    requires InRange(b, |alloc|) && RowsCover(alloc, j + 1) && x in b
    ensures InRange(Remove(b, x), |alloc|)
    ensures Held(alloc, b, j) == alloc[x][j] + Held(alloc, Remove(b, x), j)
    decreases |b|
  {
    assert forall y :: y in Remove(b, x) ==> y in multiset(Remove(b, x));
    if b[0] != x {
      HeldRemove(alloc, b[1..], x, j);
      assert Remove(b, x) == [b[0]] + Remove(b[1..], x);
    }
  }

  /** With non-negative allocations, the processes of a sub-list hold no more than those of the whole list. */
  lemma {:induction false} HeldMonotone(alloc: seq<seq<int>>, a: seq<int>, b: seq<int>, j: nat)
    requires InRange(a, |alloc|) && InRange(b, |alloc|) && RowsCover(alloc, j + 1)
    requires NoDuplicates(a) && NoDuplicates(b) && forall x :: x in a ==> x in b
    requires forall i :: 0 <= i < |alloc| ==> alloc[i][j] >= 0
    ensures Held(alloc, a, j) <= Held(alloc, b, j)
    decreases |a|
  {
    if a == [] {
      HeldNonNegative(alloc, b, j);
    } else {
      var x := a[0];
      HeldRemove(alloc, b, x, j);
      RemoveDistinct(b, x);
      assert forall y :: y in a[1..] ==> y in a && y != x;
      HeldMonotone(alloc, a[1..], Remove(b, x), j);
    }
  }

  lemma {:induction false} HeldNonNegative(alloc: seq<seq<int>>, b: seq<int>, j: nat)
    requires InRange(b, |alloc|) && RowsCover(alloc, j + 1)
    requires forall i :: 0 <= i < |alloc| ==> alloc[i][j] >= 0
    ensures Held(alloc, b, j) >= 0
    decreases |b|
  {
    if b != [] {
      HeldNonNegative(alloc, b[1..], j);
    }
  }

  /**
   * If a safe sequence exists, then from every consistent state that has not
   * finished everybody, some unfinished process's need fits the work.
   */
  lemma ProgressPossible(alloc: seq<seq<int>>, max: seq<seq<int>>, avail: seq<int>, s: State, q: seq<int>)
    requires Shaped(alloc, max, |avail|) && Consistent(alloc, max, avail, s)
    requires |s.order| < |alloc| && NonNegative(alloc, |avail|)
    requires IsSafeSequence(alloc, max, avail, q)
    ensures exists k :: 0 <= k < |alloc| && !s.finish[k] && Fits(alloc, max, k, s.work)
  {
    UnfinishedNone(s.finish);
    var k0 :| 0 <= k0 < |alloc| && !s.finish[k0];
    assert k0 in q && k0 !in s.order;
    var t := FirstOutside(q, s.order);
    var before := q[..t];
    assert NoDuplicates(before);
    forall j | 0 <= j < |avail| ensures Work(alloc, avail, before)[j] <= s.work[j] {
      HeldMonotone(alloc, before, s.order, j);
    }
    assert Fits(alloc, max, q[t], s.work);
  }

  /** With non-negative allocations, an Unsafe verdict from a consistent state means no safe sequence exists. */
  lemma {:induction false} SafetyComplete(alloc: seq<seq<int>>, max: seq<seq<int>>, avail: seq<int>, s: State, q: seq<int>)
    requires Shaped(alloc, max, |avail|) && Consistent(alloc, max, avail, s) && NonNegative(alloc, |avail|)
    requires Safety(alloc, max, s) == Unsafe
    ensures !IsSafeSequence(alloc, max, avail, q)
    decreases Unfinished(s.finish)
  {
    var r := Pass(alloc, max, 0, s);
    if |r.order| == |s.order| {
      NoneFits(alloc, max, 0, s);
      if IsSafeSequence(alloc, max, avail, q) {
        ProgressPossible(alloc, max, avail, s, q);
        assert false;
      }
    } else {
      PassConsistent(alloc, max, avail, 0, s);
      SafetyComplete(alloc, max, avail, r, q);
    }
  }

  lemma InitialConsistent(alloc: seq<seq<int>>, max: seq<seq<int>>, avail: seq<int>)
    requires Shaped(alloc, max, |avail|)
    ensures Consistent(alloc, max, avail, State(seq(|alloc|, _ => false), [], avail))
  {
    UnfinishedAll(|alloc|);
    assert Work(alloc, avail, []) == avail;
  }

  /**
   * The verdict's meaning: InputError exactly for malformed matrices; Safe only
   * with a safe sequence; and, when no allocation is negative, Safe exactly when
   * a safe sequence exists.
   */
  lemma VerdictMeaning(alloc: seq<seq<int>>, max: seq<seq<int>>, avail: seq<int>)
    ensures Verdict(alloc, max, avail) == InputError <==> !Shaped(alloc, max, |avail|)
    ensures Verdict(alloc, max, avail).Safe? ==> IsSafeSequence(alloc, max, avail, Verdict(alloc, max, avail).sequence)
    ensures Shaped(alloc, max, |avail|) && NonNegative(alloc, |avail|) && Verdict(alloc, max, avail) == Unsafe ==>
      forall q :: !IsSafeSequence(alloc, max, avail, q)
  {
    if Shaped(alloc, max, |avail|) {
      var init := State(seq(|alloc|, _ => false), [], avail);
      InitialConsistent(alloc, max, avail);
      SafetyNeverErrs(alloc, max, init);
      var v := Verdict(alloc, max, avail);
      if v.Safe? {
        SafetySound(alloc, max, avail, init, v.sequence);
      }
      if NonNegative(alloc, |avail|) && v == Unsafe {
        forall q ensures !IsSafeSequence(alloc, max, avail, q) {
          SafetyComplete(alloc, max, avail, init, q);
        }
      }
    }
  }

  lemma {:induction false} SafetyNeverErrs(alloc: seq<seq<int>>, max: seq<seq<int>>, s: State)
    requires Shaped(alloc, max, |s.work|) && |s.finish| == |alloc|
    ensures Safety(alloc, max, s) != InputError
    decreases Unfinished(s.finish)
  {
    if |s.order| < |alloc| {
      var r := Pass(alloc, max, 0, s);
      if |r.order| != |s.order| {
        SafetyNeverErrs(alloc, max, r);
      }
    }
  }
}
