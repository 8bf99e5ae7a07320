/**
 * Disk-head scheduling (DiskSchedulingGUI.java): each algorithm maps a list of
 * cylinder requests and a start position of the head to the path the head
 * travels and the total seek distance.  The path is what the window prints as
 * "Head Movement" (head -> r1 -> r2 ...); the total is "Total Seek Distance".
 */
module DiskScheduling {
  import Sorting

  /** The direction selector of SCAN and LOOK; every selection other than "Left to Right" sweeps leftwards first. */
  datatype Direction = LeftToRight | RightToLeft

  function Abs(x: int): nat {
    if x < 0 then -x else x
  }

  /** Identity key: requests are sorted by their cylinder number. */
  function Cylinder(x: int): int {
    x
  }

  /** Ascending cylinder order, as Arrays.sort leaves the requests. */
  ghost predicate Ascending(s: seq<int>) {
    Sorting.SortedBy(s, Cylinder)
  }

  /** The distance the head travels along `path`, one |difference| per hop. */
  function SeekLength(path: seq<int>): (d: int)
    ensures d >= 0
  {
    if |path| <= 1 then 0
    else SeekLength(path[..|path| - 1]) + Abs(path[|path| - 1] - path[|path| - 2])
  }

  /** The head can never travel less than the straight distance from the first to the last position. */
  lemma {:induction false} SeekLengthAtLeastDisplacement(path: seq<int>)
    requires |path| >= 1
    ensures SeekLength(path) >= Abs(path[|path| - 1] - path[0])
    decreases |path|
  {
    if |path| > 1 {
      var init := path[..|path| - 1];
      SeekLengthAtLeastDisplacement(init);
      assert init[0] == path[0] && init[|init| - 1] == path[|path| - 2];
    }
  }

  /** Seek length of two legs joined at a hop. */
  lemma {:induction false} SeekLengthAppend(p: seq<int>, q: seq<int>)
    requires |p| >= 1 && |q| >= 1
    ensures SeekLength(p + q) == SeekLength(p) + Abs(q[0] - p[|p| - 1]) + SeekLength(q)
    decreases |q|
  {
    if |q| == 1 {
      assert (p + q)[..|p + q| - 1] == p;
    } else {
      var q' := q[..|q| - 1];
      SeekLengthAppend(p, q');
      assert (p + q)[..|p + q| - 1] == p + q';
    }
  }

  /** One more hop adds its distance. */
  lemma SeekLengthSnoc(p: seq<int>, x: int)
    requires |p| >= 1
    ensures SeekLength(p + [x]) == SeekLength(p) + Abs(x - p[|p| - 1])
  {
    SeekLengthAppend(p, [x]);
  }

  /** The elements of `s` in reverse order. */
  function Reverse(s: seq<int>): (r: seq<int>)
    ensures |r| == |s|
  {
    seq(|s|, i requires 0 <= i < |s| => s[|s| - 1 - i])
  }

  /** Number of requests strictly below the head: the first index of a request at or above it. */
  function Split(s: seq<int>, head: int): (k: nat)
    ensures k <= |s|
    ensures forall i :: 0 <= i < k ==> s[i] < head
    ensures k < |s| ==> s[k] >= head
  {
    if s == [] || s[0] >= head then 0 else 1 + Split(s[1..], head)
  }

  /** On sorted requests, the requests from the split onward are at or above the head and ascending. */
  lemma UpLegOrdered(s: seq<int>, head: int)
    requires Ascending(s)
    ensures var k := Split(s, head);
      && (forall i :: k <= i < |s| ==> s[i] >= head)
      && (forall i, j :: k <= i < j < |s| ==> s[i] <= s[j])
  {
    var k := Split(s, head);
    forall i | k <= i < |s| ensures s[i] >= head {
      assert Cylinder(s[k]) <= Cylinder(s[i]);
    }
    forall i, j | k <= i < j < |s| ensures s[i] <= s[j] {
      assert Cylinder(s[i]) <= Cylinder(s[j]);
    }
  }

  /** On sorted requests, the requests before the split, reversed, are below the head and descending. */
  lemma DownLegOrdered(s: seq<int>, head: int)
    requires Ascending(s)
    ensures var k := Split(s, head); var d := Reverse(s[..k]);
      && (forall i :: 0 <= i < k ==> d[i] < head)
      && (forall i, j :: 0 <= i < j < k ==> d[i] >= d[j])
  {
    var k := Split(s, head);
    var d := Reverse(s[..k]);
    forall i | 0 <= i < k ensures d[i] < head {
      assert d[i] == s[k - 1 - i];
    }
    forall i, j | 0 <= i < j < k ensures d[i] >= d[j] {
      assert Cylinder(s[k - 1 - j]) <= Cylinder(s[k - 1 - i]);
    }
  }

  /** Both legs together hold every request exactly once, in either order. */
  lemma LegsCoverRequests(s: seq<int>, k: nat)
    requires k <= |s|
    ensures multiset(s[k..] + Reverse(s[..k])) == multiset(s)
    ensures multiset(Reverse(s[..k]) + s[k..]) == multiset(s)
    ensures multiset(s[k..] + s[..k]) == multiset(s)
  {
    ReverseMultiset(s[..k]);
    calc {
      multiset(s[k..] + Reverse(s[..k]));
      multiset(s[k..]) + multiset(Reverse(s[..k]));
      multiset(s[k..]) + multiset(s[..k]);
      { assert s == s[..k] + s[k..]; }
      multiset(s);
    }
  }

  lemma {:induction false} ReverseMultiset(s: seq<int>)
    ensures multiset(Reverse(s)) == multiset(s)
    decreases |s|
  {
    if s != [] {
      var init := s[..|s| - 1];
      ReverseMultiset(init);
      assert s == init + [s[|s| - 1]];
      assert Reverse(s) == [s[|s| - 1]] + Reverse(init);
    }
  }

  /** Services `a[lo..hi]` from left to right, appending each request to the path and its hop to the total. */
  method SweepUp(a: seq<int>, lo: nat, hi: nat, path: seq<int>, total: int) returns (path': seq<int>, total': int)
    requires lo <= hi <= |a| && |path| >= 1
    ensures path' == path + a[lo..hi]
    ensures total' - total == SeekLength(path') - SeekLength(path)
  {
    path', total' := path, total;
    var head := path[|path| - 1];
    for i := lo to hi
      invariant path' == path + a[lo..i]
      invariant head == path'[|path'| - 1]
      invariant total' - total == SeekLength(path') - SeekLength(path)
    {
      total' := total' + Abs(a[i] - head);
      SeekLengthSnoc(path', a[i]);
      head := a[i];
      path' := path' + [head];
      assert a[lo..i + 1] == a[lo..i] + [a[i]];
    }
  }

  /** Services `a[..hi]` from right to left (index hi-1 down to 0). */
  method SweepDown(a: seq<int>, hi: nat, path: seq<int>, total: int) returns (path': seq<int>, total': int)
    requires hi <= |a| && |path| >= 1
    ensures path' == path + Reverse(a[..hi])
    ensures total' - total == SeekLength(path') - SeekLength(path)
  {
    path', total' := path, total;
    var head := path[|path| - 1];
    var i := hi;
    while i > 0
      invariant 0 <= i <= hi
      invariant |path'| == |path| + (hi - i)
      invariant path'[..|path|] == path
      invariant forall p :: |path| <= p < |path'| ==> path'[p] == a[hi - 1 - (p - |path|)]
      invariant head == path'[|path'| - 1]
      invariant total' - total == SeekLength(path') - SeekLength(path)
    {
      i := i - 1;
      total' := total' + Abs(a[i] - head);
      SeekLengthSnoc(path', a[i]);
      head := a[i];
      path' := path' + [head];
    }
    forall p | 0 <= p < |path'| ensures path'[p] == (path + Reverse(a[..hi]))[p] {
      if p < |path| {
        assert path'[p] == path'[..|path|][p];
      }
    }
  }

  /** FCFS: requests are serviced in input order. */
  method Fcfs(requests: seq<int>, head: int) returns (path: seq<int>, total: int)
    ensures path == [head] + requests
    ensures total == SeekLength(path)
  {
    total := 0;
    path := [head];
    var h := head;
    for i := 0 to |requests|
      invariant path == [head] + requests[..i]
      invariant h == path[|path| - 1]
      invariant total == SeekLength(path)
    {
      total := total + Abs(requests[i] - h);
      h := requests[i];
      assert (path + [h])[..|path|] == path;
      path := path + [h];
      assert requests[..i + 1] == requests[..i] + [requests[i]];
    }
  }

  /** The unvisited request nearest to the head; the lowest index wins a tie. */
  method Nearest(requests: seq<int>, visited: seq<bool>, head: int) returns (idx: nat)
    requires |visited| == |requests|
    requires exists j :: 0 <= j < |requests| && !visited[j]
    ensures idx < |requests| && !visited[idx]
    ensures forall j :: 0 <= j < |requests| && !visited[j] ==>
      Abs(requests[idx] - head) <= Abs(requests[j] - head) && (j < idx ==> Abs(requests[idx] - head) < Abs(requests[j] - head))
  {
    var found := false;
    var minDist := 0;
    idx := 0;
    for j := 0 to |requests|
      invariant found ==> idx < j && !visited[idx] && minDist == Abs(requests[idx] - head)
      invariant !found ==> forall t :: 0 <= t < j ==> visited[t]
      invariant forall t :: 0 <= t < j && !visited[t] ==>
        minDist <= Abs(requests[t] - head) && (t < idx ==> minDist < Abs(requests[t] - head))
    {
      if !visited[j] && (!found || Abs(requests[j] - head) < minDist) {
        minDist := Abs(requests[j] - head);
        idx := j;
        found := true;
      }
    }
  }

  /**
   * Step k of an SSTF visit order is greedy: the request it moves to is no farther
   * from the head than any request not yet serviced, and strictly nearer than
   * every such request at a lower index.
   */
  ghost predicate GreedyStep(requests: seq<int>, path: seq<int>, order: seq<nat>, k: nat) {
    && k < |order| && k + 1 < |path|
    && forall j :: 0 <= j < |requests| && j !in order[..k] ==>
         && Abs(path[k + 1] - path[k]) <= Abs(requests[j] - path[k])
         && (j < order[k] ==> Abs(path[k + 1] - path[k]) < Abs(requests[j] - path[k]))
  }

  /** A partial SSTF run: `order` distinct indices, `path` the head followed by their requests, each step greedy. */
  ghost predicate SstfPrefix(requests: seq<int>, head: int, path: seq<int>, order: seq<nat>) {
    && |path| == |order| + 1 && path[0] == head
    && (forall k :: 0 <= k < |order| ==> order[k] < |requests| && path[k + 1] == requests[order[k]])
    && (forall k, l :: 0 <= k < l < |order| ==> order[k] != order[l])
    && (forall k :: 0 <= k < |order| ==> GreedyStep(requests, path, order, k))
  }

  lemma GreedyStepKept(requests: seq<int>, path: seq<int>, order: seq<nat>, k: nat, x: int, idx: nat)
    requires GreedyStep(requests, path, order, k)
    ensures GreedyStep(requests, path + [x], order + [idx], k)
  {
    assert (order + [idx])[..k] == order[..k];
  }

  /** Moving to the nearest unvisited request extends a partial SSTF run. */
  lemma SstfPrefixExtend(requests: seq<int>, head: int, path: seq<int>, order: seq<nat>, idx: nat)
    requires SstfPrefix(requests, head, path, order)
    requires idx < |requests| && idx !in order
    requires forall j :: 0 <= j < |requests| && j !in order ==>
      Abs(requests[idx] - path[|order|]) <= Abs(requests[j] - path[|order|])
      && (j < idx ==> Abs(requests[idx] - path[|order|]) < Abs(requests[j] - path[|order|]))
    ensures SstfPrefix(requests, head, path + [requests[idx]], order + [idx])
  {
    var i := |order|;
    var path', order' := path + [requests[idx]], order + [idx];
    forall k | 0 <= k < i ensures GreedyStep(requests, path', order', k) {
      GreedyStepKept(requests, path, order, k, requests[idx], idx);
    }
    assert order'[..i] == order;
    assert GreedyStep(requests, path', order', i);
  }

  /**
   * SSTF: repeatedly moves to the nearest unvisited request.  `order` lists the
   * indices of the requests in the order they are serviced: each exactly once.
   */
  method Sstf(requests: seq<int>, head: int) returns (path: seq<int>, total: int, ghost order: seq<nat>)
    ensures |order| == |requests|
    ensures SstfPrefix(requests, head, path, order)
    ensures total == SeekLength(path)
  {
    var n := |requests|;
    var visited := new bool[n](_ => false);
    total := 0;
    path := [head];
    order := [];
    var h := head;
    for i := 0 to n
      invariant |order| == i
      invariant SstfPrefix(requests, head, path, order)
      invariant h == path[i]
      invariant forall j :: 0 <= j < n ==> (visited[j] <==> j in order)
      invariant total == SeekLength(path)
    {
      UnvisitedRemains(order, n);
      var idx := Nearest(requests, visited[..], h);
      SstfPrefixExtend(requests, head, path, order, idx);
      visited[idx] := true;
      total := total + Abs(requests[idx] - h);
      h := requests[idx];
      assert (path + [h])[..|path|] == path;
      path := path + [h];
      order := order + [idx];
    }
  }

  /** The integers 0 .. n-1 as a set. */
  function Below(n: nat): (r: set<int>)
    ensures |r| == n
    ensures forall x :: x in r <==> 0 <= x < n
  {
    if n == 0 then {} else Below(n - 1) + {n - 1}
  }

  /** The distinct indices listed in `order`. */
  function Elements(order: seq<nat>): set<nat> {
    set x | x in order
  }

  lemma {:induction false} ElementsAtMost(order: seq<nat>)
    ensures |Elements(order)| <= |order|
    decreases |order|
  {
    if order != [] {
      var init := order[..|order| - 1];
      var last := order[|order| - 1];
      ElementsAtMost(init);
      assert order == init + [last];
      assert Elements(order) == Elements(init) + {last};
    }
  }

  /** Fewer than n indices below n leave one of them out. */
  lemma UnvisitedRemains(order: seq<nat>, n: nat)
    requires |order| < n
    ensures exists j :: 0 <= j < n && j !in order
  {
    ElementsAtMost(order);
    if forall j :: 0 <= j < n ==> j in order {
      assert Below(n) <= Elements(order);
      SubsetSize(Below(n), Elements(order));
      assert false;
    }
  }

  lemma {:induction false} SubsetSize(a: set<int>, b: set<int>)
    requires a <= b
    ensures |a| <= |b|
    decreases |a|
  {
    assert b == a + (b - a);
    assert a !! (b - a);
  }

  /** First index whose request is at or above the head (the scan `while (requests[idx] < head) idx++`). */
  method FindSplit(a: array<int>, head: int) returns (idx: nat)
    ensures idx == Split(a[..], head)
  {
    idx := 0;
    while idx < a.Length && a[idx] < head
      invariant idx <= a.Length
      invariant forall i :: 0 <= i < idx ==> a[i] < head
    {
      idx := idx + 1;
    }
    SplitIsFirst(a[..], head, idx);
  }

  lemma {:induction false} SplitIsFirst(s: seq<int>, head: int, k: nat)
    requires k <= |s|
    requires forall i :: 0 <= i < k ==> s[i] < head
    requires k < |s| ==> s[k] >= head
    ensures k == Split(s, head)
    decreases k
  {
    if k > 0 {
      SplitIsFirst(s[1..], head, k - 1);
    }
  }

  /** The position the head turns at after the ascending leg: the largest request, or the head itself. */
  function TopOf(s: seq<int>, k: nat, head: int): int
    requires k <= |s|
  {
    if k < |s| then s[|s| - 1] else head
  }

  /** The position the head turns at after the descending leg: the smallest request, or the head itself. */
  function BottomOf(s: seq<int>, k: nat, head: int): int
    requires k <= |s|
  {
    if k > 0 then s[0] else head
  }

  /** The head's position after the ascending leg from `head` over s[k..]. */
  lemma AfterUpLeg(s: seq<int>, k: nat, head: int)
    requires k <= |s|
    ensures var p := [head] + s[k..]; p[|p| - 1] == TopOf(s, k, head)
  {
  }

  /** The head's position after the descending leg from `head` over s[..k]. */
  lemma AfterDownLeg(s: seq<int>, k: nat, head: int)
    requires k <= |s|
    ensures var p := [head] + Reverse(s[..k]); p[|p| - 1] == BottomOf(s, k, head)
  {
  }

  /** SCAN's turn at the top: a hop to cylinder `range` unless the head is already there. */
  method TurnAtTop(path: seq<int>, total: int, range: int) returns (path': seq<int>, total': int)
    requires |path| >= 1
    ensures path' == path + (if path[|path| - 1] != range then [range] else [])
    ensures total' - total == SeekLength(path') - SeekLength(path)
  {
    path', total' := path, total;
    var h := path[|path| - 1];
    if h != range {
      total' := total + Abs(range - h);
      assert (path + [range])[..|path|] == path;
      path' := path + [range];
    }
  }

  /** SCAN's turn at the bottom: a move to cylinder 0 unless already there, charged as the position it leaves from. */
  method TurnAtBottom(path: seq<int>, total: int) returns (path': seq<int>, total': int)
    requires |path| >= 1
    ensures var h := path[|path| - 1];
      && path' == path + (if h != 0 then [0] else [])
      && total' - total == SeekLength(path') - SeekLength(path) + (if h < 0 then 2 * h else 0)
  {
    path', total' := path, total;
    var h := path[|path| - 1];
    if h != 0 {
      total' := total + h;
      assert (path + [0])[..|path|] == path;
      path' := path + [0];
    }
  }

  /** C-SCAN's wrap: unless already at `range`, a move there and a jump to 0, the jump charged `range`. */
  method Wrap(path: seq<int>, total: int, range: int) returns (path': seq<int>, total': int)
    requires |path| >= 1
    ensures var h := path[|path| - 1];
      && path' == path + (if h != range then [range, 0] else [])
      && total' - total == SeekLength(path') - SeekLength(path) + (if h != range && range < 0 then 2 * range else 0)
  {
    path', total' := path, total;
    var h := path[|path| - 1];
    if h != range {
      total' := total + Abs(range - h);
      total' := total' + range;
      assert (path + [range])[..|path|] == path;
      assert (path + [range, 0])[..|path| + 1] == path + [range];
      path' := path + [range, 0];
    }
  }

  /** SCAN left to right over sorted requests split at `k`. */
  method ScanUpFirst(s: seq<int>, k: nat, head: int, range: int) returns (path: seq<int>, total: int)
    requires k <= |s|
    ensures path == [head] + s[k..] + (if TopOf(s, k, head) != range then [range] else []) + Reverse(s[..k])
    ensures total == SeekLength(path)
  {
    path, total := [head], 0;
    assert SeekLength(path) == 0;
    path, total := SweepUp(s, k, |s|, path, total);
    AfterUpLeg(s, k, head);
    ghost var up := path;
    path, total := TurnAtTop(path, total, range);
    ghost var turned := path;
    assert turned == [head] + s[k..] + (if TopOf(s, k, head) != range then [range] else []);
    path, total := SweepDown(s, k, path, total);
  }

  /** SCAN right to left over sorted requests split at `k`. */
  method ScanDownFirst(s: seq<int>, k: nat, head: int) returns (path: seq<int>, total: int)
    requires k <= |s|
    ensures path == [head] + Reverse(s[..k]) + (if BottomOf(s, k, head) != 0 then [0] else []) + s[k..]
    ensures total == SeekLength(path) + (if BottomOf(s, k, head) < 0 then 2 * BottomOf(s, k, head) else 0)
  {
    path, total := [head], 0;
    assert SeekLength(path) == 0;
    path, total := SweepDown(s, k, path, total);
    AfterDownLeg(s, k, head);
    path, total := TurnAtBottom(path, total);
    path, total := SweepUp(s, k, |s|, path, total);
  }

  /** The SCAN visit order over sorted requests split at `k`, and the total the source accumulates for it. */
  method ScanSweeps(s: seq<int>, k: nat, head: int, range: int, direction: Direction) returns (path: seq<int>, total: int)
    requires k <= |s|
    ensures direction == LeftToRight ==>
      && path == [head] + s[k..] + (if TopOf(s, k, head) != range then [range] else []) + Reverse(s[..k])
      && total == SeekLength(path)
    ensures direction == RightToLeft ==>
      && path == [head] + Reverse(s[..k]) + (if BottomOf(s, k, head) != 0 then [0] else []) + s[k..]
      && total == SeekLength(path) + (if BottomOf(s, k, head) < 0 then 2 * BottomOf(s, k, head) else 0)
  {
    if direction == LeftToRight {
      path, total := ScanUpFirst(s, k, head, range);
    } else {
      path, total := ScanDownFirst(s, k, head);
    }
  }

  /**
   * SCAN: sorts the requests in place.  Left to right, it visits the requests at
   * or above the head ascending, then the last cylinder `range` (unless already
   * there), then the requests below the head descending; right to left, the
   * requests below the head descending, cylinder 0 (unless already there), then
   * the rest ascending.  The hop to cylinder 0 is added as the position it leaves
   * from rather than its absolute value, which differs only for a negative cylinder.
   */
  method Scan(requests: array<int>, head: int, range: int, direction: Direction) returns (path: seq<int>, total: int)
    modifies requests
    ensures requests[..] == Sorting.SortBy(old(requests[..]), Cylinder)
    ensures var s, k := requests[..], Split(requests[..], head);
      && (direction == LeftToRight ==>
            && path == [head] + s[k..] + (if TopOf(s, k, head) != range then [range] else []) + Reverse(s[..k])
            && total == SeekLength(path))
      && (direction == RightToLeft ==>
            && path == [head] + Reverse(s[..k]) + (if BottomOf(s, k, head) != 0 then [0] else []) + s[k..]
            && total == SeekLength(path) + (if BottomOf(s, k, head) < 0 then 2 * BottomOf(s, k, head) else 0))
  {
    Sorting.SortInPlace(requests, Cylinder);
    var idx := FindSplit(requests, head);
    path, total := ScanSweeps(requests[..], idx, head, range, direction);
  }

  /** The LOOK visit order over sorted requests split at `k`. */
  method LookSweeps(s: seq<int>, k: nat, head: int, direction: Direction) returns (path: seq<int>, total: int)
    requires k <= |s|
    ensures path == (if direction == LeftToRight then [head] + s[k..] + Reverse(s[..k]) else [head] + Reverse(s[..k]) + s[k..])
    ensures total == SeekLength(path)
  {
    path, total := [head], 0;
    assert SeekLength(path) == 0;
    if direction == LeftToRight {
      path, total := SweepUp(s, k, |s|, path, total);
      path, total := SweepDown(s, k, path, total);
    } else {
      path, total := SweepDown(s, k, path, total);
      path, total := SweepUp(s, k, |s|, path, total);
    }
  }

  /** LOOK: like SCAN but turns at the last request instead of the disk edge. */
  method Look(requests: array<int>, head: int, direction: Direction) returns (path: seq<int>, total: int)
    modifies requests
    ensures requests[..] == Sorting.SortBy(old(requests[..]), Cylinder)
    ensures var s, k := requests[..], Split(requests[..], head);
      path == (if direction == LeftToRight then [head] + s[k..] + Reverse(s[..k]) else [head] + Reverse(s[..k]) + s[k..])
    ensures total == SeekLength(path)
  {
    Sorting.SortInPlace(requests, Cylinder);
    var idx := FindSplit(requests, head);
    path, total := LookSweeps(requests[..], idx, head, direction);
  }

  /** The C-SCAN visit order over sorted requests split at `k`, and the total the source accumulates for it. */
  method CScanSweeps(s: seq<int>, k: nat, head: int, range: int) returns (path: seq<int>, total: int)
    requires k <= |s|
    ensures path == [head] + s[k..] + (if TopOf(s, k, head) != range then [range, 0] else []) + s[..k]
    ensures total == SeekLength(path) + (if TopOf(s, k, head) != range && range < 0 then 2 * range else 0)
  {
    path, total := [head], 0;
    assert SeekLength(path) == 0;
    path, total := SweepUp(s, k, |s|, path, total);
    AfterUpLeg(s, k, head);
    path, total := Wrap(path, total, range);
    path, total := SweepUp(s, 0, k, path, total);
  }

  /**
   * C-SCAN: the requests at or above the head ascending, then (unless already at
   * `range`) a move to `range` and a jump to 0, then the remaining requests
   * ascending; the direction selector plays no part.  The jump is charged `range`
   * rather than its absolute value, which differs only for a negative `range`.
   */
  method CScan(requests: array<int>, head: int, range: int) returns (path: seq<int>, total: int)
    modifies requests
    ensures requests[..] == Sorting.SortBy(old(requests[..]), Cylinder)
    ensures var s, k := requests[..], Split(requests[..], head);
      && path == [head] + s[k..] + (if TopOf(s, k, head) != range then [range, 0] else []) + s[..k]
      && total == SeekLength(path) + (if TopOf(s, k, head) != range && range < 0 then 2 * range else 0)
  {
    Sorting.SortInPlace(requests, Cylinder);
    var idx := FindSplit(requests, head);
    path, total := CScanSweeps(requests[..], idx, head, range);
  }

  /** The C-LOOK visit order over sorted requests split at `k`. */
  method CLookSweeps(s: seq<int>, k: nat, head: int) returns (path: seq<int>, total: int)
    requires k <= |s|
    ensures path == [head] + s[k..] + s[..k]
    ensures total == SeekLength(path)
  {
    path, total := [head], 0;
    assert SeekLength(path) == 0;
    path, total := SweepUp(s, k, |s|, path, total);
    assert s[k..|s|] == s[k..] && s[0..k] == s[..k];
    path, total := SweepUp(s, 0, k, path, total);
  }

  /** C-LOOK: the requests at or above the head ascending, then those below it ascending. */
  method CLook(requests: array<int>, head: int) returns (path: seq<int>, total: int)
    modifies requests
    ensures requests[..] == Sorting.SortBy(old(requests[..]), Cylinder)
    ensures var s, k := requests[..], Split(requests[..], head);
      path == [head] + s[k..] + s[..k]
    ensures total == SeekLength(path)
  {
    Sorting.SortInPlace(requests, Cylinder);
    var idx := FindSplit(requests, head);
    path, total := CLookSweeps(requests[..], idx, head);
  }
}
