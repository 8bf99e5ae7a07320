/**
 * Page replacement (PageReplacementGUI.java): FIFO, LRU and Optimal run a
 * bounded set of resident pages over a reference string, emit one table row per
 * reference and count the page faults.
 *
 * The resident set is a sequence in the order the source keeps it: FIFO's
 * `memory` list (always equal to its load queue), LRU's access-ordered
 * LinkedHashMap key set (least recently used first), Optimal's frame list
 * (slot i is frame i).
 */
module PageReplacement {

  import opened Lists

  datatype Policy = Fifo | Lru | Optimal

  /** A table cell: a page number, or a text such as "", "Hit" or "Page Fault". */
  datatype Cell = Page(page: int) | Text(text: string)

  /** The status text of a row. */
  function Status(hit: bool): string {
    if hit then "Hit" else "Page Fault"
  }

  /** One table row: the page, then `frames` frame cells (resident pages, padded with ""), then the status. */
  function Row(page: int, memory: seq<int>, frames: nat, hit: bool): seq<Cell> {
    [Page(page)]
    + seq(frames, i requires 0 <= i < frames => if i < |memory| then Page(memory[i]) else Text(""))
    + [Text(Status(hit))]
  }

  /** The table row a reader sees: frames + 2 cells, the frame cells showing the resident pages in order. */
  lemma RowLayout(page: int, memory: seq<int>, frames: nat, hit: bool)
    requires |memory| <= frames
    ensures var row := Row(page, memory, frames, hit);
      && |row| == frames + 2
      && row[0] == Page(page)
      && (forall i :: 0 <= i < |memory| ==> row[i + 1] == Page(memory[i]))
      && (forall p :: |memory| < p <= frames ==> row[p] == Text(""))
      && (row[frames + 1] == Text("Hit") <==> hit)
  {
    var row := Row(page, memory, frames, hit);
    assert row[frames + 1] == Text(Status(hit));
    assert Status(false) != "Hit" by {
      assert Status(false)[0] == 'P';
    }
  }

  /** buildRow: fills a row slot by slot. */
  method BuildRow(page: int, memory: seq<int>, frames: nat, hit: bool) returns (row: seq<Cell>)
    ensures row == Row(page, memory, frames, hit)
  {
    var a := new Cell[frames + 2](_ => Text(""));
    a[0] := Page(page);
    for i := 0 to frames
      invariant a[0] == Page(page)
      invariant forall p :: 1 <= p <= i ==> a[p] == if p - 1 < |memory| then Page(memory[p - 1]) else Text("")
    {
      if i < |memory| {
        a[i + 1] := Page(memory[i]);
      } else {
        a[i + 1] := Text("");
      }
    }
    a[frames + 1] := Text(Status(hit));
    row := a[..];
    assert row == Row(page, memory, frames, hit);
  }

  /**
   * The next reference to `p` at or after position `from`, or |pages| when it is
   * never referenced again (the source's Integer.MAX_VALUE: both exceed every
   * position, so comparisons come out the same).
   */
  function NextUse(pages: seq<int>, from: nat, p: int): (r: nat)
    requires from <= |pages|
    ensures from <= r <= |pages|
    ensures r < |pages| ==> pages[r] == p
    ensures forall j :: from <= j < r ==> pages[j] != p
    decreases |pages| - from
  {
    if from == |pages| then |pages|
    else if pages[from] == p then from
    else NextUse(pages, from + 1, p)
  }

  /**
   * Among the first `n` frames, the one whose page is next used farthest in the
   * future after position k; the first such frame on ties.
   */
  function Farthest(memory: seq<int>, pages: seq<int>, k: nat, n: nat): (v: nat)
    requires k < |pages| && 1 <= n <= |memory|
    ensures v < n
    ensures forall j :: 0 <= j < n ==> NextUse(pages, k + 1, memory[j]) <= NextUse(pages, k + 1, memory[v])
    ensures forall j :: 0 <= j < v ==> NextUse(pages, k + 1, memory[j]) < NextUse(pages, k + 1, memory[v])
  {
    if n == 1 then 0
    else
      var b := Farthest(memory, pages, k, n - 1);
      if NextUse(pages, k + 1, memory[n - 1]) > NextUse(pages, k + 1, memory[b]) then n - 1 else b
  }

  /** The resident set after reference k of `pages`, given the one before it. */
  function Step(policy: Policy, memory: seq<int>, pages: seq<int>, k: nat, frames: int): seq<int>
    requires k < |pages| && frames >= 1
  {
    var page := pages[k];
    match policy
    case Fifo =>
      if page in memory then memory
      else if |memory| < frames then memory + [page]
      else memory[1..] + [page]
    case Lru =>
      if page in memory then Remove(memory, page) + [page]
      else if |memory| >= frames then memory[1..] + [page]
      else memory + [page]
    case Optimal =>
      if page in memory then memory
      else if |memory| < frames then memory + [page]
      else memory[Farthest(memory, pages, k, |memory|) := page]
  }

  /** The resident set before reference k (after the first k references). */
  function Resident(policy: Policy, pages: seq<int>, frames: int, k: nat): seq<int>
    requires k <= |pages| && frames >= 1
  {
    if k == 0 then [] else Step(policy, Resident(policy, pages, frames, k - 1), pages, k - 1, frames)
  }

  /** The number of page faults among the first k references: references whose page was not resident. */
  function Faults(policy: Policy, pages: seq<int>, frames: int, k: nat): nat
    requires k <= |pages| && frames >= 1
  {
    if k == 0 then 0
    else Faults(policy, pages, frames, k - 1) + (if pages[k - 1] in Resident(policy, pages, frames, k - 1) then 0 else 1)
  }

  /** The table the simulator shows for `policy`: one row per reference. */
  ghost predicate TableOf(policy: Policy, pages: seq<int>, frames: int, rows: seq<seq<Cell>>, n: nat)
    requires n <= |pages| && frames >= 1
  {
    && |rows| == n
    && forall k :: 0 <= k < n ==>
         rows[k] == Row(pages[k], Resident(policy, pages, frames, k + 1), frames, pages[k] in Resident(policy, pages, frames, k))
  }

  /** Appending the row of reference n extends the table of the first n references. */
  lemma TableExtend(policy: Policy, pages: seq<int>, frames: int, rows: seq<seq<Cell>>, n: nat, row: seq<Cell>)
    requires n < |pages| && frames >= 1
    requires TableOf(policy, pages, frames, rows, n)
    requires row == Row(pages[n], Resident(policy, pages, frames, n + 1), frames, pages[n] in Resident(policy, pages, frames, n))
    ensures TableOf(policy, pages, frames, rows + [row], n + 1)
  {
  }

  /** FIFO: on a fault with all frames full, the page loaded earliest leaves. */
  method FifoRun(pages: seq<int>, frames: int) returns (rows: seq<seq<Cell>>, faults: nat)
    requires frames >= 1
    ensures TableOf(Fifo, pages, frames, rows, |pages|)
    ensures faults == Faults(Fifo, pages, frames, |pages|)
  {
    var memory: seq<int> := [];
    var queue: seq<int> := [];
    rows, faults := [], 0;
    for i := 0 to |pages|
      invariant memory == queue == Resident(Fifo, pages, frames, i)
      invariant TableOf(Fifo, pages, frames, rows, i)
      invariant faults == Faults(Fifo, pages, frames, i)
    {
      var page := pages[i];
      var hit := page in memory;
      if !hit {
        if |memory| < frames {
          memory := memory + [page];
          queue := queue + [page];
        } else {
          var removed := queue[0];
          queue := queue[1..];
          memory := Remove(memory, removed);
          memory := memory + [page];
          queue := queue + [page];
        }
        faults := faults + 1;
      }
      assert memory == Resident(Fifo, pages, frames, i + 1);
      var row := BuildRow(page, memory, frames, hit);
      TableExtend(Fifo, pages, frames, rows, i, row);
      rows := rows + [row];
    }
  }

  /** LRU: the key order of the access-ordered map is the recency order; a fault with all frames full evicts its head. */
  method LruRun(pages: seq<int>, frames: int) returns (rows: seq<seq<Cell>>, faults: nat)
    requires frames >= 1
    ensures TableOf(Lru, pages, frames, rows, |pages|)
    ensures faults == Faults(Lru, pages, frames, |pages|)
  {
    var cache: seq<int> := [];
    rows, faults := [], 0;
    for i := 0 to |pages|
      invariant cache == Resident(Lru, pages, frames, i)
      invariant TableOf(Lru, pages, frames, rows, i)
      invariant faults == Faults(Lru, pages, frames, i)
    {
      var page := pages[i];
      var hit := page in cache;
      if !hit {
        if |cache| >= frames {
          var oldest := cache[0];
          cache := Remove(cache, oldest);
        }
        cache := cache + [page];
        faults := faults + 1;
      } else {
        cache := Remove(cache, page) + [page];
      }
      assert cache == Resident(Lru, pages, frames, i + 1);
      var row := BuildRow(page, cache, frames, hit);
      TableExtend(Lru, pages, frames, rows, i, row);
      rows := rows + [row];
    }
  }

  /** Position of the next reference to `p` after position i, or |pages| (the scan with `break`). */
  method FindNextUse(pages: seq<int>, i: nat, p: int) returns (nextUse: nat)
    requires i < |pages|
    ensures nextUse == NextUse(pages, i + 1, p)
  {
    nextUse := |pages|;
    var k := i + 1;
    while k < |pages|
      invariant i + 1 <= k <= |pages|
      invariant NextUse(pages, i + 1, p) == NextUse(pages, k, p)
    {
      if pages[k] == p {
        nextUse := k;
        return;
      }
      k := k + 1;
    }
  }

  /** The frame Optimal overwrites: the first frame whose page is next used farthest away. */
  method FindVictim(memory: seq<int>, pages: seq<int>, i: nat) returns (indexToReplace: nat)
    requires i < |pages| && |memory| >= 1
    ensures indexToReplace == Farthest(memory, pages, i, |memory|)
  {
    var farthest: int := -1;
    indexToReplace := 0;
    for j := 0 to |memory|
      invariant j >= 1 ==> indexToReplace == Farthest(memory, pages, i, j)
      invariant j >= 1 ==> farthest == NextUse(pages, i + 1, memory[indexToReplace])
      invariant j == 0 ==> farthest == -1
    {
      var nextUse := FindNextUse(pages, i, memory[j]);
      if nextUse > farthest {
        farthest := nextUse;
        indexToReplace := j;
      }
    }
  }

  /** Optimal: on a fault with all frames full, the page used farthest in the future is overwritten in its own frame. */
  method OptimalRun(pages: seq<int>, frames: int) returns (rows: seq<seq<Cell>>, faults: nat)
    requires frames >= 1
    ensures TableOf(Optimal, pages, frames, rows, |pages|)
    ensures faults == Faults(Optimal, pages, frames, |pages|)
  {
    var memory: seq<int> := [];
    rows, faults := [], 0;
    for i := 0 to |pages|
      invariant memory == Resident(Optimal, pages, frames, i)
      invariant TableOf(Optimal, pages, frames, rows, i)
      invariant faults == Faults(Optimal, pages, frames, i)
    {
      var page := pages[i];
      var hit := page in memory;
      if !hit {
        if |memory| < frames {
          memory := memory + [page];
        } else {
          var indexToReplace := FindVictim(memory, pages, i);
          memory := memory[indexToReplace := page];
        }
        faults := faults + 1;
      }
      assert memory == Resident(Optimal, pages, frames, i + 1);
      var row := BuildRow(page, memory, frames, hit);
      TableExtend(Optimal, pages, frames, rows, i, row);
      rows := rows + [row];
    }
  }

  /** Runs the selected algorithm. */
  method Run(policy: Policy, pages: seq<int>, frames: int) returns (rows: seq<seq<Cell>>, faults: nat)
    requires frames >= 1
    ensures TableOf(policy, pages, frames, rows, |pages|)
    ensures faults == Faults(policy, pages, frames, |pages|)
  {
    match policy
    case Fifo => rows, faults := FifoRun(pages, frames);
    case Lru => rows, faults := LruRun(pages, frames);
    case Optimal => rows, faults := OptimalRun(pages, frames);
  }

  // ---------------------------------------------------------------------
  // Properties of the three policies

  /**
   * The resident set never exceeds the frame count, holds no page twice, and
   * holds only pages referenced so far.
   */
  lemma {:induction false} ResidentWellFormed(policy: Policy, pages: seq<int>, frames: int, k: nat)
    requires k <= |pages| && frames >= 1
    ensures WellFormed(Resident(policy, pages, frames, k), pages[..k], frames)
  {
    if k > 0 {
      ResidentWellFormed(policy, pages, frames, k - 1);
      var m := Resident(policy, pages, frames, k - 1);
      assert pages[..k] == pages[..k - 1] + [pages[k - 1]];
      StepWellFormed(policy, m, pages, k - 1, frames);
    }
  }

  /** At most `frames` pages, none twice, each among the references `seen`. */
  ghost predicate WellFormed(m: seq<int>, seen: seq<int>, frames: int) {
    && |m| <= frames
    && NoDuplicates(m)
    && forall p :: p in m ==> p in seen
  }

  /** One reference keeps the resident set well formed, the page joining the references seen. */
  lemma StepWellFormed(policy: Policy, m: seq<int>, pages: seq<int>, k: nat, frames: int)
    requires k < |pages| && frames >= 1
    requires WellFormed(m, pages[..k], frames)
    ensures WellFormed(Step(policy, m, pages, k, frames), pages[..k] + [pages[k]], frames)
  {
    var page := pages[k];
    if page in m {
      if policy == Lru {
        RemoveDistinct(m, page);
      }
    } else if policy == Optimal && |m| >= frames {
      ReplaceWellFormed(m, Farthest(m, pages, k, |m|), page, pages[..k] + [page], frames);
    } else if |m| >= frames {
      assert forall p :: p in m[1..] ==> p in m;
    }
  }

  /** Overwriting one slot with a page not yet resident keeps the set well formed. */
  lemma ReplaceWellFormed(m: seq<int>, v: nat, page: int, seen: seq<int>, frames: int)
    requires v < |m| && page !in m && page in seen
    requires WellFormed(m, seen, frames)
    ensures WellFormed(m[v := page], seen, frames)
  {
    var m' := m[v := page];
    forall p | p in m' ensures p in seen {
      var i :| 0 <= i < |m'| && m'[i] == p;
      if i != v {
        assert m[i] == p;
      }
    }
  }

  /** After reference k, the referenced page is resident. */
  lemma ReferencedPageResident(policy: Policy, pages: seq<int>, frames: int, k: nat)
    requires k < |pages| && frames >= 1
    ensures pages[k] in Resident(policy, pages, frames, k + 1)
  {
    var m := Resident(policy, pages, frames, k);
    if policy == Optimal && pages[k] !in m && |m| >= frames {
      var v := Farthest(m, pages, k, |m|);
      assert m[v := pages[k]][v] == pages[k];
    }
  }

  /**
   * A hit changes no resident page: FIFO and Optimal leave the frames as they
   * are, LRU only moves the page to the most recently used end.
   */
  lemma HitKeepsResidents(policy: Policy, pages: seq<int>, frames: int, k: nat)
    requires k < |pages| && frames >= 1
    requires pages[k] in Resident(policy, pages, frames, k)
    ensures policy != Lru ==> Resident(policy, pages, frames, k + 1) == Resident(policy, pages, frames, k)
    ensures policy == Lru ==>
      Resident(policy, pages, frames, k + 1) == Remove(Resident(policy, pages, frames, k), pages[k]) + [pages[k]]
    ensures forall p :: p in Resident(policy, pages, frames, k + 1) <==> p in Resident(policy, pages, frames, k)
  {
    var m := Resident(policy, pages, frames, k);
    ResidentWellFormed(policy, pages, frames, k);
    if policy == Lru {
      RemoveDistinct(m, pages[k]);
    }
  }

  /** A page referenced for the first time is always a fault. */
  lemma FirstReferenceFaults(policy: Policy, pages: seq<int>, frames: int, k: nat)
    requires k < |pages| && frames >= 1
    requires pages[k] !in pages[..k]
    ensures pages[k] !in Resident(policy, pages, frames, k)
    ensures Faults(policy, pages, frames, k + 1) == Faults(policy, pages, frames, k) + 1
  {
    ResidentWellFormed(policy, pages, frames, k);
    var m := Resident(policy, pages, frames, k);
    assert forall p :: p in m ==> p in pages[..k];
  }

  /** The position of the last fault on `p` among the first k references (when it was loaded), or -1. */
  function LastLoad(policy: Policy, pages: seq<int>, frames: int, k: nat, p: int): (r: int)
    requires k <= |pages| && frames >= 1
    ensures -1 <= r < k
    ensures r >= 0 ==> pages[r] == p && p !in Resident(policy, pages, frames, r)
  {
    if k == 0 then -1
    else if pages[k - 1] == p && p !in Resident(policy, pages, frames, k - 1) then k - 1
    else LastLoad(policy, pages, frames, k - 1, p)
  }

  /** The position of the last reference to `p` among the first k references, or -1. */
  function LastUse(pages: seq<int>, k: nat, p: int): (r: int)
    requires k <= |pages|
    ensures -1 <= r < k
    ensures r >= 0 ==> pages[r] == p
    ensures forall j :: r < j < k ==> pages[j] != p
  {
    if k == 0 then -1
    else if pages[k - 1] == p then k - 1
    else LastUse(pages, k - 1, p)
  }

  /** Earlier entries of `s` were loaded (by the first k references) earlier. */
  ghost predicate LoadOrdered(policy: Policy, pages: seq<int>, frames: int, k: nat, s: seq<int>)
    requires k <= |pages| && frames >= 1
  {
    && (forall a :: 0 <= a < |s| ==> LastLoad(policy, pages, frames, k, s[a]) >= 0)
    && (forall a, b :: 0 <= a < b < |s| ==>
          LastLoad(policy, pages, frames, k, s[a]) < LastLoad(policy, pages, frames, k, s[b]))
  }

  /** A FIFO hit leaves the frames and every page's last load as they were. */
  lemma FifoHit(pages: seq<int>, frames: int, k: nat)
    requires 0 < k <= |pages| && frames >= 1
    requires pages[k - 1] in Resident(Fifo, pages, frames, k - 1)
    ensures Resident(Fifo, pages, frames, k) == Resident(Fifo, pages, frames, k - 1)
    ensures forall p :: LastLoad(Fifo, pages, frames, k, p) == LastLoad(Fifo, pages, frames, k - 1, p)
  {
  }

  /** A FIFO fault drops the head when the frames are full and loads the page last, so load order is kept. */
  lemma FifoMiss(pages: seq<int>, frames: int, k: nat)
    requires 0 < k <= |pages| && frames >= 1
    requires pages[k - 1] !in Resident(Fifo, pages, frames, k - 1)
    requires LoadOrdered(Fifo, pages, frames, k - 1, Resident(Fifo, pages, frames, k - 1))
    ensures LoadOrdered(Fifo, pages, frames, k, Resident(Fifo, pages, frames, k))
  {
    var m := Resident(Fifo, pages, frames, k - 1);
    var page := pages[k - 1];
    var d := if |m| < frames then 0 else 1;
    var kept := m[d..];
    var m' := kept + [page];
    assert Resident(Fifo, pages, frames, k) == m';
    assert LastLoad(Fifo, pages, frames, k, page) == k - 1;
    forall a | 0 <= a < |kept|
      ensures m'[a] == m[a + d] != page
      ensures LastLoad(Fifo, pages, frames, k, m'[a]) == LastLoad(Fifo, pages, frames, k - 1, m[a + d])
    {
    }
  }

  /** FIFO keeps its frames in load order: earlier frames hold pages loaded earlier. */
  lemma {:induction false} FifoLoadOrder(pages: seq<int>, frames: int, k: nat)
    requires k <= |pages| && frames >= 1
    ensures LoadOrdered(Fifo, pages, frames, k, Resident(Fifo, pages, frames, k))
  {
    if k > 0 {
      FifoLoadOrder(pages, frames, k - 1);
      if pages[k - 1] in Resident(Fifo, pages, frames, k - 1) {
        FifoHit(pages, frames, k);
      } else {
        FifoMiss(pages, frames, k);
      }
    }
  }

  /** FIFO evicts the resident page that was loaded earliest. */
  lemma FifoEvictsEarliestLoaded(pages: seq<int>, frames: int, k: nat)
    requires k < |pages| && frames >= 1
    requires pages[k] !in Resident(Fifo, pages, frames, k)
    requires |Resident(Fifo, pages, frames, k)| == frames
    ensures var m := Resident(Fifo, pages, frames, k);
      && Resident(Fifo, pages, frames, k + 1) == m[1..] + [pages[k]]
      && forall a :: 0 < a < |m| ==> LastLoad(Fifo, pages, frames, k, m[0]) < LastLoad(Fifo, pages, frames, k, m[a])
  {
    FifoLoadOrder(pages, frames, k);
    var m := Resident(Fifo, pages, frames, k);
    assert LoadOrdered(Fifo, pages, frames, k, m);
  }

  /** Earlier entries of `s` were last used (among the first k references) earlier. */
  ghost predicate RecencyOrdered(pages: seq<int>, k: nat, s: seq<int>)
    requires k <= |pages|
  {
    && (forall a :: 0 <= a < |s| ==> LastUse(pages, k, s[a]) >= 0)
    && (forall a, b :: 0 <= a < b < |s| ==> LastUse(pages, k, s[a]) < LastUse(pages, k, s[b]))
  }

  /** A recency-ordered list stays recency-ordered, one reference later, after the new page moves to its end. */
  lemma UseAtEnd(pages: seq<int>, k: nat, kept: seq<int>)
    requires 0 < k <= |pages|
    requires RecencyOrdered(pages, k - 1, kept) && pages[k - 1] !in kept
    ensures RecencyOrdered(pages, k, kept + [pages[k - 1]])
  {
    var m' := kept + [pages[k - 1]];
    forall a | 0 <= a < |kept|
      ensures m'[a] == kept[a] != pages[k - 1]
      ensures LastUse(pages, k, m'[a]) == LastUse(pages, k - 1, kept[a])
    {
    }
  }

  /** An LRU hit moves the page from its place to the end, keeping recency order. */
  lemma LruHit(pages: seq<int>, frames: int, k: nat)
    requires 0 < k <= |pages| && frames >= 1
    requires pages[k - 1] in Resident(Lru, pages, frames, k - 1)
    requires RecencyOrdered(pages, k - 1, Resident(Lru, pages, frames, k - 1))
    ensures RecencyOrdered(pages, k, Resident(Lru, pages, frames, k))
  {
    ResidentWellFormed(Lru, pages, frames, k - 1);
    var m := Resident(Lru, pages, frames, k - 1);
    var page := pages[k - 1];
    assert Resident(Lru, pages, frames, k) == Remove(m, page) + [page];
    RemoveDistinct(m, page);
    RemoveAt(m, page);
    var i := IndexOf(m, page);
    RecencyOrderedDrop(pages, k - 1, m, i);
    assert Remove(m, page) == m[..i] + m[i + 1..];
    UseAtEnd(pages, k, Remove(m, page));
  }

  /** Dropping one entry of a recency-ordered list leaves it recency-ordered. */
  lemma RecencyOrderedDrop(pages: seq<int>, j: nat, m: seq<int>, i: nat)
    requires j <= |pages| && i < |m|
    requires RecencyOrdered(pages, j, m)
    ensures RecencyOrdered(pages, j, m[..i] + m[i + 1..])
  {
    var kept := m[..i] + m[i + 1..];
    assert forall a :: 0 <= a < |kept| ==> kept[a] == m[if a < i then a else a + 1];
  }

  /** An LRU fault drops the head when the frames are full and puts the page last, keeping recency order. */
  lemma LruMiss(pages: seq<int>, frames: int, k: nat)
    requires 0 < k <= |pages| && frames >= 1
    requires pages[k - 1] !in Resident(Lru, pages, frames, k - 1)
    requires RecencyOrdered(pages, k - 1, Resident(Lru, pages, frames, k - 1))
    ensures RecencyOrdered(pages, k, Resident(Lru, pages, frames, k))
  {
    var m := Resident(Lru, pages, frames, k - 1);
    var d := if |m| >= frames then 1 else 0;
    var kept := m[d..];
    assert forall a :: 0 <= a < |kept| ==> kept[a] == m[a + d];
    assert RecencyOrdered(pages, k - 1, kept);
    UseAtEnd(pages, k, kept);
  }

  /** LRU keeps its keys in recency order: earlier keys were last used earlier. */
  lemma {:induction false} LruRecencyOrder(pages: seq<int>, frames: int, k: nat)
    requires k <= |pages| && frames >= 1
    ensures RecencyOrdered(pages, k, Resident(Lru, pages, frames, k))
  {
    if k > 0 {
      LruRecencyOrder(pages, frames, k - 1);
      if pages[k - 1] in Resident(Lru, pages, frames, k - 1) {
        LruHit(pages, frames, k);
      } else {
        LruMiss(pages, frames, k);
      }
    }
  }

  /** LRU evicts the least recently used page. */
  lemma LruEvictsLeastRecentlyUsed(pages: seq<int>, frames: int, k: nat)
    requires k < |pages| && frames >= 1
    requires pages[k] !in Resident(Lru, pages, frames, k)
    requires |Resident(Lru, pages, frames, k)| == frames
    ensures var m := Resident(Lru, pages, frames, k);
      && Resident(Lru, pages, frames, k + 1) == m[1..] + [pages[k]]
      && forall a :: 0 < a < |m| ==> LastUse(pages, k, m[0]) < LastUse(pages, k, m[a])
  {
    LruRecencyOrder(pages, frames, k);
    var m := Resident(Lru, pages, frames, k);
    assert RecencyOrdered(pages, k, m);
  }
}
