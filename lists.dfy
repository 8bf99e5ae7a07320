/**
 * List operations shared by the models: removal of the first occurrence of a
 * value (Java's List.remove(Object)) and the facts about it the proofs use, and
 * the count of unset entries in a boolean flag array (the `done` and `finish`
 * arrays of the schedulers and of the Banker's check).
 */
module Lists {

  /** `s` without the first occurrence of `x`. */
  function Remove(s: seq<int>, x: int): (r: seq<int>)
    ensures x !in s ==> r == s
    ensures x in s ==> |r| == |s| - 1
    ensures multiset(r) == multiset(s) - multiset{x}
  {
    if s == [] then []
    else
      assert s == [s[0]] + s[1..];
      if s[0] == x then s[1..] else [s[0]] + Remove(s[1..], x)
  }

  ghost predicate NoDuplicates(s: seq<int>) {
    forall i, j :: 0 <= i < j < |s| ==> s[i] != s[j]
  }

  /** Removing a value from a duplicate-free list removes it entirely and keeps the rest duplicate-free. */
  lemma {:induction false} RemoveDistinct(s: seq<int>, x: int)
    requires NoDuplicates(s) && x in s
    ensures NoDuplicates(Remove(s, x)) && x !in Remove(s, x)
    ensures forall y :: y in Remove(s, x) <==> y in s && y != x
    decreases |s|
  {
    if s[0] != x {
      RemoveDistinct(s[1..], x);
      var r := Remove(s[1..], x);
      assert Remove(s, x) == [s[0]] + r;
      assert s[0] !in s[1..];
    } else {
      assert forall y :: y in s[1..] ==> y != x;
    }
  }

  /** The first position of `x` in `s`. */
  function IndexOf(s: seq<int>, x: int): (i: nat)
    requires x in s
    ensures i < |s| && s[i] == x && x !in s[..i]
  {
    if s[0] == x then 0 else 1 + IndexOf(s[1..], x)
  }

  /** Removing the first occurrence of `x` drops exactly the element at its first position. */
  lemma {:induction false} RemoveAt(s: seq<int>, x: int)
    requires x in s
    ensures Remove(s, x) == s[..IndexOf(s, x)] + s[IndexOf(s, x) + 1..]
    decreases |s|
  {
    assert s == [s[0]] + s[1..];
    if s[0] != x {
      var t := s[1..];
      RemoveAt(t, x);
      var j := IndexOf(t, x);
      assert IndexOf(s, x) == j + 1;
      assert s[..j + 1] == [s[0]] + t[..j];
      assert s[j + 2..] == t[j + 1..];
      calc {
        Remove(s, x);
        [s[0]] + Remove(t, x);
        [s[0]] + (t[..j] + t[j + 1..]);
        ([s[0]] + t[..j]) + t[j + 1..];
      }
    } else {
      assert IndexOf(s, x) == 0;
    }
  }

  /** The number of flags still false (processes not yet finished). */
  function Unfinished(finish: seq<bool>): nat {
    if finish == [] then 0 else (if finish[0] then 0 else 1) + Unfinished(finish[1..])
  }

  lemma {:induction false} UnfinishedMark(finish: seq<bool>, i: nat)
    requires i < |finish| && !finish[i]
    ensures Unfinished(finish[i := true]) == Unfinished(finish) - 1
    decreases |finish|
  {
    if i > 0 {
      UnfinishedMark(finish[1..], i - 1);
      assert finish[i := true][1..] == finish[1..][i - 1 := true];
    }
  }

  /** No flag is false exactly when every flag is true. */
  lemma {:induction false} UnfinishedNone(finish: seq<bool>)
    ensures Unfinished(finish) == 0 <==> forall i :: 0 <= i < |finish| ==> finish[i]
    decreases |finish|
  {
    if finish != [] {
      UnfinishedNone(finish[1..]);
      if Unfinished(finish) == 0 {
        forall i | 0 <= i < |finish| ensures finish[i] {
          if i > 0 {
            assert finish[i] == finish[1..][i - 1];
          }
        }
      }
      if forall i :: 0 <= i < |finish| ==> finish[i] {
        assert finish[0];
        assert forall i :: 0 <= i < |finish[1..]| ==> finish[1..][i] == finish[i + 1];
      }
    }
  }

  lemma {:induction false} UnfinishedAll(n: nat)
    ensures Unfinished(seq(n, _ => false)) == n
  {
    if n > 0 {
      UnfinishedAll(n - 1);
      assert seq(n, _ => false)[1..] == seq(n - 1, _ => false);
    }
  }
}
