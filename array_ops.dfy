/** The JavaScript array operations the registry relies on, on sequences of
    token ids: Array.from over a length (a run of consecutive ids), indexOf,
    and splice(i, 1) (removal of one id). */
module ArrayOps {

  /** No id occurs twice. */
  ghost predicate Distinct(s: seq<nat>)
  {
    forall p, q :: 0 <= p < q < |s| ==> s[p] != s[q]
  }

  /** `Array.from({ length: n }, (_, idx) => start + idx)`: the ids
      start, start + 1, ..., start + n - 1. */
  function Consecutive(start: nat, n: nat): (r: seq<nat>)
    ensures |r| == n
    ensures forall idx :: 0 <= idx < n ==> r[idx] == start + idx
    ensures forall x :: x in r <==> start <= x < start + n
    ensures Distinct(r)
  {
    if n == 0 then []
    else
      var prefix := Consecutive(start, n - 1);
      assert forall p :: 0 <= p < n - 1 ==> prefix[p] in prefix;
      prefix + [start + n - 1]
  }

  /** `s` with every occurrence of `x` taken out, the rest in order. */
  function Without(s: seq<nat>, x: nat): (r: seq<nat>)
    ensures forall y :: y in r <==> y in s && y != x
    ensures x !in s ==> r == s
    ensures Distinct(s) ==> Distinct(r)
    ensures Distinct(s) && x in s ==> |r| == |s| - 1
  {
    if s == [] then []
    else
      var rest := Without(s[1..], x);
      assert Distinct(s) ==> s[0] !in s[1..] && Distinct(s[1..]);
      assert x !in s ==> s == [s[0]] + s[1..];
      if s[0] == x then rest else [s[0]] + rest
  }

  /** `s.indexOf(x)`: the first position holding `x`, or -1 when there is none. */
  method IndexOf(s: seq<nat>, x: nat) returns (i: int)
    ensures -1 <= i < |s|
    ensures i == -1 <==> x !in s
    ensures 0 <= i ==> s[i] == x && x !in s[..i]
  {
    i := 0;
    while i < |s|
      invariant 0 <= i <= |s|
      invariant x !in s[..i]
    {
      if s[i] == x {
        return;
      }
      i := i + 1;
    }
    i := -1;
  }

  /** On a list without repeats, `splice(i, 1)` removes exactly the id at `i`. */
  lemma {:induction false} SpliceIsWithout(s: seq<nat>, i: nat)
    requires Distinct(s) && i < |s|
    ensures s[..i] + s[i + 1..] == Without(s, s[i])
  {
    var t := s[1..];
    assert Distinct(t);
    if i == 0 {
      assert s[0] !in t;
      assert Without(s, s[0]) == Without(t, s[0]) == t;
    } else {
      assert s[0] != s[i] && t[i - 1] == s[i];
      SpliceIsWithout(t, i - 1);
      calc {
        s[..i] + s[i + 1..];
        { assert s[..i] == [s[0]] + t[..i - 1] && s[i + 1..] == t[i..]; }
        ([s[0]] + t[..i - 1]) + t[i..];
        [s[0]] + (t[..i - 1] + t[i..]);
        [s[0]] + Without(t, s[i]);
        Without(s, s[i]);
      }
    }
  }

  /** The ids a list holds, as a set. */
  ghost function Elements(s: seq<nat>): set<nat>
  {
    set x | x in s
  }

  /** A list without repeats has as many distinct ids as entries. */
  lemma {:induction false} DistinctCard(s: seq<nat>)
    requires Distinct(s)
    ensures |Elements(s)| == |s|
  {
    if s != [] {
      assert Distinct(s[1..]);
      DistinctCard(s[1..]);
      assert s[0] !in Elements(s[1..]);
      assert Elements(s) == Elements(s[1..]) + {s[0]};
    }
  }

  /** In a list without repeats an id occurs once if it occurs at all. */
  lemma {:induction false} DistinctOccurrences(s: seq<nat>, x: nat)
    requires Distinct(s)
    ensures multiset(s)[x] == if x in s then 1 else 0
  {
    if s != [] {
      assert Distinct(s[1..]);
      DistinctOccurrences(s[1..], x);
      assert s == [s[0]] + s[1..];
      assert s[0] !in s[1..];
    }
  }

  /** A set holding exactly the ids below `n` has `n` elements. */
  lemma {:induction false} BelowCard(ids: set<nat>, n: nat)
    requires forall i: nat :: i in ids <==> i < n
    ensures |ids| == n
  {
    if n > 0 {
      BelowCard(ids - {n - 1}, n - 1);
    }
  }
}
