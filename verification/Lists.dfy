/** Sequences of addresses: no repeats, occurrences, and removal of one entry. */
module Lists {

  ghost predicate NoRepeats(s: seq<int>) {
    forall i, j | 0 <= i < j < |s| :: s[i] != s[j]
  }

  ghost function Without<T>(s: seq<T>, k: nat): seq<T>
    requires k < |s|
  {
    s[..k] + s[k + 1..]
  }

  lemma {:induction false} WithoutElements(s: seq<int>, k: nat, x: int)
    requires k < |s| && NoRepeats(s)
    ensures x in Without(s, k) <==> x in s && x != s[k]
  {
    var t := Without(s, k);
    assert forall i | 0 <= i < |t| :: t[i] == s[if i < k then i else i + 1];
    if x in s && x != s[k] {
      var j :| 0 <= j < |s| && s[j] == x;
      assert t[if j < k then j else j - 1] == x;
    }
  }

  /** The sequence without the first occurrence of `x`. */
  ghost function Minus(s: seq<int>, x: int): seq<int> {
    if s == [] then [] else if s[0] == x then s[1..] else [s[0]] + Minus(s[1..], x)
  }

  lemma {:induction false} MinusIs(s: seq<int>, k: nat)
    requires k < |s| && NoRepeats(s)
    ensures Minus(s, s[k]) == Without(s, k)
    decreases |s|
  {
    if k > 0 {
      assert s[0] != s[k] && s[1..][k - 1] == s[k];
      assert forall i | 0 <= i < |s| - 1 :: s[1..][i] == s[i + 1];
      MinusIs(s[1..], k - 1);
    }
  }

  ghost function Count(s: seq<int>, x: int): nat {
    if s == [] then 0 else Count(s[..|s| - 1], x) + (if s[|s| - 1] == x then 1 else 0)
  }

  lemma {:induction false} CountSnoc(s: seq<int>, y: int, x: int)
    ensures Count(s + [y], x) == Count(s, x) + (if y == x then 1 else 0)
  {
    assert (s + [y])[..|s|] == s;
  }

  lemma {:induction false} CountUpdate(s: seq<int>, i: nat, y: int, x: int)
    requires i < |s|
    ensures Count(s[i := y], x) + (if s[i] == x then 1 else 0) == Count(s, x) + (if y == x then 1 else 0)
    decreases |s|
  {
    var n := |s| - 1;
    if i == n {
      assert s[i := y][..n] == s[..n];
    } else {
      assert s[i := y][..n] == s[..n][i := y];
      CountUpdate(s[..n], i, y, x);
    }
  }

  lemma {:induction false} CountIn(s: seq<int>, x: int)
    ensures Count(s, x) > 0 <==> x in s
    decreases |s|
  {
    if s != [] {
      var n := |s| - 1;
      assert s == s[..n] + [s[n]];
      CountIn(s[..n], x);
    }
  }
}
