/**
 * Dotted keys. A struct level owns the keys that start with its own key and a
 * dot; Sub looks at a map from inside one level, Shift puts a map below one.
 */
module Keys {
  type FlatMap = map<string, string>

  predicate DotFree(s: string) {
    '.' !in s
  }

  /** Free of the brackets that baggage keys cannot carry. */
  predicate Plain(s: string) {
    forall c :: c in s ==> c != '[' && c != ']'
  }

  function Join(p: string, r: string): string {
    p + "." + r
  }

  /** k starts with p and a dot. */
  predicate Under(k: string, p: string) {
    |p| < |k| && k[..|p|] == p && k[|p|] == '.'
  }

  function Rest(k: string, p: string): (r: string)
    requires Under(k, p)
    ensures k == Join(p, r)
  {
    k[|p| + 1..]
  }

  /** The position of the first dot, or -1. */
  function IndexDot(s: string): (i: int)
    ensures -1 <= i < |s|
    ensures i == -1 <==> DotFree(s)
    ensures i >= 0 ==> s[i] == '.' && DotFree(s[..i])
  {
    if s == "" then -1
    else if s[0] == '.' then 0
    else
      var i := IndexDot(s[1..]);
      assert s == [s[0]] + s[1..];
      if i == -1 then -1 else
        assert s[..i + 1] == [s[0]] + s[1..][..i];
        i + 1
  }

  /** The entries below p, with p and its dot cut off. */
  function Sub(m: FlatMap, p: string): (s: FlatMap)
    ensures forall r {:trigger r in s} :: r in s <==> Join(p, r) in m
    ensures forall r {:trigger s[r]} :: r in s ==> s[r] == m[Join(p, r)]
  {
    var rs := set k | k in m && Under(k, p) :: Rest(k, p);
    assert forall r :: Join(p, r) in m ==> r in rs by {
      forall r | Join(p, r) in m ensures r in rs {
        JoinUnder(p, r);
      }
    }
    map r | r in rs :: m[Join(p, r)]
  }

  /** Every entry of m moved below p. */
  function Shift(p: string, m: FlatMap): (s: FlatMap)
    ensures forall k {:trigger k in s} :: k in s <==> Under(k, p) && Rest(k, p) in m
    ensures forall k {:trigger s[k]} :: k in s ==> s[k] == m[Rest(k, p)]
  {
    var ks := set r | r in m :: Join(p, r);
    assert forall k :: k in ks <==> Under(k, p) && Rest(k, p) in m by {
      forall r ensures Under(Join(p, r), p) && Rest(Join(p, r), p) == r { JoinUnder(p, r); }
      forall k | Under(k, p) && Rest(k, p) in m ensures k in ks {
        assert k == Join(p, Rest(k, p));
      }
    }
    map k | k in ks :: m[Rest(k, p)]
  }

  lemma JoinUnder(p: string, r: string)
    ensures Under(Join(p, r), p) && Rest(Join(p, r), p) == r
  {
    assert Join(p, r)[..|p|] == p;
    assert Join(p, r)[|p| + 1..] == r;
  }

  /** Two dot-free names never own the same key: "1" owns no key of "10". */
  lemma UnderUnique(k: string, t: string, u: string)
    requires DotFree(t) && DotFree(u)
    requires Under(k, t) && Under(k, u)
    ensures t == u
  {
    assert k[..|t|] == t && k[..|u|] == u;
  }

  /** The first dot of a key below a dot-free name is the one after that name. */
  lemma IndexDotUnder(k: string, t: string)
    requires DotFree(t) && Under(k, t)
    ensures IndexDot(k) == |t|
  {
    assert k[|t|] in k;
    var d := IndexDot(k);
    assert Under(k, k[..d]);
    UnderUnique(k, t, k[..d]);
  }

  lemma SubOfShift(p: string, m: FlatMap)
    ensures Sub(Shift(p, m), p) == m
  {
    forall r ensures r in Sub(Shift(p, m), p) <==> r in m
      ensures r in m ==> Sub(Shift(p, m), p)[r] == m[r]
    {
      JoinUnder(p, r);
    }
  }

  lemma SubOfOtherShift(t: string, u: string, m: FlatMap)
    requires DotFree(t) && DotFree(u) && t != u
    ensures Sub(Shift(t, m), u) == map[]
  {
    forall r ensures r !in Sub(Shift(t, m), u) {
      JoinUnder(u, r);
      if Under(Join(u, r), t) {
        UnderUnique(Join(u, r), t, u);
      }
    }
  }

  predicate SumAt(u: FlatMap, a: FlatMap, b: FlatMap, r: string) {
    && (r in u <==> r in a || r in b)
    && (r in b ==> u[r] == b[r])
    && (r in a && r !in b ==> u[r] == a[r])
  }

  lemma SubOfSumAt(a: FlatMap, b: FlatMap, p: string, r: string)
    ensures SumAt(Sub(a + b, p), Sub(a, p), Sub(b, p), r)
  {
    assert Join(p, r) in a + b <==> Join(p, r) in a || Join(p, r) in b;
  }

  lemma SameMap(u: FlatMap, a: FlatMap, b: FlatMap)
    requires forall r :: SumAt(u, a, b, r)
    ensures u == a + b
  {
    forall r ensures (r in u <==> r in a + b) && (r in u ==> u[r] == (a + b)[r]) {
      assert SumAt(u, a, b, r);
    }
  }

  lemma SubOfSum(a: FlatMap, b: FlatMap, p: string)
    ensures Sub(a + b, p) == Sub(a, p) + Sub(b, p)
  {
    forall r ensures SumAt(Sub(a + b, p), Sub(a, p), Sub(b, p), r) {
      SubOfSumAt(a, b, p, r);
    }
    SameMap(Sub(a + b, p), Sub(a, p), Sub(b, p));
  }

  lemma SubOfEmpty(p: string)
    ensures Sub(map[], p) == map[]
  {}

  lemma PlusNothing(m: FlatMap)
    ensures m + map[] == m && map[] + m == m
  {}

  /** A summand that says nothing about t or below it does not show there. */
  lemma SumForeignRight(a: FlatMap, b: FlatMap, t: string)
    requires t !in b && Sub(b, t) == map[]
    ensures Sub(a + b, t) == Sub(a, t)
    ensures t in a + b <==> t in a
    ensures t in a ==> (a + b)[t] == a[t]
  {
    SubOfSum(a, b, t);
    PlusNothing(Sub(a, t));
  }

  lemma SumForeignLeft(a: FlatMap, b: FlatMap, t: string)
    requires t !in a && Sub(a, t) == map[]
    ensures Sub(a + b, t) == Sub(b, t)
    ensures t in a + b <==> t in b
    ensures t in b ==> (a + b)[t] == b[t]
  {
    SubOfSum(a, b, t);
    PlusNothing(Sub(b, t));
  }

  /** What adding a level below t does to the level below u. */
  lemma SubOfGrown(a: FlatMap, t: string, b: FlatMap, u: string)
    requires DotFree(t) && DotFree(u)
    ensures Sub(a + Shift(t, b), u) == if t == u then Sub(a, u) + b else Sub(a, u)
  {
    SubOfSum(a, Shift(t, b), u);
    if t == u {
      SubOfShift(t, b);
    } else {
      SubOfOtherShift(t, u, b);
      PlusNothing(Sub(a, u));
    }
  }

  lemma ShiftOfSum(p: string, a: FlatMap, b: FlatMap)
    ensures Shift(p, a + b) == Shift(p, a) + Shift(p, b)
  {}

  /** Writing two batches below p, one after the other. */
  lemma GrowBelow(m: FlatMap, p: string, a: FlatMap, b: FlatMap)
    ensures m + Shift(p, a + b) == m + Shift(p, a) + Shift(p, b)
  {
    ShiftOfSum(p, a, b);
    assert m + (Shift(p, a) + Shift(p, b)) == m + Shift(p, a) + Shift(p, b);
  }

  lemma PutIsSum(m: FlatMap, k: string, v: string)
    ensures m[k := v] == m + map[k := v]
  {}

  /** Writing one more entry below p. */
  lemma PutBelow(m: FlatMap, p: string, a: FlatMap, r: string, v: string)
    ensures m + Shift(p, a[r := v]) == (m + Shift(p, a))[Join(p, r) := v]
  {
    PutIsSum(a, r, v);
    GrowBelow(m, p, a, map[r := v]);
    ShiftOne(p, r, v);
    PutIsSum(m + Shift(p, a), Join(p, r), v);
  }

  lemma ShiftOne(p: string, t: string, text: string)
    ensures Shift(p, map[t := text]) == map[Join(p, t) := text]
  {
    JoinUnder(p, t);
    forall k | Under(k, p) && Rest(k, p) == t ensures k == Join(p, t) { }
  }

  lemma ShiftEmpty(p: string)
    ensures Shift(p, map[]) == map[]
  {}

  lemma JoinAssociative(p: string, t: string, r: string)
    ensures Join(Join(p, t), r) == Join(p, Join(t, r))
  {}

  lemma SubOfJoin(m: FlatMap, p: string, t: string)
    ensures Sub(m, Join(p, t)) == Sub(Sub(m, p), t)
  {
    forall r ensures r in Sub(m, Join(p, t)) <==> r in Sub(Sub(m, p), t)
      ensures r in Sub(m, Join(p, t)) ==> Sub(m, Join(p, t))[r] == Sub(Sub(m, p), t)[r]
    {
      JoinAssociative(p, t, r);
    }
  }

  lemma ShiftOfJoin(p: string, t: string, m: FlatMap)
    ensures Shift(Join(p, t), m) == Shift(p, Shift(t, m))
  {
    var a, b := Shift(Join(p, t), m), Shift(p, Shift(t, m));
    forall k | k in a ensures k in b && a[k] == b[k] {
      var r := Rest(k, Join(p, t));
      JoinAssociative(p, t, r);
      JoinUnder(p, Join(t, r));
      JoinUnder(t, r);
    }
    forall k | k in b ensures k in a {
      var r := Rest(Rest(k, p), t);
      JoinAssociative(p, t, r);
      JoinUnder(Join(p, t), r);
    }
  }

  lemma ShiftSize(p: string, m: FlatMap)
    ensures |Shift(p, m)| == |m|
    decreases |m|
  {
    var s := Shift(p, m);
    if m == map[] {
      assert s == map[];
    } else {
      var r :| r in m;
      var k := Join(p, r);
      JoinUnder(p, r);
      ShiftSize(p, m - {r});
      ShiftWithout(p, m, r);
      assert s.Keys == (s - {k}).Keys + {k};
      assert m.Keys == (m - {r}).Keys + {r};
    }
  }

  lemma ShiftWithout(p: string, m: FlatMap, r: string)
    ensures Shift(p, m - {r}) == Shift(p, m) - {Join(p, r)}
  {
    JoinUnder(p, r);
    forall k | k in Shift(p, m) && k != Join(p, r) ensures Rest(k, p) != r {
      assert k == Join(p, Rest(k, p));
    }
  }
}
