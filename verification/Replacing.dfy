/** Global replacement of a non-empty pattern, left to right and without overlap, as bytes.ReplaceAll and strings.ReplaceAll do it. */
module Replacing {
  predicate StartsWith<T(==)>(s: seq<T>, p: seq<T>) {
    |p| <= |s| && s[..|p|] == p
  }

  function ReplaceAll<T(==)>(s: seq<T>, old_: seq<T>, new_: seq<T>): seq<T>
    requires old_ != []
    decreases |s|
  {
    if s == [] then []
    else if StartsWith(s, old_) then new_ + ReplaceAll(s[|old_|..], old_, new_)
    else [s[0]] + ReplaceAll(s[1..], old_, new_)
  }

  lemma PrefixAt<T>(s: seq<T>, p: seq<T>, i: nat)
    requires i < |p|
    ensures StartsWith(s, p) ==> i < |s| && s[i] == p[i]
  {
    if StartsWith(s, p) {
      assert s[..|p|][i] == s[i];
    }
  }

  lemma OtherFirst<T>(s: seq<T>, p: seq<T>)
    requires s != [] && p != [] && s[0] != p[0]
    ensures !StartsWith(s, p)
  {
    PrefixAt(s, p, 0);
  }

  /** A prefix without the pattern's first symbol is copied. */
  lemma {:induction false} ReplaceAfter<T>(a: seq<T>, s: seq<T>, old_: seq<T>, new_: seq<T>)
    requires old_ != [] && old_[0] !in a
    ensures ReplaceAll(a + s, old_, new_) == a + ReplaceAll(s, old_, new_)
    decreases |a|
  {
    if a == [] {
      assert a + s == s;
    } else {
      assert (a + s)[0] == a[0] && (a + s)[1..] == a[1..] + s;
      OtherFirst(a + s, old_);
      ReplaceAfter(a[1..], s, old_, new_);
    }
  }

  /** The pattern itself is replaced wherever the scan meets it. */
  lemma ReplaceHere<T>(s: seq<T>, old_: seq<T>, new_: seq<T>)
    requires old_ != []
    ensures ReplaceAll(old_ + s, old_, new_) == new_ + ReplaceAll(s, old_, new_)
  {
    assert (old_ + s)[..|old_|] == old_ && (old_ + s)[|old_|..] == s;
  }

  lemma ReplaceNothing<T>(s: seq<T>, old_: seq<T>, new_: seq<T>)
    requires old_ != [] && old_[0] !in s
    ensures ReplaceAll(s, old_, new_) == s
  {
    ReplaceAfter(s, [], old_, new_);
    assert s + [] == s;
  }

  /** A symbol that is not written is gone when the pattern is that symbol, and never appears by itself. */
  lemma {:induction false} ReplaceRemoves<T>(s: seq<T>, old_: seq<T>, new_: seq<T>, c: T)
    requires old_ != [] && c !in new_ && (old_ == [c] || c !in s)
    ensures c !in ReplaceAll(s, old_, new_)
    decreases |s|
  {
    if s != [] {
      if StartsWith(s, old_) {
        ReplaceRemoves(s[|old_|..], old_, new_, c);
      } else {
        assert old_ == [c] ==> s[..1] != [c];
        ReplaceRemoves(s[1..], old_, new_, c);
      }
    }
  }

  /** A symbol stays when the replacement has it whenever the pattern has it. */
  lemma {:induction false} ReplaceKeeps<T>(s: seq<T>, old_: seq<T>, new_: seq<T>, c: T)
    requires old_ != [] && c in s && (c in old_ ==> c in new_)
    ensures c in ReplaceAll(s, old_, new_)
    decreases |s|
  {
    if StartsWith(s, old_) {
      assert s == old_ + s[|old_|..];
      if c !in old_ {
        ReplaceKeeps(s[|old_|..], old_, new_, c);
      }
    } else if s[0] != c {
      ReplaceKeeps(s[1..], old_, new_, c);
    }
  }
}
