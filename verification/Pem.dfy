/** Escaped newlines in PEM data: three global replacements, and the single pass they amount to. */
module Pem {
  import opened Replacing

  newtype Byte = x: int | 0 <= x < 256

  const BACKSLASH: Byte := 92
  const N: Byte := 110
  const R: Byte := 114
  const NL: Byte := 10

  const ESCAPED_CRLF: seq<Byte> := [BACKSLASH, R, BACKSLASH, N]
  const DOUBLY_ESCAPED: seq<Byte> := [BACKSLASH, BACKSLASH, N]
  const ESCAPED: seq<Byte> := [BACKSLASH, N]

  function Normalize(data: seq<Byte>): seq<Byte> {
    if data == [] then data
    else
      var crlf := ReplaceAll(data, ESCAPED_CRLF, [NL]);
      var doubly := ReplaceAll(crlf, DOUBLY_ESCAPED, [NL]);
      ReplaceAll(doubly, ESCAPED, [NL])
  }

  /** One pass from left to right that takes the longest escape at each place. */
  function OnePass(s: seq<Byte>): seq<Byte>
    decreases |s|
  {
    if s == [] then []
    else if StartsWith(s, ESCAPED_CRLF) then [NL] + OnePass(s[4..])
    else if StartsWith(s, DOUBLY_ESCAPED) then [NL] + OnePass(s[3..])
    else if StartsWith(s, ESCAPED) then [NL] + OnePass(s[2..])
    else [s[0]] + OnePass(s[1..])
  }

  function First(s: seq<Byte>): int {
    if s == [] then -1 else s[0] as int
  }

  /** A symbol that is neither written nor matched first stays where it is at the front. */
  lemma FirstKept(s: seq<Byte>, p: seq<Byte>, c: Byte)
    requires p != [] && p[0] != c && c != NL
    ensures First(ReplaceAll(s, p, [NL])) == c as int <==> First(s) == c as int
  {
    if s != [] && s[0] == c {
      OtherFirst(s, p);
    }
  }

  /** Replacing an escape that is not at the front neither makes nor breaks a plain one there. */
  lemma PairKept(s: seq<Byte>, p: seq<Byte>)
    requires p == ESCAPED_CRLF || p == DOUBLY_ESCAPED
    ensures StartsWith(ReplaceAll(s, p, [NL]), ESCAPED) <==> StartsWith(s, ESCAPED)
  {
    if s != [] && !StartsWith(s, p) {
      FirstKept(s[1..], p, N);
      PairIff(s);
      PairIff(ReplaceAll(s, p, [NL]));
    } else if s != [] {
      PrefixAt(s, p, 1);
      PairIff(s);
      PairIff(ReplaceAll(s, p, [NL]));
    }
  }

  lemma PairIff(s: seq<Byte>)
    ensures StartsWith(s, ESCAPED) <==> s != [] && s[0] == BACKSLASH && First(s[1..]) == N as int
  {
    if |s| >= 2 {
      assert s[..2] == [s[0], s[1]];
    }
  }

  lemma DoublyIff(s: seq<Byte>)
    ensures StartsWith(s, DOUBLY_ESCAPED) <==> s != [] && s[0] == BACKSLASH && StartsWith(s[1..], ESCAPED)
  {
    if |s| >= 3 {
      assert s[..3] == [s[0], s[1], s[2]];
      assert s[1..][..2] == [s[1], s[2]];
    }
  }

  function Passes(s: seq<Byte>): seq<Byte> {
    ReplaceAll(ReplaceAll(ReplaceAll(s, ESCAPED_CRLF, [NL]), DOUBLY_ESCAPED, [NL]), ESCAPED, [NL])
  }

  /** What no pattern starts with is copied by every pass. */
  lemma CopyOne(s: seq<Byte>)
    requires s != []
    requires !StartsWith(s, ESCAPED_CRLF) && !StartsWith(s, DOUBLY_ESCAPED) && !StartsWith(s, ESCAPED)
    ensures Passes(s) == [s[0]] + Passes(s[1..])
  {
    var rest1 := ReplaceAll(s[1..], ESCAPED_CRLF, [NL]);
    var s1 := ReplaceAll(s, ESCAPED_CRLF, [NL]);
    assert s1 == [s[0]] + rest1 && s1[1..] == rest1;
    assert !StartsWith(s1, DOUBLY_ESCAPED) by {
      PairKept(s[1..], ESCAPED_CRLF);
      DoublyIff(s);
      DoublyIff(s1);
    }
    var s2 := ReplaceAll(s1, DOUBLY_ESCAPED, [NL]);
    assert s2 == [s[0]] + ReplaceAll(rest1, DOUBLY_ESCAPED, [NL]);
    assert !StartsWith(s2, ESCAPED) by {
      PairKept(s, ESCAPED_CRLF);
      PairKept(s1, DOUBLY_ESCAPED);
    }
    assert s2[1..] == ReplaceAll(rest1, DOUBLY_ESCAPED, [NL]);
  }

  /** A newline in front is copied by every pass. */
  lemma CopyNewline(s: seq<Byte>, p: seq<Byte>)
    requires p != [] && p[0] == BACKSLASH
    ensures ReplaceAll([NL] + s, p, [NL]) == [NL] + ReplaceAll(s, p, [NL])
  {
    ReplaceAfter([NL], s, p, [NL]);
  }

  /** A plain escape in front is left for the last pass. */
  lemma KeepPair(s: seq<Byte>, p: seq<Byte>)
    requires p == ESCAPED_CRLF || p == DOUBLY_ESCAPED
    ensures ReplaceAll(ESCAPED + s, p, [NL]) == ESCAPED + ReplaceAll(s, p, [NL])
  {
    var t := ESCAPED + s;
    assert t[1..] == [N] + s && t[0] == BACKSLASH && t[1] == N;
    PrefixAt(t, p, 1);
    ReplaceAfter([N], s, p, [NL]);
    assert [BACKSLASH] + ([N] + ReplaceAll(s, p, [NL])) == ESCAPED + ReplaceAll(s, p, [NL]);
  }

  /** A doubled escape in front is left for the second pass. */
  lemma KeepDoubly(s: seq<Byte>)
    ensures ReplaceAll(DOUBLY_ESCAPED + s, ESCAPED_CRLF, [NL]) == DOUBLY_ESCAPED + ReplaceAll(s, ESCAPED_CRLF, [NL])
  {
    var t := DOUBLY_ESCAPED + s;
    assert t[1..] == ESCAPED + s && t[0] == BACKSLASH && t[1] == BACKSLASH;
    PrefixAt(t, ESCAPED_CRLF, 1);
    KeepPair(s, ESCAPED_CRLF);
    assert [BACKSLASH] + (ESCAPED + ReplaceAll(s, ESCAPED_CRLF, [NL])) == DOUBLY_ESCAPED + ReplaceAll(s, ESCAPED_CRLF, [NL]);
  }

  /** Any of the escapes in front becomes one newline. */
  lemma ReplaceFront(form: seq<Byte>, s: seq<Byte>)
    requires form == ESCAPED_CRLF || form == DOUBLY_ESCAPED || form == ESCAPED
    ensures Passes(form + s) == [NL] + Passes(s)
  {
    var s1 := ReplaceAll(s, ESCAPED_CRLF, [NL]);
    var s2 := ReplaceAll(s1, DOUBLY_ESCAPED, [NL]);
    if form == ESCAPED_CRLF {
      ReplaceHere(s, ESCAPED_CRLF, [NL]);
      CopyNewline(s1, DOUBLY_ESCAPED);
      CopyNewline(s2, ESCAPED);
    } else if form == DOUBLY_ESCAPED {
      KeepDoubly(s);
      ReplaceHere(s1, DOUBLY_ESCAPED, [NL]);
      CopyNewline(s2, ESCAPED);
    } else {
      KeepPair(s, ESCAPED_CRLF);
      KeepPair(s1, DOUBLY_ESCAPED);
      ReplaceHere(s2, ESCAPED, [NL]);
    }
  }

  lemma {:induction false} PassesAreOne(s: seq<Byte>)
    ensures Passes(s) == OnePass(s)
    decreases |s|
  {
    if s == [] {
    } else if StartsWith(s, ESCAPED_CRLF) {
      assert s == ESCAPED_CRLF + s[4..];
      ReplaceFront(ESCAPED_CRLF, s[4..]);
      PassesAreOne(s[4..]);
    } else if StartsWith(s, DOUBLY_ESCAPED) {
      assert s == DOUBLY_ESCAPED + s[3..];
      ReplaceFront(DOUBLY_ESCAPED, s[3..]);
      PassesAreOne(s[3..]);
    } else if StartsWith(s, ESCAPED) {
      assert s == ESCAPED + s[2..];
      ReplaceFront(ESCAPED, s[2..]);
      PassesAreOne(s[2..]);
    } else {
      CopyOne(s);
      PassesAreOne(s[1..]);
    }
  }

  /** The three replacements are one longest-match pass, on every byte string. */
  lemma NormalizeIsOnePass(data: seq<Byte>)
    ensures Normalize(data) == OnePass(data)
  {
    PassesAreOne(data);
  }

  /** No backslash is followed by an n. */
  ghost predicate NoEscape(s: seq<Byte>) {
    forall i :: 0 <= i < |s| - 1 ==> !(s[i] == BACKSLASH && s[i + 1] == N)
  }

  lemma {:induction false} OnePassLeavesNone(s: seq<Byte>)
    ensures NoEscape(OnePass(s))
    ensures First(OnePass(s)) == N as int <==> First(s) == N as int
    decreases |s|
  {
    if s == [] {
    } else if StartsWith(s, ESCAPED_CRLF) {
      OnePassLeavesNone(s[4..]);
      PrefixAt(s, ESCAPED_CRLF, 0);
    } else if StartsWith(s, DOUBLY_ESCAPED) {
      OnePassLeavesNone(s[3..]);
      PrefixAt(s, DOUBLY_ESCAPED, 0);
    } else if StartsWith(s, ESCAPED) {
      OnePassLeavesNone(s[2..]);
      PrefixAt(s, ESCAPED, 0);
    } else {
      OnePassLeavesNone(s[1..]);
      PairIff(s);
    }
  }

  lemma {:induction false} OnePassKeeps(s: seq<Byte>)
    requires NoEscape(s)
    ensures OnePass(s) == s
    decreases |s|
  {
    if s != [] {
      PrefixAt(s, ESCAPED, 0);
      PrefixAt(s, ESCAPED, 1);
      PrefixAt(s, DOUBLY_ESCAPED, 1);
      PrefixAt(s, DOUBLY_ESCAPED, 2);
      PrefixAt(s, ESCAPED_CRLF, 2);
      PrefixAt(s, ESCAPED_CRLF, 3);
      assert NoEscape(s[1..]) by {
        assert forall i :: 0 <= i < |s| - 1 ==> s[1..][i] == s[i + 1];
      }
      OnePassKeeps(s[1..]);
    }
  }

  /** The result has no escape left, exactly the data without one are unchanged, and a second run changes nothing. */
  lemma NormalizeIsCanonical(data: seq<Byte>)
    ensures NoEscape(Normalize(data))
    ensures Normalize(data) == data <==> NoEscape(data)
    ensures Normalize(Normalize(data)) == Normalize(data)
  {
    NormalizeIsOnePass(data);
    OnePassLeavesNone(data);
    if NoEscape(data) {
      OnePassKeeps(data);
    }
    NormalizeIsOnePass(Normalize(data));
    OnePassKeeps(Normalize(data));
  }

  datatype Form = Crlf | Doubled | Single | Raw

  function Spelled(form: Form): seq<Byte> {
    match form
    case Crlf => ESCAPED_CRLF
    case Doubled => DOUBLY_ESCAPED
    case Single => ESCAPED
    case Raw => [NL]
  }

  /** The text with each newline spelled in the form chosen for its position. */
  function Escape(text: seq<Byte>, forms: seq<Form>): seq<Byte>
    requires |forms| == |text|
  {
    if text == [] then []
    else (if text[0] == NL then Spelled(forms[0]) else [text[0]]) + Escape(text[1..], forms[1..])
  }

  predicate StartsEscaped(s: seq<Byte>) {
    StartsWith(s, ESCAPED_CRLF) || StartsWith(s, DOUBLY_ESCAPED) || StartsWith(s, ESCAPED)
  }

  /** A backslash of the text runs into what follows: an n, or a newline spelled singly, with or without an r between. */
  predicate ClashAt(text: seq<Byte>, forms: seq<Form>, i: nat)
    requires |forms| == |text| && i < |text|
  {
    && text[i] == BACKSLASH && i + 1 < |text|
    && (|| text[i + 1] == N
        || (text[i + 1] == NL && forms[i + 1] == Single)
        || (text[i + 1] == R && i + 2 < |text| && text[i + 2] == NL && forms[i + 2] == Single))
  }

  ghost predicate ClashFree(text: seq<Byte>, forms: seq<Form>)
    requires |forms| == |text|
  {
    forall i: nat :: i < |text| ==> !ClashAt(text, forms, i)
  }

  lemma ClashFreeIff(text: seq<Byte>, forms: seq<Form>)
    requires |forms| == |text| && text != []
    ensures ClashFree(text, forms) <==> !ClashAt(text, forms, 0) && ClashFree(text[1..], forms[1..])
  {
    assert forall i: nat :: i < |text| - 1 ==> (ClashAt(text[1..], forms[1..], i) <==> ClashAt(text, forms, i + 1));
    assert forall i: nat :: 0 < i < |text| ==> (ClashAt(text, forms, i) <==> ClashAt(text[1..], forms[1..], i - 1));
  }

  lemma FirstOfEscape(text: seq<Byte>, forms: seq<Form>)
    requires |forms| == |text|
    ensures First(Escape(text, forms)) == N as int <==> First(text) == N as int
    ensures First(Escape(text, forms)) == R as int <==> First(text) == R as int
  {}

  lemma SecondOfForm(form: Form, rest: seq<Byte>)
    ensures form == Raw <==> First(Spelled(form) + rest) == NL as int
    ensures First((Spelled(form) + rest)[1..]) == N as int <==> form == Single || (form == Raw && First(rest) == N as int)
  {
    if form == Raw {
      assert (Spelled(form) + rest)[1..] == rest;
    } else {
      assert (Spelled(form) + rest)[1..] == Spelled(form)[1..] + rest;
    }
  }

  /** The escaped text starts with a plain escape only by a newline spelled so, or a backslash and an n of the text itself. */
  lemma PairInText(text: seq<Byte>, forms: seq<Form>)
    requires |forms| == |text|
    ensures StartsWith(Escape(text, forms), ESCAPED) <==>
      || (text != [] && text[0] == NL && forms[0] == Single)
      || (|text| > 1 && text[0] == BACKSLASH && text[1] == N)
  {
    if text != [] {
      var rest := Escape(text[1..], forms[1..]);
      FirstOfEscape(text[1..], forms[1..]);
      PairIff(Escape(text, forms));
      if text[0] != NL {
        assert Escape(text, forms)[1..] == rest;
      } else {
        SecondOfForm(forms[0], rest);
      }
    }
  }

  lemma CrlfIff(s: seq<Byte>)
    ensures StartsWith(s, ESCAPED_CRLF) <==>
      s != [] && s[0] == BACKSLASH && First(s[1..]) == R as int && StartsWith(s[2..], ESCAPED)
  {
    if |s| >= 4 {
      assert s[..4] == [s[0], s[1]] + s[2..][..2];
    }
  }

  /** Where a backslash of the text meets an escape, it does so by a clash here or at the next byte. */
  lemma BackslashStarts(text: seq<Byte>, forms: seq<Form>)
    requires |forms| == |text| && text != [] && text[0] == BACKSLASH
    ensures ClashAt(text, forms, 0) ==> StartsEscaped(Escape(text, forms))
    ensures StartsEscaped(Escape(text, forms)) ==> !ClashFree(text, forms)
  {
    var e, tail, rest := Escape(text, forms), text[1..], Escape(text[1..], forms[1..]);
    assert e[0] == BACKSLASH && e[1..] == rest;
    FirstOfEscape(tail, forms[1..]);
    PairIff(e);
    DoublyIff(e);
    CrlfIff(e);
    PairInText(tail, forms[1..]);
    ClashFreeIff(text, forms);
    if tail != [] {
      PairInText(tail[1..], forms[1..][1..]);
      ClashFreeIff(tail, forms[1..]);
      if tail[0] == R {
        assert e[2..] == Escape(tail[1..], forms[1..][1..]);
        assert tail[1..] != [] ==> ClashFree(tail[1..], forms[1..][1..]) ==> !ClashAt(tail[1..], forms[1..][1..], 0);
      }
    }
  }

  /** A text is recovered from a spelling of its newlines exactly when no backslash of its own runs into an escape. */
  lemma {:induction false} RecoversIff(text: seq<Byte>, forms: seq<Form>)
    requires |forms| == |text|
    ensures Normalize(Escape(text, forms)) == text <==> ClashFree(text, forms)
    decreases |text|
  {
    if text != [] {
      var e, rest := Escape(text, forms), Escape(text[1..], forms[1..]);
      RecoversIff(text[1..], forms[1..]);
      ClashFreeIff(text, forms);
      PassesAreOne(e);
      PassesAreOne(rest);
      if text[0] == NL && forms[0] != Raw {
        ReplaceFront(Spelled(forms[0]), rest);
      } else {
        assert e[0] == text[0] && e[1..] == rest;
        if text[0] == BACKSLASH {
          BackslashStarts(text, forms);
        } else {
          OtherFirst(e, ESCAPED_CRLF);
          OtherFirst(e, DOUBLY_ESCAPED);
          OtherFirst(e, ESCAPED);
        }
      }
    }
  }

  /** In particular a text without backslashes always is. */
  lemma Recovers(text: seq<Byte>, forms: seq<Form>)
    requires |forms| == |text| && BACKSLASH !in text
    ensures Normalize(Escape(text, forms)) == text
  {
    RecoversIff(text, forms);
  }

  /** The three escapes letter by letter, between an a and a b. */
  lemma EscapesAsBytes()
    ensures Normalize([97, 92, 114, 92, 110, 98]) == [97, 10, 98]
    ensures Normalize([97, 92, 92, 110, 98]) == [97, 10, 98]
    ensures Normalize([97, 92, 110, 98]) == [97, 10, 98]
  {
    PassesAreOne([]);
    BetweenLetters(ESCAPED_CRLF);
    BetweenLetters(DOUBLY_ESCAPED);
    BetweenLetters(ESCAPED);
    assert [97] + (ESCAPED_CRLF + [98]) == [97, 92, 114, 92, 110, 98];
    assert [97] + (DOUBLY_ESCAPED + [98]) == [97, 92, 92, 110, 98];
    assert [97] + (ESCAPED + [98]) == [97, 92, 110, 98];
  }

  lemma BetweenLetters(form: seq<Byte>)
    requires form == ESCAPED_CRLF || form == DOUBLY_ESCAPED || form == ESCAPED
    ensures Normalize([97] + (form + [98])) == [97, 10, 98]
  {
    var s := [97] + (form + [98]);
    OtherFirst(s, ESCAPED_CRLF);
    OtherFirst(s, DOUBLY_ESCAPED);
    OtherFirst(s, ESCAPED);
    CopyOne(s);
    assert s[1..] == form + [98];
    ReplaceFront(form, [98]);
    OtherFirst([98], ESCAPED_CRLF);
    OtherFirst([98], DOUBLY_ESCAPED);
    OtherFirst([98], ESCAPED);
    CopyOne([98]);
    assert [98][1..] == [] && Passes([]) == [];
    assert [97] + ([NL] + [98]) == [97, 10, 98];
  }
}
