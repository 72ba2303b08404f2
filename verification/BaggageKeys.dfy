/**
 * The names that flat-map keys get as baggage: brackets become dots or vanish,
 * which keeps the keys without brackets and can merge the others.
 */
module BaggageKeys {
  import opened Replacing
  import opened Keys

  /** "event[app][name]" to "event.app.name": three replacements. */
  function BaggageKey(k: string): string {
    ReplaceAll(ReplaceAll(ReplaceAll(k, "[", "."), "].", "."), "]", "")
  }

  // ---- Which keys keep their name ----

  lemma PlainUnchanged(k: string)
    requires Plain(k)
    ensures BaggageKey(k) == k
  {
    ReplaceNothing(k, "[", ".");
    ReplaceNothing(k, "].", ".");
    ReplaceNothing(k, "]", "");
  }

  lemma BaggageKeyIsPlain(k: string)
    ensures Plain(BaggageKey(k))
  {
    var a := ReplaceAll(k, "[", ".");
    var b := ReplaceAll(a, "].", ".");
    ReplaceRemoves(k, "[", ".", '[');
    ReplaceRemoves(a, "].", ".", '[');
    ReplaceRemoves(b, "]", "", '[');
    ReplaceRemoves(b, "]", "", ']');
  }

  /** A key keeps its name exactly when it has no bracket. */
  lemma UnchangedIff(k: string)
    ensures BaggageKey(k) == k <==> Plain(k)
  {
    BaggageKeyIsPlain(k);
    if Plain(k) {
      PlainUnchanged(k);
    }
  }

  /** A dot never disappears. */
  lemma DotsStay(k: string)
    requires !DotFree(k)
    ensures !DotFree(BaggageKey(k))
  {
    var a := ReplaceAll(k, "[", ".");
    var b := ReplaceAll(a, "].", ".");
    ReplaceKeeps(k, "[", ".", '.');
    ReplaceKeeps(a, "].", ".", '.');
    ReplaceKeeps(b, "]", "", '.');
  }

  /** Below a name without brackets only the rest of the key changes. */
  lemma BelowPlain(p: string, r: string)
    requires Plain(p)
    ensures BaggageKey(Join(p, r)) == Join(p, BaggageKey(r))
  {
    var q := p + ".";
    var a := ReplaceAll(r, "[", ".");
    var b := ReplaceAll(a, "].", ".");
    ReplaceAfter(q, r, "[", ".");
    ReplaceAfter(q, a, "].", ".");
    ReplaceAfter(q, b, "]", "");
  }

  /** A closing bracket at the end is lost, so the key becomes that of another entry. */
  lemma ClosingBracketLost(k: string)
    requires Plain(k)
    ensures BaggageKey(k + "]") == k
  {
    ReplaceNothing(k + "]", "[", ".");
    ReplaceAfter(k, "]", "].", ".");
    LoneBracket();
    LastBracket(k);
  }

  // ---- Bracketed paths ----

  /** The segments in brackets, one after the other. */
  function Bracketed(segs: seq<string>): string {
    if segs == [] then "" else "[" + segs[0] + "]" + Bracketed(segs[1..])
  }

  /** The segments behind dots. */
  function DotSeparated(segs: seq<string>): string {
    if segs == [] then "" else "." + segs[0] + DotSeparated(segs[1..])
  }

  /** After the first replacement: dots in front, closing brackets still there. */
  function HalfClosed(segs: seq<string>): string {
    if segs == [] then "" else "." + segs[0] + "]" + HalfClosed(segs[1..])
  }

  lemma {:induction false} OpenBrackets(segs: seq<string>)
    requires forall i :: 0 <= i < |segs| ==> Plain(segs[i])
    ensures ReplaceAll(Bracketed(segs), "[", ".") == HalfClosed(segs)
  {
    if segs != [] {
      OpenBrackets(segs[1..]);
      var tail := segs[0] + "]" + Bracketed(segs[1..]);
      assert Bracketed(segs) == "[" + tail;
      ReplaceHere(tail, "[", ".");
      ReplaceAfter(segs[0] + "]", Bracketed(segs[1..]), "[", ".");
      assert HalfClosed(segs) == "." + (segs[0] + "]" + HalfClosed(segs[1..]));
    }
  }

  /** The second replacement closes every segment but the last. */
  lemma {:induction false} InnerBrackets(segs: seq<string>)
    requires segs != [] && forall i :: 0 <= i < |segs| ==> Plain(segs[i])
    ensures ReplaceAll(HalfClosed(segs), "].", ".") == DotSeparated(segs) + "]"
  {
    if |segs| == 1 {
      ReplaceAfter("." + segs[0], "]", "].", ".");
      assert HalfClosed(segs) == "." + segs[0] + "]";
      assert DotSeparated(segs) == "." + segs[0];
      LoneBracket();
    } else {
      InnerBrackets(segs[1..]);
      FirstInnerBracket(segs[0], segs[1..]);
      assert [segs[0]] + segs[1..] == segs;
    }
  }

  lemma FirstInnerBracket(seg: string, rest: seq<string>)
    requires Plain(seg) && rest != []
    ensures HalfClosed(rest) != "" && HalfClosed(rest)[0] == '.'
    ensures ReplaceAll(HalfClosed([seg] + rest), "].", ".")
         == "." + seg + ReplaceAll(HalfClosed(rest), "].", ".")
  {
    var below := HalfClosed(rest)[1..];
    assert HalfClosed(rest) == "." + below;
    assert HalfClosed([seg] + rest) == ("." + seg) + ("]." + below);
    ReplaceAfter("." + seg, "]." + below, "].", ".");
    ReplaceHere(below, "].", ".");
    ReplaceAfter(".", below, "].", ".");
  }

  lemma LoneBracket()
    ensures ReplaceAll("]", "].", ".") == "]"
  {
    assert "]"[1..] == "";
  }

  lemma {:induction false} DotSeparatedIsPlain(segs: seq<string>)
    requires forall i :: 0 <= i < |segs| ==> Plain(segs[i])
    ensures Plain(DotSeparated(segs))
  {
    if segs != [] {
      DotSeparatedIsPlain(segs[1..]);
    }
  }

  /** A bracketed path becomes the dotted path of the same segments, however deep. */
  lemma BracketedPathToDots(head: string, segs: seq<string>)
    requires Plain(head) && segs != [] && forall i :: 0 <= i < |segs| ==> Plain(segs[i])
    ensures BaggageKey(head + Bracketed(segs)) == head + DotSeparated(segs)
  {
    TwoSteps(head, segs);
    LastStep(head, segs);
  }

  lemma TwoSteps(head: string, segs: seq<string>)
    requires Plain(head) && segs != [] && forall i :: 0 <= i < |segs| ==> Plain(segs[i])
    ensures ReplaceAll(ReplaceAll(head + Bracketed(segs), "[", "."), "].", ".") == head + DotSeparated(segs) + "]"
  {
    OpenPath(head, segs);
    InnerPath(head, segs);
  }

  lemma LastStep(head: string, segs: seq<string>)
    requires Plain(head) && forall i :: 0 <= i < |segs| ==> Plain(segs[i])
    ensures ReplaceAll(head + DotSeparated(segs) + "]", "]", "") == head + DotSeparated(segs)
  {
    DotSeparatedIsPlain(segs);
    LastBracket(head + DotSeparated(segs));
  }

  lemma OpenPath(head: string, segs: seq<string>)
    requires Plain(head) && forall i :: 0 <= i < |segs| ==> Plain(segs[i])
    ensures ReplaceAll(head + Bracketed(segs), "[", ".") == head + HalfClosed(segs)
  {
    OpenBrackets(segs);
    ReplaceAfter(head, Bracketed(segs), "[", ".");
  }

  lemma InnerPath(head: string, segs: seq<string>)
    requires Plain(head) && segs != [] && forall i :: 0 <= i < |segs| ==> Plain(segs[i])
    ensures ReplaceAll(head + HalfClosed(segs), "].", ".") == head + DotSeparated(segs) + "]"
  {
    InnerBrackets(segs);
    ReplaceAfter(head, HalfClosed(segs), "].", ".");
  }

  lemma LastBracket(body: string)
    requires Plain(body)
    ensures ReplaceAll(body + "]", "]", "") == body
  {
    ReplaceAfter(body, "]", "]", "");
    assert "]"[1..] == "";
    assert body + "" == body;
  }
}
