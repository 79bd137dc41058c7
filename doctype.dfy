/**
 * The doctype quoting quirk of the newsletter (src/document.py): the
 * template's DOCTYPE carries curly quotes, which are straightened when a
 * document is loaded and put back, alternating opening and closing, when it
 * is written out. The markup parser and pretty-printer in between are not
 * part of this model; `Load` and `Save` are the two text transforms.
 */
module Doctype {

  const STRAIGHT: char := '"'
  const OPENING: char := '\U{201C}'
  const CLOSING: char := '\U{201D}'

  /** `s.replace(from, to, count)` for one-character `from` and `to`: only the first `count` occurrences change. */
  function ReplaceFirst(s: string, from: char, to: char, count: nat): (r: string)
    ensures |r| == |s|
  {
    if s == [] then []
    else if s[0] == from && count > 0 then [to] + ReplaceFirst(s[1..], from, to, count - 1)
    else [s[0]] + ReplaceFirst(s[1..], from, to, count)
  }

  /** What `Document(code)` does to the text before parsing it. */
  function Load(code: string): string {
    ReplaceFirst(ReplaceFirst(code, OPENING, STRAIGHT, 2), CLOSING, STRAIGHT, 2)
  }

  /** What `str(document)` does to the pretty-printed text. */
  function Save(code: string): string {
    var once := ReplaceFirst(ReplaceFirst(code, STRAIGHT, OPENING, 1), STRAIGHT, CLOSING, 1);
    ReplaceFirst(ReplaceFirst(once, STRAIGHT, OPENING, 1), STRAIGHT, CLOSING, 1)
  }

  predicate NoCurlyQuotes(s: string) {
    OPENING !in s && CLOSING !in s
  }

  // ---------------------------------------------------------------------------
  // Reasoning device: replace successive occurrences of `from` by the
  // successive characters of `with`.
  // ---------------------------------------------------------------------------

  function Substitute(s: string, from: char, with: string): (r: string)
    ensures |r| == |s|
  {
    if s == [] then []
    else if s[0] == from && with != [] then [with[0]] + Substitute(s[1..], from, with[1..])
    else [s[0]] + Substitute(s[1..], from, with)
  }

  /** `p` with every `c` turned into `d`. */
  function ReplaceAll(p: string, c: char, d: char): (r: string)
    ensures |r| == |p|
    ensures forall i :: 0 <= i < |p| ==> r[i] == (if p[i] == c then d else p[i])
  {
    if p == [] then [] else [if p[0] == c then d else p[0]] + ReplaceAll(p[1..], c, d)
  }

  /** How many times `c` occurs in `p`. */
  function Count(p: string, c: char): nat {
    if p == [] then 0 else (if p[0] == c then 1 else 0) + Count(p[1..], c)
  }

  lemma {:induction false} ReplaceFirstIsSubstitute(s: string, from: char, to: char, count: nat)
    ensures ReplaceFirst(s, from, to, count) == Substitute(s, from, seq(count, _ => to))
  {
    if s != [] {
      if s[0] == from && count > 0 {
        assert seq(count, _ => to)[1..] == seq(count - 1, _ => to);
        ReplaceFirstIsSubstitute(s[1..], from, to, count - 1);
      } else {
        ReplaceFirstIsSubstitute(s[1..], from, to, count);
      }
    }
  }

  lemma {:induction false} SubstituteNothing(s: string, from: char)
    ensures Substitute(s, from, []) == s
  {
    if s != [] { SubstituteNothing(s[1..], from); }
  }

  /** Substituting again continues where the first substitution stopped. */
  lemma {:induction false} SubstituteCompose(s: string, from: char, p: string, q: string)
    requires from !in p
    ensures Substitute(Substitute(s, from, p), from, q) == Substitute(s, from, p + q)
  {
    if s == [] {
    } else if s[0] == from && p != [] {
      assert (p + q)[1..] == p[1..] + q;
      SubstituteCompose(s[1..], from, p[1..], q);
    } else if s[0] == from {
      SubstituteNothing(s, from);
      assert p + q == q;
    } else {
      SubstituteCompose(s[1..], from, p, q);
    }
  }

  /**
   * Turning the first `n` copies of `c` back into `from` undoes the
   * substitution of `c` for `from`, when `c` did not occur in the text
   * beforehand and `n` covers every `c` that was put in.
   */
  lemma {:induction false} SubstituteUndone(x: string, from: char, p: string, c: char, n: nat)
    requires c !in x && c != from
    requires Count(p, c) <= n
    ensures Substitute(Substitute(x, from, p), c, seq(n, _ => from)) == Substitute(x, from, ReplaceAll(p, c, from))
  {
    if x == [] {
    } else if x[0] == from && p != [] {
      if p[0] == c {
        assert seq(n, _ => from)[1..] == seq(n - 1, _ => from);
        SubstituteUndone(x[1..], from, p[1..], c, n - 1);
      } else {
        SubstituteUndone(x[1..], from, p[1..], c, n);
      }
    } else {
      SubstituteUndone(x[1..], from, p, c, n);
    }
  }

  lemma {:induction false} SubstituteSame(x: string, from: char, p: string)
    requires forall i :: 0 <= i < |p| ==> p[i] == from
    ensures Substitute(x, from, p) == x
  {
    if x != [] {
      SubstituteSame(x[1..], from, if x[0] == from && p != [] then p[1..] else p);
    }
  }

  // ---------------------------------------------------------------------------
  // The properties of the quirk
  // ---------------------------------------------------------------------------

  /** Saving turns the first four straight quotes into opening, closing, opening, closing. */
  lemma SaveAlternates(x: string)
    ensures Save(x) == Substitute(x, STRAIGHT, [OPENING, CLOSING, OPENING, CLOSING])
  {
    var a := ReplaceFirst(x, STRAIGHT, OPENING, 1);
    var b := ReplaceFirst(a, STRAIGHT, CLOSING, 1);
    var c := ReplaceFirst(b, STRAIGHT, OPENING, 1);
    assert seq(1, _ => OPENING) == [OPENING] && seq(1, _ => CLOSING) == [CLOSING];
    ReplaceFirstIsSubstitute(x, STRAIGHT, OPENING, 1);
    ReplaceFirstIsSubstitute(a, STRAIGHT, CLOSING, 1);
    ReplaceFirstIsSubstitute(b, STRAIGHT, OPENING, 1);
    ReplaceFirstIsSubstitute(c, STRAIGHT, CLOSING, 1);
    SubstituteCompose(x, STRAIGHT, [OPENING], [CLOSING]);
    assert [OPENING] + [CLOSING] == [OPENING, CLOSING];
    SubstituteCompose(x, STRAIGHT, [OPENING, CLOSING], [OPENING]);
    assert [OPENING, CLOSING] + [OPENING] == [OPENING, CLOSING, OPENING];
    SubstituteCompose(x, STRAIGHT, [OPENING, CLOSING, OPENING], [CLOSING]);
    assert [OPENING, CLOSING, OPENING] + [CLOSING] == [OPENING, CLOSING, OPENING, CLOSING];
  }

  lemma QuoteSequences()
    ensures Count([OPENING, CLOSING, OPENING, CLOSING], OPENING) == 2
    ensures ReplaceAll([OPENING, CLOSING, OPENING, CLOSING], OPENING, STRAIGHT) == [STRAIGHT, CLOSING, STRAIGHT, CLOSING]
    ensures Count([STRAIGHT, CLOSING, STRAIGHT, CLOSING], CLOSING) == 2
    ensures ReplaceAll([STRAIGHT, CLOSING, STRAIGHT, CLOSING], CLOSING, STRAIGHT) == [STRAIGHT, STRAIGHT, STRAIGHT, STRAIGHT]
  {
    var p := [OPENING, CLOSING, OPENING, CLOSING];
    assert Count([CLOSING], OPENING) == 0 by { assert [CLOSING][1..] == []; }
    assert Count([OPENING, CLOSING], OPENING) == 1 by { assert [OPENING, CLOSING][1..] == [CLOSING]; }
    assert Count(p[1..], OPENING) == 1 by { assert p[1..][1..] == [OPENING, CLOSING]; }
    var p1 := [STRAIGHT, CLOSING, STRAIGHT, CLOSING];
    assert Count([CLOSING], CLOSING) == 1 by { assert [CLOSING][1..] == []; }
    assert Count([STRAIGHT, CLOSING], CLOSING) == 1 by { assert [STRAIGHT, CLOSING][1..] == [CLOSING]; }
    assert Count(p1[1..], CLOSING) == 2 by { assert p1[1..][1..] == [STRAIGHT, CLOSING]; }
    var r1 := ReplaceAll([OPENING, CLOSING, OPENING, CLOSING], OPENING, STRAIGHT);
    assert r1[0] == STRAIGHT && r1[1] == CLOSING && r1[2] == STRAIGHT && r1[3] == CLOSING;
    var r2 := ReplaceAll([STRAIGHT, CLOSING, STRAIGHT, CLOSING], CLOSING, STRAIGHT);
    assert r2[0] == STRAIGHT && r2[1] == STRAIGHT && r2[2] == STRAIGHT && r2[3] == STRAIGHT;
  }

  /** Loading what was saved gives back the original text, when it had no curly quotes of its own. */
  lemma LoadSaveRoundTrip(x: string)
    requires NoCurlyQuotes(x)
    ensures Load(Save(x)) == x
  {
    var p := [OPENING, CLOSING, OPENING, CLOSING];
    var p1 := [STRAIGHT, CLOSING, STRAIGHT, CLOSING];
    var p2 := [STRAIGHT, STRAIGHT, STRAIGHT, STRAIGHT];
    QuoteSequences();
    var y := Save(x);
    SaveAlternates(x);
    var z := ReplaceFirst(y, OPENING, STRAIGHT, 2);
    ReplaceFirstIsSubstitute(y, OPENING, STRAIGHT, 2);
    SubstituteUndone(x, STRAIGHT, p, OPENING, 2);
    assert z == Substitute(x, STRAIGHT, p1);
    ReplaceFirstIsSubstitute(z, CLOSING, STRAIGHT, 2);
    SubstituteUndone(x, STRAIGHT, p1, CLOSING, 2);
    assert Load(y) == Substitute(x, STRAIGHT, p2);
    SubstituteSame(x, STRAIGHT, p2);
  }

  /** Text in the saved form survives a load followed by a save unchanged. */
  lemma SaveLoadOnSavedText(y: string, x: string)
    requires NoCurlyQuotes(x) && y == Save(x)
    ensures Save(Load(y)) == y
  {
    LoadSaveRoundTrip(x);
  }
}
