/**
 * The pieces of Go's `strings` package that the command interpreter relies on:
 * whitespace splitting (`strings.Fields`), joining with a single space
 * (`strings.Join(ws, " ")`).
 */
module GoStrings {

  /** Go's `unicode.IsSpace`: the Latin-1 spaces plus the other Unicode White_Space code points. */
  predicate IsSpace(c: char)
    ensures '!' <= c <= '~' ==> !IsSpace(c)
    ensures c as int > 0x3000 ==> !IsSpace(c)
  {
    || c == '\t' || c == '\n' || c == '\U{000B}' || c == '\U{000C}' || c == '\r' || c == ' '
    || c == '\U{0085}' || c == '\U{00A0}' || c == '\U{1680}'
    || ('\U{2000}' <= c <= '\U{200A}')
    || c == '\U{2028}' || c == '\U{2029}' || c == '\U{202F}' || c == '\U{205F}' || c == '\U{3000}'
  }

  predicate AllSpace(s: string) {
    forall i :: 0 <= i < |s| ==> IsSpace(s[i])
  }

  /** A field as `strings.Fields` produces it: non-empty, with no white space inside. */
  predicate IsWord(w: string) {
    |w| > 0 && forall i :: 0 <= i < |w| ==> !IsSpace(w[i])
  }

  /** The longest prefix of `s` that holds no white space. */
  function TakeWord(s: string): (w: string)
    ensures |w| <= |s| && w == s[..|w|]
    ensures forall i :: 0 <= i < |w| ==> !IsSpace(w[i])
    ensures |w| < |s| ==> IsSpace(s[|w|])
  {
    if s == [] || IsSpace(s[0]) then [] else [s[0]] + TakeWord(s[1..])
  }

  /** `strings.Fields`: the maximal runs of non-space characters, in order. */
  function Fields(s: string): (r: seq<string>)
    decreases |s|
    ensures forall i :: 0 <= i < |r| ==> IsWord(r[i])
    ensures r == [] <==> AllSpace(s)
  {
    if s == [] then []
    else if IsSpace(s[0]) then Fields(s[1..])
    else
      var w := TakeWord(s);
      [w] + Fields(s[|w|..])
  }

  /** " w1 w2 … wn": every word preceded by one space. */
  function Spaced(ws: seq<string>): string {
    if ws == [] then "" else " " + ws[0] + Spaced(ws[1..])
  }

  /** `strings.Join(ws, " ")`. */
  function Join(ws: seq<string>): string {
    if ws == [] then "" else ws[0] + Spaced(ws[1..])
  }

  lemma {:induction false} TakeWordOfJoined(w: string, rest: string)
    requires IsWord(w)
    requires rest == [] || IsSpace(rest[0])
    ensures TakeWord(w + rest) == w
    decreases |w|
  {
    if |w| > 1 {
      assert (w + rest)[1..] == w[1..] + rest;
      TakeWordOfJoined(w[1..], rest);
    } else {
      assert (w + rest)[1..] == rest;
    }
  }

  /** A word followed by a space or by nothing is split off as the first field. */
  lemma FieldsOfWordThen(w: string, rest: string)
    requires IsWord(w)
    requires rest == [] || IsSpace(rest[0])
    ensures Fields(w + rest) == [w] + Fields(rest)
  {
    var u := w + rest;
    assert u[0] == w[0] && !IsSpace(u[0]);
    TakeWordOfJoined(w, rest);
    assert u[|w|..] == rest;
  }

  lemma SpacedStartsWithSpace(ws: seq<string>)
    ensures Spaced(ws) == [] || IsSpace(Spaced(ws)[0])
  {
  }

  lemma {:induction false} FieldsOfSpaced(ws: seq<string>)
    requires forall i :: 0 <= i < |ws| ==> IsWord(ws[i])
    ensures Fields(Spaced(ws)) == ws
  {
    if ws != [] {
      var tail := Spaced(ws[1..]);
      var s := " " + ws[0] + tail;
      assert s == Spaced(ws);
      assert s[1..] == ws[0] + tail;
      assert Fields(s) == Fields(ws[0] + tail);
      SpacedStartsWithSpace(ws[1..]);
      FieldsOfWordThen(ws[0], tail);
      FieldsOfSpaced(ws[1..]);
      assert [ws[0]] + ws[1..] == ws;
    }
  }

  /** Splitting undoes joining with single spaces, whenever the parts are words. */
  lemma {:induction false} FieldsOfJoin(ws: seq<string>)
    requires forall i :: 0 <= i < |ws| ==> IsWord(ws[i])
    ensures Fields(Join(ws)) == ws
  {
    if ws != [] {
      var tail := Spaced(ws[1..]);
      SpacedStartsWithSpace(ws[1..]);
      FieldsOfWordThen(ws[0], tail);
      FieldsOfSpaced(ws[1..]);
      assert [ws[0]] + ws[1..] == ws;
    }
  }
}
