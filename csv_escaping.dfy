/**
 * CsvRow.Escape: how one CSV cell is written out. Straight quotes are doubled, the
 * typographic quotes “ ” „ become a doubled straight quote, and the cell is wrapped in
 * straight quotes when it then holds the delimiter, a quote or a line break.
 */
module CsvEscaping {
  import opened Text

  const Quote: char := '"'
  const LeftDoubleQuote: char := '\U{201C}'
  const RightDoubleQuote: char := '\U{201D}'
  const LowDoubleQuote: char := '\U{201E}'

  /** The typographic double quotes that Escape turns into straight ones. */
  predicate IsCurlyQuote(c: char) {
    c == LeftDoubleQuote || c == RightDoubleQuote || c == LowDoubleQuote
  }

  /** StringBuilder.Replace of the one-character string [c] by rep, scanning left to right. */
  function ReplaceChar(s: string, c: char, rep: string): (r: string)
    ensures c !in s ==> r == s
  {
    if s == [] then [] else (if s[0] == c then rep else [s[0]]) + ReplaceChar(s[1..], c, rep)
  }

  /** The four replacements of CsvRow.Escape, in the order it applies them. */
  function EscapeBody(s: string): string {
    var doubled := ReplaceChar(s, Quote, "\"\"");
    var left := ReplaceChar(doubled, LeftDoubleQuote, "\"\"");
    var right := ReplaceChar(left, RightDoubleQuote, "\"\"");
    ReplaceChar(right, LowDoubleQuote, "\"\"")
  }

  /** When the escaped cell has to be enclosed in quotes. */
  predicate NeedsQuoting(body: string, delimiter: string) {
    ContainsIgnoreCase(body, delimiter) || Quote in body || Contains(body, NewLine)
  }

  /** CsvRow.Escape(data) for a row whose delimiter is `delimiter`. */
  function Escape(s: string, delimiter: string): string {
    var body := EscapeBody(s);
    if NeedsQuoting(body, delimiter) then [Quote] + body + [Quote] else body
  }

  // ---------------------------------------------------------------------------
  // Reference definitions: what Escape means, stated character by character.

  /** Every typographic double quote replaced by a straight one. */
  function Normalized(s: string): (r: string)
    ensures |r| == |s|
    ensures forall i :: 0 <= i < |s| ==> r[i] == if IsCurlyQuote(s[i]) then Quote else s[i]
  {
    if s == [] then [] else [if IsCurlyQuote(s[0]) then Quote else s[0]] + Normalized(s[1..])
  }

  /** Every straight quote written twice. */
  function Doubled(s: string): string {
    if s == [] then [] else (if s[0] == Quote then [Quote, Quote] else [s[0]]) + Doubled(s[1..])
  }

  /** Reading a quoted field back: each "" becomes ". */
  function Collapsed(s: string): string {
    if |s| >= 2 && s[0] == Quote && s[1] == Quote then [Quote] + Collapsed(s[2..])
    else if s == [] then []
    else [s[0]] + Collapsed(s[1..])
  }

  /** Removes the enclosing quotes, which an escaped cell has iff it starts with a quote. */
  function Unwrapped(s: string): string {
    if |s| >= 2 && s[0] == Quote then s[1..|s| - 1] else s
  }

  /** How a CSV reader recovers a cell from Escape's output. */
  function Unescape(s: string): string {
    Collapsed(Unwrapped(s))
  }

  // ---------------------------------------------------------------------------
  // Lemmas.

  lemma {:induction false} ReplaceCharHead(x: char, t: string, c: char, rep: string)
    ensures ReplaceChar([x] + t, c, rep) == ReplaceChar([x], c, rep) + ReplaceChar(t, c, rep)
  {
    assert ([x] + t)[1..] == t;
    assert [x][1..] == [];
  }

  lemma {:induction false} EscapeBodyHead(x: char, t: string)
    ensures EscapeBody([x] + t) == EscapeBody([x]) + EscapeBody(t)
  {
    var q := "\"\"";
    ReplaceCharHead(x, t, Quote, q);
    var a := ReplaceChar([x], Quote, q);
    var b := ReplaceChar(t, Quote, q);
    ReplaceCharConcat(a, b, LeftDoubleQuote, q);
    var a2 := ReplaceChar(a, LeftDoubleQuote, q);
    var b2 := ReplaceChar(b, LeftDoubleQuote, q);
    ReplaceCharConcat(a2, b2, RightDoubleQuote, q);
    var a3 := ReplaceChar(a2, RightDoubleQuote, q);
    var b3 := ReplaceChar(b2, RightDoubleQuote, q);
    ReplaceCharConcat(a3, b3, LowDoubleQuote, q);
  }

  lemma {:induction false} ReplaceCharConcat(a: string, b: string, c: char, rep: string)
    ensures ReplaceChar(a + b, c, rep) == ReplaceChar(a, c, rep) + ReplaceChar(b, c, rep)
  {
    if a == [] {
      assert a + b == b;
    } else {
      var t := a[1..];
      var h := if a[0] == c then rep else [a[0]];
      assert ReplaceChar(a + b, c, rep) == h + ReplaceChar(t + b, c, rep) by {
        ReplaceCharUnfold(a + b, c, rep);
        assert (a + b)[0] == a[0] && (a + b)[1..] == t + b;
      }
      ReplaceCharConcat(t, b, c, rep);
      assert ReplaceChar(a, c, rep) == h + ReplaceChar(t, c, rep) by {
        ReplaceCharUnfold(a, c, rep);
      }
      ConcatAssoc(h, ReplaceChar(t, c, rep), ReplaceChar(b, c, rep));
    }
  }

  lemma ConcatAssoc(x: string, y: string, z: string)
    ensures x + (y + z) == (x + y) + z
  {
  }

  /** One step of ReplaceChar: the replacement of the first character, then the rest. */
  lemma ReplaceCharUnfold(s: string, c: char, rep: string)
    requires s != []
    ensures ReplaceChar(s, c, rep) == (if s[0] == c then rep else [s[0]]) + ReplaceChar(s[1..], c, rep)
  {
  }

  lemma EscapeBodySingle(x: char)
    ensures EscapeBody([x]) == if x == Quote || IsCurlyQuote(x) then [Quote, Quote] else [x]
  {
    var q := "\"\"";
    assert [x][1..] == [];
    if x == Quote {
      assert ReplaceChar([x], Quote, q) == q;
      assert q[1..] == [Quote];
    }
  }

  /** The four replacements amount to normalising the typographic quotes, then doubling every quote. */
  lemma {:induction false} EscapeBodyIsDoubledNormalized(s: string)
    ensures EscapeBody(s) == Doubled(Normalized(s))
  {
    if s != [] {
      var x := s[0];
      assert s == [x] + s[1..];
      EscapeBodyHead(x, s[1..]);
      EscapeBodySingle(x);
      EscapeBodyIsDoubledNormalized(s[1..]);
      var n := Normalized(s);
      assert n[1..] == Normalized(s[1..]);
      assert n == [n[0]] + n[1..];
    }
  }

  lemma {:induction false} CollapsedDoubled(s: string)
    ensures Collapsed(Doubled(s)) == s
  {
    if s != [] {
      CollapsedDoubled(s[1..]);
      var d := Doubled(s);
      if s[0] == Quote {
        assert d == [Quote, Quote] + Doubled(s[1..]);
        assert d[2..] == Doubled(s[1..]);
      } else {
        assert d == [s[0]] + Doubled(s[1..]);
        assert d[1..] == Doubled(s[1..]);
      }
    }
  }

  lemma {:induction false} DoubledNoQuote(s: string)
    requires Quote !in s
    ensures Doubled(s) == s
  {
    if s != [] {
      DoubledNoQuote(s[1..]);
      assert s == [s[0]] + s[1..];
    }
  }

  lemma {:induction false} NormalizedNoCurly(s: string)
    requires forall i :: 0 <= i < |s| ==> !IsCurlyQuote(s[i])
    ensures Normalized(s) == s
  {
    if s != [] {
      NormalizedNoCurly(s[1..]);
      assert s == [s[0]] + s[1..];
    }
  }

  /** A quote in the input (straight or typographic) always forces the enclosing quotes. */
  lemma {:induction false} QuoteForcesWrapping(s: string, delimiter: string, i: nat)
    requires i < |s| && (s[i] == Quote || IsCurlyQuote(s[i]))
    ensures var r := Escape(s, delimiter); |r| >= 2 && r[0] == Quote && r[|r| - 1] == Quote
  {
    EscapeBodyIsDoubledNormalized(s);
    QuoteSurvives(Normalized(s), i);
  }

  lemma {:induction false} QuoteSurvives(n: string, i: nat)
    requires i < |n| && n[i] == Quote
    ensures Quote in Doubled(n)
  {
    if i == 0 {
      assert Doubled(n)[0] == Quote;
    } else {
      QuoteSurvives(n[1..], i - 1);
      assert Doubled(n) == (if n[0] == Quote then [Quote, Quote] else [n[0]]) + Doubled(n[1..]);
    }
  }

  /**
   * Text holding no quote of either kind, no line break and not the delimiter is
   * written out unchanged.
   */
  lemma EscapeLeavesPlainText(s: string, delimiter: string)
    requires forall i :: 0 <= i < |s| ==> s[i] != Quote && !IsCurlyQuote(s[i])
    requires !ContainsIgnoreCase(s, delimiter) && !Contains(s, NewLine)
    ensures Escape(s, delimiter) == s
  {
    EscapeBodyIsDoubledNormalized(s);
    NormalizedNoCurly(s);
    DoubledNoQuote(s);
  }

  /** The cell is enclosed in quotes exactly when the escaped text needs it. */
  lemma EscapeWrapsIff(s: string, delimiter: string)
    ensures var body := Doubled(Normalized(s));
            var r := Escape(s, delimiter);
            (|r| > 0 && r[0] == Quote) <==> NeedsQuoting(body, delimiter)
  {
    EscapeBodyIsDoubledNormalized(s);
    var body := Doubled(Normalized(s));
    assert |body| > 0 && body[0] == Quote ==> Quote in body;
  }

  /**
   * Round trip: removing the enclosing quotes and collapsing each "" gives back the
   * input with its typographic quotes straightened.
   */
  lemma EscapeRoundTrip(s: string, delimiter: string)
    ensures Unescape(Escape(s, delimiter)) == Normalized(s)
  {
    EscapeBodyIsDoubledNormalized(s);
    var body := Doubled(Normalized(s));
    CollapsedDoubled(Normalized(s));
    if NeedsQuoting(body, delimiter) {
      var r := [Quote] + body + [Quote];
      assert r[1..|r| - 1] == body;
    } else {
      assert Quote !in body;
      if |body| >= 2 {
        assert body[0] != Quote;
      }
    }
  }
}
