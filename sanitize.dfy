/**
 * The value sanitiser: how one Python value becomes the text of an SQL
 * literal.  Quote doubling is what keeps untrusted text inside its literal;
 * the reading functions in the middle of the module state what a lexer
 * following standard SQL quoting makes of the rendered text (`''` is the only
 * escape and a backslash is an ordinary character), so that the lemmas can
 * say that it reads back exactly the original text and stops exactly where
 * the literal ends.  A lexer that also treats `\` as an escape, as MySQL does
 * by default, is not what these functions describe.
 */
module Sanitize {
  import opened Wrappers
  import opened PyValues

  const Quote: char := '\''

  /** `s.replace("'", "''")`: every quote doubled, every other character kept. */
  function Escape(s: string): (r: string)
    ensures |r| == |s| + QuoteCount(s)
  {
    if s == [] then [] else EscapeChar(s[0]) + Escape(s[1..])
  }

  /** The number of quotes in a text. */
  function QuoteCount(s: string): nat {
    if s == [] then 0 else (if s[0] == Quote then 1 else 0) + QuoteCount(s[1..])
  }

  function EscapeChar(c: char): string {
    if c == Quote then [Quote, Quote] else [c]
  }

  /** `sanitize_string`: None becomes the NULL keyword, anything else a quoted, escaped literal. */
  function SanitizeString(s: Option<string>): (r: string)
    ensures s.None? ==> r == "NULL"
    ensures s.Some? ==> |r| >= 2 && r[0] == Quote && r[|r| - 1] == Quote
                        && Unescape(r[1..|r| - 1]) == Some(s.value)
  {
    match s
    case None => "NULL"
    case Some(t) =>
      UnescapeEscape(t);
      var r := [Quote] + Escape(t) + [Quote];
      assert r[1..|r| - 1] == Escape(t);
      r
  }

  /** `isinstance(value, (int, float))`: a Python bool is an int, so it is numeric too. */
  predicate IsNumeric(v: Value) {
    v.Int? || v.Bool? || v.Float?
  }

  /**
   * `sanitize_value`, with its cases in the order the converter tests them.
   * Because the numeric test comes first and catches booleans, the "1"/"0"
   * branch is never taken: see `BoolTakesNumericBranch`.
   */
  function SanitizeValue(v: Value): (r: string)
    ensures v.Null? ==> r == "NULL"
    ensures !v.Null? && !IsNumeric(v) ==>
              && |r| >= 2 && r[0] == Quote && r[|r| - 1] == Quote
              && Unescape(r[1..|r| - 1]) == Some(if v.DateTime? then Strftime(v.t) else Str(v))
  {
    if v.Null? then "NULL"
    else if IsNumeric(v) then Str(v)
    else if v.Bool? then (if v == Bool(true) then "1" else "0")
    else if v.DateTime? then
      StrftimeAlphabet(v.t);
      EscapeNoQuote(Strftime(v.t));
      UnescapeEscape(Strftime(v.t));
      var r := [Quote] + Strftime(v.t) + [Quote];
      assert r[1..|r| - 1] == Strftime(v.t);
      r
    else SanitizeString(Some(Str(v)))
  }

  // ------------------------------------------------------- the reading side

  /** Collapses each `''` back to `'`; a lone quote is not part of a well-formed literal body. */
  function Unescape(t: string): Option<string> {
    if t == [] then Some([])
    else if t[0] == Quote then
      if |t| >= 2 && t[1] == Quote then
        match Unescape(t[2..])
        case Some(u) => Some([Quote] + u)
        case None => None
      else None
    else
      match Unescape(t[1..])
      case Some(u) => Some([t[0]] + u)
      case None => None
  }

  /**
   * How a standard SQL lexer reads the body of a string literal that has just been
   * opened: `''` stands for one quote, a lone quote closes the literal.  The
   * result is the literal's content and the text after the closing quote.
   */
  function ReadBody(t: string): (r: Option<(string, string)>)
    ensures r.Some? ==> |r.value.1| < |t|
  {
    if t == [] then None
    else if t[0] == Quote then
      if |t| >= 2 && t[1] == Quote then
        match ReadBody(t[2..])
        case Some((c, rest)) => Some(([Quote] + c, rest))
        case None => None
      else Some(([], t[1..]))
    else
      match ReadBody(t[1..])
      case Some((c, rest)) => Some(([t[0]] + c, rest))
      case None => None
  }

  /** Reads one complete string literal at the start of `t`. */
  function ReadStringLiteral(t: string): (r: Option<(string, string)>)
    ensures r.Some? ==> |r.value.1| < |t|
  {
    if |t| > 0 && t[0] == Quote then ReadBody(t[1..]) else None
  }

  // ------------------------------------------------------------------ lemmas

  /** Stripping the outer quotes and collapsing `''` gives back the original text. */
  lemma {:induction false} UnescapeEscape(s: string)
    ensures Unescape(Escape(s)) == Some(s)
  {
    if s != [] {
      UnescapeEscape(s[1..]);
      var e := Escape(s);
      assert e == EscapeChar(s[0]) + Escape(s[1..]);
      if s[0] == Quote {
        assert e[0] == Quote && e[1] == Quote && e[2..] == Escape(s[1..]);
        assert Unescape(e) == Some([Quote] + s[1..]);
      } else {
        assert e[0] == s[0] && e[1..] == Escape(s[1..]);
        assert Unescape(e) == Some([s[0]] + s[1..]);
      }
      assert [s[0]] + s[1..] == s;
    }
  }

  lemma {:induction false} ReadBodyEscape(s: string, rest: string)
    requires rest == [] || rest[0] != Quote
    ensures ReadBody(Escape(s) + [Quote] + rest) == Some((s, rest))
  {
    var t := Escape(s) + [Quote] + rest;
    if s == [] {
      assert t == [Quote] + rest;
      assert t[1..] == rest;
    } else {
      ReadBodyEscape(s[1..], rest);
      var tail := Escape(s[1..]) + [Quote] + rest;
      assert t == EscapeChar(s[0]) + tail;
      if s[0] == Quote {
        assert t[0] == Quote && t[1] == Quote && t[2..] == tail;
        assert ReadBody(t) == Some(([Quote] + s[1..], rest));
      } else {
        assert t[0] == s[0] && t[1..] == tail;
        assert ReadBody(t) == Some(([s[0]] + s[1..], rest));
      }
      assert [s[0]] + s[1..] == s;
    }
  }

  /**
   * No text can break out of its literal under standard SQL quoting: whatever
   * follows a sanitised string (unless it begins with another quote, which
   * would make `''`), a lexer whose only escape is `''` reads exactly the
   * original text and stops exactly at the literal's end.
   */
  lemma LiteralCannotBreakOut(s: string, rest: string)
    requires rest == [] || rest[0] != Quote
    ensures ReadStringLiteral(SanitizeString(Some(s)) + rest) == Some((s, rest))
  {
    var t := SanitizeString(Some(s)) + rest;
    assert t[1..] == Escape(s) + [Quote] + rest;
    ReadBodyEscape(s, rest);
  }

  /** The escape of a text with no quote is the text itself. */
  lemma {:induction false} EscapeNoQuote(s: string)
    requires forall k :: 0 <= k < |s| ==> s[k] != Quote
    ensures Escape(s) == s
  {
    if s != [] {
      EscapeNoQuote(s[1..]);
    }
  }

  /** Escaping works character by character, so it distributes over concatenation. */
  lemma {:induction false} EscapeAppend(a: string, b: string)
    ensures Escape(a + b) == Escape(a) + Escape(b)
  {
    if a == [] {
      assert a + b == b;
    } else {
      var ab := a + b;
      assert ab[0] == a[0] && ab[1..] == a[1..] + b;
      calc {
        Escape(ab);
        EscapeChar(a[0]) + Escape(a[1..] + b);
        { EscapeAppend(a[1..], b); }
        EscapeChar(a[0]) + (Escape(a[1..]) + Escape(b));
        (EscapeChar(a[0]) + Escape(a[1..])) + Escape(b);
      }
    }
  }

  /**
   * Every character is replaced, in place, by its escape: the k-th character
   * of the text becomes `EscapeChar(s[k])` (two quotes for a quote, itself
   * otherwise), which starts k + (quotes before k) characters into the escape.
   */
  lemma EscapeDoublesEachQuote(s: string, k: nat)
    requires k < |s|
    ensures Escape(s) == Escape(s[..k]) + EscapeChar(s[k]) + Escape(s[k + 1..])
    ensures |Escape(s[..k])| == k + QuoteCount(s[..k])
  {
    assert s == s[..k] + ([s[k]] + s[k + 1..]);
    EscapeAppend(s[..k], [s[k]] + s[k + 1..]);
    EscapeAppend([s[k]], s[k + 1..]);
    assert [s[k]][1..] == [];
  }

  /**
   * An instance of `EscapeDoublesEachQuote`: text with two quotes, such as
   * `O'Brien's` (a = "O", b = "Brien", c = "s"), is rendered with both quotes
   * doubled: `'O''Brien''s'`.
   */
  lemma TwoQuotesDoubled(a: string, b: string, c: string)
    requires forall k :: 0 <= k < |a| ==> a[k] != Quote
    requires forall k :: 0 <= k < |b| ==> b[k] != Quote
    requires forall k :: 0 <= k < |c| ==> c[k] != Quote
    ensures SanitizeString(Some(a + ([Quote] + (b + ([Quote] + c)))))
         == [Quote] + (a + ([Quote, Quote] + (b + ([Quote, Quote] + c)))) + [Quote]
  {
    EscapeNoQuote(c);
    EscapeQuoteFirst(c);
    EscapePlainFirst(b, [Quote] + c);
    EscapeQuoteFirst(b + ([Quote] + c));
    EscapePlainFirst(a, [Quote] + (b + ([Quote] + c)));
  }

  lemma EscapeQuoteFirst(rest: string)
    ensures Escape([Quote] + rest) == [Quote, Quote] + Escape(rest)
  {
    assert ([Quote] + rest)[1..] == rest;
  }

  lemma {:induction false} EscapePlainFirst(a: string, rest: string)
    requires forall k :: 0 <= k < |a| ==> a[k] != Quote
    ensures Escape(a + rest) == a + Escape(rest)
  {
    if a == [] {
      assert a + rest == rest;
    } else {
      EscapePlainFirst(a[1..], rest);
      assert (a + rest)[1..] == a[1..] + rest;
      assert [a[0]] + a[1..] == a;
    }
  }

  /**
   * The boolean branch of `sanitize_value` is dead: a bool is caught by the
   * numeric test and printed as Python prints it, never as 1 or 0.
   */
  lemma BoolTakesNumericBranch(b: bool)
    ensures SanitizeValue(Bool(b)) == (if b then "True" else "False")
    ensures SanitizeValue(Bool(b)) != "1" && SanitizeValue(Bool(b)) != "0"
  {
  }

  /**
   * An integer is written unquoted as its decimal text: digits only, with a
   * leading '-' when negative, and those digits read back as the integer.
   */
  lemma IntegerIsDecimal(i: int)
    ensures var r := SanitizeValue(Int(i));
            var digits := if i < 0 then r[1..] else r;
            && |r| >= 1
            && (i < 0 <==> r[0] == '-')
            && (forall k :: 0 <= k < |digits| ==> IsDigit(digits[k]))
            && ParseNat(digits) == (if i < 0 then -i else i)
  {
    assert SanitizeValue(Int(i)) == IntText(i);
    IntTextIsDecimal(i);
  }

  lemma IntTextIsDecimal(i: int)
    ensures var r := IntText(i);
            var digits := if i < 0 then r[1..] else r;
            && |r| >= 1
            && (i < 0 <==> r[0] == '-')
            && (forall k :: 0 <= k < |digits| ==> IsDigit(digits[k]))
            && ParseNat(digits) == (if i < 0 then -i else i)
  {
    if i < 0 {
      NatTextRoundTrip(-i);
      var r := IntText(i);
      assert r == "-" + NatText(-i);
      assert r[0] == '-' && r[1..] == NatText(-i);
    } else {
      NatTextRoundTrip(i);
      assert IsDigit(NatText(i)[0]);
    }
  }

  /** A timestamp is quoted `YYYY-MM-DD HH:MM:SS` text, i.e. the sanitised string of its strftime. */
  lemma DateTimeIsQuotedStrftime(t: Timestamp)
    ensures SanitizeValue(DateTime(t)) == SanitizeString(Some(Strftime(t)))
  {
    StrftimeAlphabet(t);
    EscapeNoQuote(Strftime(t));
  }
}
