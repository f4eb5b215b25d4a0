/**
 * The reading side of the writer: what a lexer following standard SQL
 * quoting (`''` the only escape) makes of one values line of a generated
 * script.  The lemmas state that every line reads back into
 * exactly one literal per column, in column order, each carrying the text the
 * sanitiser was given, followed by the row separator the writer chose.
 */
module SqlReader {
  import opened Wrappers
  import opened PyValues
  import opened Sanitize
  import opened Extract
  import opened Writer

  /** A literal as it appears in a values list: a bare token (NULL, a number) or a quoted string. */
  datatype Literal = Bare(text: string) | Quoted(body: string)

  /** The literal the sanitiser means to produce for a value. */
  function LiteralOf(v: Value): Literal {
    if v.Null? then Bare("NULL")
    else if IsNumeric(v) then Bare(Str(v))
    else if v.DateTime? then Quoted(Strftime(v.t))
    else Quoted(Str(v))
  }

  function LiteralsOf(row: Row): (r: seq<Literal>)
    ensures |r| == |row| && forall j :: 0 <= j < |row| ==> r[j] == LiteralOf(row[j])
  {
    seq(|row|, j requires 0 <= j < |row| => LiteralOf(row[j]))
  }

  /**
   * A value whose bare rendering cannot be mistaken for punctuation: Python's
   * float repr is never empty and never holds a comma, a closing parenthesis
   * or a quote.  Every other kind of value qualifies as it is.
   */
  predicate Separable(v: Value) {
    v.Float? ==> v.repr != [] && forall k :: 0 <= k < |v.repr| ==> v.repr[k] !in {',', ')', Quote}
  }

  predicate Delimiter(c: char) {
    c == ',' || c == ')'
  }

  /** A bare token runs up to the next comma or closing parenthesis. */
  function ReadBare(t: string): (r: (string, string))
    ensures r.0 + r.1 == t
  {
    if t == [] || Delimiter(t[0]) then ([], t)
    else
      var (b, rest) := ReadBare(t[1..]);
      assert [t[0]] + t[1..] == t;
      ([t[0]] + b, rest)
  }

  /** Reads one literal at the start of `t`. */
  function ReadLiteral(t: string): (r: Option<(Literal, string)>)
    ensures r.Some? ==> |r.value.1| < |t|
  {
    if t != [] && t[0] == Quote then
      match ReadStringLiteral(t)
      case Some((b, rest)) => Some((Quoted(b), rest))
      case None => None
    else
      var (b, rest) := ReadBare(t);
      if b == [] then None else Some((Bare(b), rest))
  }

  /** Reads a non-empty list of literals separated by `, `. */
  function ReadItems(t: string): Option<(seq<Literal>, string)>
    decreases |t|
  {
    match ReadLiteral(t)
    case None => None
    case Some((l, rest)) =>
      if |rest| >= 2 && rest[0] == ',' && rest[1] == ' ' then
        match ReadItems(rest[2..])
        case Some((ls, after)) => Some(([l] + ls, after))
        case None => None
      else Some(([l], rest))
  }

  /** Reads one values line: the literals and whether it closed the statement (`;`) or not (`,`). */
  function ReadRowLine(t: string): Option<(seq<Literal>, bool)> {
    if t == [] || t[0] != '(' then None
    else
      var items: Option<(seq<Literal>, string)> :=
        if |t| >= 2 && t[1] == ')' then Some(([], t[1..]))
        else ReadItems(t[1..]);
      match items
      case None => None
      case Some((ls, rest)) =>
        if rest == ")" + ";\n" then Some((ls, true))
        else if rest == ")" + ",\n" then Some((ls, false))
        else None
  }

  // ------------------------------------------------------------------ lemmas

  /** How the sanitiser's output decomposes: the literal it means, rendered. */
  lemma SanitizeValueIsLiteral(v: Value)
    ensures LiteralOf(v).Bare? ==> SanitizeValue(v) == LiteralOf(v).text
    ensures LiteralOf(v).Quoted? ==> SanitizeValue(v) == SanitizeString(Some(LiteralOf(v).body))
  {
    if v.DateTime? {
      DateTimeIsQuotedStrftime(v.t);
    }
  }

  lemma {:induction false} ReadBareToken(b: string, rest: string)
    requires forall k :: 0 <= k < |b| ==> !Delimiter(b[k])
    requires rest == [] || Delimiter(rest[0])
    ensures ReadBare(b + rest) == (b, rest)
  {
    if b != [] {
      ReadBareToken(b[1..], rest);
      assert (b + rest)[1..] == b[1..] + rest;
      assert [b[0]] + b[1..] == b;
    } else {
      assert b + rest == rest;
    }
  }

  lemma BareTextOf(v: Value)
    requires Separable(v) && LiteralOf(v).Bare?
    ensures var b := LiteralOf(v).text;
            b != [] && b[0] != Quote && forall k :: 0 <= k < |b| ==> !Delimiter(b[k])
  {
    if v.Int? {
      var n := if v.i < 0 then -v.i else v.i;
      var d := NatText(n);
      assert forall k :: 0 <= k < |d| ==> IsDigit(d[k]);
    }
  }

  /** One rendered value, followed by a delimiter, reads back as the literal it means and stops at the delimiter. */
  lemma ReadLiteralOf(v: Value, rest: string)
    requires Separable(v)
    requires rest != [] && Delimiter(rest[0])
    ensures ReadLiteral(SanitizeValue(v) + rest) == Some((LiteralOf(v), rest))
  {
    SanitizeValueIsLiteral(v);
    var l := LiteralOf(v);
    if l.Bare? {
      BareTextOf(v);
      ReadBareToken(l.text, rest);
    } else {
      LiteralCannotBreakOut(l.body, rest);
    }
  }

  /** `lit` is a rendered literal that reads back as `l` whatever delimiter follows it. */
  ghost predicate ReadsAs(lit: string, l: Literal) {
    && lit != [] && lit[0] != ')'
    && forall r :: r != [] && Delimiter(r[0]) ==> ReadLiteral(lit + r) == Some((l, r))
  }

  lemma ValueReadsAs(v: Value)
    requires Separable(v)
    ensures ReadsAs(SanitizeValue(v), LiteralOf(v))
  {
    forall r | r != [] && Delimiter(r[0])
      ensures ReadLiteral(SanitizeValue(v) + r) == Some((LiteralOf(v), r))
    {
      ReadLiteralOf(v, r);
    }
    SanitizeValueIsLiteral(v);
    if LiteralOf(v).Bare? {
      BareTextOf(v);
    }
  }

  /** A `, `-joined list of literals, closed by `)`, reads back as the list. */
  lemma {:induction false} ReadJoined(lits: seq<string>, ls: seq<Literal>, rest: string)
    requires |lits| == |ls| >= 1
    requires forall j :: 0 <= j < |lits| ==> ReadsAs(lits[j], ls[j])
    requires rest != [] && rest[0] == ')'
    ensures ReadItems(JoinWith(", ", lits) + rest) == Some((ls, rest))
  {
    assert ReadsAs(lits[0], ls[0]);
    if |lits| == 1 {
      assert JoinWith(", ", lits) == lits[0];
      assert ReadLiteral(lits[0] + rest) == Some((ls[0], rest));
      ItemsLast(lits[0] + rest, ls[0], rest);
      assert ls == [ls[0]];
    } else {
      ReadJoined(lits[1..], ls[1..], rest);
      JoinedStep(lits, ls, rest);
    }
  }

  lemma JoinedStep(lits: seq<string>, ls: seq<Literal>, rest: string)
    requires |lits| == |ls| >= 2
    requires ReadsAs(lits[0], ls[0])
    requires ReadItems(JoinWith(", ", lits[1..]) + rest) == Some((ls[1..], rest))
    ensures ReadItems(JoinWith(", ", lits) + rest) == Some((ls, rest))
  {
    var j := JoinWith(", ", lits[1..]);
    var after := ", " + j + rest;
    JoinSplit(lits, rest);
    assert ReadLiteral(lits[0] + after) == Some((ls[0], after));
    DropSeparator(j, rest);
    ItemsStep(lits[0] + after, ls[0], after, ls[1..], rest);
    HeadTail(ls);
  }

  lemma JoinSplit(lits: seq<string>, rest: string)
    requires |lits| >= 2
    ensures JoinWith(", ", lits) + rest == lits[0] + (", " + JoinWith(", ", lits[1..]) + rest)
  {
  }

  lemma HeadTail<T>(s: seq<T>)
    requires |s| >= 1
    ensures s == [s[0]] + s[1..]
  {
  }

  lemma DropSeparator(j: string, rest: string)
    ensures (", " + j + rest)[2..] == j + rest
  {
  }

  lemma ItemsLast(t: string, l: Literal, rest: string)
    requires ReadLiteral(t) == Some((l, rest))
    requires rest != [] && rest[0] == ')'
    ensures ReadItems(t) == Some(([l], rest))
  {
  }

  lemma ItemsStep(t: string, l: Literal, after: string, ls: seq<Literal>, rest: string)
    requires ReadLiteral(t) == Some((l, after))
    requires |after| >= 2 && after[0] == ',' && after[1] == ' '
    requires ReadItems(after[2..]) == Some((ls, rest))
    ensures ReadItems(t) == Some(([l] + ls, rest))
  {
  }

  lemma JoinHead(lits: seq<string>)
    requires |lits| >= 1 && lits[0] != []
    ensures JoinWith(", ", lits) != [] && JoinWith(", ", lits)[0] == lits[0][0]
  {
  }

  /**
   * A values line reads back as exactly one literal per value of the row, in
   * order, each meaning that value, and with the separator that says whether
   * the row was the last of its statement.
   */
  lemma RowLineReadsBack(row: Row, last: bool)
    requires forall j :: 0 <= j < |row| ==> Separable(row[j])
    ensures ReadRowLine(RowLine(row, last)) == Some((LiteralsOf(row), last))
  {
    var ending := if last then ";\n" else ",\n";
    var rest := ")" + ending;
    var lits := Literals(row);
    var line := RowLine(row, last);
    assert line == "(" + (JoinWith(", ", lits) + rest);
    if |row| == 0 {
      assert line[1..] == rest;
      assert LiteralsOf(row) == [];
    } else {
      RowBodyReads(row, rest);
      assert line[1..] == JoinWith(", ", lits) + rest;
      assert line[1] == lits[0][0] != ')';
    }
    ReadRowLineOf(line, LiteralsOf(row), rest, last);
  }

  /** The last step of reading a values line: the text after the items says whether the statement ends. */
  lemma ReadRowLineOf(line: string, ls: seq<Literal>, rest: string, last: bool)
    requires rest == ")" + (if last then ";\n" else ",\n")
    requires |line| >= 2 && line[0] == '('
    requires if line[1] == ')' then ls == [] && line[1..] == rest else ReadItems(line[1..]) == Some((ls, rest))
    ensures ReadRowLine(line) == Some((ls, last))
  {
    if !last {
      assert rest[1] != (")" + ";\n")[1];
    }
  }

  /** The values of a non-empty row, joined and followed by `)`, read back as their literals. */
  lemma RowBodyReads(row: Row, rest: string)
    requires |row| > 0 && forall j :: 0 <= j < |row| ==> Separable(row[j])
    requires rest != [] && rest[0] == ')'
    ensures Literals(row)[0] != [] && Literals(row)[0][0] != ')'
    ensures JoinWith(", ", Literals(row)) != [] && JoinWith(", ", Literals(row))[0] == Literals(row)[0][0]
    ensures ReadItems(JoinWith(", ", Literals(row)) + rest) == Some((LiteralsOf(row), rest))
  {
    var lits := Literals(row);
    forall j | 0 <= j < |row|
      ensures ReadsAs(lits[j], LiteralsOf(row)[j])
    {
      ValueReadsAs(row[j]);
    }
    ReadJoined(lits, LiteralsOf(row), rest);
    assert ReadsAs(lits[0], LiteralsOf(row)[0]);
    JoinHead(lits);
  }

  /**
   * Every values line of a generated file reads back as the literals of the
   * corresponding row of its part; only the part's last row closes the
   * statement.
   */
  lemma PartReadsBack(outputFile: string, table: string, columns: seq<string>, rows: seq<Row>,
                      k: nat, n: nat, stamp: Timestamp, i: nat)
    requires n == PartCount(|rows|) && k < n
    requires forall r, j :: 0 <= r < |rows| && 0 <= j < |rows[r]| ==> Separable(rows[r][j])
    requires i < |PartRows(rows, k)|
    ensures var f := RenderPart(outputFile, table, columns, rows, k, n, stamp);
            var part := PartRows(rows, k);
            var p := |Preamble(table, columns, k, n, stamp)|;
            ReadRowLine(f.writes[p + i]) == Some((LiteralsOf(part[i]), i == |part| - 1))
  {
    var part := PartRows(rows, k);
    var m := k * MaxRowsPerFile;
    assert part[i] == rows[m + i];
    RowLineReadsBack(part[i], i == |part| - 1);
  }
}
