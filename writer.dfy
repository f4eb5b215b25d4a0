/**
 * The batch writer (`write_sql_file`): rows are cut into parts of at most
 * `MaxRowsPerFile`, each part becomes one transactional script, and the parts
 * are named after the destination file.  A script is modelled as the list of
 * chunks the converter writes to the file, one `f.write` call each; the file
 * text is their concatenation.  The clock reading of the header is a
 * parameter.
 */
module Writer {
  import opened PyValues
  import opened Sanitize
  import opened Extract

  /** `MAX_ROWS_PER_FILE`. */
  const MaxRowsPerFile: nat := 1000

  // ------------------------------------------------------------ partitioning

  /** `math.ceil(len(rows) / MAX_ROWS_PER_FILE)`. */
  function PartCount(r: nat): nat {
    (r + MaxRowsPerFile - 1) / MaxRowsPerFile
  }

  /** `min((file_num + 1) * MAX_ROWS_PER_FILE, len(rows))`. */
  function PartEnd(k: nat, r: nat): nat {
    if (k + 1) * MaxRowsPerFile < r then (k + 1) * MaxRowsPerFile else r
  }

  /** `rows[start_idx:end_idx]` of part `k`. */
  function PartRows(rows: seq<Row>, k: nat): seq<Row>
    requires k < PartCount(|rows|)
  {
    rows[k * MaxRowsPerFile .. PartEnd(k, |rows|)]
  }

  /** All parts, in part order. */
  function Parts(rows: seq<Row>): seq<seq<Row>> {
    seq(PartCount(|rows|), k requires 0 <= k < PartCount(|rows|) => PartRows(rows, k))
  }

  function Flatten(parts: seq<seq<Row>>): seq<Row> {
    if parts == [] then [] else parts[0] + Flatten(parts[1..])
  }

  /** The part count is the ceiling of rows / 1000: no parts for no rows. */
  lemma PartCountIsCeiling(r: nat)
    ensures r == 0 <==> PartCount(r) == 0
    ensures PartCount(r) * MaxRowsPerFile >= r
    ensures r > 0 ==> (PartCount(r) - 1) * MaxRowsPerFile < r
  {
  }

  /**
   * Every part is non-empty and holds at most 1000 rows; every part but the
   * last holds exactly 1000, and the last holds what is left over.
   */
  lemma PartSizes(rows: seq<Row>, k: nat)
    requires k < PartCount(|rows|)
    ensures 0 < |PartRows(rows, k)| <= MaxRowsPerFile
    ensures k < PartCount(|rows|) - 1 ==> |PartRows(rows, k)| == MaxRowsPerFile
    ensures k == PartCount(|rows|) - 1 ==> |PartRows(rows, k)| == |rows| - MaxRowsPerFile * k
  {
  }

  lemma {:induction false} FlattenFrom(rows: seq<Row>, k: nat)
    requires k <= PartCount(|rows|)
    ensures Flatten(Parts(rows)[k..]) == rows[(if k * MaxRowsPerFile < |rows| then k * MaxRowsPerFile else |rows|)..]
    decreases PartCount(|rows|) - k
  {
    var n := PartCount(|rows|);
    PartCountIsCeiling(|rows|);
    if k == n {
      assert Parts(rows)[k..] == [];
    } else {
      FlattenFrom(rows, k + 1);
      var ps := Parts(rows)[k..];
      assert ps[0] == PartRows(rows, k);
      assert ps[1..] == Parts(rows)[k + 1..];
      var lo := k * MaxRowsPerFile;
      var hi := PartEnd(k, |rows|);
      assert rows[lo..hi] + rows[hi..] == rows[lo..];
    }
  }

  /** Concatenating the parts in order gives back the rows exactly: nothing lost, repeated or reordered. */
  lemma PartsConcatenate(rows: seq<Row>)
    ensures Flatten(Parts(rows)) == rows
  {
    FlattenFrom(rows, 0);
    assert Parts(rows)[0..] == Parts(rows);
  }

  // ------------------------------------------------------------------ naming

  /** The index of the last occurrence of `c` in `s`, or -1 (`str.rfind`). */
  function LastIndexOf(s: string, c: char): (i: int)
    ensures -1 <= i < |s|
    ensures i >= 0 ==> s[i] == c
    ensures forall j :: i < j < |s| ==> s[j] != c
  {
    if s == [] then -1
    else if s[|s| - 1] == c then |s| - 1
    else LastIndexOf(s[..|s| - 1], c)
  }

  /** The last occurrence is the one with no further occurrence after it. */
  lemma LastIndexOfIs(s: string, c: char, i: nat)
    requires i < |s| && s[i] == c
    requires forall j :: i < j < |s| ==> s[j] != c
    ensures LastIndexOf(s, c) == i
  {
    var r := LastIndexOf(s, c);
    assert r >= i;
  }

  /**
   * `os.path.splitext` on POSIX: the extension starts at the last '.' of the
   * final path component, unless everything before that '.' in the component
   * is dots too (so `.bashrc` has no extension).
   */
  function SplitExt(p: string): (string, string) {
    var sep := LastIndexOf(p, '/');
    var dot := LastIndexOf(p, '.');
    if dot > sep && exists i :: sep + 1 <= i < dot && p[i] != '.'
    then (p[..dot], p[dot..])
    else (p, "")
  }

  /** The stem and extension put back together give the path; an extension is a '.' and no further '.' or '/'. */
  lemma SplitExtParts(p: string)
    ensures SplitExt(p).0 + SplitExt(p).1 == p
    ensures var ext := SplitExt(p).1;
            ext == [] || (ext[0] == '.' && forall j :: 1 <= j < |ext| ==> ext[j] != '.' && ext[j] != '/')
  {
    var sep := LastIndexOf(p, '/');
    var dot := LastIndexOf(p, '.');
    if dot > sep && exists i :: sep + 1 <= i < dot && p[i] != '.' {
      assert p[..dot] + p[dot..] == p;
    }
  }

  /** The file name of part `k` of `n`: unchanged for a single part, `stem_{k+1}ext` otherwise. */
  function PartName(outputFile: string, k: nat, n: nat): (r: string)
    ensures n <= 1 ==> r == outputFile
    ensures n > 1 ==> |r| == |outputFile| + 1 + |NatText(k + 1)| && SplitExt(outputFile).0 <= r
  {
    if n > 1 then
      SplitExtParts(outputFile);
      SplitExt(outputFile).0 + "_" + NatText(k + 1) + SplitExt(outputFile).1
    else outputFile
  }

  /**
   * A part file stays in the directory of the destination: the destination's
   * directory part is a prefix of the part's name, and no '/' follows it.
   */
  lemma PartNameKeepsDirectory(outputFile: string, k: nat, n: nat)
    ensures var d := outputFile[..LastIndexOf(outputFile, '/') + 1];
            var name := PartName(outputFile, k, n);
            d <= name && forall j :: |d| <= j < |name| ==> name[j] != '/'
  {
    var sep := LastIndexOf(outputFile, '/');
    if n > 1 {
      var (stem, ext) := SplitExt(outputFile);
      StemKeepsDirectory(outputFile);
      SplitExtParts(outputFile);
      var t := NatText(k + 1);
      NoSlashAfter(stem, t, ext, sep + 1);
      assert (stem + "_" + t + ext)[..sep + 1] == stem[..sep + 1];
    }
  }

  /** The stem of a path keeps its whole directory part, and nothing after that directory is a '/'. */
  lemma StemKeepsDirectory(p: string)
    ensures var sep := LastIndexOf(p, '/');
            var stem := SplitExt(p).0;
            sep < |stem| <= |p| && stem == p[..|stem|]
  {
    var sep := LastIndexOf(p, '/');
    var dot := LastIndexOf(p, '.');
    if SplitExt(p).0 != p {
      assert SplitExt(p).0 == p[..dot];
    }
  }

  lemma NoSlashAfter(stem: string, t: string, ext: string, from: nat)
    requires from <= |stem|
    requires forall j :: from <= j < |stem| ==> stem[j] != '/'
    requires forall j :: 0 <= j < |t| ==> IsDigit(t[j])
    requires ext == [] || (ext[0] == '.' && forall j :: 1 <= j < |ext| ==> ext[j] != '.' && ext[j] != '/')
    ensures var name := stem + "_" + t + ext;
            forall j :: from <= j < |name| ==> name[j] != '/'
  {
    var name := stem + "_" + t + ext;
    forall j | from <= j < |name|
      ensures name[j] != '/'
    {
      if j < |stem| {
        assert name[j] == stem[j];
      } else if j < |stem| + 1 + |t| && j > |stem| {
        assert name[j] == t[j - |stem| - 1];
      } else if j >= |stem| + 1 + |t| {
        assert name[j] == ext[j - |stem| - 1 - |t|];
      }
    }
  }

  /** Two parts of the same split table never get the same file name. */
  lemma PartNamesDistinct(outputFile: string, k1: nat, k2: nat, n: nat)
    requires n > 1 && k1 != k2
    ensures PartName(outputFile, k1, n) != PartName(outputFile, k2, n)
  {
    var stem := SplitExt(outputFile).0;
    var ext := SplitExt(outputFile).1;
    var a := PartName(outputFile, k1, n);
    var b := PartName(outputFile, k2, n);
    if a == b {
      var t1 := NatText(k1 + 1);
      var t2 := NatText(k2 + 1);
      assert |t1| == |t2|;
      assert a[|stem| + 1 .. |stem| + 1 + |t1|] == t1;
      assert b[|stem| + 1 .. |stem| + 1 + |t2|] == t2;
      NatTextInjective(k1 + 1, k2 + 1);
    }
  }

  // --------------------------------------------------------------- rendering

  /** `sep.join(items)`. */
  function JoinWith(sep: string, items: seq<string>): string {
    if |items| == 0 then ""
    else if |items| == 1 then items[0]
    else items[0] + sep + JoinWith(sep, items[1..])
  }

  /** The sanitised values of one row. */
  function Literals(row: Row): (r: seq<string>)
    ensures |r| == |row| && forall j :: 0 <= j < |row| ==> r[j] == SanitizeValue(row[j])
  {
    seq(|row|, j requires 0 <= j < |row| => SanitizeValue(row[j]))
  }

  /** The values line of one row: `(v1, v2, ...)` then `,` or, after the last row, `;`. */
  function RowLine(row: Row, last: bool): string {
    "(" + JoinWith(", ", Literals(row)) + ")" + (if last then ";\n" else ",\n")
  }

  function RowWrites(part: seq<Row>): (r: seq<string>)
    ensures |r| == |part|
    ensures forall i :: 0 <= i < |part| ==> r[i] == RowLine(part[i], i == |part| - 1)
  {
    seq(|part|, i requires 0 <= i < |part| => RowLine(part[i], i == |part| - 1))
  }

  function Header(stamp: Timestamp): string {
    "-- Generated by SDE to SQL converter on " + Strftime(stamp) + "\n"
  }

  const StartTransaction := "START TRANSACTION;\n\n"
  const ClearComment := "-- Clear existing data\n"
  const Commit := "\nCOMMIT;\n"

  function DeleteStatement(table: string): string {
    "DELETE FROM " + table + ";\n\n"
  }

  function InsertHead(table: string, columns: seq<string>): string {
    "INSERT INTO " + table + " (" + JoinWith(", ", columns) + ")\n"
  }

  function PartComment(k: nat, n: nat): string {
    "-- Insert data part " + NatText(k + 1) + " of " + NatText(n) + "\n"
  }

  /** The chunks written before the values: header, transaction start, the clearing statement in part 0 only, the insert head. */
  function Preamble(table: string, columns: seq<string>, k: nat, n: nat, stamp: Timestamp): seq<string> {
    [Header(stamp), StartTransaction]
    + (if k == 0 then [ClearComment, DeleteStatement(table)] else [])
    + [PartComment(k, n), InsertHead(table, columns), "VALUES\n"]
  }

  /** One output file: its name and the chunks written to it. */
  datatype SqlFile = SqlFile(name: string, writes: seq<string>) {
    /** The file's text. */
    function Text(): string {
      Concat(writes)
    }
  }

  function Concat(chunks: seq<string>): string {
    if chunks == [] then "" else chunks[0] + Concat(chunks[1..])
  }

  /** The file of part `k` of `n`. */
  function RenderPart(outputFile: string, table: string, columns: seq<string>, rows: seq<Row>,
                      k: nat, n: nat, stamp: Timestamp): SqlFile
    requires n == PartCount(|rows|) && k < n
  {
    SqlFile(PartName(outputFile, k, n),
            Preamble(table, columns, k, n, stamp) + RowWrites(PartRows(rows, k)) + [Commit])
  }

  // ------------------------------------------------------ the writer's loops

  /** The `enumerate` loop of one part: each row's values line appended after `writes`. */
  method WriteValues(writes: seq<string>, part: seq<Row>) returns (out: seq<string>)
    ensures out == writes + RowWrites(part)
  {
    out := writes;
    for i := 0 to |part|
      invariant out == writes + RowWrites(part)[..i]
    {
      var values := seq(|part[i]|, j requires 0 <= j < |part[i]| => SanitizeValue(part[i][j]));
      var ending := if i < |part| - 1 then ",\n" else ";\n";
      assert values == Literals(part[i]);
      var line := "(" + JoinWith(", ", values) + ")" + ending;
      RowWritesStep(part, i, line);
      out := out + [line];
    }
    assert RowWrites(part)[..|part|] == RowWrites(part);
  }

  lemma RowWritesStep(part: seq<Row>, i: nat, line: string)
    requires i < |part| && line == RowLine(part[i], i == |part| - 1)
    ensures RowWrites(part)[..i + 1] == RowWrites(part)[..i] + [line]
  {
    PrefixStep(RowWrites(part), i, line);
  }

  /** The body of the `for file_num` loop: one part, its rows written with `enumerate`. */
  method WritePart(outputFile: string, table: string, columns: seq<string>, rows: seq<Row>,
                   k: nat, n: nat, stamp: Timestamp) returns (f: SqlFile)
    requires n == PartCount(|rows|) && k < n
    ensures f == RenderPart(outputFile, table, columns, rows, k, n, stamp)
  {
    var startIdx := k * MaxRowsPerFile;
    var endIdx := if (k + 1) * MaxRowsPerFile < |rows| then (k + 1) * MaxRowsPerFile else |rows|;
    var name := outputFile;
    if n > 1 {
      var (stem, ext) := SplitExt(outputFile);
      name := stem + "_" + NatText(k + 1) + ext;
    }
    var writes := [Header(stamp), StartTransaction];
    if k == 0 {
      writes := writes + [ClearComment, DeleteStatement(table)];
    }
    writes := writes + [PartComment(k, n), InsertHead(table, columns), "VALUES\n"];
    assert writes == Preamble(table, columns, k, n, stamp);
    var part := rows[startIdx..endIdx];
    assert part == PartRows(rows, k);
    writes := WriteValues(writes, part);
    writes := writes + [Commit];
    f := SqlFile(name, writes);
  }

  /** All files of a table, in part order. */
  function RenderFiles(outputFile: string, table: string, columns: seq<string>, rows: seq<Row>, stamp: Timestamp): seq<SqlFile> {
    var n := PartCount(|rows|);
    seq(n, k requires 0 <= k < n => RenderPart(outputFile, table, columns, rows, k, n, stamp))
  }

  /**
   * `write_sql_file`, returning the files instead of writing them: nothing for
   * no rows, otherwise one file per part, in part order.
   */
  method WriteSqlFile(outputFile: string, table: string, columns: seq<string>, rows: seq<Row>, stamp: Timestamp)
    returns (files: seq<SqlFile>)
    ensures files == RenderFiles(outputFile, table, columns, rows, stamp)
  {
    ghost var all := RenderFiles(outputFile, table, columns, rows, stamp);
    files := [];
    if |rows| == 0 {
      return;
    }
    var numFiles := (|rows| + MaxRowsPerFile - 1) / MaxRowsPerFile;
    assert numFiles == |all|;
    for fileNum := 0 to numFiles
      invariant files == all[..fileNum]
    {
      var f := WritePart(outputFile, table, columns, rows, fileNum, numFiles, stamp);
      PrefixStep(all, fileNum, f);
      files := files + [f];
    }
    PrefixWhole(all);
  }

  /** The name of each file is the name of its part. */
  lemma RenderFilesNames(outputFile: string, table: string, columns: seq<string>, rows: seq<Row>, stamp: Timestamp, k: nat)
    requires k < |RenderFiles(outputFile, table, columns, rows, stamp)|
    ensures RenderFiles(outputFile, table, columns, rows, stamp)[k].name == PartName(outputFile, k, PartCount(|rows|))
  {
  }

  /** Growing a prefix of `all` by its next element. */
  lemma PrefixStep<T>(all: seq<T>, i: nat, x: T)
    requires i < |all| && all[i] == x
    ensures all[..i + 1] == all[..i] + [x]
  {
  }

  lemma PrefixWhole<T>(all: seq<T>)
    ensures all[..|all|] == all
  {
  }

  // ------------------------------------------------------------------ lemmas

  /**
   * What the writer produces for a table: one file per part, in part order,
   * file `k` named after part `k` and carrying the clearing DELETE exactly
   * when it is the first.
   */
  lemma WrittenFiles(outputFile: string, table: string, columns: seq<string>, rows: seq<Row>,
                     stamp: Timestamp, k: nat)
    requires k < PartCount(|rows|)
    ensures var files := RenderFiles(outputFile, table, columns, rows, stamp);
            && |files| == PartCount(|rows|)
            && files[k].name == PartName(outputFile, k, |files|)
            && (DeleteStatement(table) in files[k].writes <==> k == 0)
  {
    DeleteOnlyInFirstPart(outputFile, table, columns, rows, k, PartCount(|rows|), stamp);
  }

  /** The full-table DELETE is written to the first part and to no other. */
  lemma DeleteOnlyInFirstPart(outputFile: string, table: string, columns: seq<string>, rows: seq<Row>,
                              k: nat, n: nat, stamp: Timestamp)
    requires n == PartCount(|rows|) && k < n
    ensures DeleteStatement(table) in RenderPart(outputFile, table, columns, rows, k, n, stamp).writes <==> k == 0
  {
    var writes := RenderPart(outputFile, table, columns, rows, k, n, stamp).writes;
    if k != 0 {
      var part := PartRows(rows, k);
      forall i | 0 <= i < |writes|
        ensures writes[i] != DeleteStatement(table)
      {
        assert DeleteStatement(table)[0] == 'D';
        if i < 5 {
          assert writes[i] in {Header(stamp), StartTransaction, PartComment(k, n), InsertHead(table, columns), "VALUES\n"};
          assert writes[i][0] in {'-', 'S', 'I', 'V'};
        } else if i < 5 + |part| {
          assert writes[i] == RowWrites(part)[i - 5];
          assert writes[i][0] == '(';
        } else {
          assert writes[i] == Commit;
        }
      }
    } else {
      assert writes[3] == DeleteStatement(table);
    }
  }

  /**
   * The layout of a part: the preamble, then one values line per row of the
   * part, each ending in `,` except the last which ends in `;`, then COMMIT.
   */
  lemma PartLayout(outputFile: string, table: string, columns: seq<string>, rows: seq<Row>,
                   k: nat, n: nat, stamp: Timestamp)
    requires n == PartCount(|rows|) && k < n
    ensures var f := RenderPart(outputFile, table, columns, rows, k, n, stamp);
            var part := PartRows(rows, k);
            var p := |Preamble(table, columns, k, n, stamp)|;
            && |f.writes| == p + |part| + 1
            && f.writes[|f.writes| - 1] == Commit
            && (forall i :: 0 <= i < |part| - 1 ==> f.writes[p + i] == "(" + JoinWith(", ", Literals(part[i])) + ")" + ",\n")
            && f.writes[p + |part| - 1] == "(" + JoinWith(", ", Literals(part[|part| - 1])) + ")" + ";\n"
  {
    PartSizes(rows, k);
  }

  /**
   * A worked example: 2500 rows for `name.sql` give
   * three files, `name_1.sql` to `name_3.sql`, of 1000, 1000 and 500 rows.
   */
  lemma TwentyFiveHundredRows(rows: seq<Row>)
    requires |rows| == 2500
    ensures PartCount(|rows|) == 3
    ensures |PartRows(rows, 0)| == 1000 && |PartRows(rows, 1)| == 1000 && |PartRows(rows, 2)| == 500
    ensures PartName("name.sql", 0, 3) == "name_1.sql"
    ensures PartName("name.sql", 1, 3) == "name_2.sql"
    ensures PartName("name.sql", 2, 3) == "name_3.sql"
  {
    var p := "name.sql";
    assert LastIndexOf(p, '/') == -1;
    assert p[4] == '.' && p[5] != '.' && p[6] != '.' && p[7] != '.';
    assert LastIndexOf(p, '.') == 4;
    assert p[0] != '.';
    assert p[0] != '.';
    assert p[..4] == "name" && p[4..] == ".sql";
    assert SplitExt(p) == ("name", ".sql");
  }
}
