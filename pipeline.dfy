/**
 * The per-family drivers (`process_fsd_data`, `process_bsd_data`): for each
 * mapping, in table order, load the file if it exists, turn it into rows with
 * the mapping's processor when one is defined and with the default
 * processing otherwise, and write the rows under the family's directory.
 * Loading is replaced by a map from file name to the loaded content; a file
 * missing from the map is a file that does not exist.  An exception raised
 * by a processor ends the whole run, after the files of earlier tables have
 * been written.
 */
module Pipeline {
  import opened Wrappers
  import opened PyValues
  import opened Extract
  import opened Registry
  import opened Writer

  /** `os.path.join(a, b)` on POSIX. */
  function JoinPath(a: string, b: string): (r: string)
    ensures |b| <= |r| && r[|r| - |b|..] == b
    ensures b != [] && b[0] == '/' ==> r == b
    ensures (b == [] || b[0] != '/') ==> a <= r && |r| <= |a| + 1 + |b|
  {
    if b != [] && b[0] == '/' then b
    else if a == [] || a[|a| - 1] == '/' then a + b
    else a + "/" + b
  }

  /** Where a table's script goes: `<output>/<family>/<table>.sql`. */
  function TableFile(outputDir: string, family: string, table: string): string {
    JoinPath(JoinPath(outputDir, family), table + ".sql")
  }

  /** Why a run stopped. */
  datatype Failure =
    | EntryFailed(key: Value)   // a processor raised at this entry
    | NotADocument              // a keyed processor was handed a list

  /** What one mapping amounts to. */
  datatype Job = Skipped | Written(files: seq<SqlFile>) | Failed(failure: Failure)

  /** The rows of a keyed document: its processor if it is defined, else the default processing. */
  function FsdRows(m: Mapping, doc: Document): Outcome {
    match Resolve(m.processor)
    case Some(p) => Run(p, doc, m.columns)
    case None => Rows(DefaultRows(doc, m.columns))
  }

  /** The body of the keyed-family loop for one mapping. */
  function FsdJob(m: Mapping, doc: Option<Document>, outputDir: string, stamp: Timestamp): (r: Job)
    ensures r.Skipped? <==> doc.None?
    ensures r.Failed? ==> && doc.Some? && Resolve(m.processor).Some? && r.failure.EntryFailed?
                          && exists i :: 0 <= i < |doc.value| && doc.value[i].0 == r.failure.key
  {
    match doc
    case None => Skipped
    case Some(d) =>
      match FsdRows(m, d)
      case Raised(k) => Failed(EntryFailed(k))
      case Rows(rows) => Written(RenderFiles(TableFile(outputDir, "fsd", m.table), m.table, m.columns, rows, stamp))
  }

  /**
   * The rows of a list document.  Every processor iterates `data.items()`,
   * which a list does not have, so a defined processor would raise at once.
   */
  function BsdRows(m: Mapping, items: seq<Record>): Option<seq<Row>> {
    if Resolve(m.processor).Some? then None else Some(ListRows(items, m.columns))
  }

  /** The body of the list-family loop for one mapping. */
  function BsdJob(m: Mapping, items: Option<seq<Record>>, outputDir: string, stamp: Timestamp): (r: Job)
    ensures r.Skipped? <==> items.None?
    ensures r.Failed? <==> items.Some? && Resolve(m.processor).Some?
  {
    match items
    case None => Skipped
    case Some(list) =>
      match BsdRows(m, list)
      case None => Failed(NotADocument)
      case Some(rows) => Written(RenderFiles(TableFile(outputDir, "bsd", m.table), m.table, m.columns, rows, stamp))
  }

  /** A run's result: the files written, in order, and the failure that stopped it, if any. */
  datatype Report = Report(files: seq<SqlFile>, failure: Option<Failure>)

  /** One job followed by the rest of the run; a failure ends the run. */
  function Then(job: Job, rest: Report): Report {
    match job
    case Skipped => rest
    case Written(fs) => Report(fs + rest.files, rest.failure)
    case Failed(f) => Report([], Some(f))
  }

  function Lookup<T>(docs: map<string, T>, file: string): Option<T> {
    if file in docs then Some(docs[file]) else None
  }

  /** The keyed-family run over `mappings`, in order. */
  function FsdRun(mappings: seq<Mapping>, docs: map<string, Document>, outputDir: string, stamp: Timestamp): Report {
    if mappings == [] then Report([], None)
    else Then(FsdJob(mappings[0], Lookup(docs, mappings[0].file), outputDir, stamp),
              FsdRun(mappings[1..], docs, outputDir, stamp))
  }

  /** The list-family run over `mappings`, in order. */
  function BsdRun(mappings: seq<Mapping>, docs: map<string, seq<Record>>, outputDir: string, stamp: Timestamp): Report {
    if mappings == [] then Report([], None)
    else Then(BsdJob(mappings[0], Lookup(docs, mappings[0].file), outputDir, stamp),
              BsdRun(mappings[1..], docs, outputDir, stamp))
  }

  /** The files written before the rest of the run, in front of what the rest writes. */
  function Ahead(files: seq<SqlFile>, rest: Report): Report {
    Report(files + rest.files, rest.failure)
  }

  lemma AheadThen(files: seq<SqlFile>, job: Job, rest: Report)
    requires !job.Failed?
    ensures Ahead(files, Then(job, rest)) == Ahead(files + (if job.Written? then job.files else []), rest)
  {
    if job.Written? {
      assert files + (job.files + rest.files) == files + job.files + rest.files;
    } else {
      assert files + [] == files;
    }
  }

  /** The keyed-family loop body for one mapping: load, extract (or fall back), write. */
  method FsdStep(m: Mapping, docs: map<string, Document>, outputDir: string, stamp: Timestamp) returns (job: Job)
    ensures job == FsdJob(m, Lookup(docs, m.file), outputDir, stamp)
  {
    if m.file !in docs {
      return Skipped;
    }
    var doc := docs[m.file];
    var outcome: Outcome;
    var p := Resolve(m.processor);
    if p.Some? {
      outcome := RunProcessor(p.value, doc, m.columns);
    } else {
      var rows := ProcessDefault(doc, m.columns);
      outcome := Rows(rows);
    }
    if outcome.Raised? {
      job := Failed(EntryFailed(outcome.at));
    } else {
      var written := WriteSqlFile(TableFile(outputDir, "fsd", m.table), m.table, m.columns, outcome.rows, stamp);
      job := Written(written);
    }
  }

  /** `process_fsd_data`: the loop over the mappings. */
  method ProcessFsdData(mappings: seq<Mapping>, docs: map<string, Document>, outputDir: string, stamp: Timestamp)
    returns (files: seq<SqlFile>, failure: Option<Failure>)
    ensures Report(files, failure) == FsdRun(mappings, docs, outputDir, stamp)
  {
    files := [];
    failure := None;
    var i := 0;
    while i < |mappings| && failure.None?
      invariant 0 <= i <= |mappings|
      invariant failure.None? ==> FsdRun(mappings, docs, outputDir, stamp) == Ahead(files, FsdRun(mappings[i..], docs, outputDir, stamp))
      invariant failure.Some? ==> FsdRun(mappings, docs, outputDir, stamp) == Report(files, failure)
    {
      assert mappings[i..][0] == mappings[i] && mappings[i..][1..] == mappings[i + 1..];
      var job := FsdStep(mappings[i], docs, outputDir, stamp);
      match job {
        case Skipped =>
          AheadThen(files, job, FsdRun(mappings[i + 1..], docs, outputDir, stamp));
        case Written(written) =>
          AheadThen(files, job, FsdRun(mappings[i + 1..], docs, outputDir, stamp));
          files := files + written;
        case Failed(f) =>
          failure := Some(f);
      }
      i := i + 1;
    }
    if failure.None? {
      assert mappings[i..] == [];
      assert files + [] == files;
    }
  }

  /** The list-family loop body for one mapping. */
  method BsdStep(m: Mapping, docs: map<string, seq<Record>>, outputDir: string, stamp: Timestamp) returns (job: Job)
    ensures job == BsdJob(m, Lookup(docs, m.file), outputDir, stamp)
  {
    if m.file !in docs {
      return Skipped;
    }
    if Resolve(m.processor).Some? {
      return Failed(NotADocument);
    }
    var rows := ProcessList(docs[m.file], m.columns);
    var written := WriteSqlFile(TableFile(outputDir, "bsd", m.table), m.table, m.columns, rows, stamp);
    job := Written(written);
  }

  /** `process_bsd_data`: the loop over the mappings. */
  method ProcessBsdData(mappings: seq<Mapping>, docs: map<string, seq<Record>>, outputDir: string, stamp: Timestamp)
    returns (files: seq<SqlFile>, failure: Option<Failure>)
    ensures Report(files, failure) == BsdRun(mappings, docs, outputDir, stamp)
  {
    files := [];
    failure := None;
    var i := 0;
    while i < |mappings| && failure.None?
      invariant 0 <= i <= |mappings|
      invariant failure.None? ==> BsdRun(mappings, docs, outputDir, stamp) == Ahead(files, BsdRun(mappings[i..], docs, outputDir, stamp))
      invariant failure.Some? ==> BsdRun(mappings, docs, outputDir, stamp) == Report(files, failure)
    {
      assert mappings[i..][0] == mappings[i] && mappings[i..][1..] == mappings[i + 1..];
      var job := BsdStep(mappings[i], docs, outputDir, stamp);
      match job {
        case Skipped =>
          AheadThen(files, job, BsdRun(mappings[i + 1..], docs, outputDir, stamp));
        case Written(written) =>
          AheadThen(files, job, BsdRun(mappings[i + 1..], docs, outputDir, stamp));
          files := files + written;
        case Failed(f) =>
          failure := Some(f);
      }
      i := i + 1;
    }
    if failure.None? {
      assert mappings[i..] == [];
      assert files + [] == files;
    }
  }

  // ------------------------------------------------------------------ lemmas

  /** Whatever produced them, the rows of a keyed document have one value per configured column. */
  lemma FsdRowsArity(m: Mapping, doc: Document)
    requires FsdRows(m, doc).Rows?
    ensures forall row :: row in FsdRows(m, doc).rows ==> |row| == |m.columns|
  {
    var r := Resolve(m.processor);
    if r.Some? {
      RunArity(r.value, doc, m.columns);
    }
  }

  lemma RunArity(p: Processor, doc: Document, columns: seq<string>)
    requires Run(p, doc, columns).Rows?
    ensures forall row :: row in Run(p, doc, columns).rows ==> |row| == |columns|
  {
    if p == TypeMaterials {
      NestedRowsCarryParentKey(SpecOf(p), MaterialsField, doc, columns);
    } else {
      var rows := ExtractRows(SpecOf(p), doc, columns).rows;
      forall row | row in rows
        ensures |row| == |columns|
      {
        var i :| 0 <= i < |rows| && rows[i] == row;
      }
    }
  }

  /** The last '/' of `a + "/" + b` is the one between them when `b` has none. */
  lemma LastSlashBefore(a: string, b: string)
    requires forall j :: 0 <= j < |b| ==> b[j] != '/'
    ensures LastIndexOf(a + "/" + b, '/') == |a|
  {
    var p := a + "/" + b;
    forall j | |a| < j < |p|
      ensures p[j] != '/'
    {
      assert p[j] == b[j - |a| - 1];
    }
    LastIndexOfIs(p, '/', |a|);
  }

  /**
   * Every file a keyed-family table is written to lies directly in the
   * family directory `<output>/fsd`, whether or not the table is split.
   */
  lemma FsdFilesInFamilyDirectory(m: Mapping, doc: Option<Document>, outputDir: string, stamp: Timestamp, k: nat)
    requires forall j :: 0 <= j < |m.table| ==> m.table[j] != '/'
    requires FsdJob(m, doc, outputDir, stamp).Written? && k < |FsdJob(m, doc, outputDir, stamp).files|
    ensures JoinPath(outputDir, "fsd") + "/" <= FsdJob(m, doc, outputDir, stamp).files[k].name
  {
    var rows := FsdRows(m, doc.value).rows;
    var p := TableFile(outputDir, "fsd", m.table);
    TableFileDirectory(outputDir, "fsd", m.table);
    RenderFilesNames(p, m.table, m.columns, rows, stamp, k);
    PartNameKeepsDirectory(p, k, PartCount(|rows|));
  }

  /** The directory part of a table's destination is the family directory. */
  lemma TableFileDirectory(outputDir: string, family: string, table: string)
    requires family != [] && family[0] != '/' && family[|family| - 1] != '/'
    requires forall j :: 0 <= j < |table| ==> table[j] != '/'
    ensures var p := TableFile(outputDir, family, table);
            p[..LastIndexOf(p, '/') + 1] == JoinPath(outputDir, family) + "/"
  {
    var x := JoinPath(outputDir, family);
    var b := table + ".sql";
    var p := TableFile(outputDir, family, table);
    assert x[|x| - 1] == family[|family| - 1];
    assert p == x + "/" + b;
    forall j | 0 <= j < |b|
      ensures b[j] != '/'
    {
      if j < |table| {
        assert b[j] == table[j];
      }
    }
    LastSlashBefore(x, b);
    assert p[..|x| + 1] == x + "/";
  }

  /**
   * The type-dogma mapping names a processor that is not defined, so its
   * document takes the default processing: the entry key in `type_id` and
   * the `attribute_id` and `value` fields looked up directly, which yields
   * NULLs for entries that hold their attributes in nested lists.
   */
  lemma TypeDogmaTakesDefault(doc: Document, outputDir: string, stamp: Timestamp)
    ensures var m := FsdMappings[16];
            && m.table == "eve_type_dogma"
            && FsdJob(m, Some(doc), outputDir, stamp)
               == Written(RenderFiles(TableFile(outputDir, "fsd", m.table), m.table, m.columns, DefaultRows(doc, m.columns), stamp))
    ensures forall i :: 0 <= i < |doc| && "attribute_id" !in doc[i].1 && "value" !in doc[i].1 ==>
              DefaultRows(doc, FsdMappings[16].columns)[i] == [doc[i].0, Null, Null]
  {
    DispatchOfMappings();
    var cols := FsdMappings[16].columns;
    assert cols == ["type_id", "attribute_id", "value"];
    forall i | 0 <= i < |doc| && "attribute_id" !in doc[i].1 && "value" !in doc[i].1
      ensures DefaultRows(doc, cols)[i] == [doc[i].0, Null, Null]
    {
      var r := DefaultRows(doc, cols)[i];
      assert cols[1] != cols[0] && cols[2] != cols[0];
    }
  }

  /** No list-family mapping names a defined processor, so each list document takes the default processing. */
  lemma BsdTakesDefault(k: nat, items: seq<Record>, outputDir: string, stamp: Timestamp)
    requires k < |BsdMappings|
    ensures var m := BsdMappings[k];
            BsdJob(m, Some(items), outputDir, stamp)
            == Written(RenderFiles(TableFile(outputDir, "bsd", m.table), m.table, m.columns, ListRows(items, m.columns), stamp))
  {
    DispatchOfMappings();
  }

  /**
   * A run that does not fail has written, for every mapping whose file
   * exists, that table's files; a mapping whose file is missing adds nothing.
   */
  lemma MissingFileAddsNothing(m: Mapping, rest: seq<Mapping>, docs: map<string, Document>, outputDir: string, stamp: Timestamp)
    requires m.file !in docs
    ensures FsdRun([m] + rest, docs, outputDir, stamp) == FsdRun(rest, docs, outputDir, stamp)
  {
    assert ([m] + rest)[1..] == rest;
  }

  /** A failing table ends the run: nothing after it is written. */
  lemma FailureEndsRun(m: Mapping, doc: Document, rest: seq<Mapping>, docs: map<string, Document>, outputDir: string, stamp: Timestamp)
    requires m.file in docs && docs[m.file] == doc && FsdRows(m, doc).Raised?
    ensures FsdRun([m] + rest, docs, outputDir, stamp) == Report([], Some(EntryFailed(FsdRows(m, doc).at)))
  {
  }
}
