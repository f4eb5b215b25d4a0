/**
 * The row extractors.  Each `process_*` function of the converter walks a
 * loaded document entry by entry and, for each requested column, takes the
 * entry key, a translated field, or a direct lookup.  The per-kind rules are
 * data here (a `KindSpec`, filled in by the Registry module); this module holds
 * what all kinds share: how a rule reads a record, how a row is laid out, how
 * a document becomes rows, and when Python would raise instead.
 */
module Extract {
  import opened Wrappers
  import opened PyValues

  /** The fields of one document entry (a YAML mapping). */
  type Record = map<string, Value>

  /** One entry of a loaded document: its key (usually an integer id) and its fields. */
  type Entry = (Value, Record)

  /** A loaded document, in the order `data.items()` walks it. */
  type Document = seq<Entry>

  /** One output tuple. */
  type Row = seq<Value>

  /** `rec.get(field)`. */
  function Get(rec: Record, field: string): Value {
    if field in rec then rec[field] else Null
  }

  /** `rec.get(field, default)`. */
  function GetOr(rec: Record, field: string, default: Value): Value {
    if field in rec then rec[field] else default
  }

  /** How one kind-specific column is computed from an entry's record. */
  datatype Rule =
    | Field(name: string)                       // rec.get(name)
    | FieldOr(name: string, default: Value)     // rec.get(name, default)
    | Localized(name: string, fallback: string) // rec.get(name, {}).get('en', fallback)
    | Flag(name: string)                        // 1 if rec.get(name, False) else 0
    | Constant(v: Value)                        // a fixed value, e.g. alliance_id = None
    | ActivityTime(activity: string)            // rec.get('activities', {}).get(activity, {}).get('time')

  /** `m.get(k, {})` when `m` is a mapping. */
  function SubOr(m: map<string, Value>, k: string): Value {
    if k in m then m[k] else EmptyDict
  }

  /**
   * Evaluates a rule; `None` means that Python raises (calling `.get` on a
   * value that is not a mapping).
   */
  function EvalRule(rule: Rule, rec: Record): (r: Option<Value>)
    ensures r.None? ==> rule.Localized? || rule.ActivityTime?
    ensures rule.Localized? && rule.name !in rec ==> r == Some(Text(rule.fallback))
    ensures rule.Flag? ==> r == Some(Int(1)) || r == Some(Int(0))
    ensures rule.ActivityTime? && "activities" !in rec ==> r == Some(Null)
  {
    match rule
    case Field(f) => Some(Get(rec, f))
    case FieldOr(f, d) => Some(GetOr(rec, f, d))
    case Localized(f, fallback) =>
      (match GetOr(rec, f, EmptyDict)
       case Dict(m, _) => Some(if "en" in m then m["en"] else Text(fallback))
       case _ => None)
    case Flag(f) => Some(if Truthy(GetOr(rec, f, Bool(false))) then Int(1) else Int(0))
    case Constant(v) => Some(v)
    case ActivityTime(a) =>
      (match GetOr(rec, "activities", EmptyDict)
       case Dict(acts, _) =>
         (match SubOr(acts, a)
          case Dict(act, _) => Some(Get(act, "time"))
          case _ => None)
       case _ => None)
  }

  /**
   * `for m in v: m.get(...)`: the records a loop over `v` sees, or `None`
   * when Python raises.  Iterating a mapping yields its keys and iterating
   * text yields characters, neither of which has `.get`, so only an empty
   * mapping or empty text gets through; a list must hold mappings only; every
   * other value is not iterable.
   */
  function IterRecords(v: Value): Option<seq<Record>> {
    match v
    case List(items, _) =>
      if forall k :: 0 <= k < |items| ==> items[k].Dict?
      then Some(seq(|items|, k requires 0 <= k < |items| => EntriesOf(items[k])))
      else None
    case Dict(m, _) => if |m| == 0 then Some([]) else None
    case Text(s) => if s == "" then Some([]) else None
    case _ => None
  }

  function EntriesOf(v: Value): Record {
    if v.Dict? then v.entries else map[]
  }

  /**
   * A list can be walked exactly when every element is a mapping, and the walk
   * then sees those mappings in order; any other value gets through only when
   * empty, with nothing to see.
   */
  lemma IterRecordsOf(v: Value)
    ensures v.List? ==> (IterRecords(v).Some? <==> forall k :: 0 <= k < |v.items| ==> v.items[k].Dict?)
    ensures v.List? && IterRecords(v).Some? ==>
              |IterRecords(v).value| == |v.items|
              && forall k :: 0 <= k < |v.items| ==> IterRecords(v).value[k] == v.items[k].entries
    ensures !v.List? && IterRecords(v).Some? ==> IterRecords(v).value == [] && !Truthy(v)
  {
  }

  /**
   * The blueprint processor's loops over `manufacturing['materials']` and
   * `manufacturing['products']` emit nothing; what they can do is raise,
   * when one of those lists holds something other than mappings.
   */
  predicate ManufacturingScanOk(rec: Record) {
    match GetOr(rec, "activities", EmptyDict)
    case Dict(acts, _) =>
      (match SubOr(acts, "manufacturing")
       case Dict(mm, _) =>
         ("materials" !in mm || IterRecords(mm["materials"]).Some?)
         && ("products" !in mm || IterRecords(mm["products"]).Some?)
       case _ => true)
    case _ => true
  }

  /**
   * The rule table of one entity kind: the identifier column, the columns
   * with their own rule (tested in this order), and whether the entries are
   * also scanned for manufacturing materials and products.
   */
  datatype KindSpec = KindSpec(idColumn: string, rules: seq<(string, Rule)>, scansManufacturing: bool)

  /** The rule of the first branch whose column name matches, as an `elif` chain picks it. */
  function RuleFor(rules: seq<(string, Rule)>, column: string): (r: Option<Rule>)
    ensures r.None? <==> forall i :: 0 <= i < |rules| ==> rules[i].0 != column
    ensures r.Some? ==> exists i :: 0 <= i < |rules| && rules[i] == (column, r.value)
                                    && forall j :: 0 <= j < i ==> rules[j].0 != column
  {
    if rules == [] then None
    else if rules[0].0 == column then Some(rules[0].1)
    else
      var r := RuleFor(rules[1..], column);
      assert forall i :: 1 <= i < |rules| ==> rules[i] == rules[1..][i - 1];
      r
  }

  /** An entry whose record can be read without Python raising: every rule of the kind evaluates. */
  predicate Readable(spec: KindSpec, rec: Record) {
    && (forall i :: 0 <= i < |spec.rules| ==> EvalRule(spec.rules[i].1, rec).Some?)
    && (spec.scansManufacturing ==> ManufacturingScanOk(rec))
  }

  /** The value of one column: the entry key, the kind's rule, or a direct lookup. */
  function Cell(spec: KindSpec, key: Value, rec: Record, column: string): Value {
    if column == spec.idColumn then key
    else match RuleFor(spec.rules, column)
      case Some(rule) => EvalRule(rule, rec).GetOr(Null)
      case None => Get(rec, column)
  }

  /**
   * A column other than the identifier that the kind's table names takes the
   * value of the first branch naming it, as the `elif` chain does, and the
   * value of the branch's own default (None) when Python would raise.
   */
  lemma CellFirstMatch(spec: KindSpec, key: Value, rec: Record, column: string, i: nat)
    requires i < |spec.rules| && column != spec.idColumn && spec.rules[i].0 == column
    requires forall j :: 0 <= j < i ==> spec.rules[j].0 != column
    ensures Cell(spec, key, rec, column) == EvalRule(spec.rules[i].1, rec).GetOr(Null)
  {
    var r := RuleFor(spec.rules, column);
    assert r.Some?;
    var i' :| 0 <= i' < |spec.rules| && spec.rules[i'] == (column, r.value)
              && forall j :: 0 <= j < i' ==> spec.rules[j].0 != column;
    assert i' == i;
  }

  /** The tuple one entry gives, laid out along the column list. */
  function RowOf(spec: KindSpec, key: Value, rec: Record, columns: seq<string>): (r: Row)
    ensures |r| == |columns|
    ensures forall j :: 0 <= j < |columns| && columns[j] == spec.idColumn ==> r[j] == key
    ensures forall j :: 0 <= j < |columns| && columns[j] != spec.idColumn
                        && (forall i :: 0 <= i < |spec.rules| ==> spec.rules[i].0 != columns[j])
                        ==> r[j] == Get(rec, columns[j])
  {
    seq(|columns|, j requires 0 <= j < |columns| => Cell(spec, key, rec, columns[j]))
  }

  /** What a processor gives back: the rows, or the key of the entry at which Python raised. */
  datatype Outcome = Rows(rows: seq<Row>) | Raised(at: Value)

  function Prepend(front: seq<Row>, o: Outcome): Outcome {
    match o
    case Rows(rs) => Rows(front + rs)
    case Raised(k) => Raised(k)
  }

  /**
   * A per-kind processor (`process_agents` and its siblings): one tuple per
   * entry, in document order, or `Raised` at the first entry it cannot read.
   */
  function ExtractRows(spec: KindSpec, doc: Document, columns: seq<string>): (r: Outcome)
    ensures r.Rows? <==> forall i :: 0 <= i < |doc| ==> Readable(spec, doc[i].1)
    ensures r.Rows? ==> |r.rows| == |doc|
                        && forall i :: 0 <= i < |doc| ==> r.rows[i] == RowOf(spec, doc[i].0, doc[i].1, columns)
    ensures r.Raised? ==> exists i :: 0 <= i < |doc| && doc[i].0 == r.at && !Readable(spec, doc[i].1)
                                      && forall j :: 0 <= j < i ==> Readable(spec, doc[j].1)
  {
    if doc == [] then Rows([])
    else if !Readable(spec, doc[0].1) then Raised(doc[0].0)
    else
      var rest := ExtractRows(spec, doc[1..], columns);
      assert forall i :: 1 <= i < |doc| ==> doc[i] == doc[1..][i - 1];
      assert rest.Raised? ==> exists i :: 1 <= i < |doc| && doc[i].0 == rest.at && !Readable(spec, doc[i].1)
                                          && forall j :: 0 <= j < i ==> Readable(spec, doc[j].1);
      Prepend([RowOf(spec, doc[0].0, doc[0].1, columns)], rest)
  }

  // ------------------------------------------------------- one-to-many kind

  /** `rec.get(listField, [])`, walked as a list of records. */
  function ChildRecords(listField: string, rec: Record): Option<seq<Record>> {
    IterRecords(GetOr(rec, listField, EmptyList))
  }

  /** The tuples of one parent entry: one per child record, each carrying the parent key. */
  function ChildRows(spec: KindSpec, key: Value, children: seq<Record>, columns: seq<string>): (r: seq<Row>)
    ensures |r| == |children|
    ensures forall k :: 0 <= k < |children| ==> r[k] == RowOf(spec, key, children[k], columns)
  {
    seq(|children|, k requires 0 <= k < |children| => RowOf(spec, key, children[k], columns))
  }

  /** How many child records the entries of `doc` hold in all. */
  function ChildCount(listField: string, doc: Document): nat {
    if doc == [] then 0
    else
      (match ChildRecords(listField, doc[0].1)
       case Some(children) => |children|
       case None => 0)
      + ChildCount(listField, doc[1..])
  }

  /**
   * The one-to-many processor (`process_type_materials`): one tuple per
   * element of each entry's child list, in document and list order.
   */
  function ExtractNested(spec: KindSpec, listField: string, doc: Document, columns: seq<string>): (r: Outcome)
    ensures r.Rows? <==> forall i :: 0 <= i < |doc| ==> ChildRecords(listField, doc[i].1).Some?
    ensures r.Rows? ==> |r.rows| == ChildCount(listField, doc)
    ensures r.Raised? ==> exists i :: 0 <= i < |doc| && doc[i].0 == r.at && ChildRecords(listField, doc[i].1).None?
                                      && forall j :: 0 <= j < i ==> ChildRecords(listField, doc[j].1).Some?
  {
    if doc == [] then Rows([])
    else
      match ChildRecords(listField, doc[0].1)
      case None => Raised(doc[0].0)
      case Some(children) =>
        var rest := ExtractNested(spec, listField, doc[1..], columns);
        assert forall i :: 1 <= i < |doc| ==> doc[i] == doc[1..][i - 1];
        assert rest.Raised? ==> exists i :: 1 <= i < |doc| && doc[i].0 == rest.at
                                            && ChildRecords(listField, doc[i].1).None?
                                            && forall j :: 0 <= j < i ==> ChildRecords(listField, doc[j].1).Some?;
        Prepend(ChildRows(spec, doc[0].0, children, columns), rest)
  }

  /**
   * The tuples of the one-to-many processor in place: those of entry i come
   * right after the children of the entries before it, and tuple k of them is
   * built from child k with entry i's own key.
   */
  lemma NestedRowPositions(spec: KindSpec, listField: string, doc: Document, columns: seq<string>, rows: seq<Row>)
    requires ExtractNested(spec, listField, doc, columns) == Rows(rows)
    ensures forall i :: 0 <= i < |doc| ==>
              && ChildRecords(listField, doc[i].1).Some?
              && ChildCount(listField, doc[..i]) + |ChildRecords(listField, doc[i].1).value| <= |rows|
    ensures forall i, k :: 0 <= i < |doc| && 0 <= k < |ChildRecords(listField, doc[i].1).value| ==>
              rows[ChildCount(listField, doc[..i]) + k] == RowOf(spec, doc[i].0, ChildRecords(listField, doc[i].1).value[k], columns)
  {
    forall i | 0 <= i < |doc|
      ensures ChildCount(listField, doc[..i]) + |ChildRecords(listField, doc[i].1).value| <= |rows|
    {
      NestedRowAt(spec, listField, doc, columns, rows, i, 0);
    }
    forall i, k | 0 <= i < |doc| && 0 <= k < |ChildRecords(listField, doc[i].1).value|
      ensures rows[ChildCount(listField, doc[..i]) + k] == RowOf(spec, doc[i].0, ChildRecords(listField, doc[i].1).value[k], columns)
    {
      NestedRowAt(spec, listField, doc, columns, rows, i, k);
    }
  }

  /**
   * Every tuple of the one-to-many processor has the column list's length,
   * and wherever the identifier column stands it holds the key of one of the
   * document's entries (which entry, and where, is `NestedRowPositions`).
   */
  lemma {:induction false} NestedRowsCarryParentKey(spec: KindSpec, listField: string, doc: Document, columns: seq<string>)
    requires ExtractNested(spec, listField, doc, columns).Rows?
    ensures forall row :: row in ExtractNested(spec, listField, doc, columns).rows ==>
              |row| == |columns|
              && forall j :: 0 <= j < |columns| && columns[j] == spec.idColumn ==>
                   exists i :: 0 <= i < |doc| && row[j] == doc[i].0
  {
    if doc != [] {
      var children := ChildRecords(listField, doc[0].1).value;
      NestedRowsCarryParentKey(spec, listField, doc[1..], columns);
      var rows := ExtractNested(spec, listField, doc, columns).rows;
      var here := ChildRows(spec, doc[0].0, children, columns);
      assert rows == here + ExtractNested(spec, listField, doc[1..], columns).rows;
      forall row | row in rows
        ensures |row| == |columns|
        ensures forall j :: 0 <= j < |columns| && columns[j] == spec.idColumn ==>
                  exists i :: 0 <= i < |doc| && row[j] == doc[i].0
      {
        if row in here {
          var k :| 0 <= k < |here| && here[k] == row;
          assert row == RowOf(spec, doc[0].0, children[k], columns);
        } else {
          assert row in ExtractNested(spec, listField, doc[1..], columns).rows;
          forall j | 0 <= j < |columns| && columns[j] == spec.idColumn
            ensures exists i :: 0 <= i < |doc| && row[j] == doc[i].0
          {
            var i :| 0 <= i < |doc[1..]| && row[j] == doc[1..][i].0;
            assert doc[1..][i] == doc[i + 1];
          }
        }
      }
    }
  }

  /**
   * The tuples of entry i fit after the children of the entries before it,
   * and tuple k of them is built from child k with entry i's key.
   */
  lemma {:induction false} NestedRowAt(spec: KindSpec, listField: string, doc: Document, columns: seq<string>, rows: seq<Row>,
                                       i: nat, k: nat)
    requires ExtractNested(spec, listField, doc, columns) == Rows(rows)
    requires i < |doc| && ChildRecords(listField, doc[i].1).Some? && k <= |ChildRecords(listField, doc[i].1).value|
    ensures ChildCount(listField, doc[..i]) + |ChildRecords(listField, doc[i].1).value| <= |rows|
    ensures k < |ChildRecords(listField, doc[i].1).value| ==>
              rows[ChildCount(listField, doc[..i]) + k] == RowOf(spec, doc[i].0, ChildRecords(listField, doc[i].1).value[k], columns)
  {
    var children := ChildRecords(listField, doc[0].1).value;
    var here := ChildRows(spec, doc[0].0, children, columns);
    var rest := ExtractNested(spec, listField, doc[1..], columns);
    assert rest.Rows? && rows == here + rest.rows;
    if i == 0 {
      assert doc[..0] == [];
    } else {
      assert doc[1..][i - 1] == doc[i];
      NestedRowAt(spec, listField, doc[1..], columns, rest.rows, i - 1, k);
      ChildCountPrefix(listField, doc, i);
    }
  }

  /** The children before entry i are those of the first entry and those before entry i - 1 of the rest. */
  lemma ChildCountPrefix(listField: string, doc: Document, i: nat)
    requires 0 < i <= |doc| && ChildRecords(listField, doc[0].1).Some?
    ensures ChildCount(listField, doc[..i])
            == |ChildRecords(listField, doc[0].1).value| + ChildCount(listField, doc[1..][..i - 1])
  {
    assert doc[..i][0] == doc[0] && doc[..i][1..] == doc[1..][..i - 1];
  }

  /** An entry without the child-list field contributes no tuple at all. */
  lemma EntryWithoutChildrenAddsNothing(spec: KindSpec, listField: string, key: Value, rec: Record, doc: Document, columns: seq<string>)
    requires listField !in rec
    ensures ExtractNested(spec, listField, [(key, rec)] + doc, columns) == ExtractNested(spec, listField, doc, columns)
  {
    assert ([(key, rec)] + doc)[1..] == doc;
    var r := ExtractNested(spec, listField, doc, columns);
    if r.Rows? {
      assert [] + r.rows == r.rows;
    }
  }

  // -------------------------------------------------------------- fallbacks

  /** A mapping holding an `'en'` key stands for its English text; any other value for itself. */
  function Unwrapped(v: Value): Value {
    match v
    case Dict(m, _) => if "en" in m then m["en"] else v
    case _ => v
  }

  /**
   * The default processing of a keyed document, used when a mapping names no
   * existing processor: the first column is taken to be the identifier.
   */
  function DefaultRow(key: Value, rec: Record, columns: seq<string>): (r: Row)
    ensures |r| == |columns|
    ensures forall j :: 0 <= j < |columns| ==>
              r[j] == (if columns[j] == columns[0] then key
                       else if columns[j] !in rec then Null
                       else if rec[columns[j]].Dict? && "en" in rec[columns[j]].entries then rec[columns[j]].entries["en"]
                       else rec[columns[j]])
  {
    seq(|columns|, j requires 0 <= j < |columns| =>
      if columns[j] == columns[0] then key
      else if columns[j] in rec then Unwrapped(rec[columns[j]])
      else Null)
  }

  function DefaultRows(doc: Document, columns: seq<string>): (r: seq<Row>)
    ensures |r| == |doc|
    ensures forall i :: 0 <= i < |doc| ==> r[i] == DefaultRow(doc[i].0, doc[i].1, columns)
  {
    seq(|doc|, i requires 0 <= i < |doc| => DefaultRow(doc[i].0, doc[i].1, columns))
  }

  /** The field a list-document column reads: `item_id` and `item_name` lose their `item_` prefix. */
  function ListKey(column: string): string {
    if column == "item_id" then "id"
    else if column == "item_name" then "name"
    else column
  }

  /** The default processing of a list document: one tuple per item, a lookup per column. */
  function ListRow(item: Record, columns: seq<string>): (r: Row)
    ensures |r| == |columns|
    ensures forall j :: 0 <= j < |columns| ==> r[j] == Get(item, ListKey(columns[j]))
  {
    seq(|columns|, j requires 0 <= j < |columns| => Get(item, ListKey(columns[j])))
  }

  function ListRows(items: seq<Record>, columns: seq<string>): (r: seq<Row>)
    ensures |r| == |items|
    ensures forall i :: 0 <= i < |items| ==> r[i] == ListRow(items[i], columns)
  {
    seq(|items|, i requires 0 <= i < |items| => ListRow(items[i], columns))
  }

  // ------------------------------------------------------- rule properties

  /** A flag column is 1 when its field is truthy and 0 otherwise (absent included), never None. */
  lemma FlagIsZeroOrOne(spec: KindSpec, key: Value, rec: Record, column: string, field: string)
    requires column != spec.idColumn && RuleFor(spec.rules, column) == Some(Flag(field))
    ensures Cell(spec, key, rec, column) == (if field in rec && Truthy(rec[field]) then Int(1) else Int(0))
  {
  }

  /**
   * A localized column is the `'en'` text when there is one and the kind's
   * fallback text when the field is absent or has no `'en'` entry; a present
   * field that is not a mapping makes Python raise.
   */
  lemma LocalizedDefaults(name: string, fallback: string, rec: Record)
    ensures name !in rec ==> EvalRule(Localized(name, fallback), rec) == Some(Text(fallback))
    ensures name in rec && rec[name].Dict? && "en" !in rec[name].entries
            ==> EvalRule(Localized(name, fallback), rec) == Some(Text(fallback))
    ensures name in rec && rec[name].Dict? && "en" in rec[name].entries
            ==> EvalRule(Localized(name, fallback), rec) == Some(rec[name].entries["en"])
    ensures name in rec && !rec[name].Dict? ==> EvalRule(Localized(name, fallback), rec).None?
  {
  }

  // ------------------------------------------------- the processors' loops

  /** The inner `for column in columns` loop of a processor: one `elif` chain per column. */
  method BuildRow(spec: KindSpec, key: Value, rec: Record, columns: seq<string>) returns (row: Row)
    ensures row == RowOf(spec, key, rec, columns)
  {
    row := [];
    for j := 0 to |columns|
      invariant |row| == j
      invariant forall k :: 0 <= k < j ==> row[k] == Cell(spec, key, rec, columns[k])
    {
      var column := columns[j];
      if column == spec.idColumn {
        row := row + [key];
      } else {
        match RuleFor(spec.rules, column)
        case Some(rule) =>
          row := row + [EvalRule(rule, rec).GetOr(Null)];
        case None =>
          row := row + [Get(rec, column)];
      }
    }
  }

  /** A per-kind processor's outer loop over `data.items()`. */
  method ProcessEntries(spec: KindSpec, doc: Document, columns: seq<string>) returns (out: Outcome)
    ensures out == ExtractRows(spec, doc, columns)
  {
    var rows: seq<Row> := [];
    var i := 0;
    while i < |doc|
      invariant 0 <= i <= |doc|
      invariant ExtractRows(spec, doc, columns) == Prepend(rows, ExtractRows(spec, doc[i..], columns))
    {
      var (key, rec) := doc[i];
      EntriesStep(spec, doc, columns, i);
      if !Readable(spec, rec) {
        return Raised(key);
      }
      var row := BuildRow(spec, key, rec, columns);
      PrependAssoc(rows, [row], ExtractRows(spec, doc[i + 1..], columns));
      rows := rows + [row];
      i := i + 1;
    }
    assert doc[i..] == [];
    out := Rows(rows);
  }

  /** One step of the per-entry processor: the first entry either raises or puts its tuple first. */
  lemma EntriesStep(spec: KindSpec, doc: Document, columns: seq<string>, i: nat)
    requires i < |doc|
    ensures ExtractRows(spec, doc[i..], columns)
         == if !Readable(spec, doc[i].1) then Raised(doc[i].0)
            else Prepend([RowOf(spec, doc[i].0, doc[i].1, columns)], ExtractRows(spec, doc[i + 1..], columns))
  {
    assert doc[i..][0] == doc[i] && doc[i..][1..] == doc[i + 1..];
  }

  lemma PrependAssoc(a: seq<Row>, b: seq<Row>, o: Outcome)
    ensures Prepend(a, Prepend(b, o)) == Prepend(a + b, o)
  {
    if o.Rows? {
      assert a + (b + o.rows) == (a + b) + o.rows;
    }
  }

  /** One step of the one-to-many processor: the first entry's child tuples come first. */
  lemma NestedStep(spec: KindSpec, listField: string, doc: Document, columns: seq<string>, i: nat)
    requires i < |doc| && ChildRecords(listField, doc[i].1).Some?
    ensures ExtractNested(spec, listField, doc[i..], columns)
         == Prepend(ChildRows(spec, doc[i].0, ChildRecords(listField, doc[i].1).value, columns),
                    ExtractNested(spec, listField, doc[i + 1..], columns))
  {
    assert doc[i..][0] == doc[i] && doc[i..][1..] == doc[i + 1..];
  }

  /** The one-to-many processor's loops: entries, then each entry's child records. */
  method ProcessNested(spec: KindSpec, listField: string, doc: Document, columns: seq<string>) returns (out: Outcome)
    ensures out == ExtractNested(spec, listField, doc, columns)
  {
    var rows: seq<Row> := [];
    var i := 0;
    while i < |doc|
      invariant 0 <= i <= |doc|
      invariant ExtractNested(spec, listField, doc, columns) == Prepend(rows, ExtractNested(spec, listField, doc[i..], columns))
    {
      var (key, rec) := doc[i];
      var children := ChildRecords(listField, rec);
      if children.None? {
        assert doc[i..][0] == doc[i];
        return Raised(key);
      }
      var before := rows;
      rows := AppendChildRows(rows, spec, key, children.value, columns);
      NestedStep(spec, listField, doc, columns, i);
      PrependAssoc(before, ChildRows(spec, key, children.value, columns), ExtractNested(spec, listField, doc[i + 1..], columns));
      i := i + 1;
    }
    assert doc[i..] == [];
    out := Rows(rows);
  }

  /** The inner loop of the one-to-many processor: one tuple per child record, appended after `rows`. */
  method AppendChildRows(rows: seq<Row>, spec: KindSpec, key: Value, children: seq<Record>, columns: seq<string>)
    returns (out: seq<Row>)
    ensures out == rows + ChildRows(spec, key, children, columns)
  {
    ghost var kids := ChildRows(spec, key, children, columns);
    out := rows;
    for k := 0 to |children|
      invariant out == rows + kids[..k]
    {
      var row := BuildRow(spec, key, children[k], columns);
      out := out + [row];
      assert kids[..k + 1] == kids[..k] + [row];
    }
    assert kids[..|children|] == kids;
  }

  /** The default processing loop of a keyed document. */
  method ProcessDefault(doc: Document, columns: seq<string>) returns (rows: seq<Row>)
    ensures rows == DefaultRows(doc, columns)
  {
    rows := [];
    for i := 0 to |doc|
      invariant |rows| == i
      invariant forall r :: 0 <= r < i ==> rows[r] == DefaultRow(doc[r].0, doc[r].1, columns)
    {
      var (key, rec) := doc[i];
      var row: Row := [];
      for j := 0 to |columns|
        invariant |row| == j
        invariant forall k :: 0 <= k < j ==> row[k] == DefaultRow(key, rec, columns)[k]
      {
        var column := columns[j];
        if column == columns[0] {
          row := row + [key];
        } else if column in rec {
          row := row + [Unwrapped(rec[column])];
        } else {
          row := row + [Null];
        }
      }
      rows := rows + [row];
    }
  }

  /** The default processing loop of a list document. */
  method ProcessList(items: seq<Record>, columns: seq<string>) returns (rows: seq<Row>)
    ensures rows == ListRows(items, columns)
  {
    rows := [];
    for i := 0 to |items|
      invariant |rows| == i
      invariant forall r :: 0 <= r < i ==> rows[r] == ListRow(items[r], columns)
    {
      var row: Row := [];
      for j := 0 to |columns|
        invariant |row| == j
        invariant forall k :: 0 <= k < j ==> row[k] == Get(items[i], ListKey(columns[k]))
      {
        row := row + [Get(items[i], ListKey(columns[j]))];
      }
      rows := rows + [row];
    }
  }
}
