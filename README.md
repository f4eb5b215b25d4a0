# SDE to SQL converter — a Dafny model of its row pipeline

`sde_to_sql.py` turns the EVE Online Static Data Export into SQL scripts. It
loads YAML documents and hands each one to a per-kind processor. The processor
builds one tuple per entry, or one per child element for type materials. A
generic fallback covers kinds without a processor. Finally `write_sql_file`
splits the tuples into parts of at most 1000 rows. It writes each part as a
transactional script: a header, `START TRANSACTION;`, a `DELETE FROM` in the
first part only, one `INSERT ... VALUES` statement and `COMMIT;`.

This project models that pipeline and proves what it promises:

- **Values** (`pyvalues.dfy`). One `Value` type stands for what the YAML loader
  produces: None, int, bool, float, str, datetime, dict and list. It comes with
  Python's `str()`, truthiness, integer text and the `strftime` layout.
- **Sanitiser** (`sanitize.dfy`). `sanitize_string` and `sanitize_value`
  follow the source's branch order. Quote doubling is proved to round-trip. A
  literal reader that follows standard SQL quoting (`''` is the only escape,
  a backslash is an ordinary character) is proved to stop exactly at the
  closing quote, so under that quoting data cannot leave its literal. A
  boolean is proved to take the numeric branch.
- **Extractors** (`extract.dfy`, `registry.dfy`). Every `process_*` function
  becomes a rule table: the id column, translated fields, `{"en": ...}`
  unwrapping with its default, 0/1 flags and the activity times. One generic
  row builder interprets these tables. The `getattr` lookup becomes a registry
  from processor names to processors. Python exceptions raised while reading an
  entry become an outcome that names the failing key. The fallbacks of both
  data families are modelled too. Each extractor is a function, and the loop
  that builds it is a method proved equal to that function.
- **Writer** (`writer.dfy`). `write_sql_file` is a method with loop
  invariants. It returns the files it would write as (name, written chunks)
  pairs. It is proved equal to a rendering function, and the lemmas cover:
  - partitioning and re-concatenation;
  - part names made with `os.path.splitext`;
  - the `DELETE` statement in part 0 only;
  - the `,`/`;` row endings.
- **Reading back** (`sqlreader.dfy`). A small reader of values lines shows that
  every line the writer emits parses back to the literals of its row.
- **Run loops** (`pipeline.dfy`). These are the per-mapping loops of the keyed
  family (`fsd`) and the list family (`bsd`). For each mapping they look up the
  file, run the processor or the fallback, and write the table's scripts.
- **Universe output** (`universe.dfy`):
  - systems grouped by region in first-seen order;
  - region and constellation names looked up with `next(...)`;
  - `safe_name`;
  - the per-region scripts.

What the code does where it reads as if it meant something else, modelled as
written:

- `sanitize_value` has a branch rendering a `bool` as `1` or `0`
  (sde_to_sql.py:30-31). It is dead: a Python `bool` is an `int`, so the
  numeric test before it catches it and `sanitize_value(True)` gives `True`
  (`Sanitize.BoolTakesNumericBranch`).
- `write_sql_file` writes the `DELETE` only in the first file of a table
  (the comment at sde_to_sql.py:1070 says so). The universe output calls it
  once per region for the same table, so each region's script of
  `eve_solar_systems` opens with its own `DELETE FROM eve_solar_systems;`, as
  do the regions and constellations scripts, which also name that table
  (`Universe.RegionScriptClearsSystemsTable`).
- "The `DELETE` statement appears only in part 0" is stated about the chunks
  written: no other chunk equals it. It is not stated about substrings of the
  text, because a data literal may itself contain `DELETE FROM t;`.

## Model

| member | source | states |
|---|---|---|
| PyValues.NatText | sde_to_sql.py:28-29 | the decimal text of a natural number is non-empty and all digits |
| PyValues.NatTextRoundTrip | sde_to_sql.py:28-29 | parsing the decimal text of n gives n back |
| PyValues.NatTextInjective | sde_to_sql.py:1062 | different numbers have different decimal texts (part numbers never clash) |
| PyValues.Strftime | sde_to_sql.py:33 | `strftime('%Y-%m-%d %H:%M:%S')`; its alphabet is stated by `PyValues.StrftimeAlphabet` |
| PyValues.Str | sde_to_sql.py:29 | Python's `str()`; `Sanitize.IntegerIsDecimal` and `Sanitize.BoolTakesNumericBranch` state what it gives for numbers |
| PyValues.Truthy | sde_to_sql.py:255 | Python truthiness, as `1 if ... else 0` tests it; `Extract.FlagIsZeroOrOne` uses it |
| PyValues.StrftimeAlphabet | sde_to_sql.py:33 | the `%Y-%m-%d %H:%M:%S` text holds only digits, '-', ' ' and ':' |
| Sanitize.SanitizeString | sde_to_sql.py:17-22 | None gives `NULL`; otherwise the result starts and ends with a quote, and collapsing the doubled quotes inside gives back the text |
| Sanitize.UnescapeEscape | sde_to_sql.py:21 | collapsing `''` back to `'` undoes the doubling, for every text |
| Sanitize.ReadBodyEscape | sde_to_sql.py:21-22 | the body of a literal, followed by its closing quote and anything not starting with a quote, reads back as the original text and stops at that quote |
| Sanitize.LiteralCannotBreakOut | sde_to_sql.py:17-22 | a SQL string-literal reader given a sanitised text, then any continuation that does not start with a quote, returns the original text and leaves exactly the continuation |
| Sanitize.EscapeNoQuote | sde_to_sql.py:21 | a text without quotes is left unchanged |
| Sanitize.EscapeAppend | sde_to_sql.py:21 | doubling quotes distributes over concatenation |
| Sanitize.Escape | sde_to_sql.py:21 | the escaped text is as long as the text plus one character per quote in it |
| Sanitize.EscapeDoublesEachQuote | sde_to_sql.py:21 | every character is replaced in place by its escape (two quotes for a quote, itself otherwise): the escape of character k sits after the escape of the characters before it, which is k plus their quote count long, and before the escape of the rest |
| Sanitize.TwoQuotesDoubled | sde_to_sql.py:21-22 | an example: `O'Brien's` (quote-free pieces around two quotes) gives `'O''Brien''s'` |
| Sanitize.SanitizeValue | sde_to_sql.py:24-35 | None gives `NULL`; a value that is not a number, bool or None is quoted, and its body reads back as its `strftime` text (datetimes) or its `str()` text (everything else) |
| Sanitize.BoolTakesNumericBranch | sde_to_sql.py:28-31 | a bool is rendered `True`/`False` by the numeric branch, never `1`/`0` |
| Sanitize.IntegerIsDecimal | sde_to_sql.py:28-29 | an integer is written unquoted: an optional '-' (exactly when negative) then digits that read back as its magnitude |
| Sanitize.IntTextIsDecimal | sde_to_sql.py:29 | `str(int)` is an optional '-' (exactly when negative) then digits that read back as the magnitude |
| Sanitize.DateTimeIsQuotedStrftime | sde_to_sql.py:32-33 | a datetime is the quoted `%Y-%m-%d %H:%M:%S` text |
| SqlReader.SanitizeValueIsLiteral | sde_to_sql.py:24-35 | None and numbers are bare text; datetimes and everything else are the sanitised string of their text |
| Extract.EvalRule | sde_to_sql.py:205-214 | reading a field never raises except for a `{"en": ...}` or activity lookup on a value that is not a mapping; an absent localized field gives its default; a flag is 1 or 0; absent `activities` gives a None time |
| Extract.IterRecordsOf | sde_to_sql.py:643-652 | a list can be walked by `for m in v: m.get(...)` exactly when every element is a mapping, and the walk sees those mappings in order; any other value gets through only when it is empty (and falsy), seeing nothing |
| Extract.RuleFor | sde_to_sql.py:218-237 | a column has a rule exactly when the kind's table names it, and the rule found is that of the first branch naming it, as in an `elif` chain |
| Extract.Cell | sde_to_sql.py:216-239 | one column's value: the entry key for the id column, the first matching branch's value, else `data.get(column)`; its properties are stated by `Extract.CellFirstMatch` and `Extract.RowOf` |
| Extract.CellFirstMatch | sde_to_sql.py:218-237 | a column named by several branches takes the value of the first one, None standing where Python would raise |
| Extract.RowOf | sde_to_sql.py:216-239 | a tuple has one value per column; the id column holds the entry key; a column no rule names is the direct field lookup, None when absent |
| Extract.ExtractRows | sde_to_sql.py:200-243 | one tuple per entry in document order, each built from that entry, exactly when every entry can be read; otherwise the first unreadable entry's key is reported |
| Extract.BuildRow | sde_to_sql.py:216-241 | the `for column in columns` loop builds exactly the entry's tuple |
| Extract.ProcessEntries | sde_to_sql.py:202-243 | the loop over `data.items()` yields exactly the per-entry extraction, including where it raises |
| Extract.ChildRows | sde_to_sql.py:667-684 | one tuple per material, each built from the material and carrying the parent key |
| Extract.ExtractNested | sde_to_sql.py:660-685 | type materials yield as many tuples as there are materials over all entries, exactly when every `materials` value can be iterated; otherwise the first failing key is reported |
| Extract.NestedRowsCarryParentKey | sde_to_sql.py:664-682 | every materials tuple has one value per column, and its `type_id` is the key of some entry |
| Extract.NestedRowPositions | sde_to_sql.py:664-684 | the tuples of entry i start right after the materials of the entries before it; tuple k of them is built from material k with entry i's own key |
| Extract.NestedRowAt | sde_to_sql.py:664-684 | one entry's tuples fit after the earlier entries' materials, and tuple k is built from material k with that entry's key |
| Extract.EntryWithoutChildrenAddsNothing | sde_to_sql.py:665-667 | an entry without `materials` contributes no tuple |
| Extract.ProcessNested | sde_to_sql.py:660-685 | the nested loops over entries and materials yield exactly the one-to-many extraction |
| Extract.FlagIsZeroOrOne | sde_to_sql.py:255 | a flag column is 1 when its field is present and truthy, else 0, never None |
| Extract.LocalizedDefaults | sde_to_sql.py:207 | a localized field takes its `en` text, its default when absent or without `en`, and raises when it is not a mapping |
| Extract.DefaultRow | sde_to_sql.py:940-950 | fallback tuple: the key in every column named like the first, the `en` value of a localized mapping, the value itself, or None when absent |
| Extract.DefaultRows | sde_to_sql.py:938-951 | the fallback yields one such tuple per entry, in order |
| Extract.ProcessDefault | sde_to_sql.py:938-951 | the fallback loop yields exactly those tuples |
| Extract.ListRow | sde_to_sql.py:1026-1032 | list-family fallback tuple: `item_id`/`item_name` read `id`/`name`, every other column reads its own name |
| Extract.ListRows | sde_to_sql.py:1024-1033 | one such tuple per list item, in order |
| Extract.ProcessList | sde_to_sql.py:1024-1033 | the list fallback loop yields exactly those tuples |
| Registry.SpecOf | sde_to_sql.py:200-796 | each processor's rule table (`NpcCorporationsSpec` and its siblings) lists the `elif` branches of its column loop with the values they read; `Registry.KeyInFirstColumn` and `Registry.LocalizedFallbacks` state what the tables share |
| Registry.Run | sde_to_sql.py:933-935 | a processor gives one tuple per entry, or for type materials one per material, and when it raises it names one of the document's keys |
| Registry.Resolve | sde_to_sql.py:933-935 | a name resolves only to the processor defined under that name |
| Registry.ResolveFindsEveryProcessor | sde_to_sql.py:933-935 | every defined processor is found by its own name |
| Registry.RunProcessor | sde_to_sql.py:934-936 | calling the resolved processor gives its extraction |
| Registry.DispatchOfMappings | sde_to_sql.py:831-918 | of the keyed mappings only `process_type_dogma` has no function, so only it takes the fallback; no list-family processor exists |
| Registry.KeyInFirstColumn | sde_to_sql.py:831-918 | for every mapping with a processor, the first configured column is the processor's id column |
| Registry.LocalizedFallbacks | sde_to_sql.py:207-214 | localized names default to `Unknown` and localized descriptions to the empty text, in every processor |
| Writer.PartCountIsCeiling | sde_to_sql.py:1053 | the part count is the ceiling of rows/1000: zero exactly for no rows |
| Writer.PartSizes | sde_to_sql.py:1055-1057 | every part has 1 to 1000 rows; all but the last have exactly 1000 |
| Writer.PartsConcatenate | sde_to_sql.py:1055-1057 | the parts, concatenated in order, are the rows |
| Writer.FlattenFrom | sde_to_sql.py:1056-1057 | the parts from k on concatenate to the rows from `k*1000` on |
| Writer.LastIndexOf | sde_to_sql.py:1061 | the last position of a character, or -1 when it does not occur |
| Writer.SplitExt | sde_to_sql.py:1061 | `os.path.splitext` on POSIX; what it returns is stated by `Writer.SplitExtParts` |
| Writer.SplitExtParts | sde_to_sql.py:1061 | `splitext` gives a stem and extension that concatenate to the path; the extension is empty or a '.' followed by no '.' or '/' |
| Writer.PartName | sde_to_sql.py:1059-1064 | a single part keeps the output file's name; otherwise the name is the stem, `_`, the part number and the extension, one character plus the number longer than the output name |
| Writer.PartNameKeepsDirectory | sde_to_sql.py:1060-1064 | a part's file lies in the directory of the output file |
| Writer.PartNamesDistinct | sde_to_sql.py:1060-1064 | the parts of a split table get pairwise different names |
| Writer.Preamble | sde_to_sql.py:1066-1078 | the chunks before the values: header, `START TRANSACTION;`, the `DELETE` for part 0 only, the part comment, the insert head, `VALUES`; stated by `Writer.WrittenFiles` and `Writer.DeleteOnlyInFirstPart` |
| Writer.RowLine | sde_to_sql.py:1080-1083 | one values line; `SqlReader.RowLineReadsBack` states that it reads back as the row's literals and its ending |
| Writer.RenderPart | sde_to_sql.py:1059-1085 | the file of one part; its layout is stated by `Writer.PartLayout` and `Writer.WrittenFiles` |
| Writer.RenderFiles | sde_to_sql.py:1053-1087 | the files of a table; stated by `Writer.WriteSqlFile`, `Writer.RenderFilesNames` and `Writer.WrittenFiles` |
| Writer.Literals | sde_to_sql.py:1081 | each value of a row is sanitised in place |
| Writer.RowWrites | sde_to_sql.py:1080-1083 | one values line per row of the part; the last ends with `;`, the others with `,` |
| Writer.WriteValues | sde_to_sql.py:1080-1083 | the `enumerate` loop appends exactly the part's values lines |
| Writer.WritePart | sde_to_sql.py:1055-1085 | the body of the `file_num` loop writes exactly the rendering of part k |
| Writer.WriteSqlFile | sde_to_sql.py:1046-1087 | the writer produces exactly the rendered parts, in order, and nothing for no rows |
| Writer.RenderFilesNames | sde_to_sql.py:1059-1064 | part k is named after the output file, numbered `_k+1` only when the table is split |
| Writer.WrittenFiles | sde_to_sql.py:1055-1073 | there are ceil(rows/1000) files; file k has the part name; it writes the `DELETE` exactly when k is 0 |
| Writer.DeleteOnlyInFirstPart | sde_to_sql.py:1070-1073 | `DELETE FROM table;` is written in part 0 and in no other part |
| Writer.PartLayout | sde_to_sql.py:1075-1085 | after the preamble come the values lines, each ending `,\n` except the last which ends `;\n`, then `COMMIT;` |
| Writer.TwentyFiveHundredRows | sde_to_sql.py:1053-1064 | 2500 rows written to `name.sql` give `name_1.sql`, `name_2.sql`, `name_3.sql` with 1000, 1000 and 500 rows |
| SqlReader.ReadBareToken | sde_to_sql.py:29 | an unquoted value read up to the next `,` or `)` is exactly that value |
| SqlReader.ReadLiteralOf | sde_to_sql.py:1081 | a sanitised value followed by a delimiter reads back as that value's literal |
| SqlReader.ValueReadsAs | sde_to_sql.py:1081 | every sanitised value reads back as its literal whatever delimiter follows |
| SqlReader.ReadJoined | sde_to_sql.py:1083 | values joined with `, ` read back as the list of their literals |
| SqlReader.RowLineReadsBack | sde_to_sql.py:1081-1083 | every values line parses back to the literals of its row and tells whether it was the last |
| SqlReader.PartReadsBack | sde_to_sql.py:1080-1083 | every values line of every part parses back to its row, and only the last says it ends the statement |
| Pipeline.JoinPath | sde_to_sql.py:954-958 | `os.path.join`: the result ends with the second path; an absolute second path replaces the first; otherwise the first path is a prefix and at most one '/' is added |
| Pipeline.FsdJob | sde_to_sql.py:920-962 | a missing file and only a missing file skips the mapping; a failure happens only for a defined processor and names a key of the document |
| Pipeline.FsdRun | sde_to_sql.py:920-962 | the keyed run, mapping after mapping; stated by `Pipeline.ProcessFsdData`, `Pipeline.MissingFileAddsNothing` and `Pipeline.FailureEndsRun` |
| Pipeline.BsdJob | sde_to_sql.py:1006-1044 | a missing file and only a missing file skips the mapping; a mapping fails exactly when its file is present and its processor is defined |
| Pipeline.BsdRun | sde_to_sql.py:1006-1044 | the list run, mapping after mapping; stated by `Pipeline.ProcessBsdData` and `Pipeline.BsdTakesDefault` |
| Pipeline.FsdStep | sde_to_sql.py:920-962 | one keyed mapping: a missing file writes nothing; otherwise the processor or the fallback runs and its rows are written under `fsd/<table>.sql` |
| Pipeline.ProcessFsdData | sde_to_sql.py:920-962 | the loop over the keyed mappings writes each table's files in mapping order and stops at the first failure |
| Pipeline.BsdStep | sde_to_sql.py:1006-1044 | one list mapping: a missing file writes nothing; otherwise the fallback runs and its rows are written under `bsd/<table>.sql` |
| Pipeline.ProcessBsdData | sde_to_sql.py:1006-1044 | the loop over the list mappings writes each table's files in mapping order |
| Pipeline.FsdRowsArity | sde_to_sql.py:931-951 | whatever produced them, a keyed table's tuples have one value per configured column |
| Pipeline.RunArity | sde_to_sql.py:933-935 | every processor's tuples have one value per column |
| Pipeline.FsdFilesInFamilyDirectory | sde_to_sql.py:953-959 | every file of a keyed table lies directly in `<output>/fsd` |
| Pipeline.TableFileDirectory | sde_to_sql.py:953-959 | `<dir>/<table>.sql` has `<dir>/` as prefix and no '/' after it |
| Pipeline.TypeDogmaTakesDefault | sde_to_sql.py:913-917 | `typeDogma.yaml` takes the fallback: key in `type_id`, the two other columns None when absent |
| Pipeline.BsdTakesDefault | sde_to_sql.py:1017-1033 | every list-family table takes the fallback rows |
| Pipeline.MissingFileAddsNothing | sde_to_sql.py:922-924 | a mapping whose file is missing writes nothing and the run goes on |
| Pipeline.FailureEndsRun | sde_to_sql.py:920-962 | an entry that raises ends the run with no files reported after it |
| Universe.SafeName | sde_to_sql.py:146 | the safe name is as long as the name |
| Universe.SafeNameChars | sde_to_sql.py:146 | letters and digits stay where they are, every other character becomes '_', so only letters, digits and '_' remain |
| Universe.SafeNameIdempotent | sde_to_sql.py:146 | replacing twice is replacing once; a name of letters and digits is unchanged |
| Universe.SafeNamesCanCollide | sde_to_sql.py:146-149 | `A B` and `A-B` get the same safe name, so their scripts share a file name |
| Universe.RegionName | sde_to_sql.py:145 | the name of the first region with the id, or none exactly when no region has it |
| Universe.ConstellationName | sde_to_sql.py:157 | the name of the first constellation with the id, or none exactly when no constellation has it |
| Universe.RegionOrderDistinct | sde_to_sql.py:140-142 | each region is listed once |
| Universe.RegionOrderCovers | sde_to_sql.py:140-142 | the regions listed are exactly the regions of the systems |
| Universe.InRegionMembers | sde_to_sql.py:140-142 | a region's list holds exactly the systems of that region |
| Universe.UnmetRegionIsEmpty | sde_to_sql.py:140-142 | a region not yet met has no systems |
| Universe.GroupSystems | sde_to_sql.py:140-142 | the `defaultdict` loop yields the regions in first-seen order, each with its systems in their original order |
| Universe.GroupsPartitionSystems | sde_to_sql.py:140-144 | the groups have distinct regions, none is empty, each holds only its region's systems, and every system is in its region's group |
| Universe.SystemRow | sde_to_sql.py:153-162 | a system's tuple has its eight cells in column order: id, name, constellation id, the constellation's name (None when no constellation has the id), region id, the region's name (None likewise), security status and class |
| Universe.SystemRows | sde_to_sql.py:151-164 | one tuple per system of the region, tuple i being system i's |
| Universe.GroupByRegion | sde_to_sql.py:140-142 | the `systems_by_region` items; stated by `Universe.GroupSystems` and `Universe.GroupsPartitionSystems` |
| Universe.RegionFile | sde_to_sql.py:145-149 | a region's script lies under the universe directory and ends in `.sql` |
| Universe.RegionFiles | sde_to_sql.py:144-164 | the files of the per-region loop; stated by `Universe.WriteSystemsByRegion` and `Universe.RegionScriptClearsSystemsTable` |
| Universe.UniverseFiles | sde_to_sql.py:119-164 | regions script, constellations script, then the per-region scripts; stated by `Universe.WriteUniverse` |
| Universe.WriteSystemsByRegion | sde_to_sql.py:144-164 | the per-region loop writes each group's scripts, group after group |
| Universe.RegionRows | sde_to_sql.py:123-128 | one `(region_id, region_name)` tuple per region, in order |
| Universe.ConstellationRows | sde_to_sql.py:131-136 | one `(constellation_id, constellation_name, region_id)` tuple per constellation, in order |
| Universe.WriteUniverse | sde_to_sql.py:119-164 | the regions script, then the constellations script, then the per-region system scripts |
| Universe.RegionScriptClearsSystemsTable | sde_to_sql.py:144-164 | every region's first script writes `DELETE FROM eve_solar_systems;` |

## Left out

- Reading the SDE is not modelled. Walking the directories, `os.path.exists`, `os.listdir`, YAML loading, `ensure_directory` and every `print` are I/O. Documents come in as parameters: a `map` from file name to document, each document an ordered sequence of entries.
- Writing files is not modelled. The writer returns the chunks it would write, and `SqlFile.Text` joins them.
- `datetime.now()` is replaced by a timestamp parameter. The source reads the clock once per part; the model uses one timestamp per run.
- Writer.Header: `%Y` is rendered as the C library prints it, without zero-padding below year 1000.
- Floats, and the `str()` of a mapping or a list, are carried as the text Python would print; they are not computed.
- SqlReader.RowLineReadsBack: it assumes that this float text is non-empty and holds no `,`, `)` or quote (`Separable`).
- Entering the keyed run: `process_fsd_data` is defined inside the `__main__` block after `main()` has already called it, and its mapping loop sits at module level. The model keeps only the intended loop body.
- `main`'s argument checks are left out.
- The `getattr(sys.modules[...])` reflection itself is left out; an explicit registry stands in for it.
- The materials/products loops of `process_blueprints` are left out. They compute nothing that is emitted; the model only checks that they can run: the value they iterate must be iterable and every element it yields must be a mapping (`material.get` raises otherwise).
- Sanitize.LiteralCannotBreakOut: holds for a lexer whose only escape inside a literal is `''`. Under backslash escapes (MySQL's default SQL mode), a text ending in `\` escapes the closing quote, so the literal does not end where the writer meant; the model does not describe that dialect.
- Universe.GroupByRegion, Universe.RegionName, Universe.ConstellationName: ids are compared by value identity of the model's `Value`. Python's `==` also equates `1`, `1.0` and `True`, and compares mappings and lists by content without their printed text; mixed-type numeric ids are not unified here.
- `process_landmarks` is not part of this model.
- Only the output half of `process_universe_data` is modelled. The system records, regions and constellations arrive as parameters, because the directory walk that gathers them is I/O.
- `yaml.safe_load` of an empty file gives `None`, on which `.items()` raises. That document shape is not modelled.
- A list-family document that a defined processor would have to read can only be a failure (a list has no `.items()`). No such processor exists, so that branch is never taken.
