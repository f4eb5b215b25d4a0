/**
 * The solar-system output of the universe walk, after the walk itself: the
 * systems are grouped by region in the order regions are first met, each
 * region's systems are laid out as rows (looking up the constellation and
 * region names), and each region goes to its own script, named after the
 * region with every character outside [a-zA-Z0-9] replaced by '_'.
 */
module Universe {
  import opened Wrappers
  import opened PyValues
  import opened Extract
  import opened Writer
  import opened Pipeline

  /** A solar system as the walk records it. */
  datatype SolarSystem = SolarSystem(systemId: Value, systemName: Value, constellationId: Value, regionId: Value,
                                     security: Value, securityClass: Value)

  datatype Region = Region(regionId: Value, regionName: string)

  datatype Constellation = Constellation(constellationId: Value, constellationName: string, regionId: Value)

  // ------------------------------------------------------------- safe names

  /** The character class `[a-zA-Z0-9]`. */
  predicate IsAlnum(c: char) {
    ('a' <= c <= 'z') || ('A' <= c <= 'Z') || ('0' <= c <= '9')
  }

  /** `re.sub(r'[^a-zA-Z0-9]', '_', name)`. */
  function SafeName(name: string): (r: string)
    ensures |r| == |name|
  {
    if name == [] then []
    else [if IsAlnum(name[0]) then name[0] else '_'] + SafeName(name[1..])
  }

  /**
   * A safe name keeps every letter and digit where it was, puts '_' in place
   * of everything else, and so consists of letters, digits and '_' only.
   */
  lemma {:induction false} SafeNameChars(name: string)
    ensures forall i :: 0 <= i < |name| ==>
              SafeName(name)[i] == (if IsAlnum(name[i]) then name[i] else '_')
    ensures forall i :: 0 <= i < |name| ==> IsAlnum(SafeName(name)[i]) || SafeName(name)[i] == '_'
  {
    if name != [] {
      SafeNameChars(name[1..]);
      forall i | 1 <= i < |name|
        ensures SafeName(name)[i] == SafeName(name[1..])[i - 1]
      {
      }
    }
  }

  /** Replacing again changes nothing, and a name of letters and digits is its own safe name. */
  lemma SafeNameIdempotent(name: string)
    ensures SafeName(SafeName(name)) == SafeName(name)
    ensures (forall i :: 0 <= i < |name| ==> IsAlnum(name[i])) ==> SafeName(name) == name
  {
    SafeNameChars(name);
    SafeNameChars(SafeName(name));
  }

  /** Different region names can share a safe name, and then their scripts share a file name. */
  lemma SafeNamesCanCollide()
    ensures SafeName("A B") == SafeName("A-B") == "A_B"
  {
    SafeNameChars("A B");
    SafeNameChars("A-B");
    assert !IsAlnum(' ') && !IsAlnum('-');
  }

  // ----------------------------------------------------------- name lookups

  /** `next((r['region_name'] for r in regions if r['region_id'] == id), None)`. */
  function RegionName(regions: seq<Region>, id: Value): (r: Option<string>)
    ensures r.None? <==> forall i :: 0 <= i < |regions| ==> regions[i].regionId != id
    ensures r.Some? ==> exists i :: 0 <= i < |regions| && regions[i].regionId == id && regions[i].regionName == r.value
                                    && forall j :: 0 <= j < i ==> regions[j].regionId != id
  {
    if regions == [] then None
    else if regions[0].regionId == id then Some(regions[0].regionName)
    else
      var r := RegionName(regions[1..], id);
      assert forall i :: 1 <= i < |regions| ==> regions[i] == regions[1..][i - 1];
      r
  }

  /** `next((c['constellation_name'] for c in constellations if c['constellation_id'] == id), None)`. */
  function ConstellationName(constellations: seq<Constellation>, id: Value): (r: Option<string>)
    ensures r.None? <==> forall i :: 0 <= i < |constellations| ==> constellations[i].constellationId != id
    ensures r.Some? ==> exists i :: 0 <= i < |constellations| && constellations[i].constellationId == id
                                    && constellations[i].constellationName == r.value
                                    && forall j :: 0 <= j < i ==> constellations[j].constellationId != id
  {
    if constellations == [] then None
    else if constellations[0].constellationId == id then Some(constellations[0].constellationName)
    else
      var r := ConstellationName(constellations[1..], id);
      assert forall i :: 1 <= i < |constellations| ==> constellations[i] == constellations[1..][i - 1];
      r
  }

  function NameOrNull(name: Option<string>): Value {
    match name
    case Some(n) => Text(n)
    case None => Null
  }

  // --------------------------------------------------------------- grouping

  /** The regions of `systems` in the order they are first met. */
  function RegionOrder(systems: seq<SolarSystem>): seq<Value> {
    if systems == [] then []
    else
      var seen := RegionOrder(systems[..|systems| - 1]);
      var r := systems[|systems| - 1].regionId;
      if r in seen then seen else seen + [r]
  }

  /** The systems of one region, in their original order. */
  function InRegion(systems: seq<SolarSystem>, region: Value): seq<SolarSystem> {
    if systems == [] then []
    else
      var last := systems[|systems| - 1];
      InRegion(systems[..|systems| - 1], region) + (if last.regionId == region then [last] else [])
  }

  /** The `systems_by_region` dictionary, as its items in insertion order. */
  function GroupByRegion(systems: seq<SolarSystem>): seq<(Value, seq<SolarSystem>)> {
    var order := RegionOrder(systems);
    seq(|order|, j requires 0 <= j < |order| => (order[j], InRegion(systems, order[j])))
  }

  /** Each region is met once. */
  lemma {:induction false} RegionOrderDistinct(systems: seq<SolarSystem>)
    ensures forall i, j :: 0 <= i < j < |RegionOrder(systems)| ==> RegionOrder(systems)[i] != RegionOrder(systems)[j]
  {
    if systems != [] {
      RegionOrderDistinct(systems[..|systems| - 1]);
    }
  }

  /** The regions met are exactly the regions of the systems. */
  lemma {:induction false} RegionOrderCovers(systems: seq<SolarSystem>)
    ensures forall k :: 0 <= k < |systems| ==> systems[k].regionId in RegionOrder(systems)
    ensures forall r :: r in RegionOrder(systems) ==> exists k :: 0 <= k < |systems| && systems[k].regionId == r
  {
    if systems != [] {
      var front := systems[..|systems| - 1];
      RegionOrderCovers(front);
      assert forall k :: 0 <= k < |front| ==> front[k] == systems[k];
    }
  }

  /** A region's group holds exactly the systems of that region, and the group of a region met is never empty. */
  lemma {:induction false} InRegionMembers(systems: seq<SolarSystem>, region: Value)
    ensures forall s :: s in InRegion(systems, region) ==> s in systems && s.regionId == region
    ensures forall s :: s in systems && s.regionId == region ==> s in InRegion(systems, region)
  {
    if systems != [] {
      var front := systems[..|systems| - 1];
      InRegionMembers(front, region);
      assert systems == front + [systems[|systems| - 1]];
    }
  }

  /** A region not yet met has no systems. */
  lemma {:induction false} UnmetRegionIsEmpty(systems: seq<SolarSystem>, region: Value)
    requires region !in RegionOrder(systems)
    ensures InRegion(systems, region) == []
  {
    if systems != [] {
      UnmetRegionIsEmpty(systems[..|systems| - 1], region);
    }
  }

  /** What appending the next system does to the order of regions and to each region's group. */
  lemma GroupStep(systems: seq<SolarSystem>, i: nat)
    requires i < |systems|
    ensures RegionOrder(systems[..i + 1]) == (var seen := RegionOrder(systems[..i]);
                                             if systems[i].regionId in seen then seen else seen + [systems[i].regionId])
    ensures forall r :: InRegion(systems[..i + 1], r)
                        == InRegion(systems[..i], r) + (if systems[i].regionId == r then [systems[i]] else [])
  {
    assert systems[..i + 1][..i] == systems[..i];
  }

  /** `order` and `byRegion` are the dictionary's keys and values after the systems of `prefix`. */
  ghost predicate Tracks(prefix: seq<SolarSystem>, order: seq<Value>, byRegion: map<Value, seq<SolarSystem>>) {
    && order == RegionOrder(prefix)
    && (forall r :: r in byRegion <==> r in order)
    && (forall r :: r in byRegion ==> byRegion[r] == InRegion(prefix, r))
  }

  /** Appending a system of a region already met to that region's list. */
  lemma TracksExtend(systems: seq<SolarSystem>, i: nat, order: seq<Value>, byRegion: map<Value, seq<SolarSystem>>)
    requires i < |systems| && Tracks(systems[..i], order, byRegion) && systems[i].regionId in byRegion
    ensures Tracks(systems[..i + 1], order, byRegion[systems[i].regionId := byRegion[systems[i].regionId] + [systems[i]]])
  {
    GroupStep(systems, i);
    var s := systems[i];
    var next := byRegion[s.regionId := byRegion[s.regionId] + [s]];
    forall r | r in next
      ensures next[r] == InRegion(systems[..i + 1], r)
    {
      if r != s.regionId {
        assert next[r] == byRegion[r];
      }
    }
  }

  /** Starting the list of a region met for the first time. */
  lemma TracksNew(systems: seq<SolarSystem>, i: nat, order: seq<Value>, byRegion: map<Value, seq<SolarSystem>>)
    requires i < |systems| && Tracks(systems[..i], order, byRegion) && systems[i].regionId !in byRegion
    ensures Tracks(systems[..i + 1], order + [systems[i].regionId], byRegion[systems[i].regionId := [systems[i]]])
  {
    GroupStep(systems, i);
    var s := systems[i];
    UnmetRegionIsEmpty(systems[..i], s.regionId);
    var next := byRegion[s.regionId := [s]];
    forall r | r in next
      ensures next[r] == InRegion(systems[..i + 1], r)
    {
      if r != s.regionId {
        assert next[r] == byRegion[r];
      }
    }
  }

  /** `systems_by_region` built by the converter's loop, handed back as its items. */
  method GroupSystems(systems: seq<SolarSystem>) returns (groups: seq<(Value, seq<SolarSystem>)>)
    ensures groups == GroupByRegion(systems)
  {
    var order: seq<Value> := [];
    var byRegion: map<Value, seq<SolarSystem>> := map[];
    for i := 0 to |systems|
      invariant Tracks(systems[..i], order, byRegion)
    {
      var s := systems[i];
      if s.regionId in byRegion {
        TracksExtend(systems, i, order, byRegion);
        byRegion := byRegion[s.regionId := byRegion[s.regionId] + [s]];
      } else {
        TracksNew(systems, i, order, byRegion);
        order := order + [s.regionId];
        byRegion := byRegion[s.regionId := [s]];
      }
    }
    assert systems[..|systems|] == systems;
    groups := seq(|order|, j requires 0 <= j < |order| => (order[j], byRegion[order[j]]));
  }

  /**
   * The groups split the systems by region: one group per region, every
   * system in the group of its own region, and no group empty or holding a
   * system of another region.
   */
  lemma GroupsPartitionSystems(systems: seq<SolarSystem>)
    ensures var groups := GroupByRegion(systems);
            && (forall i, j :: 0 <= i < j < |groups| ==> groups[i].0 != groups[j].0)
            && (forall k :: 0 <= k < |systems| ==>
                  exists j :: 0 <= j < |groups| && groups[j].0 == systems[k].regionId && systems[k] in groups[j].1)
            && (forall j :: 0 <= j < |groups| ==> groups[j].1 != [])
            && (forall j, t :: 0 <= j < |groups| && t in groups[j].1 ==> t in systems && t.regionId == groups[j].0)
  {
    var groups := GroupByRegion(systems);
    var order := RegionOrder(systems);
    RegionOrderDistinct(systems);
    RegionOrderCovers(systems);
    forall r | r in order
      ensures InRegion(systems, r) != []
      ensures forall t :: t in InRegion(systems, r) ==> t in systems && t.regionId == r
    {
      InRegionMembers(systems, r);
      var k :| 0 <= k < |systems| && systems[k].regionId == r;
      assert systems[k] in InRegion(systems, r);
    }
    forall k | 0 <= k < |systems|
      ensures exists j :: 0 <= j < |groups| && groups[j].0 == systems[k].regionId && systems[k] in groups[j].1
    {
      var j :| 0 <= j < |order| && order[j] == systems[k].regionId;
      InRegionMembers(systems, order[j]);
      assert groups[j].0 == systems[k].regionId && systems[k] in groups[j].1;
    }
  }

  // ------------------------------------------------------------- the output

  const SystemColumns := ["system_id", "system_name", "constellation_id", "constellation_name",
                          "region_id", "region_name", "security_status", "security_class"]

  /** The tuple of one system, with its constellation's and region's names looked up. */
  function SystemRow(s: SolarSystem, regions: seq<Region>, constellations: seq<Constellation>): (r: Row)
    ensures |r| == |SystemColumns|
    ensures r[0] == s.systemId && r[1] == s.systemName && r[2] == s.constellationId && r[4] == s.regionId
            && r[6] == s.security && r[7] == s.securityClass
    ensures r[3] == (if exists i :: 0 <= i < |constellations| && constellations[i].constellationId == s.constellationId
                     then Text(ConstellationName(constellations, s.constellationId).value) else Null)
    ensures r[5] == (if exists i :: 0 <= i < |regions| && regions[i].regionId == s.regionId
                     then Text(RegionName(regions, s.regionId).value) else Null)
  {
    [s.systemId, s.systemName, s.constellationId, NameOrNull(ConstellationName(constellations, s.constellationId)),
     s.regionId, NameOrNull(RegionName(regions, s.regionId)), s.security, s.securityClass]
  }

  function SystemRows(systems: seq<SolarSystem>, regions: seq<Region>, constellations: seq<Constellation>): (r: seq<Row>)
    ensures |r| == |systems|
    ensures forall i :: 0 <= i < |systems| ==> r[i] == SystemRow(systems[i], regions, constellations)
  {
    seq(|systems|, i requires 0 <= i < |systems| => SystemRow(systems[i], regions, constellations))
  }

  /** The script of one region: named after the region's name, or its id's text when no region has that id. */
  function RegionFile(universeDir: string, regions: seq<Region>, id: Value): (r: string)
    ensures universeDir <= r
    ensures |r| >= 4 && r[|r| - 4..] == ".sql"
  {
    var name := match RegionName(regions, id) case Some(n) => n case None => Str(id);
    JoinPath(universeDir, "eve_solar_systems_" + SafeName(name) + ".sql")
  }

  /** What the per-region loop writes: each group's files, group after group. */
  function RegionFiles(universeDir: string, groups: seq<(Value, seq<SolarSystem>)>, regions: seq<Region>,
                       constellations: seq<Constellation>, stamp: Timestamp): seq<SqlFile> {
    if groups == [] then []
    else
      RenderFiles(RegionFile(universeDir, regions, groups[0].0), "eve_solar_systems", SystemColumns,
                  SystemRows(groups[0].1, regions, constellations), stamp)
      + RegionFiles(universeDir, groups[1..], regions, constellations, stamp)
  }

  /** The files of group `g` come right after those of the groups before it. */
  lemma RegionFilesStep(universeDir: string, groups: seq<(Value, seq<SolarSystem>)>, regions: seq<Region>,
                        constellations: seq<Constellation>, stamp: Timestamp, g: nat, done: seq<SqlFile>, written: seq<SqlFile>)
    requires g < |groups|
    requires written == RenderFiles(RegionFile(universeDir, regions, groups[g].0), "eve_solar_systems", SystemColumns,
                                    SystemRows(groups[g].1, regions, constellations), stamp)
    ensures done + RegionFiles(universeDir, groups[g..], regions, constellations, stamp)
            == (done + written) + RegionFiles(universeDir, groups[g + 1..], regions, constellations, stamp)
  {
    assert groups[g..][0] == groups[g] && groups[g..][1..] == groups[g + 1..];
    var rest := RegionFiles(universeDir, groups[g + 1..], regions, constellations, stamp);
    assert RegionFiles(universeDir, groups[g..], regions, constellations, stamp) == written + rest;
    assert done + (written + rest) == (done + written) + rest;
  }

  /** The per-region loop of the universe output. */
  method WriteSystemsByRegion(universeDir: string, systems: seq<SolarSystem>, regions: seq<Region>,
                              constellations: seq<Constellation>, stamp: Timestamp) returns (files: seq<SqlFile>)
    ensures files == RegionFiles(universeDir, GroupByRegion(systems), regions, constellations, stamp)
  {
    var groups := GroupSystems(systems);
    files := [];
    for g := 0 to |groups|
      invariant RegionFiles(universeDir, groups, regions, constellations, stamp)
                == files + RegionFiles(universeDir, groups[g..], regions, constellations, stamp)
    {
      var (regionId, members) := groups[g];
      var rows := SystemRows(members, regions, constellations);
      var written := WriteSqlFile(RegionFile(universeDir, regions, regionId), "eve_solar_systems", SystemColumns, rows, stamp);
      RegionFilesStep(universeDir, groups, regions, constellations, stamp, g, files, written);
      files := files + written;
    }
    assert groups[|groups|..] == [];
  }

  /** The regions script: `(region_id, region_name)` under the table name the source gives it. */
  function RegionRows(regions: seq<Region>): (r: seq<Row>)
    ensures |r| == |regions|
    ensures forall i :: 0 <= i < |regions| ==> r[i] == [regions[i].regionId, Text(regions[i].regionName)]
  {
    seq(|regions|, i requires 0 <= i < |regions| => [regions[i].regionId, Text(regions[i].regionName)])
  }

  /** The constellations script: `(constellation_id, constellation_name, region_id)`. */
  function ConstellationRows(constellations: seq<Constellation>): (r: seq<Row>)
    ensures |r| == |constellations|
    ensures forall i :: 0 <= i < |constellations| ==>
              r[i] == [constellations[i].constellationId, Text(constellations[i].constellationName), constellations[i].regionId]
  {
    seq(|constellations|, i requires 0 <= i < |constellations| =>
      [constellations[i].constellationId, Text(constellations[i].constellationName), constellations[i].regionId])
  }

  /** Everything the universe output writes, in the order it writes it. */
  function UniverseFiles(outputDir: string, systems: seq<SolarSystem>, regions: seq<Region>,
                         constellations: seq<Constellation>, stamp: Timestamp): seq<SqlFile> {
    var universeDir := JoinPath(outputDir, "universe");
    RenderFiles(JoinPath(universeDir, "eve_regions.sql"), "eve_solar_systems", ["region_id", "region_name"],
                RegionRows(regions), stamp)
    + RenderFiles(JoinPath(universeDir, "eve_constellations.sql"), "eve_solar_systems",
                  ["constellation_id", "constellation_name", "region_id"], ConstellationRows(constellations), stamp)
    + RegionFiles(universeDir, GroupByRegion(systems), regions, constellations, stamp)
  }

  /** The output half of the universe walk, once the regions, constellations and systems are gathered. */
  method WriteUniverse(outputDir: string, systems: seq<SolarSystem>, regions: seq<Region>,
                       constellations: seq<Constellation>, stamp: Timestamp) returns (files: seq<SqlFile>)
    ensures files == UniverseFiles(outputDir, systems, regions, constellations, stamp)
  {
    var universeDir := JoinPath(outputDir, "universe");
    var regionFiles := WriteSqlFile(JoinPath(universeDir, "eve_regions.sql"), "eve_solar_systems",
                                    ["region_id", "region_name"], RegionRows(regions), stamp);
    var constellationFiles := WriteSqlFile(JoinPath(universeDir, "eve_constellations.sql"), "eve_solar_systems",
                                           ["constellation_id", "constellation_name", "region_id"],
                                           ConstellationRows(constellations), stamp);
    var systemFiles := WriteSystemsByRegion(universeDir, systems, regions, constellations, stamp);
    files := regionFiles + constellationFiles + systemFiles;
  }

  /**
   * Every region's first script begins by clearing the whole
   * `eve_solar_systems` table, so the scripts of the regions each clear what
   * the scripts before them inserted.
   */
  lemma RegionScriptClearsSystemsTable(universeDir: string, systems: seq<SolarSystem>, regions: seq<Region>,
                                       constellations: seq<Constellation>, stamp: Timestamp, j: nat)
    requires j < |GroupByRegion(systems)|
    ensures var group := GroupByRegion(systems)[j];
            var files := RenderFiles(RegionFile(universeDir, regions, group.0), "eve_solar_systems", SystemColumns,
                                     SystemRows(group.1, regions, constellations), stamp);
            |files| > 0 && DeleteStatement("eve_solar_systems") in files[0].writes
  {
    var group := GroupByRegion(systems)[j];
    GroupsPartitionSystems(systems);
    assert group.1 != [];
    WrittenFiles(RegionFile(universeDir, regions, group.0), "eve_solar_systems", SystemColumns,
                 SystemRows(group.1, regions, constellations), stamp, 0);
  }
}
