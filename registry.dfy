/**
 * The registry of entity kinds: which processors exist, the rule table of
 * each, and the file-to-table mappings of the two data families.  The
 * converter finds a mapping's processor by looking its name up among the
 * module's functions; here that lookup is the explicit `Resolve`.
 */
module Registry {
  import opened Wrappers
  import opened PyValues
  import opened Extract

  /** The processors the converter defines. */
  datatype Processor =
    | NpcCorporations | Agents | CorporationDivisions | Races | Bloodlines | Ancestries
    | Categories | Groups | Types | MetaGroups | MarketGroups | Factions | Blueprints
    | TypeMaterials | DogmaAttributes | DogmaEffects

  /** The function name under which each processor is defined. */
  function Name(p: Processor): string {
    match p
    case NpcCorporations => "process_npc_corporations"
    case Agents => "process_agents"
    case CorporationDivisions => "process_corporation_divisions"
    case Races => "process_races"
    case Bloodlines => "process_bloodlines"
    case Ancestries => "process_ancestries"
    case Categories => "process_categories"
    case Groups => "process_groups"
    case Types => "process_types"
    case MetaGroups => "process_meta_groups"
    case MarketGroups => "process_market_groups"
    case Factions => "process_factions"
    case Blueprints => "process_blueprints"
    case TypeMaterials => "process_type_materials"
    case DogmaAttributes => "process_dogma_attributes"
    case DogmaEffects => "process_dogma_effects"
  }

  /**
   * `hasattr(module, name)` followed by `getattr(module, name)`: the
   * processor defined under that name, if there is one.
   */
  function Resolve(name: string): (r: Option<Processor>)
    ensures r.Some? ==> Name(r.value) == name
  {
    match name
    case "process_npc_corporations" => Some(NpcCorporations)
    case "process_agents" => Some(Agents)
    case "process_corporation_divisions" => Some(CorporationDivisions)
    case "process_races" => Some(Races)
    case "process_bloodlines" => Some(Bloodlines)
    case "process_ancestries" => Some(Ancestries)
    case "process_categories" => Some(Categories)
    case "process_groups" => Some(Groups)
    case "process_types" => Some(Types)
    case "process_meta_groups" => Some(MetaGroups)
    case "process_market_groups" => Some(MarketGroups)
    case "process_factions" => Some(Factions)
    case "process_blueprints" => Some(Blueprints)
    case "process_type_materials" => Some(TypeMaterials)
    case "process_dogma_attributes" => Some(DogmaAttributes)
    case "process_dogma_effects" => Some(DogmaEffects)
    case _ => None
  }

  /** Every defined processor is found under its own name. */
  lemma ResolveFindsEveryProcessor(p: Processor)
    ensures Resolve(Name(p)) == Some(p)
  {
    match p
    case NpcCorporations =>
    case Agents =>
    case CorporationDivisions =>
    case Races =>
    case Bloodlines =>
    case Ancestries =>
    case Categories =>
    case Groups =>
    case Types =>
    case MetaGroups =>
    case MarketGroups =>
    case Factions =>
    case Blueprints =>
    case TypeMaterials =>
    case DogmaAttributes =>
    case DogmaEffects =>
  }

  // ------------------------------------------------------------ rule tables

  /** The rule table of each processor (the `elif` branches of its column loop and the values they use). */
  function SpecOf(p: Processor): KindSpec {
    match p
    case NpcCorporations => NpcCorporationsSpec
    case Agents => AgentsSpec
    case CorporationDivisions => CorporationDivisionsSpec
    case Races => RacesSpec
    case Bloodlines => BloodlinesSpec
    case Ancestries => AncestriesSpec
    case Categories => CategoriesSpec
    case Groups => GroupsSpec
    case Types => TypesSpec
    case MetaGroups => MetaGroupsSpec
    case MarketGroups => MarketGroupsSpec
    case Factions => FactionsSpec
    case Blueprints => BlueprintsSpec
    case TypeMaterials => TypeMaterialsSpec
    case DogmaAttributes => DogmaAttributesSpec
    case DogmaEffects => DogmaEffectsSpec
  }

  const NpcCorporationsSpec := KindSpec("corporation_id", [
    ("corporation_name", Localized("nameID", "Unknown")),
    ("ticker", FieldOr("tickerName", Text(""))),
    ("ceo_character_id", Field("ceoID")),
    ("tax_rate", FieldOr("taxRate", Float("0.0"))),
    ("member_count", FieldOr("memberLimit", Int(0))),
    ("alliance_id", Constant(Null)),
    ("faction_id", Field("factionID")),
    ("description", Localized("descriptionID", ""))], false)

  const AgentsSpec := KindSpec("agent_id", [
    ("is_locator", Flag("isLocator")),
    ("agent_type_id", Field("agentTypeID")),
    ("corporation_id", Field("corporationID")),
    ("division_id", Field("divisionID")),
    ("level", Field("level")),
    ("location_id", Field("locationID"))], false)

  const CorporationDivisionsSpec := KindSpec("division_id", [
    ("division_name", Localized("nameID", "Unknown")),
    ("description", FieldOr("description", Text(""))),
    ("leader_type_name", Localized("leaderTypeNameID", "")),
    ("internal_name", FieldOr("internalName", Text("")))], false)

  const RacesSpec := KindSpec("race_id", [
    ("race_name", Localized("nameID", "Unknown")),
    ("description", Localized("descriptionID", "")),
    ("icon_id", Field("iconID")),
    ("ship_type_id", Field("shipTypeID"))], false)

  const BloodlinesSpec := KindSpec("bloodline_id", [
    ("bloodline_name", Localized("nameID", "Unknown")),
    ("description", Localized("descriptionID", "")),
    ("race_id", Field("raceID")),
    ("corporation_id", Field("corporationID")),
    ("charisma", Field("charisma")),
    ("intelligence", Field("intelligence")),
    ("memory", Field("memory")),
    ("perception", Field("perception")),
    ("willpower", Field("willpower"))], false)

  const AncestriesSpec := KindSpec("ancestry_id", [
    ("ancestry_name", Localized("nameID", "Unknown")),
    ("description", Localized("descriptionID", "")),
    ("bloodline_id", Field("bloodlineID")),
    ("short_description", FieldOr("shortDescription", Text(""))),
    ("icon_id", Field("iconID"))], false)

  const CategoriesSpec := KindSpec("category_id", [
    ("category_name", Localized("name", "Unknown")),
    ("published", Flag("published"))], false)

  const GroupsSpec := KindSpec("group_id", [
    ("group_name", Localized("name", "Unknown")),
    ("category_id", Field("categoryID")),
    ("published", Flag("published")),
    ("anchorable", Flag("anchorable")),
    ("anchored", Flag("anchored")),
    ("fittable_non_singleton", Flag("fittableNonSingleton"))], false)

  const TypesSpec := KindSpec("type_id", [
    ("type_name", Localized("name", "Unknown")),
    ("group_id", Field("groupID")),
    ("published", Flag("published")),
    ("mass", Field("mass")),
    ("volume", Field("volume")),
    ("capacity", Field("capacity")),
    ("portion_size", Field("portionSize"))], false)

  const MetaGroupsSpec := KindSpec("meta_group_id", [
    ("meta_group_name", Localized("nameID", "Unknown")),
    ("icon_id", Field("iconID"))], false)

  const MarketGroupsSpec := KindSpec("market_group_id", [
    ("market_group_name", Localized("nameID", "Unknown")),
    ("description", Localized("descriptionID", "")),
    ("icon_id", Field("iconID")),
    ("has_types", Flag("hasTypes"))], false)

  const FactionsSpec := KindSpec("faction_id", [
    ("faction_name", Localized("nameID", "Unknown")),
    ("description", Localized("descriptionID", "")),
    ("corporation_id", Field("corporationID")),
    ("militia_corporation_id", Field("militiaCorporationID")),
    ("size_factor", Field("sizeFactor")),
    ("station_count", Constant(Int(0))),
    ("station_system_count", Constant(Int(0))),
    ("is_unique", Flag("uniqueName"))], false)

  const BlueprintsSpec := KindSpec("blueprint_type_id", [
    ("max_production_limit", Field("maxProductionLimit")),
    ("copying_time", ActivityTime("copying")),
    ("manufacturing_time", ActivityTime("manufacturing")),
    ("research_material_time", ActivityTime("research_material")),
    ("research_time_time", ActivityTime("research_time"))], true)

  const TypeMaterialsSpec := KindSpec("type_id", [
    ("material_type_id", Field("materialTypeID")),
    ("quantity", Field("quantity"))], false)

  const DogmaAttributesSpec := KindSpec("attribute_id", [
    ("attribute_name", FieldOr("name", Text(""))),
    ("display_name", Localized("displayNameID", "")),
    ("category_id", Field("categoryID")),
    ("data_type", Field("dataType")),
    ("default_value", Field("defaultValue")),
    ("description", FieldOr("description", Text(""))),
    ("icon_id", Field("iconID")),
    ("unit_id", Field("unitID")),
    ("published", Flag("published")),
    ("stackable", Flag("stackable")),
    ("high_is_good", Flag("highIsGood"))], false)

  const DogmaEffectsSpec := KindSpec("effect_id", [
    ("effect_name", FieldOr("effectName", Text(""))),
    ("effect_category", Field("effectCategory")),
    ("is_offensive", Flag("isOffensive")),
    ("is_assistance", Flag("isAssistance")),
    ("duration_attribute_id", Field("durationAttributeID")),
    ("discharge_attribute_id", Field("dischargeAttributeID")),
    ("range_attribute_id", Field("rangeAttributeID")),
    ("falloff_attribute_id", Field("falloffAttributeID")),
    ("tracking_speed_attribute_id", Field("trackingSpeedAttributeID")),
    ("fitting_usage_chance_attribute_id", Field("fittingUsageChanceAttributeID")),
    ("resist_attribute_id", Field("resistanceAttributeID")),
    ("published", Flag("published")),
    ("electronic_chance", Flag("electronicChance")),
    ("propulsion_chance", Flag("propulsionChance"))], false)

  /** The list of child records `process_type_materials` walks under each entry. */
  const MaterialsField := "materials"

  /** What a processor returns for a document: `process_type_materials` is the one-to-many kind. */
  function Run(p: Processor, doc: Document, columns: seq<string>): (r: Outcome)
    ensures r.Rows? && p != TypeMaterials ==> |r.rows| == |doc|
    ensures r.Rows? && p == TypeMaterials ==> |r.rows| == ChildCount(MaterialsField, doc)
    ensures r.Raised? ==> exists i :: 0 <= i < |doc| && doc[i].0 == r.at
  {
    if p == TypeMaterials then ExtractNested(SpecOf(p), MaterialsField, doc, columns)
    else ExtractRows(SpecOf(p), doc, columns)
  }

  /** Calling the resolved processor. */
  method RunProcessor(p: Processor, doc: Document, columns: seq<string>) returns (out: Outcome)
    ensures out == Run(p, doc, columns)
  {
    if p == TypeMaterials {
      out := ProcessNested(SpecOf(p), MaterialsField, doc, columns);
    } else {
      out := ProcessEntries(SpecOf(p), doc, columns);
    }
  }

  // --------------------------------------------------------------- mappings

  /** One entry of a data family's table: source file, target table, columns and processor name. */
  datatype Mapping = Mapping(file: string, table: string, columns: seq<string>, processor: string)

  const FsdMappings: seq<Mapping> := [
    Mapping("agents.yaml", "eve_agents",
      ["agent_id", "corporation_id", "division_id", "level", "location_id", "agent_type_id", "is_locator"],
      "process_agents"),
    Mapping("npcCorporations.yaml", "eve_corporations",
      ["corporation_id", "corporation_name", "ticker", "ceo_character_id", "tax_rate", "member_count",
       "alliance_id", "faction_id", "description"],
      "process_npc_corporations"),
    Mapping("npcCorporationDivisions.yaml", "eve_corporation_divisions",
      ["division_id", "division_name", "description", "leader_type_name"],
      "process_corporation_divisions"),
    Mapping("races.yaml", "eve_races",
      ["race_id", "race_name", "description", "icon_id", "ship_type_id"],
      "process_races"),
    Mapping("bloodlines.yaml", "eve_bloodlines",
      ["bloodline_id", "bloodline_name", "race_id", "description", "corporation_id", "charisma",
       "intelligence", "memory", "perception", "willpower"],
      "process_bloodlines"),
    Mapping("ancestries.yaml", "eve_ancestries",
      ["ancestry_id", "ancestry_name", "bloodline_id", "description", "short_description", "icon_id"],
      "process_ancestries"),
    Mapping("categories.yaml", "eve_categories",
      ["category_id", "category_name", "published"],
      "process_categories"),
    Mapping("groups.yaml", "eve_groups",
      ["group_id", "group_name", "category_id", "published", "anchorable", "anchored", "fittable_non_singleton"],
      "process_groups"),
    Mapping("types.yaml", "eve_item_types",
      ["type_id", "type_name", "group_id", "published", "mass", "portion_size", "volume", "capacity"],
      "process_types"),
    Mapping("metaGroups.yaml", "eve_meta_groups",
      ["meta_group_id", "meta_group_name", "icon_id"],
      "process_meta_groups"),
    Mapping("marketGroups.yaml", "eve_market_groups",
      ["market_group_id", "market_group_name", "description", "icon_id", "has_types"],
      "process_market_groups"),
    Mapping("factions.yaml", "eve_factions",
      ["faction_id", "faction_name", "description", "corporation_id", "militia_corporation_id", "size_factor",
       "station_count", "station_system_count", "is_unique"],
      "process_factions"),
    Mapping("blueprints.yaml", "eve_blueprints",
      ["blueprint_type_id", "max_production_limit", "copying_time", "manufacturing_time",
       "research_material_time", "research_time_time"],
      "process_blueprints"),
    Mapping("typeMaterials.yaml", "eve_type_materials",
      ["type_id", "material_type_id", "quantity"],
      "process_type_materials"),
    Mapping("dogmaAttributes.yaml", "eve_dogma_attributes",
      ["attribute_id", "attribute_name", "category_id", "data_type", "default_value", "description",
       "icon_id", "unit_id", "published", "display_name", "stackable", "high_is_good"],
      "process_dogma_attributes"),
    Mapping("dogmaEffects.yaml", "eve_dogma_effects",
      ["effect_id", "effect_name", "effect_category", "is_offensive", "is_assistance",
       "duration_attribute_id", "discharge_attribute_id", "range_attribute_id", "falloff_attribute_id",
       "tracking_speed_attribute_id", "fitting_usage_chance_attribute_id", "resist_attribute_id",
       "electronic_chance", "propulsion_chance", "published"],
      "process_dogma_effects"),
    Mapping("typeDogma.yaml", "eve_type_dogma",
      ["type_id", "attribute_id", "value"],
      "process_type_dogma")
  ]

  const BsdMappings: seq<Mapping> := [
    Mapping("invNames.yaml", "eve_inv_names", ["item_id", "item_name"], "process_inv_names"),
    Mapping("staStations.yaml", "eve_stations",
      ["station_id", "station_name", "corporation_id", "system_id", "constellation_id", "region_id",
       "station_type_id", "x", "y", "z", "security", "docking_cost_per_volume", "max_ship_volume_dockable",
       "office_rental_cost"],
      "process_stations"),
    Mapping("invFlags.yaml", "eve_inv_flags", ["flag_id", "flag_name", "flag_text", "order_id"], "process_inv_flags"),
    Mapping("invItems.yaml", "eve_inv_items",
      ["item_id", "type_id", "owner_id", "location_id", "flag_id", "quantity"],
      "process_inv_items"),
    Mapping("invPositions.yaml", "eve_inv_positions",
      ["item_id", "x", "y", "z", "yaw", "pitch", "roll"],
      "process_inv_positions"),
    Mapping("invUniqueNames.yaml", "eve_inv_unique_names",
      ["item_id", "item_name", "group_id"],
      "process_inv_unique_names")
  ]

  // ----------------------------------------------------------------- lemmas

  /**
   * Which mappings reach their processor: every data-family mapping names a
   * defined processor except `process_type_dogma`, and no list-family
   * mapping does, so those always take the default processing.
   */
  lemma DispatchOfMappings()
    ensures forall k :: 0 <= k < |FsdMappings| ==>
              (Resolve(FsdMappings[k].processor).None? <==> FsdMappings[k].processor == "process_type_dogma")
    ensures forall k :: 0 <= k < |BsdMappings| ==> Resolve(BsdMappings[k].processor).None?
  {
  }

  /**
   * For every mapping with a processor, the processor's identifier column is
   * the mapping's first column, so the entry key lands in column 0.
   */
  lemma KeyInFirstColumn(k: nat)
    requires k < |FsdMappings| && Resolve(FsdMappings[k].processor).Some?
    ensures var m := FsdMappings[k];
            |m.columns| > 0 && m.columns[0] == SpecOf(Resolve(m.processor).value).idColumn
  {
  }

  /**
   * Localized defaults: the kind's own name (its first rule) falls back to
   * 'Unknown', every other localized column (descriptions, the leader type
   * name, the display name) to the empty text.
   */
  lemma LocalizedFallbacks(p: Processor, i: nat)
    requires i < |SpecOf(p).rules| && SpecOf(p).rules[i].1.Localized?
    ensures SpecOf(p).rules[i].1.fallback == (if i == 0 then "Unknown" else "")
  {
    match p
    case NpcCorporations =>
    case Agents =>
    case CorporationDivisions =>
    case Races =>
    case Bloodlines =>
    case Ancestries =>
    case Categories =>
    case Groups =>
    case Types =>
    case MetaGroups =>
    case MarketGroups =>
    case Factions =>
    case Blueprints =>
    case TypeMaterials =>
    case DogmaAttributes =>
    case DogmaEffects =>
  }
}
