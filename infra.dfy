/**
 * The infrastructure vocabulary of the city network: the type table with
 * each type's category, the OpenStreetMap tag classifier, and the Overpass
 * query that fetches candidate elements.
 */
module Infra {
  import opened Wrappers

  /** The keys of INFRASTRUCTURE, in declaration order. */
  const InfraTypes: seq<string> := [
    "Hospital", "Fire Station", "Police Station", "Ambulance Depot",
    "Bunker/Shelter", "Evacuation Point",
    "Food Service", "Grocery Store", "Water Supply",
    "Power Plant", "Substation", "Telecom Tower", "Water Treatment"
  ]

  /** The category INFRASTRUCTURE assigns to a type, or None for an unknown type. */
  function CategoryOf(t: string): (c: Option<string>)
    ensures c.Some? <==> t in InfraTypes
    ensures c.Some? ==> c.value in {"Emergency", "Shelter", "Food", "Utility"}
  {
    if t in {"Hospital", "Fire Station", "Police Station", "Ambulance Depot"} then Some("Emergency")
    else if t in {"Bunker/Shelter", "Evacuation Point"} then Some("Shelter")
    else if t in {"Food Service", "Grocery Store", "Water Supply"} then Some("Food")
    else if t in {"Power Plant", "Substation", "Telecom Tower", "Water Treatment"} then Some("Utility")
    else None
  }

  type Tags = map<string, string>

  /** `tags.get(key, "")`. */
  function Tag(tags: Tags, key: string): string
  {
    if key in tags then tags[key] else ""
  }

  /** `_osm_tags_to_type`: the first rule in priority order that the tags satisfy. */
  function OsmTagsToType(tags: Tags): (r: Option<string>)
    ensures r.Some? ==> r.value in InfraTypes
  {
    var a := Tag(tags, "amenity");
    var p := Tag(tags, "power");
    var mm := Tag(tags, "man_made");
    var sh := Tag(tags, "shop");
    var b := Tag(tags, "building");
    var em := Tag(tags, "emergency");
    var sf := Tag(tags, "social_facility");
    var tt := Tag(tags, "tower:type");
    if a == "hospital" then Some("Hospital")
    else if a == "fire_station" then Some("Fire Station")
    else if a == "police" then Some("Police Station")
    else if em == "ambulance_station" then Some("Ambulance Depot")
    else if a == "shelter" || sf == "shelter" || b == "bunker" then Some("Bunker/Shelter")
    else if a == "marketplace" || a == "food_court" then Some("Food Service")
    else if sh == "supermarket" || sh == "grocery" then Some("Grocery Store")
    else if mm == "water_well" || mm == "water_tower" then Some("Water Supply")
    else if p == "plant" || p == "generator" then Some("Power Plant")
    else if p == "substation" then Some("Substation")
    else if mm == "communications_tower" || tt == "communication" then Some("Telecom Tower")
    else if mm == "water_works" || mm == "wastewater_plant" then Some("Water Treatment")
    else None
  }

  /** amenity=hospital classifies as Hospital whatever else is tagged. */
  lemma HospitalWins(tags: Tags)
    requires Tag(tags, "amenity") == "hospital"
    ensures OsmTagsToType(tags) == Some("Hospital")
  {
  }

  // ---------------------------------------------------------------
  // The Overpass query
  // ---------------------------------------------------------------

  /** The (key, value) filters of `_build_overpass_query`, in query order. */
  const OverpassFilters: seq<(string, string)> := [
    ("amenity", "hospital"), ("amenity", "fire_station"), ("amenity", "police"),
    ("emergency", "ambulance_station"),
    ("amenity", "shelter"), ("building", "bunker"), ("social_facility", "shelter"),
    ("amenity", "marketplace"), ("amenity", "food_court"),
    ("shop", "supermarket"), ("shop", "grocery"),
    ("man_made", "water_well"), ("man_made", "water_tower"),
    ("power", "plant"), ("power", "generator"), ("power", "substation"),
    ("man_made", "communications_tower"), ("tower:type", "communication"),
    ("man_made", "water_works"), ("man_made", "wastewater_plant")
  ]

  const OverpassTimeout: nat := 60

  datatype ElementKind = NodeElement | WayElement

  /** One `node[...]` or `way[...]` line of the query, selecting one tag within the radius. */
  datatype Clause = Clause(kind: ElementKind, key: string, value: string)

  /** The query: its timeout header and its clauses, a node and a way clause per filter. */
  datatype Query = Query(timeout: nat, clauses: seq<Clause>)

  /** The clauses hold a node and then a way clause for each filter, in filter order. */
  predicate QueryLayout(cs: seq<Clause>, filters: seq<(string, string)>)
  {
    && |cs| == 2 * |filters|
    && (forall i :: 0 <= i < |filters| ==> cs[2 * i] == Clause(NodeElement, filters[i].0, filters[i].1))
    && (forall i :: 0 <= i < |filters| ==> cs[2 * i + 1] == Clause(WayElement, filters[i].0, filters[i].1))
  }

  /** `_build_overpass_query` with the coordinates and radius left to the caller. */
  method BuildOverpassQuery() returns (q: Query)
    ensures q.timeout == OverpassTimeout
    ensures QueryLayout(q.clauses, OverpassFilters)
  {
    var lines: seq<Clause> := [];
    for i := 0 to |OverpassFilters|
      invariant QueryLayout(lines, OverpassFilters[..i])
    {
      var f := OverpassFilters[i];
      lines := lines + [Clause(NodeElement, f.0, f.1), Clause(WayElement, f.0, f.1)];
    }
    assert OverpassFilters[..|OverpassFilters|] == OverpassFilters;
    q := Query(OverpassTimeout, lines);
  }

  /** Some filter matches the tags. */
  predicate MatchesFilter(tags: Tags, filters: seq<(string, string)>)
  {
    exists i :: 0 <= i < |filters| && Tag(tags, filters[i].0) == filters[i].1
  }

  /** Some clause of the query selects an element with these tags. */
  predicate MatchesClause(tags: Tags, cs: seq<Clause>)
  {
    exists j :: 0 <= j < |cs| && Tag(tags, cs[j].key) == cs[j].value
  }

  /** A query laid out from the filters selects exactly what the filters match. */
  lemma LayoutMatches(tags: Tags, cs: seq<Clause>, filters: seq<(string, string)>)
    requires QueryLayout(cs, filters)
    ensures MatchesClause(tags, cs) <==> MatchesFilter(tags, filters)
  {
    if MatchesClause(tags, cs) {
      var j :| 0 <= j < |cs| && Tag(tags, cs[j].key) == cs[j].value;
      var i := j / 2;
      assert j == 2 * i || j == 2 * i + 1;
      assert cs[j].key == filters[i].0 && cs[j].value == filters[i].1;
      assert Tag(tags, filters[i].0) == filters[i].1;
    }
    if MatchesFilter(tags, filters) {
      var i :| 0 <= i < |filters| && Tag(tags, filters[i].0) == filters[i].1;
      var j := 2 * i;
      assert 0 <= j < |cs| && cs[j] == Clause(NodeElement, filters[i].0, filters[i].1);
      assert Tag(tags, cs[j].key) == cs[j].value;
    }
  }

  /** An element the classifier rejects satisfies no filter. */
  lemma UnclassifiedUnmatched(tags: Tags)
    requires OsmTagsToType(tags).None?
    ensures !MatchesFilter(tags, OverpassFilters)
  {
    forall i | 0 <= i < |OverpassFilters|
      ensures Tag(tags, OverpassFilters[i].0) != OverpassFilters[i].1
    {
      assert i < 10 || i >= 10;
    }
  }

  /** Every element the query selects is classified. */
  lemma QueryMatchIsClassified(tags: Tags)
    requires MatchesFilter(tags, OverpassFilters)
    ensures OsmTagsToType(tags).Some?
  {
    if OsmTagsToType(tags).None? {
      UnclassifiedUnmatched(tags);
      assert false;
    }
  }

  /** The tag values no filter asks for, grouped by key. */
  lemma UnmatchedTags(tags: Tags)
    requires !MatchesFilter(tags, OverpassFilters)
    ensures Tag(tags, "amenity") !in {"hospital", "fire_station", "police", "shelter", "marketplace", "food_court"}
    ensures Tag(tags, "man_made") !in {"water_well", "water_tower", "communications_tower", "water_works", "wastewater_plant"}
    ensures Tag(tags, "power") !in {"plant", "generator", "substation"}
    ensures Tag(tags, "shop") !in {"supermarket", "grocery"}
    ensures Tag(tags, "emergency") != "ambulance_station" && Tag(tags, "building") != "bunker"
    ensures Tag(tags, "social_facility") != "shelter" && Tag(tags, "tower:type") != "communication"
  {
    assert Tag(tags, OverpassFilters[0].0) != OverpassFilters[0].1;
    assert Tag(tags, OverpassFilters[1].0) != OverpassFilters[1].1;
    assert Tag(tags, OverpassFilters[2].0) != OverpassFilters[2].1;
    assert Tag(tags, OverpassFilters[3].0) != OverpassFilters[3].1;
    assert Tag(tags, OverpassFilters[4].0) != OverpassFilters[4].1;
    assert Tag(tags, OverpassFilters[5].0) != OverpassFilters[5].1;
    assert Tag(tags, OverpassFilters[6].0) != OverpassFilters[6].1;
    assert Tag(tags, OverpassFilters[7].0) != OverpassFilters[7].1;
    assert Tag(tags, OverpassFilters[8].0) != OverpassFilters[8].1;
    assert Tag(tags, OverpassFilters[9].0) != OverpassFilters[9].1;
    assert Tag(tags, OverpassFilters[10].0) != OverpassFilters[10].1;
    assert Tag(tags, OverpassFilters[11].0) != OverpassFilters[11].1;
    assert Tag(tags, OverpassFilters[12].0) != OverpassFilters[12].1;
    assert Tag(tags, OverpassFilters[13].0) != OverpassFilters[13].1;
    assert Tag(tags, OverpassFilters[14].0) != OverpassFilters[14].1;
    assert Tag(tags, OverpassFilters[15].0) != OverpassFilters[15].1;
    assert Tag(tags, OverpassFilters[16].0) != OverpassFilters[16].1;
    assert Tag(tags, OverpassFilters[17].0) != OverpassFilters[17].1;
    assert Tag(tags, OverpassFilters[18].0) != OverpassFilters[18].1;
    assert Tag(tags, OverpassFilters[19].0) != OverpassFilters[19].1;
  }

  /** Every classified element is selected by some filter of the query. */
  lemma ClassifiedMatchesQuery(tags: Tags)
    requires OsmTagsToType(tags).Some?
    ensures MatchesFilter(tags, OverpassFilters)
  {
    if !MatchesFilter(tags, OverpassFilters) {
      UnmatchedTags(tags);
      assert false;
    }
  }

  /**
   * The query and the classifier agree: a query laid out from the Overpass
   * filters selects an element exactly when the classifier gives it a type.
   */
  lemma QueryMatchesClassifier(tags: Tags, cs: seq<Clause>)
    requires QueryLayout(cs, OverpassFilters)
    ensures MatchesClause(tags, cs) <==> OsmTagsToType(tags).Some?
  {
    LayoutMatches(tags, cs, OverpassFilters);
    if MatchesFilter(tags, OverpassFilters) {
      QueryMatchIsClassified(tags);
    }
    if OsmTagsToType(tags).Some? {
      ClassifiedMatchesQuery(tags);
    }
  }
}
