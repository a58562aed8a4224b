/** The Getty Thesaurus of Geographic Names client: a place record names its
    parent place (`part_of`), and walking those links up to the root fills a
    Location whose fields are chosen by the distance from the starting place. */
module Tgn {
  import opened Wrappers

  /** `tgn.Location`. */
  datatype Location = Location(country: string, state: string, county: string, city: string)

  const EmptyLocation := Location("", "", "", "")

  /** One entry of a place's `part_of` list; `name` is the JSON `_label`. */
  datatype PlaceRef = PlaceRef(id: string, name: string)

  /** `tgn.Place`; `name` is the JSON `_label`. */
  datatype Place = Place(id: string, name: string, partOf: seq<PlaceRef>)

  /** Why one GET of a place record failed: the request could not be built, the
      round trip failed, the body could not be read, or it is not a place record. */
  datatype FetchError = BadRequest | FetchFailed | ReadFailed | ParseFailed

  datatype TgnError =
    | Fetch(uri: string, reason: FetchError)
      /** The parent chain is longer than the model's depth bound. */
    | DepthLimit

  /** The gazetteer as seen by the client: what a GET of each URI returns, and a
      bound on how many parent links are followed. */
  datatype Gazetteer = Gazetteer(fetch: string -> Result<Place, FetchError>, maxDepth: nat)

  /** Writes `name` to the field for `depth`: 0 city, 1 county, 2 state, 3 country;
      deeper places are not recorded. */
  function AssignByDepth(loc: Location, depth: nat, name: string): Location
  {
    match depth
    case 0 => loc.(city := name)
    case 1 => loc.(county := name)
    case 2 => loc.(state := name)
    case 3 => loc.(country := name)
    case _ => loc
  }

  /** The field `AssignByDepth` writes for `depth`. */
  function FieldAt(loc: Location, depth: nat): string
    requires depth <= 3
  {
    match depth
    case 0 => loc.city
    case 1 => loc.county
    case 2 => loc.state
    case _ => loc.country
  }

  /** A parent record's address: an id followed by ".json". */
  predicate IsRecordUri(uri: string) {
    |uri| >= 5 && uri[|uri| - 5..] == ".json"
  }

  /** `resolveHierarchy`: a parentless place is written as the country; otherwise
      the first parent (`part_of[0]`, fetched at its id plus ".json") is resolved
      one level deeper first and this place's name is written afterwards. Any
      failure ends the walk. */
  function ResolveHierarchy(g: Gazetteer, place: Place, loc: Location, depth: nat, fuel: nat): (r: Result<Location, TgnError>)
    ensures r.Ok? && |place.partOf| == 0 ==> r.value == loc.(country := place.name)
    ensures r.Ok? && |place.partOf| > 0 && depth <= 3 ==> FieldAt(r.value, depth) == place.name
    ensures r.Ok? && depth >= 1 ==> r.value.city == loc.city
    ensures r.Ok? && depth >= 2 ==> r.value.county == loc.county
    ensures r.Ok? && depth >= 3 ==> r.value.state == loc.state
    ensures r.Err? && r.error.Fetch? ==> IsRecordUri(r.error.uri)
    decreases fuel
  {
    if |place.partOf| == 0 then Ok(loc.(country := place.name))
    else if fuel == 0 then Err(DepthLimit)
    else
      var uri := place.partOf[0].id + ".json";
      match g.fetch(uri)
      case Err(reason) => Err(Fetch(uri, reason))
      case Ok(parent) =>
        match ResolveHierarchy(g, parent, loc, depth + 1, fuel - 1)
        case Err(e) => Err(e)
        case Ok(l) => Ok(AssignByDepth(l, depth, place.name))
  }

  /** `GetLocationFromTGN`: fetch the record at `uri` itself, then resolve its
      hierarchy into an empty Location. */
  function GetLocationFromTGN(g: Gazetteer, uri: string): (r: Result<Location, TgnError>)
    ensures g.fetch(uri).Err? ==> r == Err(Fetch(uri, g.fetch(uri).error))
    ensures r.Ok? ==> g.fetch(uri).Ok?
    ensures r.Ok? && |g.fetch(uri).value.partOf| == 0 ==> r.value == Location(g.fetch(uri).value.name, "", "", "")
    ensures r.Ok? && |g.fetch(uri).value.partOf| > 0 ==> r.value.city == g.fetch(uri).value.name
  {
    match g.fetch(uri)
    case Err(reason) => Err(Fetch(uri, reason))
    case Ok(place) => ResolveHierarchy(g, place, EmptyLocation, 0, g.maxDepth)
  }

  // ---------------------------------------------------------------------------
  // Reference: the chain of labels, and where each one ends up.

  /** The labels from `place` up to the root of its `part_of[0]` chain. */
  function Ancestry(g: Gazetteer, place: Place, fuel: nat): (r: Result<seq<string>, TgnError>)
    ensures r.Ok? ==> |r.value| >= 1 && r.value[0] == place.name
    decreases fuel
  {
    if |place.partOf| == 0 then Ok([place.name])
    else if fuel == 0 then Err(DepthLimit)
    else
      var uri := place.partOf[0].id + ".json";
      match g.fetch(uri)
      case Err(reason) => Err(Fetch(uri, reason))
      case Ok(parent) =>
        match Ancestry(g, parent, fuel - 1)
        case Err(e) => Err(e)
        case Ok(labels) => Ok([place.name] + labels)
  }

  /** Where the labels of a chain end up when the walk starts at `depth`: the field
      of depth k gets the label k - depth levels up, if that place is not the root;
      the root's label is the country unless a non-root place sits at depth 3. */
  function Placed(loc: Location, labels: seq<string>, depth: nat): Location
    requires |labels| >= 1
  {
    var top := depth + |labels| - 1;
    Location(
      country := if depth <= 3 < top then labels[3 - depth] else labels[|labels| - 1],
      state := if depth <= 2 < top then labels[2 - depth] else loc.state,
      county := if depth <= 1 < top then labels[1 - depth] else loc.county,
      city := if depth == 0 < top then labels[0] else loc.city)
  }

  /** The recursive walk agrees with the closed form: it fails exactly when the
      chain cannot be fetched, and otherwise places every label by its depth. */
  lemma {:induction false} ResolveIsPlaced(g: Gazetteer, place: Place, loc: Location, depth: nat, fuel: nat)
    ensures ResolveHierarchy(g, place, loc, depth, fuel).Ok? == Ancestry(g, place, fuel).Ok?
    ensures Ancestry(g, place, fuel).Err? ==>
      ResolveHierarchy(g, place, loc, depth, fuel).error == Ancestry(g, place, fuel).error
    ensures Ancestry(g, place, fuel).Ok? ==>
      ResolveHierarchy(g, place, loc, depth, fuel).value == Placed(loc, Ancestry(g, place, fuel).value, depth)
    decreases fuel
  {
    if |place.partOf| > 0 && fuel > 0 {
      var uri := place.partOf[0].id + ".json";
      if g.fetch(uri).Ok? {
        var parent := g.fetch(uri).value;
        ResolveIsPlaced(g, parent, loc, depth + 1, fuel - 1);
        var up := Ancestry(g, parent, fuel - 1);
        if up.Ok? {
          var labels := [place.name] + up.value;
          assert labels[1..] == up.value;
        }
      }
    }
  }

  /** `GetLocationFromTGN` succeeds exactly when every record of the chain can be
      fetched, and then holds the closed-form placement of the chain's labels. */
  lemma GetLocationIsPlaced(g: Gazetteer, uri: string)
    ensures g.fetch(uri).Err? ==> GetLocationFromTGN(g, uri) == Err(Fetch(uri, g.fetch(uri).error))
    ensures g.fetch(uri).Ok? ==>
      var chain := Ancestry(g, g.fetch(uri).value, g.maxDepth);
      && (GetLocationFromTGN(g, uri).Ok? <==> chain.Ok?)
      && (chain.Ok? ==> GetLocationFromTGN(g, uri).value == Placed(EmptyLocation, chain.value, 0))
  {
    if g.fetch(uri).Ok? {
      ResolveIsPlaced(g, g.fetch(uri).value, EmptyLocation, 0, g.maxDepth);
    }
  }

  /** The label chain `GetLocationFromTGN` walks for `uri`. */
  function ChainAt(g: Gazetteer, uri: string): Result<seq<string>, TgnError>
  {
    match g.fetch(uri)
    case Err(reason) => Err(Fetch(uri, reason))
    case Ok(place) => Ancestry(g, place, g.maxDepth)
  }

  /** A parentless record is the country and nothing else. */
  lemma ParentlessIsCountry(g: Gazetteer, uri: string)
    requires ChainAt(g, uri).Ok? && |ChainAt(g, uri).value| == 1
    ensures GetLocationFromTGN(g, uri) == Ok(Location(ChainAt(g, uri).value[0], "", "", ""))
  {
    GetLocationIsPlaced(g, uri);
  }

  /** city -> county -> state -> country fills all four fields. */
  lemma FourLevelChain(g: Gazetteer, uri: string)
    requires ChainAt(g, uri).Ok? && |ChainAt(g, uri).value| == 4
    ensures var c := ChainAt(g, uri).value;
      GetLocationFromTGN(g, uri) == Ok(Location(c[3], c[2], c[1], c[0]))
  {
    GetLocationIsPlaced(g, uri);
  }

  /** In a three-place chain the state stays empty and the root is the country. */
  lemma ThreeLevelChain(g: Gazetteer, uri: string)
    requires ChainAt(g, uri).Ok? && |ChainAt(g, uri).value| == 3
    ensures var c := ChainAt(g, uri).value;
      GetLocationFromTGN(g, uri) == Ok(Location(c[2], "", c[1], c[0]))
  {
    GetLocationIsPlaced(g, uri);
  }

  /** In a chain of more than four places, the place at depth 3 overwrites the
      root's label in the country field and the root is lost. */
  lemma LongChainCountry(g: Gazetteer, uri: string)
    requires ChainAt(g, uri).Ok? && |ChainAt(g, uri).value| > 4
    ensures var c := ChainAt(g, uri).value;
      GetLocationFromTGN(g, uri) == Ok(Location(c[3], c[2], c[1], c[0]))
  {
    GetLocationIsPlaced(g, uri);
  }

  /** A failure anywhere along the chain is the failure of the whole lookup. */
  lemma FailurePropagates(g: Gazetteer, uri: string)
    ensures GetLocationFromTGN(g, uri).Err? <==> ChainAt(g, uri).Err?
    ensures ChainAt(g, uri).Err? ==> GetLocationFromTGN(g, uri).error == ChainAt(g, uri).error
  {
    if g.fetch(uri).Ok? {
      ResolveIsPlaced(g, g.fetch(uri).value, EmptyLocation, 0, g.maxDepth);
    }
  }

  /** Four linked records: Bethlehem, in Northampton County, Pennsylvania, United States. */
  function BethlehemRecords(u: string): Result<Place, FetchError>
  {
    if u == "tgn/7013416" then Ok(Place("tgn/7013416", "Bethlehem", [PlaceRef("tgn/2002107", "Northampton")]))
    else if u == "tgn/2002107.json" then Ok(Place("tgn/2002107", "Northampton", [PlaceRef("tgn/7007710", "Pennsylvania")]))
    else if u == "tgn/7007710.json" then Ok(Place("tgn/7007710", "Pennsylvania", [PlaceRef("tgn/7012149", "United States")]))
    else if u == "tgn/7012149.json" then Ok(Place("tgn/7012149", "United States", []))
    else Err(FetchFailed)
  }

  /** The city resolves to city, county, state and country in that order. */
  lemma BethlehemExample()
    ensures GetLocationFromTGN(Gazetteer(BethlehemRecords, 10), "tgn/7013416")
      == Ok(Location("United States", "Pennsylvania", "Northampton", "Bethlehem"))
  {
    var g := Gazetteer(BethlehemRecords, 10);
    var country := BethlehemRecords("tgn/7012149.json").value;
    var state := BethlehemRecords("tgn/7007710.json").value;
    var county := BethlehemRecords("tgn/2002107.json").value;
    assert Ancestry(g, country, 7) == Ok(["United States"]);
    assert state.partOf[0].id + ".json" == "tgn/7012149.json";
    assert Ancestry(g, state, 8) == Ok(["Pennsylvania"] + ["United States"]);
    assert ["Pennsylvania"] + ["United States"] == ["Pennsylvania", "United States"];
    assert county.partOf[0].id + ".json" == "tgn/7007710.json";
    assert g.fetch("tgn/7007710.json") == Ok(state);
    assert Ancestry(g, county, 9) == Ok(["Northampton"] + ["Pennsylvania", "United States"]);
    assert ["Northampton"] + ["Pennsylvania", "United States"] == ["Northampton", "Pennsylvania", "United States"];
    assert "tgn/2002107" + ".json" == "tgn/2002107.json";
    GetLocationIsPlaced(g, "tgn/7013416");
  }

  /** Only the first parent link is followed. */
  lemma OnlyFirstParent(g: Gazetteer, p: Place, q: Place, loc: Location, depth: nat, fuel: nat)
    requires p.name == q.name && |p.partOf| > 0 && |q.partOf| > 0 && p.partOf[0].id == q.partOf[0].id
    ensures ResolveHierarchy(g, p, loc, depth, fuel) == ResolveHierarchy(g, q, loc, depth, fuel)
  {
  }

  /** The depth bound only cuts the walk short: with more fuel, a walk that
      finished (successfully or with a fetch failure) finishes the same way. */
  lemma {:induction false} AncestryFuelMonotone(g: Gazetteer, place: Place, fuel: nat, more: nat)
    requires fuel <= more
    requires Ancestry(g, place, fuel) != Err(DepthLimit)
    ensures Ancestry(g, place, more) == Ancestry(g, place, fuel)
    decreases fuel
  {
    if |place.partOf| > 0 {
      var uri := place.partOf[0].id + ".json";
      if g.fetch(uri).Ok? {
        AncestryFuelMonotone(g, g.fetch(uri).value, fuel - 1, more - 1);
      }
    }
  }
}
