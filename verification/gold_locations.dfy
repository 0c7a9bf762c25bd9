/**
 * The gold-location search: the chat reply is parsed as JSON, both spot lists
 * are checked to be arrays, every entry is repaired in place (defaults for
 * falsy fields, a synthesised name, a forced `isMainSpot`), and any failure
 * yields one of two fixed fallback results.
 */
module GoldLocations {
  import opened Wrappers
  import opened Json
  import Decimal

  /** A point of interest within a location. */
  datatype Hotspot = Hotspot(location: string, description: string, source: string)

  /** Where the gold of a location comes from (optional on a location). */
  datatype GoldOrigin = GoldOrigin(description: string, brgmData: string, entryPoints: seq<string>, affluents: seq<string>)

  /** Spots that other sources mention (optional on a location). */
  datatype ReferencedSpots = ReferencedSpots(description: string, locations: seq<string>, sources: seq<string>)

  /** A candidate prospecting site as the interface types it; `spotType` is the JSON key "type". */
  datatype GoldLocation = GoldLocation(
    name: string,
    spotType: string,
    coordinates: (real, real),
    description: string,
    geology: string,
    history: string,
    rating: real,
    sources: seq<string>,
    hotspots: seq<Hotspot>,
    isMainSpot: bool,
    goldOrigin: Option<GoldOrigin>,
    referencedSpots: Option<ReferencedSpots>)

  /**
   * A spot object as `validateSpot` sees it: one read per field it touches
   * (`None` is `undefined`) and every other property in `others`.
   */
  datatype Spot = Spot(
    name: Option<JsonValue>,
    spotType: Option<JsonValue>,
    coordinates: Option<JsonValue>,
    description: Option<JsonValue>,
    geology: Option<JsonValue>,
    history: Option<JsonValue>,
    rating: Option<JsonValue>,
    sources: Option<JsonValue>,
    hotspots: Option<JsonValue>,
    isMainSpot: Option<JsonValue>,
    others: Fields)

  /** The property names `validateSpot` reads or writes. */
  const KnownKeys: set<string> :=
    {"name", "type", "coordinates", "description", "geology", "history", "rating", "sources", "hotspots", "isMainSpot"}

  /** What the search returns: the repaired entries, in their lists' order. */
  datatype GoldSearchResult = GoldSearchResult(mainSpots: seq<Spot>, secondarySpots: seq<Spot>)

  /** The chat backend's answer: the request failed, or it returned a message whose `content` may be absent. */
  datatype ChatReply = RequestFailed | Replied(content: Option<string>)

  // ----- between parsed objects and spots -----

  /** The spot view of a parsed object. */
  function ToSpot(obj: Fields): (s: Spot)
    ensures s.others.Keys !! KnownKeys
  {
    Spot(Get(obj, "name"), Get(obj, "type"), Get(obj, "coordinates"), Get(obj, "description"),
         Get(obj, "geology"), Get(obj, "history"), Get(obj, "rating"), Get(obj, "sources"),
         Get(obj, "hotspots"), Get(obj, "isMainSpot"), obj - KnownKeys)
  }

  // ----- JSON encodings of the typed records -----

  function StringsToJson(xs: seq<string>): (v: JsonValue)
    ensures v.JArray? && |v.items| == |xs|
  {
    JArray(seq(|xs|, i requires 0 <= i < |xs| => JString(xs[i])))
  }

  function HotspotToJson(h: Hotspot): JsonValue {
    JObject(map["location" := JString(h.location), "description" := JString(h.description), "source" := JString(h.source)])
  }

  function HotspotsToJson(hs: seq<Hotspot>): (v: JsonValue)
    ensures v.JArray? && |v.items| == |hs|
  {
    JArray(seq(|hs|, i requires 0 <= i < |hs| => HotspotToJson(hs[i])))
  }

  function GoldOriginToJson(o: GoldOrigin): JsonValue {
    JObject(map["description" := JString(o.description), "brgmData" := JString(o.brgmData),
                "entryPoints" := StringsToJson(o.entryPoints), "affluents" := StringsToJson(o.affluents)])
  }

  function ReferencedSpotsToJson(r: ReferencedSpots): JsonValue {
    JObject(map["description" := JString(r.description), "locations" := StringsToJson(r.locations),
                "sources" := StringsToJson(r.sources)])
  }

  /** The spot a `GoldLocation` is at run time; the optional records appear only when set. */
  function LocationSpot(g: GoldLocation): Spot {
    Spot(Some(JString(g.name)), Some(JString(g.spotType)),
         Some(JArray([JNum(g.coordinates.0), JNum(g.coordinates.1)])),
         Some(JString(g.description)), Some(JString(g.geology)), Some(JString(g.history)),
         Some(JNum(g.rating)), Some(StringsToJson(g.sources)), Some(HotspotsToJson(g.hotspots)),
         Some(JBool(g.isMainSpot)),
         (if g.goldOrigin.Some? then map["goldOrigin" := GoldOriginToJson(g.goldOrigin.value)] else map[])
         + (if g.referencedSpots.Some? then map["referencedSpots" := ReferencedSpotsToJson(g.referencedSpots.value)] else map[]))
  }

  // ----- validateSpot -----

  const DefaultType: string := "cours d'eau"
  const DefaultDescription: string := "Aucune description disponible"
  const DefaultGeology: string := "Aucune information géologique disponible"
  const DefaultHistory: string := "Aucun historique disponible"
  const DefaultRating: real := 3.0

  /** The coordinates `[0, 0]`. */
  const Origin: JsonValue := JArray([JNum(0.0), JNum(0.0)])

  /** The text a synthesised name starts with, by list kind. */
  function NamePrefix(isMain: bool): string {
    if isMain then "Spot principal " else "Spot secondaire "
  }

  /** The name given to an entry without one: its list kind and its 1-based position. */
  function SpotName(index: nat, isMain: bool): (name: string)
    ensures |name| > 0
  {
    NamePrefix(isMain) + Decimal.DecimalString(index + 1)
  }

  /** A synthesised name is its list kind's prefix followed by digits that read back as `index + 1`. */
  lemma SpotNameReadsBack(index: nat, isMain: bool)
    ensures var name, prefix := SpotName(index, isMain), NamePrefix(isMain);
      && |prefix| < |name| && name[..|prefix|] == prefix
      && Decimal.AllDigits(name[|prefix|..]) && Decimal.DecimalValue(name[|prefix|..]) == index + 1
  {
    var prefix := NamePrefix(isMain);
    Decimal.DecimalRoundTrip(index + 1);
    assert SpotName(index, isMain)[|prefix|..] == Decimal.DecimalString(index + 1);
  }

  /**
   * Two entries never receive the same synthesised name: the list kinds differ
   * in the sixth character, and within a kind the digits read back as the position.
   */
  lemma SpotNamesDistinct(i: nat, isMain: bool, j: nat, isMain': bool)
    requires i != j || isMain != isMain'
    ensures SpotName(i, isMain) != SpotName(j, isMain')
  {
    var a, b := SpotName(i, isMain), SpotName(j, isMain');
    SpotNameReadsBack(i, isMain);
    SpotNameReadsBack(j, isMain');
    if isMain != isMain' {
      assert a[5] == NamePrefix(isMain)[5] != NamePrefix(isMain')[5] == b[5];
    } else {
      var n := |NamePrefix(isMain)|;
      assert Decimal.DecimalValue(a[n..]) != Decimal.DecimalValue(b[n..]);
    }
  }

  /**
   * What `validateSpot` guarantees: the name and every defaulted field are
   * present and truthy, the coordinates are an array and `isMainSpot` is the
   * flag of the entry's list.
   */
  predicate Repaired(s: Spot, isMain: bool) {
    && TruthyRead(s.name) && IsArrayRead(s.coordinates)
    && TruthyRead(s.spotType) && TruthyRead(s.description) && TruthyRead(s.geology)
    && TruthyRead(s.history) && TruthyRead(s.rating) && TruthyRead(s.sources) && TruthyRead(s.hotspots)
    && s.isMainSpot == Some(JBool(isMain))
  }

  /** Every field that was truthy before is unchanged, and so is every other property. */
  predicate KeepsTruthyFields(s: Spot, r: Spot) {
    && (TruthyRead(s.name) ==> r.name == s.name)
    && (IsArrayRead(s.coordinates) ==> r.coordinates == s.coordinates)
    && (TruthyRead(s.spotType) ==> r.spotType == s.spotType)
    && (TruthyRead(s.description) ==> r.description == s.description)
    && (TruthyRead(s.geology) ==> r.geology == s.geology)
    && (TruthyRead(s.history) ==> r.history == s.history)
    && (TruthyRead(s.rating) ==> r.rating == s.rating)
    && (TruthyRead(s.sources) ==> r.sources == s.sources)
    && (TruthyRead(s.hotspots) ==> r.hotspots == s.hotspots)
    && r.others == s.others
  }

  /** `validateSpot(spot, index, isMain)`: the object the entry becomes. */
  function RepairSpot(s: Spot, index: nat, isMain: bool): (r: Spot)
    ensures Repaired(r, isMain)
    ensures KeepsTruthyFields(s, r)
    ensures !TruthyRead(s.name) ==> r.name == Some(JString(SpotName(index, isMain)))
    ensures !IsArrayRead(s.coordinates) ==> r.coordinates == Some(Origin)
    ensures !TruthyRead(s.spotType) ==> r.spotType == Some(JString(DefaultType))
    ensures !TruthyRead(s.description) ==> r.description == Some(JString(DefaultDescription))
    ensures !TruthyRead(s.geology) ==> r.geology == Some(JString(DefaultGeology))
    ensures !TruthyRead(s.history) ==> r.history == Some(JString(DefaultHistory))
    ensures !TruthyRead(s.rating) ==> r.rating == Some(JNum(DefaultRating))
    ensures !TruthyRead(s.sources) ==> r.sources == Some(JArray([]))
    ensures !TruthyRead(s.hotspots) ==> r.hotspots == Some(JArray([]))
  {
    s.(name := Some(Or(s.name, JString(SpotName(index, isMain)))),
       coordinates := if IsArrayRead(s.coordinates) then s.coordinates else Some(Origin),
       spotType := Some(Or(s.spotType, JString(DefaultType))),
       description := Some(Or(s.description, JString(DefaultDescription))),
       geology := Some(Or(s.geology, JString(DefaultGeology))),
       history := Some(Or(s.history, JString(DefaultHistory))),
       rating := Some(Or(s.rating, JNum(DefaultRating))),
       sources := Some(Or(s.sources, JArray([]))),
       hotspots := Some(Or(s.hotspots, JArray([]))),
       isMainSpot := Some(JBool(isMain)))
  }

  /** A spot that is already repaired for its list is left exactly as it is. */
  lemma RepairedIsFixedPoint(s: Spot, index: nat, isMain: bool)
    requires Repaired(s, isMain)
    ensures RepairSpot(s, index, isMain) == s
  {
  }

  /** Repairing twice is repairing once, whatever position the second repair is given. */
  lemma RepairSpotIdempotent(s: Spot, index: nat, index': nat, isMain: bool)
    ensures RepairSpot(RepairSpot(s, index, isMain), index', isMain) == RepairSpot(s, index, isMain)
  {
    RepairedIsFixedPoint(RepairSpot(s, index, isMain), index', isMain);
  }

  /**
   * A location whose text fields are non-empty and whose rating is non-zero
   * goes through the repair unchanged, the optional records included.
   */
  lemma RepairKeepsPopulatedLocation(g: GoldLocation, index: nat)
    requires g.name != [] && g.spotType != [] && g.description != [] && g.geology != [] && g.history != []
    requires g.rating != 0.0
    ensures RepairSpot(LocationSpot(g), index, g.isMainSpot) == LocationSpot(g)
  {
    RepairedIsFixedPoint(LocationSpot(g), index, g.isMainSpot);
  }

  // ----- the two forEach loops -----

  /**
   * An entry of a parsed spot list: the spot view of an object, or `None` for
   * `null` and the primitives, on which `validateSpot` throws (reading
   * `spot.name` on `null`, writing a property of a primitive in strict mode).
   */
  function EntryView(v: JsonValue): (e: Option<Spot>)
    ensures e.Some? <==> v.JObject?
  {
    if v.JObject? then Some(ToSpot(v.fields)) else None
  }

  function EntryViews(vs: seq<JsonValue>): (es: seq<Option<Spot>>)
    ensures |es| == |vs| && forall i :: 0 <= i < |vs| ==> es[i] == EntryView(vs[i])
  {
    seq(|vs|, i requires 0 <= i < |vs| => EntryView(vs[i]))
  }

  /** No entry throws. */
  predicate AllObjects(es: seq<Option<Spot>>) {
    forall i :: 0 <= i < |es| ==> es[i].Some?
  }

  /**
   * The list `forEach((spot, index) => validateSpot(spot, index, isMain))`
   * leaves, the first entry being at position `from`; `None` when an entry throws.
   */
  function RepairFrom(es: seq<Option<Spot>>, from: nat, isMain: bool): (r: Option<seq<Spot>>)
    ensures r.Some? <==> AllObjects(es)
    ensures r.Some? ==> |r.value| == |es|
    ensures r.Some? ==> forall i :: 0 <= i < |es| ==> r.value[i] == RepairSpot(es[i].value, from + i, isMain)
    decreases |es|
  {
    if es == [] then Some([])
    else if es[0].None? then None
    else
      match RepairFrom(es[1..], from + 1, isMain)
      case None => None
      case Some(rest) => Some([RepairSpot(es[0].value, from, isMain)] + rest)
  }

  /** Feeding a repaired list through the repair again gives the same list. */
  lemma {:induction false} RepairListIdempotent(es: seq<Option<Spot>>, from: nat, isMain: bool)
    requires AllObjects(es)
    ensures var once := RepairFrom(es, from, isMain).value;
      RepairFrom(seq(|once|, i requires 0 <= i < |once| => Some(once[i])), from, isMain) == Some(once)
    decreases |es|
  {
    var once := RepairFrom(es, from, isMain).value;
    var again := seq(|once|, i requires 0 <= i < |once| => Some(once[i]));
    forall i | 0 <= i < |es| ensures RepairSpot(once[i], from + i, isMain) == once[i] {
      RepairSpotIdempotent(es[i].value, from + i, from + i, isMain);
    }
    assert RepairFrom(again, from, isMain).value == once;
  }

  /**
   * One `forEach` loop over a parsed array: each entry is repaired where it
   * stands. An entry that throws stops the loop (`ok` false); the entries
   * before it are already repaired and the rest are untouched.
   */
  method RepairEntries(entries: array<Option<Spot>>, isMain: bool) returns (ok: bool)
    modifies entries
    ensures ok <==> AllObjects(old(entries[..]))
    ensures ok ==> forall k :: 0 <= k < entries.Length ==>
      old(entries[k]).Some? && entries[k] == Some(RepairSpot(old(entries[k]).value, k, isMain))
    ensures !ok ==> exists j :: (
      && 0 <= j < entries.Length && old(entries[j]).None?
      && (forall k :: 0 <= k < j ==> old(entries[k]).Some? && entries[k] == Some(RepairSpot(old(entries[k]).value, k, isMain)))
      && (forall k :: j <= k < entries.Length ==> entries[k] == old(entries[k])))
  {
    var i := 0;
    while i < entries.Length
      invariant 0 <= i <= entries.Length
      invariant forall k :: 0 <= k < i ==> old(entries[k]).Some? && entries[k] == Some(RepairSpot(old(entries[k]).value, k, isMain))
      invariant forall k :: i <= k < entries.Length ==> entries[k] == old(entries[k])
    {
      if entries[i].None? {
        assert old(entries[..])[i].None?;
        return false;
      }
      entries[i] := Some(RepairSpot(entries[i].value, i, isMain));
      i := i + 1;
    }
    ok := true;
  }

  // ----- the fallback results -----

  const ParseFailureDescription: string :=
    "Nous n'avons pas pu obtenir d'informations précises pour cette localisation. Essayez avec une ville plus connue ou une région aurifère comme 'Limousin', 'Cévennes', ou 'Ariège'."
  const SearchErrorDescription: string :=
    "Une erreur s'est produite lors de la recherche. Veuillez réessayer ultérieurement ou essayer avec une autre localisation."
  const FallbackType: string := "rivière"
  const NotAvailable: string := "Information non disponible"
  const PlaceholderHotspot: Hotspot :=
    Hotspot("Non disponible", "Aucune information sur les points d'intérêt spécifiques", "N/A")

  /** The single main spot of a fallback result. */
  function FallbackLocation(city: string, description: string): GoldLocation {
    GoldLocation(city, FallbackType, (0.0, 0.0), description, NotAvailable, NotAvailable,
                 3.0, [], [PlaceholderHotspot], true, None, None)
  }

  /** A fallback result: one main spot named after the city and no secondary spot. */
  function Fallback(city: string, description: string): (r: GoldSearchResult)
    ensures |r.mainSpots| == 1 && r.secondarySpots == []
    ensures var s := r.mainSpots[0];
      && s.name == Some(JString(city)) && s.spotType == Some(JString("rivière"))
      && s.coordinates == Some(Origin) && s.description == Some(JString(description))
      && s.geology == Some(JString("Information non disponible")) && s.history == Some(JString("Information non disponible"))
      && s.rating == Some(JNum(3.0)) && s.sources == Some(JArray([]))
      && s.hotspots == Some(JArray([HotspotToJson(Hotspot("Non disponible", "Aucune information sur les points d'intérêt spécifiques", "N/A"))]))
      && s.isMainSpot == Some(JBool(true)) && s.others == map[]
  {
    assert HotspotsToJson([PlaceholderHotspot]).items == [HotspotToJson(PlaceholderHotspot)];
    GoldSearchResult([LocationSpot(FallbackLocation(city, description))], [])
  }

  /** The result when the reply is not the expected JSON. */
  function ParseFallback(city: string): GoldSearchResult {
    Fallback(city, ParseFailureDescription)
  }

  /** The result when the request fails or the reply has no content. */
  function ErrorFallback(city: string): GoldSearchResult {
    Fallback(city, SearchErrorDescription)
  }

  /** The two fallbacks differ in the main spot's description and in nothing else. */
  lemma FallbacksDifferOnlyInDescription(city: string)
    ensures ParseFallback(city) != ErrorFallback(city)
    ensures ErrorFallback(city).secondarySpots == ParseFallback(city).secondarySpots
    ensures ErrorFallback(city).mainSpots[0] == ParseFallback(city).mainSpots[0].(description := Some(JString(SearchErrorDescription)))
  {
    assert |ParseFailureDescription| != |SearchErrorDescription|;
  }

  /** With a non-empty city the fallback spot is itself a repaired main spot. */
  lemma FallbackIsRepaired(city: string, description: string)
    requires city != [] && description != []
    ensures Repaired(Fallback(city, description).mainSpots[0], true)
  {
  }

  // ----- searchGoldLocations -----

  /** The parsed reply has `mainSpots` and `secondarySpots`, both arrays. */
  predicate HasSpotLists(v: JsonValue) {
    v.JObject? && IsArrayRead(Get(v.fields, "mainSpots")) && IsArrayRead(Get(v.fields, "secondarySpots"))
  }

  /** The reply has truthy content, the text handed to `JSON.parse`. */
  predicate HasContent(reply: ChatReply) {
    reply.Replied? && reply.content.Some? && reply.content.value != []
  }

  /**
   * What `searchGoldLocations(city)` resolves to, given the backend's reply and
   * `JSON.parse` (which answers `None` where it throws).
   */
  function Normalize(city: string, reply: ChatReply, jsonParse: string -> Option<JsonValue>): (r: GoldSearchResult)
    ensures forall s :: s in r.mainSpots ==> s.isMainSpot == Some(JBool(true))
    ensures forall s :: s in r.secondarySpots ==> s.isMainSpot == Some(JBool(false))
  {
    if !HasContent(reply) then ErrorFallback(city)
    else
      match jsonParse(reply.content.value)
      case None => ParseFallback(city)
      case Some(v) =>
        if !HasSpotLists(v) then ParseFallback(city)
        else
          match (RepairFrom(EntryViews(v.fields["mainSpots"].items), 0, true),
                 RepairFrom(EntryViews(v.fields["secondarySpots"].items), 0, false))
          case (Some(mains), Some(secondaries)) => GoldSearchResult(mains, secondaries)
          case _ => ParseFallback(city)
  }

  /** The repaired spots an array holds once `RepairEntries` succeeded on it. */
  function Spots(entries: seq<Option<Spot>>): (spots: seq<Spot>)
    requires AllObjects(entries)
    ensures |spots| == |entries| && forall k :: 0 <= k < |entries| ==> Some(spots[k]) == entries[k]
  {
    seq(|entries|, k requires 0 <= k < |entries| => entries[k].value)
  }

  /**
   * `searchGoldLocations`: both parsed lists are repaired in place, main spots
   * first, and returned; every failure becomes a fallback.
   */
  method SearchGoldLocations(city: string, reply: ChatReply, jsonParse: string -> Option<JsonValue>)
    returns (result: GoldSearchResult)
    ensures result == Normalize(city, reply, jsonParse)
  {
    if !HasContent(reply) {
      return ErrorFallback(city);
    }
    var parsed := jsonParse(reply.content.value);
    if parsed.None? || !HasSpotLists(parsed.value) {
      return ParseFallback(city);
    }
    var mainViews := EntryViews(parsed.value.fields["mainSpots"].items);
    var secondaryViews := EntryViews(parsed.value.fields["secondarySpots"].items);
    var mains := new Option<Spot>[|mainViews|](i requires 0 <= i < |mainViews| => mainViews[i]);
    var secondaries := new Option<Spot>[|secondaryViews|](i requires 0 <= i < |secondaryViews| => secondaryViews[i]);
    assert mains[..] == mainViews && secondaries[..] == secondaryViews;
    var ok := RepairEntries(mains, true);
    if !ok {
      return ParseFallback(city);
    }
    ok := RepairEntries(secondaries, false);
    if !ok {
      return ParseFallback(city);
    }
    result := GoldSearchResult(Spots(mains[..]), Spots(secondaries[..]));
    assert RepairFrom(mainViews, 0, true).value == result.mainSpots;
    assert RepairFrom(secondaryViews, 0, false).value == result.secondarySpots;
  }

  // ----- properties of the search result -----

  /** No content, or a failed request, gives the error fallback. */
  lemma NoContentGivesErrorFallback(city: string, reply: ChatReply, jsonParse: string -> Option<JsonValue>)
    requires reply.RequestFailed? || reply.content == None || reply.content == Some("")
    ensures Normalize(city, reply, jsonParse) == ErrorFallback(city)
  {
  }

  /**
   * Unparseable content, a missing or non-array spot list, or an entry of
   * either list that is not an object gives the parse fallback.
   */
  lemma MalformedReplyGivesParseFallback(city: string, reply: ChatReply, jsonParse: string -> Option<JsonValue>)
    requires HasContent(reply)
    requires var p := jsonParse(reply.content.value);
      || p.None?
      || !HasSpotLists(p.value)
      || (exists i :: 0 <= i < |p.value.fields["mainSpots"].items| && !p.value.fields["mainSpots"].items[i].JObject?)
      || (exists i :: 0 <= i < |p.value.fields["secondarySpots"].items| && !p.value.fields["secondarySpots"].items[i].JObject?)
    ensures Normalize(city, reply, jsonParse) == ParseFallback(city)
  {
    var p := jsonParse(reply.content.value);
    if p.Some? && HasSpotLists(p.value) {
      var mains := p.value.fields["mainSpots"].items;
      var secondaries := p.value.fields["secondarySpots"].items;
      if exists i :: 0 <= i < |mains| && !mains[i].JObject? {
        var i :| 0 <= i < |mains| && !mains[i].JObject?;
        assert EntryViews(mains)[i].None?;
      } else {
        var i :| 0 <= i < |secondaries| && !secondaries[i].JObject?;
        assert EntryViews(secondaries)[i].None?;
      }
    }
  }

  /**
   * A well-shaped reply keeps both lists' lengths and order: each result
   * entry is the repair of the parsed object at the same position.
   */
  lemma WellShapedReplyIsRepaired(city: string, reply: ChatReply, jsonParse: string -> Option<JsonValue>, v: JsonValue)
    requires HasContent(reply) && jsonParse(reply.content.value) == Some(v) && HasSpotLists(v)
    requires forall i :: 0 <= i < |v.fields["mainSpots"].items| ==> v.fields["mainSpots"].items[i].JObject?
    requires forall i :: 0 <= i < |v.fields["secondarySpots"].items| ==> v.fields["secondarySpots"].items[i].JObject?
    ensures var r := Normalize(city, reply, jsonParse);
      var mains := v.fields["mainSpots"].items;
      var secondaries := v.fields["secondarySpots"].items;
      && |r.mainSpots| == |mains| && |r.secondarySpots| == |secondaries|
      && (forall i :: 0 <= i < |mains| ==> r.mainSpots[i] == RepairSpot(ToSpot(mains[i].fields), i, true))
      && (forall i :: 0 <= i < |secondaries| ==> r.secondarySpots[i] == RepairSpot(ToSpot(secondaries[i].fields), i, false))
  {
    assert AllObjects(EntryViews(v.fields["mainSpots"].items));
    assert AllObjects(EntryViews(v.fields["secondarySpots"].items));
  }

  /**
   * With a non-empty city every spot of the result, fallback or not, is fully
   * repaired for its list.
   */
  lemma ResultSpotsAreRepaired(city: string, reply: ChatReply, jsonParse: string -> Option<JsonValue>)
    ensures city != [] ==> var r := Normalize(city, reply, jsonParse);
      && (forall s :: s in r.mainSpots ==> Repaired(s, true))
      && (forall s :: s in r.secondarySpots ==> Repaired(s, false))
  {
    if city != [] {
      FallbackIsRepaired(city, ParseFailureDescription);
      FallbackIsRepaired(city, SearchErrorDescription);
    }
  }

  /** A reply listing one main spot that has only a name: the name stays and every other field takes its default. */
  lemma NamedSpotGetsDefaults(city: string, reply: ChatReply, jsonParse: string -> Option<JsonValue>)
    requires HasContent(reply)
    requires jsonParse(reply.content.value) == Some(JObject(map[
      "mainSpots" := JArray([JObject(map["name" := JString("Rivière A")])]),
      "secondarySpots" := JArray([])]))
    ensures var r := Normalize(city, reply, jsonParse);
      && |r.mainSpots| == 1 && r.secondarySpots == []
      && r.mainSpots[0].name == Some(JString("Rivière A"))
      && r.mainSpots[0].spotType == Some(JString("cours d'eau"))
      && r.mainSpots[0].coordinates == Some(Origin)
      && r.mainSpots[0].rating == Some(JNum(3.0))
      && r.mainSpots[0].hotspots == Some(JArray([]))
      && r.mainSpots[0].isMainSpot == Some(JBool(true))
  {
    var v := jsonParse(reply.content.value).value;
    assert v.fields["mainSpots"].items[0].fields["name"] == JString("Rivière A");
    assert ToSpot(v.fields["mainSpots"].items[0].fields).name == Some(JString("Rivière A"));
    assert ToSpot(v.fields["mainSpots"].items[0].fields).spotType == None;
    assert ToSpot(v.fields["mainSpots"].items[0].fields).coordinates == None;
    assert ToSpot(v.fields["mainSpots"].items[0].fields).rating == None;
    assert ToSpot(v.fields["mainSpots"].items[0].fields).hotspots == None;
    WellShapedReplyIsRepaired(city, reply, jsonParse, v);
  }
}
