/**
 * What a result card shows of a location: a star rating, the description cut
 * to 150 characters, and the hotspot count with their locations.
 */
module RiverCard {
  import opened Wrappers
  import opened GoldLocations

  const Star: char := '⭐'

  /** `Math.round(x)`: the nearest integer, halves rounded up. */
  function Round(x: real): (n: int)
    ensures x - 0.5 < n as real <= x + 0.5
  {
    (x + 0.5).Floor
  }

  /** The number of stars `renderRating` draws: the rounded rating clamped to 1..5. */
  function StarCount(rating: real): (n: int)
    ensures 1 <= n <= 5
    ensures rating >= 4.5 ==> n == 5
    ensures rating < 1.5 ==> n == 1
  {
    var r := Round(rating);
    if r > 5 then 5 else if r < 1 then 1 else r
  }

  /** `count` copies of a character (`String.prototype.repeat`). */
  function Repeat(c: char, count: nat): (s: string)
    ensures |s| == count && forall i :: 0 <= i < |s| ==> s[i] == c
  {
    if count == 0 then [] else [c] + Repeat(c, count - 1)
  }

  /** `renderRating(rating)`: between one and five stars. */
  function RenderRating(rating: real): (s: string)
    ensures 1 <= |s| <= 5 && |s| == StarCount(rating)
    ensures forall i :: 0 <= i < |s| ==> s[i] == Star
  {
    Repeat(Star, StarCount(rating))
  }

  /** For a whole-number rating the stars are the rating clamped to 1..5; 1 to 5 stay as they are. */
  lemma IntegerRatingStars(r: int)
    ensures StarCount(r as real) == if r < 1 then 1 else if r > 5 then 5 else r
    ensures 1 <= r <= 5 ==> |RenderRating(r as real)| == r
  {
    assert Round(r as real) == r;
  }

  /** A higher rating never shows fewer stars. */
  lemma StarCountMonotonic(a: real, b: real)
    requires a <= b
    ensures StarCount(a) <= StarCount(b)
  {
  }

  /** The longest description shown in full. */
  const DescriptionLimit: nat := 150

  /** The description as shown: its first 150 characters followed by "..." when it is longer. */
  function ShownDescription(description: string): (r: string)
    ensures |description| <= DescriptionLimit ==> r == description
    ensures |description| > DescriptionLimit ==>
      |r| == DescriptionLimit + 3 && r[..DescriptionLimit] == description[..DescriptionLimit] && r[DescriptionLimit..] == "..."
  {
    if |description| > DescriptionLimit then description[..DescriptionLimit] + "..." else description
  }

  /** The shown description never exceeds 153 characters, and showing it again changes nothing. */
  lemma ShownDescriptionIdempotent(description: string)
    ensures |ShownDescription(description)| <= DescriptionLimit + 3
    ensures ShownDescription(ShownDescription(description)) == ShownDescription(description)
  {
    var r := ShownDescription(description);
    if |description| > DescriptionLimit {
      assert r == r[..DescriptionLimit] + r[DescriptionLimit..];
    }
  }

  /** `items.join(separator)`. */
  function Join(items: seq<string>, separator: string): (r: string)
    ensures items == [] ==> r == []
    ensures |items| == 1 ==> r == items[0]
    decreases |items|
  {
    if items == [] then []
    else if |items| == 1 then items[0]
    else items[0] + separator + Join(items[1..], separator)
  }

  /** Joining is appending: each further item comes after one more separator. */
  lemma {:induction false} JoinAppend(items: seq<string>, item: string, separator: string)
    requires items != []
    ensures Join(items + [item], separator) == Join(items, separator) + separator + item
    decreases |items|
  {
    if |items| == 1 {
      assert (items + [item])[1..] == [item];
    } else {
      assert (items + [item])[1..] == items[1..] + [item];
      JoinAppend(items[1..], item, separator);
    }
  }

  /** The sum of the items' lengths. */
  function TotalLength(items: seq<string>): nat
    decreases |items|
  {
    if items == [] then 0 else |items[0]| + TotalLength(items[1..])
  }

  /** A join is the items' characters plus one separator between each two neighbours. */
  lemma {:induction false} JoinLength(items: seq<string>, separator: string)
    requires items != []
    ensures |Join(items, separator)| == TotalLength(items) + (|items| - 1) * |separator|
    decreases |items|
  {
    if |items| > 1 {
      JoinLength(items[1..], separator);
    } else {
      assert items[1..] == [];
    }
  }

  /** The hotspot block of a card: how many hotspots there are and their locations. */
  datatype HotspotBlock = HotspotBlock(count: nat, locations: string)

  function Locations(hotspots: seq<Hotspot>): (ls: seq<string>)
    ensures |ls| == |hotspots| && forall i :: 0 <= i < |hotspots| ==> ls[i] == hotspots[i].location
  {
    seq(|hotspots|, i requires 0 <= i < |hotspots| => hotspots[i].location)
  }

  /** The block is drawn only when there are hotspots; it shows their count and their locations joined by ", ". */
  function HotspotSummary(hotspots: seq<Hotspot>): (r: Option<HotspotBlock>)
    ensures r.Some? <==> |hotspots| > 0
    ensures r.Some? ==> r.value.count == |hotspots| && r.value.locations == Join(Locations(hotspots), ", ")
  {
    if |hotspots| > 0 then Some(HotspotBlock(|hotspots|, Join(Locations(hotspots), ", "))) else None
  }

  /** A card for one more hotspot counts one more and lists its location last. */
  lemma HotspotSummaryAppend(hotspots: seq<Hotspot>, h: Hotspot)
    requires hotspots != []
    ensures HotspotSummary(hotspots + [h]).value.count == HotspotSummary(hotspots).value.count + 1
    ensures HotspotSummary(hotspots + [h]).value.locations == HotspotSummary(hotspots).value.locations + ", " + h.location
  {
    assert Locations(hotspots + [h]) == Locations(hotspots) + [h.location];
    JoinAppend(Locations(hotspots), h.location, ", ");
  }
}
