/** `DiscoveryCardDefinitionViewer`: the discovery-card table's points/cost filter and its
    clickable column sort. */
module DiscoveryViewer {
  import opened Wrappers
  import opened Cards
  import opened CostCodec
  import opened RangeFilters
  import opened Seqs
  import opened Sorting

  /** The viewer's `filters` state. */
  datatype DiscoveryFilters = DiscoveryFilters(points: Range, costs: CostRanges)

  const DefaultFilters: DiscoveryFilters := DiscoveryFilters(DefaultPoints, DefaultCosts)

  /** The filter effect: points range, then cost ranges. */
  function FilterDiscoveryCards(cards: seq<DiscoveryCard>, f: DiscoveryFilters, parse: JsonParser): seq<DiscoveryCard> {
    var byPoints := Filter(cards, (c: DiscoveryCard) => InRange(c.points, f.points));
    Filter(byPoints, (c: DiscoveryCard) => CostWithin(ParseCost(c.cost, parse), f.costs))
  }

  predicate KeepDiscoveryCard(c: DiscoveryCard, f: DiscoveryFilters, parse: JsonParser) {
    InRange(c.points, f.points) && CostWithin(ParseCost(c.cost, parse), f.costs)
  }

  /** A card is kept exactly when it lies inside all six inclusive ranges (a missing cost colour
      fails), and the kept cards keep their order. */
  lemma FilterDiscoveryCardsSpec(cards: seq<DiscoveryCard>, f: DiscoveryFilters, parse: JsonParser, c: DiscoveryCard)
    ensures c in FilterDiscoveryCards(cards, f, parse) <==>
      && c in cards
      && f.points.lo <= c.points <= f.points.hi
      && (forall t: Token :: t in ParseCost(c.cost, parse) && InRange(ParseCost(c.cost, parse)[t], RangeFor(f.costs, t)))
    ensures FilterDiscoveryCards(cards, f, parse) == Filter(cards, (d: DiscoveryCard) => KeepDiscoveryCard(d, f, parse))
    ensures IsSubsequence(FilterDiscoveryCards(cards, f, parse), cards)
  {
    var keep := (d: DiscoveryCard) => KeepDiscoveryCard(d, f, parse);
    FilterFilter(cards, (d: DiscoveryCard) => InRange(d.points, f.points),
      (d: DiscoveryCard) => CostWithin(ParseCost(d.cost, parse), f.costs), keep);
    FilterMembership(cards, keep, c);
    CostWithinEveryColour(ParseCost(c.cost, parse), f.costs);
    FilterIsSubsequence(cards, keep);
  }

  datatype Direction = Asc | Desc

  /** `sortConfig`: the active column key (`null` initially) and direction. */
  datatype SortConfig = SortConfig(key: Option<string>, direction: Direction)

  const InitialSort: SortConfig := SortConfig(None, Asc)

  /** `handleSort(key)`: clicking the active ascending column flips it to descending; any other
      click sorts ascending by the clicked column. */
  function HandleSort(prev: SortConfig, key: string): SortConfig {
    SortConfig(Some(key), if prev.key == Some(key) && prev.direction == Asc then Desc else Asc)
  }

  /** Clicking a column makes it the active key; clicking it again flips the direction, so the
      direction alternates asc, desc, asc, ... and a third click equals the first. */
  lemma HandleSortSpec(prev: SortConfig, key: string)
    ensures HandleSort(prev, key).key == Some(key)
    ensures HandleSort(prev, key).direction == Desc <==> prev.key == Some(key) && prev.direction == Asc
    ensures HandleSort(HandleSort(prev, key), key).direction != HandleSort(prev, key).direction
    ensures HandleSort(HandleSort(HandleSort(prev, key), key), key) == HandleSort(prev, key)
  {
  }

  /** The header icons: `↕️` for an inactive column, `▴` ascending, `▾` descending. */
  datatype SortIcon = Neutral | Up | Down

  function Glyph(i: SortIcon): string {
    match i
    case Neutral => "\U{2195}\U{FE0F}"
    case Up => "\U{25B4}"
    case Down => "\U{25BE}"
  }

  /** `getSortIcon(key)`. */
  function GetSortIcon(cfg: SortConfig, key: string): SortIcon {
    if cfg.key != Some(key) then Neutral
    else if cfg.direction == Asc then Up
    else Down
  }

  /** After a click exactly the clicked column shows a direction icon, and it shows the new
      direction. */
  lemma SortIconAfterClick(prev: SortConfig, clicked: string, other: string)
    requires other != clicked
    ensures GetSortIcon(HandleSort(prev, clicked), other) == Neutral
    ensures GetSortIcon(HandleSort(prev, clicked), clicked) == (if HandleSort(prev, clicked).direction == Asc then Up else Down)
    ensures GetSortIcon(InitialSort, clicked) == Neutral
  {
  }

  /** The column keys the comparator's `switch` recognises. */
  predicate KnownSortKey(key: string) {
    key in {"id", "points", "whiteCost", "blueCost", "greenCost", "redCost", "blackCost"}
  }

  function CostValue(c: DiscoveryCard, t: Token, parse: JsonParser): Option<int> {
    var cost := ParseCost(c.cost, parse);
    if t in cost then Some(cost[t]) else None
  }

  /** The value the comparator reads for `key`; `None` is JavaScript's `undefined` (a missing
      cost colour) or the `default` branch. */
  function KeyValue(key: string, c: DiscoveryCard, parse: JsonParser): Option<int> {
    if key == "id" then Some(c.id)
    else if key == "points" then Some(c.points)
    else if key == "whiteCost" then CostValue(c, WHITE, parse)
    else if key == "blueCost" then CostValue(c, BLUE, parse)
    else if key == "greenCost" then CostValue(c, GREEN, parse)
    else if key == "redCost" then CostValue(c, RED, parse)
    else if key == "blackCost" then CostValue(c, BLACK, parse)
    else None
  }

  /** The `sort` comparator. Comparisons with `undefined` are false, so they give 0 as the
      `default` branch does. */
  function Compare(key: string, dir: Direction, a: DiscoveryCard, b: DiscoveryCard, parse: JsonParser): int {
    match (KeyValue(key, a, parse), KeyValue(key, b, parse))
    case (Some(x), Some(y)) =>
      if x < y then (if dir == Asc then -1 else 1)
      else if x > y then (if dir == Asc then 1 else -1)
      else 0
    case _ => 0
  }

  /** `a` may stay before `b` in the stable sort: the comparator does not put `b` first. */
  function MayPrecede(key: string, dir: Direction, parse: JsonParser): (DiscoveryCard, DiscoveryCard) -> bool {
    (a: DiscoveryCard, b: DiscoveryCard) => Compare(key, dir, a, b, parse) <= 0
  }

  /** The sort step: only when `sortConfig.key` is truthy (not `null`, not empty). */
  function SortDiscoveryCards(cards: seq<DiscoveryCard>, cfg: SortConfig, parse: JsonParser): seq<DiscoveryCard> {
    if cfg.key.Some? && cfg.key.value != "" then SortBy(cards, MayPrecede(cfg.key.value, cfg.direction, parse))
    else cards
  }

  /** What the table shows: filtered, then sorted. */
  function DisplayedCards(cards: seq<DiscoveryCard>, f: DiscoveryFilters, cfg: SortConfig, parse: JsonParser): seq<DiscoveryCard> {
    SortDiscoveryCards(FilterDiscoveryCards(cards, f, parse), cfg, parse)
  }

  /** With no active key the filtered order is shown unchanged. */
  lemma NoSortKeyKeepsOrder(cards: seq<DiscoveryCard>, f: DiscoveryFilters, cfg: SortConfig, parse: JsonParser)
    requires cfg.key.None? || cfg.key == Some("")
    ensures DisplayedCards(cards, f, cfg, parse) == FilterDiscoveryCards(cards, f, parse)
  {
  }

  /** An unrecognised key makes every comparison 0, so the stable sort changes nothing. */
  lemma UnknownSortKeyKeepsOrder(cards: seq<DiscoveryCard>, f: DiscoveryFilters, cfg: SortConfig, parse: JsonParser)
    requires cfg.key.Some? && !KnownSortKey(cfg.key.value)
    ensures forall a, b :: Compare(cfg.key.value, cfg.direction, a, b, parse) == 0
    ensures DisplayedCards(cards, f, cfg, parse) == FilterDiscoveryCards(cards, f, parse)
  {
    var filtered := FilterDiscoveryCards(cards, f, parse);
    if cfg.key.value != "" {
      SortByAllTies(filtered, MayPrecede(cfg.key.value, cfg.direction, parse));
    }
  }

  /** Every card that passed the filter has a value for every known key. */
  lemma FilteredHaveKeys(cards: seq<DiscoveryCard>, f: DiscoveryFilters, parse: JsonParser, key: string)
    requires KnownSortKey(key)
    ensures forall i :: 0 <= i < |FilterDiscoveryCards(cards, f, parse)| ==>
      KeyValue(key, FilterDiscoveryCards(cards, f, parse)[i], parse).Some?
  {
    var filtered := FilterDiscoveryCards(cards, f, parse);
    forall i | 0 <= i < |filtered|
      ensures KeyValue(key, filtered[i], parse).Some?
    {
      FilterDiscoveryCardsSpec(cards, f, parse, filtered[i]);
      CostWithinEveryColour(ParseCost(filtered[i].cost, parse), f.costs);
    }
  }

  /** On cards that all have a value, the comparator orders by that value. */
  lemma MayPrecedeByValue(key: string, dir: Direction, parse: JsonParser, a: DiscoveryCard, b: DiscoveryCard)
    requires KeyValue(key, a, parse).Some? && KeyValue(key, b, parse).Some?
    ensures MayPrecede(key, dir, parse)(a, b) <==>
      if dir == Asc then KeyValue(key, a, parse).value <= KeyValue(key, b, parse).value
      else KeyValue(key, a, parse).value >= KeyValue(key, b, parse).value
  {
  }

  lemma MayPrecedeIsPreorder(key: string, dir: Direction, parse: JsonParser)
    ensures TotalPreorderOn(MayPrecede(key, dir, parse), (c: DiscoveryCard) => KeyValue(key, c, parse).Some?)
  {
    var le := MayPrecede(key, dir, parse);
    forall a, b | KeyValue(key, a, parse).Some? && KeyValue(key, b, parse).Some?
      ensures le(a, b) || le(b, a)
    {
      MayPrecedeByValue(key, dir, parse, a, b);
      MayPrecedeByValue(key, dir, parse, b, a);
    }
    forall a, b, c | KeyValue(key, a, parse).Some? && KeyValue(key, b, parse).Some? && KeyValue(key, c, parse).Some? && le(a, b) && le(b, c)
      ensures le(a, c)
    {
      MayPrecedeByValue(key, dir, parse, a, b);
      MayPrecedeByValue(key, dir, parse, b, c);
      MayPrecedeByValue(key, dir, parse, a, c);
    }
  }

  /** `a` comes no later than `b` in the requested direction. */
  ghost predicate InOrder(key: string, dir: Direction, parse: JsonParser, a: DiscoveryCard, b: DiscoveryCard) {
    && KeyValue(key, a, parse).Some? && KeyValue(key, b, parse).Some?
    && (if dir == Asc then KeyValue(key, a, parse).value <= KeyValue(key, b, parse).value
        else KeyValue(key, a, parse).value >= KeyValue(key, b, parse).value)
  }

  /** With a known key the table shows a permutation of the filtered cards that is
      non-decreasing (asc) or non-increasing (desc) in that key. */
  lemma KnownSortKeySorts(cards: seq<DiscoveryCard>, f: DiscoveryFilters, cfg: SortConfig, parse: JsonParser)
    requires cfg.key.Some? && KnownSortKey(cfg.key.value)
    ensures multiset(DisplayedCards(cards, f, cfg, parse)) == multiset(FilterDiscoveryCards(cards, f, parse))
    ensures forall i, j :: 0 <= i < j < |DisplayedCards(cards, f, cfg, parse)| ==>
      InOrder(cfg.key.value, cfg.direction, parse, DisplayedCards(cards, f, cfg, parse)[i], DisplayedCards(cards, f, cfg, parse)[j])
  {
    var key := cfg.key.value;
    var dom := (c: DiscoveryCard) => KeyValue(key, c, parse).Some?;
    var le := MayPrecede(key, cfg.direction, parse);
    var filtered := FilterDiscoveryCards(cards, f, parse);
    var r := DisplayedCards(cards, f, cfg, parse);
    FilteredHaveKeys(cards, f, parse, key);
    assert AllIn(filtered, dom);
    MayPrecedeIsPreorder(key, cfg.direction, parse);
    SortBySorted(filtered, le, dom);
    ElementsFromMultiset(r, filtered, dom);
    forall i, j | 0 <= i < j < |r|
      ensures InOrder(key, cfg.direction, parse, r[i], r[j])
    {
      assert dom(r[i]) && dom(r[j]);
      MayPrecedeByValue(key, cfg.direction, parse, r[i], r[j]);
    }
  }
}
