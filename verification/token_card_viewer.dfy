/** `CardDefinitionViewer`: the token-card table's filter chain and colour badges. */
module TokenCardViewer {
  import opened Cards
  import opened CostCodec
  import opened RangeFilters
  import opened Seqs

  /** The viewer's `filters` state. */
  datatype TokenFilters = TokenFilters(tokens: seq<Token>, tiers: seq<int>, points: Range, costs: CostRanges)

  /** The initial state: no token or tier restriction, points 0..5, costs 0..7. */
  const DefaultFilters: TokenFilters := TokenFilters([], [], DefaultPoints, DefaultCosts)

  function TokenStage(cards: seq<TokenCard>, f: TokenFilters): seq<TokenCard> {
    if |f.tokens| > 0 then Filter(cards, (c: TokenCard) => c.token in f.tokens) else cards
  }

  function TierStage(cards: seq<TokenCard>, f: TokenFilters): seq<TokenCard> {
    if |f.tiers| > 0 then Filter(cards, (c: TokenCard) => c.tier in f.tiers) else cards
  }

  function PointsStage(cards: seq<TokenCard>, f: TokenFilters): seq<TokenCard> {
    Filter(cards, (c: TokenCard) => InRange(c.points, f.points))
  }

  function CostStage(cards: seq<TokenCard>, f: TokenFilters, parse: JsonParser): seq<TokenCard> {
    Filter(cards, (c: TokenCard) => CostWithin(ParseCost(c.cost, parse), f.costs))
  }

  /** The filter effect: tokens, then tiers, then points, then costs. */
  function FilterTokenCards(cards: seq<TokenCard>, f: TokenFilters, parse: JsonParser): seq<TokenCard> {
    CostStage(PointsStage(TierStage(TokenStage(cards, f), f), f), f, parse)
  }

  /** One card's verdict: an empty token or tier list imposes no restriction. */
  predicate KeepTokenCard(c: TokenCard, f: TokenFilters, parse: JsonParser) {
    && (|f.tokens| == 0 || c.token in f.tokens)
    && (|f.tiers| == 0 || c.tier in f.tiers)
    && InRange(c.points, f.points)
    && CostWithin(ParseCost(c.cost, parse), f.costs)
  }

  /** The four-stage chain is a single filter by `KeepTokenCard`. */
  lemma {:induction false} FilterTokenCardsIsOnePass(cards: seq<TokenCard>, f: TokenFilters, parse: JsonParser)
    ensures FilterTokenCards(cards, f, parse) == Filter(cards, (c: TokenCard) => KeepTokenCard(c, f, parse))
  {
    var pTok := (c: TokenCard) => |f.tokens| == 0 || c.token in f.tokens;
    var pTier := (c: TokenCard) => |f.tiers| == 0 || c.tier in f.tiers;
    var pPts := (c: TokenCard) => InRange(c.points, f.points);
    var pCost := (c: TokenCard) => CostWithin(ParseCost(c.cost, parse), f.costs);
    var s1 := TokenStage(cards, f);
    if |f.tokens| > 0 {
      FilterCongruent(cards, (c: TokenCard) => c.token in f.tokens, pTok);
    } else {
      FilterKeepsAll(cards, pTok);
    }
    assert s1 == Filter(cards, pTok);
    var s2 := TierStage(s1, f);
    if |f.tiers| > 0 {
      FilterCongruent(s1, (c: TokenCard) => c.tier in f.tiers, pTier);
    } else {
      FilterKeepsAll(s1, pTier);
    }
    assert s2 == Filter(s1, pTier);
    var p12 := (c: TokenCard) => pTok(c) && pTier(c);
    FilterFilter(cards, pTok, pTier, p12);
    assert s2 == Filter(cards, p12);
    var s3 := PointsStage(s2, f);
    FilterCongruent(s2, (c: TokenCard) => InRange(c.points, f.points), pPts);
    var p123 := (c: TokenCard) => p12(c) && pPts(c);
    FilterFilter(cards, p12, pPts, p123);
    assert s3 == Filter(cards, p123);
    FilterCongruent(s3, (c: TokenCard) => CostWithin(ParseCost(c.cost, parse), f.costs), pCost);
    FilterFilter(cards, p123, pCost, (c: TokenCard) => KeepTokenCard(c, f, parse));
  }

  /** A card is shown exactly when it is in the input, its token (resp. tier) is listed or the
      list is empty, its points lie in the points range and each of its five costs is present and
      lies in its range. The shown cards keep their relative order. */
  lemma FilterTokenCardsSpec(cards: seq<TokenCard>, f: TokenFilters, parse: JsonParser, c: TokenCard)
    ensures c in FilterTokenCards(cards, f, parse) <==>
      && c in cards
      && (|f.tokens| == 0 || c.token in f.tokens)
      && (|f.tiers| == 0 || c.tier in f.tiers)
      && f.points.lo <= c.points <= f.points.hi
      && (forall t: Token :: t in ParseCost(c.cost, parse) && InRange(ParseCost(c.cost, parse)[t], RangeFor(f.costs, t)))
    ensures IsSubsequence(FilterTokenCards(cards, f, parse), cards)
  {
    FilterTokenCardsIsOnePass(cards, f, parse);
    FilterMembership(cards, (c: TokenCard) => KeepTokenCard(c, f, parse), c);
    CostWithinEveryColour(ParseCost(c.cost, parse), f.costs);
    FilterIsSubsequence(cards, (c: TokenCard) => KeepTokenCard(c, f, parse));
  }

  /** With the initial filters a card is shown exactly when its points are 0..5 and every cost
      colour is present with an amount 0..7; in particular every card whose cost is unparsable
      text is shown when its points are in range. */
  lemma DefaultFiltersSpec(cards: seq<TokenCard>, parse: JsonParser, c: TokenCard)
    ensures c in FilterTokenCards(cards, DefaultFilters, parse) <==>
      && c in cards
      && 0 <= c.points <= 5
      && (forall t: Token :: t in ParseCost(c.cost, parse) && 0 <= ParseCost(c.cost, parse)[t] <= 7)
  {
    FilterTokenCardsSpec(cards, DefaultFilters, parse, c);
    DefaultCostsWithin(ParseCost(c.cost, parse));
  }

  /** Every colour's default range is 0..7. */
  lemma DefaultCostsWithin(m: map<Token, int>)
    ensures (forall t: Token :: t in m && InRange(m[t], RangeFor(DefaultCosts, t))) <==>
      (forall t: Token :: t in m && 0 <= m[t] <= 7)
  {
    forall t: Token
      ensures RangeFor(DefaultCosts, t) == Range(0, 7)
    {
      match t
      case WHITE =>
      case BLUE =>
      case GREEN =>
      case RED =>
      case BLACK =>
    }
  }

  /** Chakra colour schemes of the badges. */
  datatype ColorScheme = Gray | Blue | Green | Red | Yellow | Orange | Purple

  /** `getTokenColorScheme`. */
  function TokenColorScheme(t: Token): ColorScheme {
    match t
    case WHITE => Gray
    case BLUE => Blue
    case GREEN => Green
    case RED => Red
    case BLACK => Gray
  }

  /** `getTierColorScheme`: tiers 1, 2, 3 have their own colour, any other tier is gray. */
  function TierColorScheme(tier: int): ColorScheme {
    if tier == 1 then Yellow
    else if tier == 2 then Orange
    else if tier == 3 then Purple
    else Gray
  }

  /** Only the three real tiers get a colour, and each a different one. */
  lemma TierColorSchemeSpec(a: int, b: int)
    ensures TierColorScheme(a) != Gray <==> 1 <= a <= 3
    ensures 1 <= a <= 3 && 1 <= b <= 3 && a != b ==> TierColorScheme(a) != TierColorScheme(b)
  {
  }

  /** Only WHITE and BLACK share a scheme (gray); the badge then tells them apart by token. */
  lemma TokenColorSchemeSpec(a: Token, b: Token)
    ensures TokenColorScheme(a) == TokenColorScheme(b) <==> a == b || (a in {WHITE, BLACK} && b in {WHITE, BLACK})
  {
  }
}
