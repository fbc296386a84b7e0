/** The inclusive points and per-colour cost ranges both card viewers filter by. */
module RangeFilters {
  import opened Cards

  /** An inclusive range `[lo, hi]`, one slider's `minValue`/`maxValue` pair. */
  datatype Range = Range(lo: int, hi: int)

  predicate InRange(v: int, r: Range) {
    r.lo <= v <= r.hi
  }

  /** The five cost sliders: `minWhiteCost`/`maxWhiteCost` through `minBlackCost`/`maxBlackCost`. */
  datatype CostRanges = CostRanges(white: Range, blue: Range, green: Range, red: Range, black: Range)

  function RangeFor(c: CostRanges, t: Token): Range {
    match t
    case WHITE => c.white
    case BLUE => c.blue
    case GREEN => c.green
    case RED => c.red
    case BLACK => c.black
  }

  /** Initial slider values: points 0..5, every cost 0..7. */
  const DefaultPoints: Range := Range(0, 5)
  const DefaultCosts: CostRanges := CostRanges(Range(0, 7), Range(0, 7), Range(0, 7), Range(0, 7), Range(0, 7))

  /** One colour's cost lies in its inclusive range; a missing colour is `undefined`, and every
      comparison with it is false. */
  predicate ColourWithin(cost: CostMap, t: Token, r: Range) {
    t in cost && InRange(cost[t], r)
  }

  /** The viewers' cost test, colour by colour in the source's order. */
  predicate CostWithin(cost: CostMap, c: CostRanges) {
    && ColourWithin(cost, WHITE, c.white)
    && ColourWithin(cost, BLUE, c.blue)
    && ColourWithin(cost, GREEN, c.green)
    && ColourWithin(cost, RED, c.red)
    && ColourWithin(cost, BLACK, c.black)
  }

  /** The cost test holds exactly when every colour is present and inside its own range; in
      particular a cost that passes is a full vector. */
  lemma CostWithinEveryColour(cost: CostMap, c: CostRanges)
    ensures CostWithin(cost, c) <==> forall t: Token :: t in cost && InRange(cost[t], RangeFor(c, t))
    ensures CostWithin(cost, c) ==> IsCostVector(cost)
  {
    if CostWithin(cost, c) {
      forall t: Token
        ensures t in cost && InRange(cost[t], RangeFor(c, t))
      {
        match t
        case WHITE =>
        case BLUE =>
        case GREEN =>
        case RED =>
        case BLACK =>
      }
    }
  }
}
