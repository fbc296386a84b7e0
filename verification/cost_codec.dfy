/** `parseCost`, shared word for word by both card viewers: decodes a card's `cost` field. */
module CostCodec {
  import opened Wrappers
  import opened Cards

  /** `JSON.parse` restricted to cost objects; `None` is a thrown `SyntaxError`. It is a
      parameter: the model does not define JSON. */
  type JsonParser = string -> Option<CostMap>

  /** Decodes a cost. Text that fails to parse becomes the all-zero vector; text that parses is
      returned as parsed, missing colours and all; a `Map` is laid over the all-zero vector. */
  function ParseCost(cost: RawCost, parse: JsonParser): (r: CostMap)
    ensures cost.Serialized? && parse(cost.text).None? ==> r == ZeroCost
    ensures cost.Serialized? && parse(cost.text).Some? ==> r == parse(cost.text).value
    ensures cost.Structured? ==> IsCostVector(r)
    ensures cost.Structured? ==>
      forall t: Token :: t in r && r[t] == (if t in cost.entries then cost.entries[t] else 0)
  {
    match cost
    case Serialized(text) =>
      (match parse(text)
       case Some(m) => m
       case None => ZeroCost)
    case Structured(entries) =>
      ZeroCostAllColours();
      ZeroCost + entries
  }

  /** Decoding never fails: unparsable text yields a full vector of zeros. */
  lemma ParseFailureIsZero(text: string, parse: JsonParser)
    requires parse(text).None?
    ensures IsCostVector(ParseCost(Serialized(text), parse))
    ensures forall t: Token :: t in ParseCost(Serialized(text), parse) && ParseCost(Serialized(text), parse)[t] == 0
  {
    ZeroCostAllColours();
  }

  /** A full in-memory vector passes through unchanged, so decoding is idempotent on maps. */
  lemma StructuredVectorPassesThrough(v: CostMap, parse: JsonParser)
    requires IsCostVector(v)
    ensures ParseCost(Structured(v), parse) == v
    ensures ParseCost(Structured(ParseCost(Structured(v), parse)), parse) == ParseCost(Structured(v), parse)
  {
    var r := ParseCost(Structured(v), parse);
    IsCostVectorAllColours(v);
    assert r.Keys == v.Keys;
  }
}
