/** `HomePage`: the case-insensitive card-set search and the list update after a creation. */
module HomePage {
  import opened Wrappers
  import opened Text
  import opened Seqs
  import opened CardSets

  /** The name of the card set's game; a missing game or name reads as the empty string. */
  function GameName(cs: CardSet): string {
    match cs.game
    case None => ""
    case Some(g) => g.name
  }

  /** The query, lower-cased, occurs in the lower-cased title, description or game name. */
  predicate Matches(query: string, cs: CardSet) {
    var q := ToLower(query);
    Contains(ToLower(cs.title), q) || Contains(ToLower(cs.description), q)
    || Contains(ToLower(GameName(cs)), q)
  }

  /** `filteredCardSets`. */
  function FilteredCardSets(cardSets: seq<CardSet>, query: string): seq<CardSet> {
    Filter(cardSets, cs => Matches(query, cs))
  }

  /** A card set is listed exactly when the lower-cased query is a substring of one of its
      three lower-cased texts, a missing game counting as an empty name; the listing keeps the
      loaded order. */
  lemma FilteredCardSetsSpec(cardSets: seq<CardSet>, query: string, cs: CardSet)
    ensures cs in FilteredCardSets(cardSets, query) <==>
      cs in cardSets &&
      (IsInfix(ToLower(query), ToLower(cs.title))
       || IsInfix(ToLower(query), ToLower(cs.description))
       || (cs.game.Some? && IsInfix(ToLower(query), ToLower(cs.game.value.name)))
       || (cs.game.None? && query == ""))
    ensures IsSubsequence(FilteredCardSets(cardSets, query), cardSets)
  {
    FilterMembership(cardSets, cs => Matches(query, cs), cs);
    FilterIsSubsequence(cardSets, cs => Matches(query, cs));
    var q := ToLower(query);
    ContainsIsInfix(ToLower(cs.title), q);
    ContainsIsInfix(ToLower(cs.description), q);
    ContainsIsInfix(ToLower(GameName(cs)), q);
    if cs.game.None? && IsInfix(q, ToLower("")) {
      var i :| OccursAt(q, ToLower(""), i);
    }
  }

  /** An empty query lists every card set. */
  lemma EmptyQueryKeepsAll(cardSets: seq<CardSet>)
    ensures FilteredCardSets(cardSets, "") == cardSets
  {
    forall i | 0 <= i < |cardSets|
      ensures Matches("", cardSets[i])
    {
      ContainsEmpty(ToLower(cardSets[i].title));
    }
    FilterKeepsAll(cardSets, cs => Matches("", cs));
  }

  /** The search ignores the query's case. */
  lemma SearchIgnoresQueryCase(cardSets: seq<CardSet>, query: string)
    ensures FilteredCardSets(cardSets, ToLower(query)) == FilteredCardSets(cardSets, query)
  {
    ToLowerIdempotent(query);
    FilterCongruent(cardSets, cs => Matches(ToLower(query), cs), cs => Matches(query, cs));
  }

  /** `handleCardSetCreated`: the new card set goes after the loaded ones. */
  function HandleCardSetCreated(cardSets: seq<CardSet>, created: CardSet): (r: seq<CardSet>)
    ensures |r| == |cardSets| + 1 && r[..|cardSets|] == cardSets && r[|cardSets|] == created
  {
    cardSets + [created]
  }

  /** After a creation the listing is the old listing, followed by the new card set when it
      matches the query. */
  lemma CreatedCardSetListedLast(cardSets: seq<CardSet>, created: CardSet, query: string)
    ensures FilteredCardSets(HandleCardSetCreated(cardSets, created), query)
      == FilteredCardSets(cardSets, query) + (if Matches(query, created) then [created] else [])
  {
    FilterAppend(cardSets, [created], cs => Matches(query, cs));
    assert Filter([created], cs => Matches(query, cs))
      == (if Matches(query, created) then [created] else []) by {
      assert [created][1..] == [];
    }
  }
}
