/** The listing orders the API asks the database for: games by name, card definitions by tier,
    points and token, card sets newest first. Strings compare by code point. */
module Orderings {
  import opened Sorting
  import opened Cards
  import opened CardSets

  /** Lexicographic `<=` on strings, character by character. */
  predicate StringLe(a: string, b: string)
    decreases |a|
  {
    |a| == 0 || (|b| > 0 && (a[0] < b[0] || (a[0] == b[0] && StringLe(a[1..], b[1..]))))
  }

  lemma {:induction false} StringLeTotal(a: string, b: string)
    ensures StringLe(a, b) || StringLe(b, a)
    decreases |a|
  {
    if |a| > 0 && |b| > 0 && a[0] == b[0] {
      StringLeTotal(a[1..], b[1..]);
    }
  }

  lemma {:induction false} StringLeTransitive(a: string, b: string, c: string)
    requires StringLe(a, b) && StringLe(b, c)
    ensures StringLe(a, c)
    decreases |a|
  {
    if |a| > 0 && a[0] == b[0] && b[0] == c[0] {
      StringLeTransitive(a[1..], b[1..], c[1..]);
    }
  }

  lemma {:induction false} StringLeAntisymmetric(a: string, b: string)
    requires StringLe(a, b) && StringLe(b, a)
    ensures a == b
    decreases |a|
  {
    if |a| > 0 {
      StringLeAntisymmetric(a[1..], b[1..]);
      assert a == [a[0]] + a[1..] && b == [b[0]] + b[1..];
    }
  }

  /** Games by ascending name. */
  function GamesByName(games: seq<Game>): seq<Game> {
    SortBy(games, (a: Game, b: Game) => StringLe(a.name, b.name))
  }

  /** The games listing holds the same games, in ascending order of name. */
  lemma GamesByNameSpec(games: seq<Game>)
    ensures multiset(GamesByName(games)) == multiset(games)
    ensures forall i, j :: 0 <= i < j < |GamesByName(games)| ==>
      StringLe(GamesByName(games)[i].name, GamesByName(games)[j].name)
  {
    var le := (a: Game, b: Game) => StringLe(a.name, b.name);
    var dom := (g: Game) => true;
    forall a: Game, b: Game
      ensures le(a, b) || le(b, a)
    {
      StringLeTotal(a.name, b.name);
    }
    forall a: Game, b: Game, c: Game | le(a, b) && le(b, c)
      ensures le(a, c)
    {
      StringLeTransitive(a.name, b.name, c.name);
    }
    SortBySorted(games, le, dom);
  }

  /** Card definitions by ascending tier, then descending points, then ascending token: may
      `a` be listed before `b`? */
  predicate CardDefinitionLe(a: TokenCard, b: TokenCard) {
    a.tier < b.tier
    || (a.tier == b.tier
        && (a.points > b.points
            || (a.points == b.points && StringLe(TokenName(a.token), TokenName(b.token)))))
  }

  function CardDefinitionsOrdered(cards: seq<TokenCard>): seq<TokenCard> {
    SortBy(cards, CardDefinitionLe)
  }

  lemma CardDefinitionLeIsPreorder()
    ensures TotalPreorderOn(CardDefinitionLe, (c: TokenCard) => true)
  {
    forall a: TokenCard, b: TokenCard
      ensures CardDefinitionLe(a, b) || CardDefinitionLe(b, a)
    {
      StringLeTotal(TokenName(a.token), TokenName(b.token));
    }
    forall a: TokenCard, b: TokenCard, c: TokenCard | CardDefinitionLe(a, b) && CardDefinitionLe(b, c)
      ensures CardDefinitionLe(a, c)
    {
      if a.tier == b.tier == c.tier && a.points == b.points == c.points {
        StringLeTransitive(TokenName(a.token), TokenName(b.token), TokenName(c.token));
      }
    }
  }

  /** The card-definition listing holds the same cards; tiers never decrease along it; within
      a tier points never increase; and within equal tier and points token names ascend. */
  lemma CardDefinitionsOrderedSpec(cards: seq<TokenCard>)
    ensures multiset(CardDefinitionsOrdered(cards)) == multiset(cards)
    ensures forall i, j :: 0 <= i < j < |CardDefinitionsOrdered(cards)| ==>
      var a := CardDefinitionsOrdered(cards)[i];
      var b := CardDefinitionsOrdered(cards)[j];
      && a.tier <= b.tier
      && (a.tier == b.tier ==> a.points >= b.points)
      && (a.tier == b.tier && a.points == b.points ==> StringLe(TokenName(a.token), TokenName(b.token)))
  {
    CardDefinitionLeIsPreorder();
    SortBySorted(cards, CardDefinitionLe, (c: TokenCard) => true);
  }

  /** Card sets by descending creation time. */
  predicate NewerOrSame(a: CardSet, b: CardSet) {
    a.createdAt >= b.createdAt
  }

  function NewestFirst(cardSets: seq<CardSet>): seq<CardSet> {
    SortBy(cardSets, NewerOrSame)
  }

  /** The card-set listing holds the same card sets, newest first. */
  lemma NewestFirstSpec(cardSets: seq<CardSet>)
    ensures multiset(NewestFirst(cardSets)) == multiset(cardSets)
    ensures forall i, j :: 0 <= i < j < |NewestFirst(cardSets)| ==>
      NewestFirst(cardSets)[i].createdAt >= NewestFirst(cardSets)[j].createdAt
  {
    SortBySorted(cardSets, NewerOrSame, (c: CardSet) => true);
  }
}
