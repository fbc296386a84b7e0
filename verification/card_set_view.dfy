/** `CardSetView`: the create-deck form, the request it sends, the deck list update, the owner
    test and the count labels. */
module CardSetView {
  import opened Wrappers
  import Numbers
  import DeckView

  /** The create-deck form; the card type is the selected option's value, the text of a
      `GameCardDefinition` id. */
  datatype DeckForm = DeckForm(name: string, description: string, gameCardDefinitionId: string)

  const EmptyDeckForm := DeckForm("", "", "")

  /** The loaded card set: its id, its owner's user id and its decks. */
  datatype CardSet = CardSet(id: int, ownerId: int, decks: seq<DeckView.LoadedDeck>)

  /** The JSON body of `POST /api/decks`; a `NaN` card type is serialised as `null` (`None`). */
  datatype DeckRequest = DeckRequest(
    name: string,
    description: string,
    cardSetId: int,
    gameCardDefinitionId: Option<int>,
    cardDefinitionIds: seq<int>)

  datatype CreateDeckStep = Refused | Post(request: DeckRequest)

  /** `handleCreateDeck` up to the request: refused without a request when no card set is
      loaded, the name is empty or no card type is chosen; otherwise a new, empty deck of the
      chosen type for this card set. */
  function HandleCreateDeck(cardSet: Option<CardSet>, form: DeckForm): (r: CreateDeckStep)
    ensures r.Refused? <==> cardSet.None? || form.name == "" || form.gameCardDefinitionId == ""
    ensures r.Post? ==> r.request.cardDefinitionIds == []
    ensures r.Post? ==> r.request.cardSetId == cardSet.value.id
    ensures r.Post? ==> r.request.name == form.name && r.request.description == form.description
  {
    if cardSet.None? || form.name == "" || form.gameCardDefinitionId == "" then Refused
    else
      Post(DeckRequest(
        form.name, form.description, cardSet.value.id,
        Numbers.ParseInt(form.gameCardDefinitionId), []))
  }

  /** Choosing the option of card type `defId` sends exactly that id as an integer. */
  lemma HandleCreateDeckSendsChosenType(cs: CardSet, name: string, description: string, defId: int)
    requires name != ""
    ensures HandleCreateDeck(Some(cs), DeckForm(name, description, Numbers.IntToString(defId)))
      == Post(DeckRequest(name, description, cs.id, Some(defId), []))
  {
    Numbers.ParseIntToString(defId);
  }

  /** The page state the create-deck flow touches. */
  datatype PageState = PageState(cardSet: Option<CardSet>, form: DeckForm, showCreateDeck: bool)

  /** The server returned `newDeck`: it is appended to the card set's decks, the form is reset
      and the panel closed. */
  function OnDeckCreated(s: PageState, newDeck: DeckView.LoadedDeck): (r: PageState)
    ensures r.form == EmptyDeckForm && !r.showCreateDeck
    ensures r.cardSet.Some? <==> s.cardSet.Some?
    ensures r.cardSet.Some? ==>
      && r.cardSet.value.id == s.cardSet.value.id
      && r.cardSet.value.ownerId == s.cardSet.value.ownerId
      && |r.cardSet.value.decks| == |s.cardSet.value.decks| + 1
      && r.cardSet.value.decks[..|s.cardSet.value.decks|] == s.cardSet.value.decks
      && r.cardSet.value.decks[|s.cardSet.value.decks|] == newDeck
  {
    var cs := match s.cardSet
      case None => None
      case Some(c) => Some(c.(decks := c.decks + [newDeck]));
    PageState(cs, EmptyDeckForm, false)
  }

  /** `isOwner`: a user is signed in, a card set is loaded, and the user is its owner. */
  predicate IsOwner(user: Option<int>, cardSet: Option<CardSet>) {
    user.Some? && cardSet.Some? && user.value == cardSet.value.ownerId
  }

  /** The two pages' owner tests agree for every owner id except 0, which the deck page treats
      as no owner at all. */
  lemma OwnerTestsAgree(user: Option<int>, cs: CardSet, deck: DeckView.LoadedDeck)
    requires deck.ownerId == Some(cs.ownerId)
    ensures cs.ownerId != 0 ==> (IsOwner(user, Some(cs)) <==> DeckView.IsOwner(user, Some(deck)))
    ensures cs.ownerId == 0 && user == Some(0) ==>
      IsOwner(user, Some(cs)) && !DeckView.IsOwner(user, Some(deck))
  {
  }

  /** The plural suffix: `s` for every count but one. */
  function PluralSuffix(n: nat): string {
    if n != 1 then "s" else ""
  }

  /** `{n} deck{s}` and `{n} card{s}`. */
  function CountLabel(n: nat, noun: string): string {
    Numbers.Decimal(n) + " " + noun + PluralSuffix(n)
  }

  /** The text is the plural form exactly when the count is not one, and the count can be
      read back from it. */
  lemma CountLabelSpec(n: nat, noun: string)
    ensures CountLabel(n, noun) == Numbers.Decimal(n) + " " + noun + "s" <==> n != 1
    ensures CountLabel(n, noun) == Numbers.Decimal(n) + " " + noun <==> n == 1
    ensures Numbers.ParseInt(CountLabel(n, noun)) == Some(n)
  {
    var text := CountLabel(n, noun);
    assert text == Numbers.Decimal(n) + (" " + noun + PluralSuffix(n));
    Numbers.ParseDecimal(n, " " + noun + PluralSuffix(n));
    if n == 1 {
      assert |Numbers.Decimal(n) + " " + noun + "s"| == |text| + 1;
    } else {
      assert |Numbers.Decimal(n) + " " + noun| + 1 == |text|;
    }
  }

  function DeckCountLabel(cs: CardSet): string {
    CountLabel(|cs.decks|, "deck")
  }

  function CardCountLabel(cardDefinitionIds: seq<int>): string {
    CountLabel(|cardDefinitionIds|, "card")
  }
}
