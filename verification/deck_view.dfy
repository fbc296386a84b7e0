/** `DeckView`: the deck's card selection (load-time dedupe, add/remove, save), ownership and
    the choice of card viewer for the deck's table. */
module DeckView {
  import opened Wrappers
  import opened Cards
  import opened Seqs

  /** The first occurrence of each id, in order of first appearance: what
      spreading a `Set` built from the ids produces. */
  function FirstOccurrences(s: seq<int>): seq<int>
    decreases |s|
  {
    if |s| == 0 then []
    else
      var init := s[..|s| - 1];
      FirstOccurrences(init) + (if s[|s| - 1] in init then [] else [s[|s| - 1]])
  }

  /** The load-time dedupe, walking the ids once with a `Set` of those already seen. */
  method Dedupe(ids: seq<int>) returns (r: seq<int>)
    ensures r == FirstOccurrences(ids)
    ensures NoDuplicates(r)
    ensures forall x :: x in r <==> x in ids
  {
    r := [];
    var seen: set<int> := {};
    for i := 0 to |ids|
      invariant r == FirstOccurrences(ids[..i])
      invariant seen == set k | 0 <= k < i :: ids[k]
    {
      assert ids[..i + 1] == ids[..i] + [ids[i]];
      assert ids[..i + 1][..i] == ids[..i];
      assert ids[i] in seen <==> ids[i] in ids[..i] by {
        if ids[i] in ids[..i] {
          var k :| 0 <= k < i && ids[..i][k] == ids[i];
          assert ids[k] == ids[i];
        }
      }
      assert FirstOccurrences(ids[..i + 1]) == FirstOccurrences(ids[..i]) + (if ids[i] in ids[..i] then [] else [ids[i]]);
      if ids[i] !in seen {
        r := r + [ids[i]];
        seen := seen + {ids[i]};
      }
    }
    assert ids[..|ids|] == ids;
    FirstOccurrencesSpec(ids);
  }

  /** The deduplicated ids are a duplicate-free subsequence holding every id of the input. */
  lemma {:induction false} FirstOccurrencesSpec(s: seq<int>)
    ensures NoDuplicates(FirstOccurrences(s))
    ensures forall x :: x in FirstOccurrences(s) <==> x in s
    ensures IsSubsequence(FirstOccurrences(s), s)
    decreases |s|
  {
    if |s| > 0 {
      var init := s[..|s| - 1];
      FirstOccurrencesSpec(init);
      var last := s[|s| - 1];
      assert s == init + [last];
      SubsequenceExtend(FirstOccurrences(init), init, last);
      if last in init {
        assert FirstOccurrences(s) == FirstOccurrences(init);
      } else {
        assert FirstOccurrences(s) == FirstOccurrences(init) + [last];
      }
    }
  }

  lemma {:induction false} SubsequenceExtend(r: seq<int>, s: seq<int>, x: int)
    requires IsSubsequence(r, s)
    ensures IsSubsequence(r + [x], s + [x])
    ensures IsSubsequence(r, s + [x])
    decreases |s|
  {
    if |r| == 0 {
      SubsequenceOfSingleton(s, x);
      assert r + [x] == [x];
    } else {
      assert (s + [x])[1..] == s[1..] + [x];
      assert (r + [x])[1..] == r[1..] + [x];
      if r[0] == s[0] && IsSubsequence(r[1..], s[1..]) {
        SubsequenceExtend(r[1..], s[1..], x);
      } else {
        SubsequenceExtend(r, s[1..], x);
      }
    }
  }

  lemma {:induction false} SubsequenceOfSingleton(s: seq<int>, x: int)
    ensures IsSubsequence([x], s + [x])
    decreases |s|
  {
    if |s| == 0 {
      assert [x][1..] == [];
    } else {
      SubsequenceOfSingleton(s[1..], x);
      assert (s + [x])[1..] == s[1..] + [x];
    }
  }

  /** Without duplicates there is nothing to remove, so the dedupe is idempotent. */
  lemma {:induction false} FirstOccurrencesOfUnique(s: seq<int>)
    requires NoDuplicates(s)
    ensures FirstOccurrences(s) == s
    decreases |s|
  {
    if |s| > 0 {
      var init := s[..|s| - 1];
      FirstOccurrencesOfUnique(init);
      assert s[|s| - 1] !in init;
      assert s == init + [s[|s| - 1]];
    }
  }

  /** `handleCardSelection(id, true)`: append the id unless it is already selected. */
  function Select(prev: seq<int>, id: int): seq<int> {
    if id in prev then prev else prev + [id]
  }

  /** `handleCardSelection(id, false)`: drop every occurrence of the id. */
  function Deselect(prev: seq<int>, id: int): seq<int> {
    Filter(prev, (x: int) => x != id)
  }

  function HandleCardSelection(prev: seq<int>, id: int, isSelected: bool): seq<int> {
    if isSelected then Select(prev, id) else Deselect(prev, id)
  }

  /** Adding is idempotent, appends a new id at the end, and keeps the selection free of
      duplicates. */
  lemma SelectSpec(prev: seq<int>, id: int)
    ensures id in prev ==> Select(prev, id) == prev
    ensures id !in prev ==> Select(prev, id) == prev + [id]
    ensures forall x :: x in Select(prev, id) <==> x in prev || x == id
    ensures Select(Select(prev, id), id) == Select(prev, id)
    ensures NoDuplicates(prev) ==> NoDuplicates(Select(prev, id))
  {
  }

  /** Removing deletes every occurrence, keeps the other ids in order, keeps the selection free
      of duplicates, and is idempotent. */
  lemma DeselectSpec(prev: seq<int>, id: int)
    ensures forall x :: x in Deselect(prev, id) <==> x in prev && x != id
    ensures IsSubsequence(Deselect(prev, id), prev)
    ensures Deselect(Deselect(prev, id), id) == Deselect(prev, id)
    ensures NoDuplicates(prev) ==> NoDuplicates(Deselect(prev, id))
  {
    var p := (x: int) => x != id;
    forall x
      ensures x in Deselect(prev, id) <==> x in prev && x != id
    {
      FilterMembership(prev, p, x);
    }
    FilterIsSubsequence(prev, p);
    FilterKeepsAll(Deselect(prev, id), p);
    if NoDuplicates(prev) {
      FilterNoDuplicates(prev, p);
    }
  }

  /** Removing an id that was just added restores the selection. */
  lemma {:induction false} DeselectUndoesSelect(prev: seq<int>, id: int)
    requires id !in prev
    ensures Deselect(Select(prev, id), id) == prev
  {
    var p := (x: int) => x != id;
    FilterAppend(prev, [id], p);
    FilterKeepsAll(prev, p);
    assert Filter([id], p) == [];
  }

  /** Loading deduplicates exactly as clicking each loaded id in turn would. */
  function SelectAll(prev: seq<int>, ids: seq<int>): seq<int>
    decreases |ids|
  {
    if |ids| == 0 then prev else SelectAll(Select(prev, ids[0]), ids[1..])
  }

  lemma {:induction false} DedupeIsRepeatedSelect(ids: seq<int>)
    ensures SelectAll([], ids) == FirstOccurrences(ids)
  {
    SelectAllFrom([], ids);
    assert [] + ids == ids;
  }

  lemma {:induction false} SelectAllFrom(prefix: seq<int>, ids: seq<int>)
    ensures SelectAll(FirstOccurrences(prefix), ids) == FirstOccurrences(prefix + ids)
    decreases |ids|
  {
    if |ids| > 0 {
      var next := prefix + [ids[0]];
      calc {
        SelectAll(FirstOccurrences(prefix), ids);
        SelectAll(Select(FirstOccurrences(prefix), ids[0]), ids[1..]);
        { SelectExtendsFirstOccurrences(prefix, ids[0]); }
        SelectAll(FirstOccurrences(next), ids[1..]);
        { SelectAllFrom(next, ids[1..]); }
        FirstOccurrences(next + ids[1..]);
        { assert next + ids[1..] == prefix + ids; }
        FirstOccurrences(prefix + ids);
      }
    } else {
      assert prefix + ids == prefix;
    }
  }

  /** Clicking a new id on a deduplicated list is the dedupe of the list extended by it. */
  lemma SelectExtendsFirstOccurrences(prefix: seq<int>, y: int)
    ensures Select(FirstOccurrences(prefix), y) == FirstOccurrences(prefix + [y])
  {
    var next := prefix + [y];
    assert next[..|next| - 1] == prefix;
    assert next[|next| - 1] == y;
    FirstOccurrencesSpec(prefix);
  }

  /** The deck as `DeckView` receives it from `GET /api/decks/:id`. */
  datatype LoadedDeck = LoadedDeck(
    id: int,
    name: string,
    description: Option<string>,
    cardDefinitionIds: Option<seq<int>>,
    ownerId: Option<int>,
    tableName: Option<string>)

  /** The selection right after loading: the loaded ids (none when the field is
      absent), deduplicated. */
  function InitialSelection(d: LoadedDeck): seq<int> {
    FirstOccurrences(d.cardDefinitionIds.GetOr([]))
  }

  /** `setDeck` after the PATCH: on success the stored ids are replaced by the selection; on
      failure, or with no deck, nothing changes. */
  function AfterSave(deck: Option<LoadedDeck>, selection: seq<int>, ok: bool): Option<LoadedDeck> {
    if ok && deck.Some? then Some(deck.value.(cardDefinitionIds := Some(selection))) else deck
  }

  /** A successful save replaces the ids wholesale and touches nothing else; loading the saved
      deck again yields the very same selection. */
  lemma AfterSaveSpec(deck: Option<LoadedDeck>, selection: seq<int>, ok: bool)
    ensures !ok ==> AfterSave(deck, selection, ok) == deck
    ensures deck.None? ==> AfterSave(deck, selection, ok).None?
    ensures ok && deck.Some? ==>
      && AfterSave(deck, selection, ok).value.cardDefinitionIds == Some(selection)
      && AfterSave(deck, selection, ok).value.(cardDefinitionIds := deck.value.cardDefinitionIds) == deck.value
    ensures ok && deck.Some? && NoDuplicates(selection) ==>
      InitialSelection(AfterSave(deck, selection, ok).value) == selection
  {
    if ok && deck.Some? && NoDuplicates(selection) {
      FirstOccurrencesOfUnique(selection);
    }
  }

  /** Any sequence of clicks starting from a loaded deck leaves a duplicate-free selection. */
  lemma {:induction false} ClicksKeepNoDuplicates(d: LoadedDeck, clicks: seq<(int, bool)>)
    ensures NoDuplicates(ApplyClicks(InitialSelection(d), clicks))
  {
    FirstOccurrencesSpec(d.cardDefinitionIds.GetOr([]));
    ApplyClicksKeepNoDuplicates(InitialSelection(d), clicks);
  }

  function ApplyClicks(sel: seq<int>, clicks: seq<(int, bool)>): seq<int>
    decreases |clicks|
  {
    if |clicks| == 0 then sel
    else ApplyClicks(HandleCardSelection(sel, clicks[0].0, clicks[0].1), clicks[1..])
  }

  lemma {:induction false} ApplyClicksKeepNoDuplicates(sel: seq<int>, clicks: seq<(int, bool)>)
    requires NoDuplicates(sel)
    ensures NoDuplicates(ApplyClicks(sel, clicks))
    decreases |clicks|
  {
    if |clicks| > 0 {
      SelectSpec(sel, clicks[0].0);
      DeselectSpec(sel, clicks[0].0);
      ApplyClicksKeepNoDuplicates(HandleCardSelection(sel, clicks[0].0, clicks[0].1), clicks[1..]);
    }
  }

  /** `isOwner`: a logged-in user whose id equals the card set owner's id; the owner id must be
      truthy, so an owner id of 0 never matches. */
  predicate IsOwner(user: Option<int>, deck: Option<LoadedDeck>) {
    && user.Some?
    && deck.Some?
    && deck.value.ownerId.Some?
    && deck.value.ownerId.value != 0
    && user.value == deck.value.ownerId.value
  }

  /** A click in a viewer as the page is wired: the page hands the viewers the selection, the
      handler and the owner flag, but both viewers take only the card definitions, so no click
      reaches `handleCardSelection`, the owner's included. */
  function ClickAsWritten(user: Option<int>, deck: Option<LoadedDeck>, sel: seq<int>, id: int, isSelected: bool): seq<int> {
    sel
  }

  /** A click in a viewer as the page means it: the handler is passed only to the owner, so
      only the owner's clicks reach `handleCardSelection`. */
  function ClickAsViewer(user: Option<int>, deck: Option<LoadedDeck>, sel: seq<int>, id: int, isSelected: bool): seq<int> {
    if IsOwner(user, deck) then HandleCardSelection(sel, id, isSelected) else sel
  }

  /** As wired, the owner's click on an unselected card leaves it unselected, where the
      intended wiring appends it. */
  lemma OwnerClickIgnored(user: Option<int>, deck: Option<LoadedDeck>, sel: seq<int>, id: int)
    requires IsOwner(user, deck) && id !in sel
    ensures ClickAsWritten(user, deck, sel, id, true) == sel
    ensures ClickAsViewer(user, deck, sel, id, true) == sel + [id]
    ensures ClickAsWritten(user, deck, sel, id, true) != ClickAsViewer(user, deck, sel, id, true)
  {
  }

  /** A run of clicks in the viewers, each applied as the page means it. */
  function ViewerClicks(user: Option<int>, deck: Option<LoadedDeck>, sel: seq<int>, clicks: seq<(int, bool)>): seq<int>
    decreases |clicks|
  {
    if |clicks| == 0 then sel
    else ViewerClicks(user, deck, ClickAsViewer(user, deck, sel, clicks[0].0, clicks[0].1), clicks[1..])
  }

  /** For the owner every click reaches the handler, so the viewers' clicks are the handler's
      run; starting from the loaded deck the selection stays free of duplicates. */
  lemma {:induction false} OwnerClicksReachHandler(user: Option<int>, deck: Option<LoadedDeck>, sel: seq<int>,
                                                   clicks: seq<(int, bool)>)
    requires IsOwner(user, deck)
    ensures ViewerClicks(user, deck, sel, clicks) == ApplyClicks(sel, clicks)
    ensures sel == InitialSelection(deck.value) ==> NoDuplicates(ViewerClicks(user, deck, sel, clicks))
    decreases |clicks|
  {
    if |clicks| > 0 {
      OwnerClicksReachHandler(user, deck, HandleCardSelection(sel, clicks[0].0, clicks[0].1), clicks[1..]);
    }
    if sel == InitialSelection(deck.value) {
      ClicksKeepNoDuplicates(deck.value, clicks);
    }
  }

  /** A visitor who is not the owner can never change the selection. */
  lemma NonOwnerCannotEdit(user: Option<int>, deck: Option<LoadedDeck>, sel: seq<int>, id: int, isSelected: bool)
    requires !IsOwner(user, deck)
    ensures ClickAsViewer(user, deck, sel, id, isSelected) == sel
    ensures ClickAsWritten(user, deck, sel, id, isSelected) == sel
  {
  }

  /** What the card-definitions tab renders. */
  datatype DeckPanel = TokenPanel | DiscoveryPanel | Unsupported(tableName: string)

  /** The tab's three independent conditional blocks; nothing at all without a table name. */
  function RenderedPanels(tableName: Option<string>): seq<DeckPanel> {
    if tableName.None? || tableName.value == "" then []
    else
      var name := tableName.value;
      (if name == TokenTableName then [TokenPanel] else [])
      + (if name == DiscoveryTableName then [DiscoveryPanel] else [])
      + (if name != TokenTableName && name != DiscoveryTableName then [Unsupported(name)] else [])
  }

  /** For a non-empty table name exactly one block renders: the viewer of the table the name
      resolves to, or the "Unsupported card definition type" fallback. */
  lemma RenderedPanelsSpec(tableName: Option<string>)
    ensures tableName.None? || tableName.value == "" ==> RenderedPanels(tableName) == []
    ensures tableName.Some? && tableName.value != "" ==>
      && |RenderedPanels(tableName)| == 1
      && (RenderedPanels(tableName)[0] == TokenPanel <==> ParseTableName(tableName.value) == Some(TokenTable))
      && (RenderedPanels(tableName)[0] == DiscoveryPanel <==> ParseTableName(tableName.value) == Some(DiscoveryTable))
      && (RenderedPanels(tableName)[0].Unsupported? <==> ParseTableName(tableName.value).None?)
  {
  }
}
