# reskin-it: the pure rules of the card-set editor, in Dafny

reskin-it lets users browse games and the card definitions behind them. Users create card
sets, which are re-skins of a game, and decks inside a card set; a deck is a selection of
card-definition rows. Its front end is React and its back end is an Express API over Prisma.
Almost all of it is rendering and database calls. This project models the small rules in
between, as pure functions over immutable datatypes:

- **Cost decoding.** A card's cost arrives as JSON text or as a map. Text that does not parse
  becomes the all-zero vector. Text that parses is taken as it is. A map is overlaid on zeros.
- **The card viewers.**
  - The token-card filter chain: tokens, tiers, a points range and five cost ranges.
  - The badge colour schemes.
  - The discovery-card filter.
  - The discovery sort: its key/direction state machine, its comparator and its icons.
  - The range slider's clamping arithmetic.
- **The deck page.**
  - Deduplication of the loaded ids, keeping first occurrences.
  - Idempotent select and remove-every-occurrence deselect, which together keep the
    selection free of duplicates.
  - Full replacement after a save.
  - The owner test, and how the viewers' clicks reach the selection handler (see Findings).
  - The dispatch from a table name to a viewer or the "unsupported" fallback.
- **The game page.**
  - The line classifier of the rules text.
  - The fetch loop over the game's card tables, which only fetches the two known tables.
  - The sidebar's enable rule.
  - The choice of viewer.
- **The forms.**
  - Card-set form: validation with its check precedence, error clearing, the request body
    and the reset.
  - Create-deck form: the guard, the request body, the deck append and the reset.
  - HomePage: the case-insensitive search and the append after a creation.
  - Sign-up form: the password checks and the display-name rule.
- **The API.**
  - `?include=` parsing for `GET /api/cardsets` and `GET /api/cardsets/user/me`.
  - The bearer-token middleware.
  - `POST /api/cardsets` validation.
  - The listing orders: games, card definitions and card sets.
  - The register handler's checks and defaults.

Code that cannot be seen or that talks to the outside world becomes a function parameter:

| Source call | Model parameter |
|---|---|
| `JSON.parse` on costs | `CostCodec.JsonParser` |
| `new URL` | `CreateCardSet.UrlCheck` |
| `fetch` of a card table | `GameView.Fetcher` |
| `jwt.verify` | `Auth.Verifier` |
| bcrypt hashing, id and time assignment, JWT signing | the fields of `RegisterApi.Environment` |
| the games and users stored when a card set is inserted | `CardSetsApi.Stored` |

Prisma queries are modelled by what they promise:

- a `where` becomes a `Seqs.Filter`;
- an `orderBy` becomes a stable `Sorting.SortBy` under the stated order. The order is proved
  to be a total preorder, and the result is proved to be a sorted permutation.

JavaScript semantics are written out where they matter:

- truthiness of `""`, `0`, `null` and `undefined`;
- comparisons with `undefined` are false;
- the ECMAScript whitespace set of `trim`;
- `split` and `join`;
- `parseInt` with radix 10, with `NaN` as `None`;
- `String(n)`.

Shared modules:

| Module | Contents |
|---|---|
| `Wrappers` | `Option` |
| `Seqs` | `Filter` and its lemmas |
| `Text` | trimming, prefixes, substrings, ASCII lower case, split/join |
| `Numbers` | `parseInt` and decimal rendering |
| `Json` | request-body values |
| `Sorting` | stable insertion sort |
| `Cards` and `CardSets` | the records |

## Model

| member | source | states |
|---|---|---|
| Cards.ParseToken | src/types/CardDefinition.ts:9-17 | Only the five colour names denote tokens. |
| Cards.ParseTokenName | src/types/CardDefinition.ts:9-17 | Every token's name reads back as that token. |
| Cards.ZeroCostAllColours | src/components/CardDefinitionViewer.tsx:94 | The fallback cost has every one of the five colours, each at 0. |
| Cards.ParseTableName | src/pages/DeckView.tsx:231-254 | A table name is recognised iff it is `TokenEngineCardDefinition` or `TokenEngineDiscoveryCardDefinition`, and it names the table it resolves to. |
| Cards.ParseTableNameRoundTrip | src/pages/GameView.tsx:60-76 | The two known tables' names resolve back to those tables. |
| CostCodec.ParseCost | src/components/CardDefinitionViewer.tsx:89-104 | Text that fails to parse decodes to zeros. Text that parses is returned as parsed, with no defaults added. A map decodes to a full vector: each colour takes the map's value when present and 0 otherwise. |
| CostCodec.ParseFailureIsZero | src/components/CardDefinitionViewer.tsx:90-95 | Unparsable text yields a vector with all five colours at 0. |
| CostCodec.StructuredVectorPassesThrough | src/components/DiscoveryCardDefinitionViewer.tsx:114-121 | A full map passes through unchanged, so decoding a decoded map changes nothing. |
| RangeFilters.CostWithinEveryColour | src/components/CardDefinitionViewer.tsx:55-64 | The cost test holds iff every colour is present and inside its own inclusive range. Passing it implies a full cost vector. |
| RangeSlider.DragMin | src/components/CardDefinitionViewer.tsx:146 | The new min is at least the track minimum. It is at most one below the max thumb whenever that is possible. It is the dragged value when that is in bounds, and it clamps on either side. |
| RangeSlider.DragMax | src/components/CardDefinitionViewer.tsx:149 | The new max is at least one above the min thumb. It is at most the track maximum whenever that is possible. It is the dragged value when that is in bounds, and it clamps on either side. |
| RangeSlider.DragKeepsSliderValid | src/components/DiscoveryCardDefinitionViewer.tsx:178-181 | From a state with min ≤ minValue < maxValue ≤ max, either drag by any distance keeps that invariant. |
| TokenCardViewer.FilterTokenCardsIsOnePass | src/components/CardDefinitionViewer.tsx:36-67 | The four filter stages equal one filter by the combined per-card verdict. |
| TokenCardViewer.FilterTokenCardsSpec | src/components/CardDefinitionViewer.tsx:40-64 | A card is shown iff all of these hold: it is an input card; its token is listed or the token list is empty; its tier is listed or the tier list is empty; its points lie in the range; every decoded cost lies in its range. The output is an order-preserving subsequence of the input. |
| TokenCardViewer.DefaultFiltersSpec | src/components/CardDefinitionViewer.tsx:19-34 | With the initial filters, a card is shown iff its points are in 0..5 and all five costs are present and in 0..7. |
| TokenCardViewer.TierColorSchemeSpec | src/components/CardDefinitionViewer.tsx:80-87 | A tier gets a non-gray colour iff it is 1, 2 or 3, and those three get distinct colours. |
| TokenCardViewer.TokenColorSchemeSpec | src/components/CardDefinitionViewer.tsx:69-78 | Two tokens share a colour scheme iff they are equal or both are in {WHITE, BLACK}. |
| DiscoveryViewer.FilterDiscoveryCardsSpec | src/components/DiscoveryCardDefinitionViewer.tsx:35-53 | A card is kept iff its points and its five decoded costs are inside their six inclusive ranges. The result is a one-pass filter and an order-preserving subsequence. |
| DiscoveryViewer.HandleSortSpec | src/components/DiscoveryCardDefinitionViewer.tsx:124-129 | A click sets the key. The direction becomes descending iff the same key was active ascending. A second click flips the direction, and three clicks equal one. |
| DiscoveryViewer.SortIconAfterClick | src/components/DiscoveryCardDefinitionViewer.tsx:131-136 | Inactive columns show the neutral icon. The clicked column shows ▴ for ascending and ▾ for descending. Nothing is active initially. |
| DiscoveryViewer.NoSortKeyKeepsOrder | src/components/DiscoveryCardDefinitionViewer.tsx:55-56 | With a null or empty sort key, the displayed cards are the filtered cards in their order. |
| DiscoveryViewer.UnknownSortKeyKeepsOrder | src/components/DiscoveryCardDefinitionViewer.tsx:90-91 | For an unknown key the comparator is 0 on every pair, and the stable sort keeps the filtered order. |
| DiscoveryViewer.FilteredHaveKeys | src/components/DiscoveryCardDefinitionViewer.tsx:39-53 | Every card that passes the filter has a value for every known sort key. |
| DiscoveryViewer.MayPrecedeByValue | src/components/DiscoveryCardDefinitionViewer.tsx:57-101 | On cards with values, the comparator allows a before b iff a's value ≤ b's (ascending) or ≥ b's (descending). |
| DiscoveryViewer.MayPrecedeIsPreorder | src/components/DiscoveryCardDefinitionViewer.tsx:57-101 | For each known key and direction, the comparator is a total preorder on cards that have the key. |
| DiscoveryViewer.KnownSortKeySorts | src/components/DiscoveryCardDefinitionViewer.tsx:55-102 | With a known key, the displayed cards are a permutation of the filtered ones, non-decreasing (asc) or non-increasing (desc) in that key. |
| DeckView.Dedupe | src/pages/DeckView.tsx:76-79 | The loaded ids keep their first occurrences in order: the result has no duplicates and the same elements. |
| DeckView.FirstOccurrencesSpec | src/pages/DeckView.tsx:77 | The deduplicated ids have no duplicates, have the same elements, and are a subsequence of the loaded ids. |
| DeckView.FirstOccurrencesOfUnique | src/pages/DeckView.tsx:77 | Ids without duplicates are left as they are. |
| DeckView.DedupeIsRepeatedSelect | src/pages/DeckView.tsx:76-79 | Deduplication equals selecting the loaded ids one by one, starting from an empty selection. |
| DeckView.SelectSpec | src/pages/DeckView.tsx:104-106 | Selecting a present id changes nothing, and selecting an absent one appends it. Select is idempotent and keeps the selection duplicate-free. |
| DeckView.DeselectSpec | src/pages/DeckView.tsx:107-109 | Deselecting removes every occurrence, keeps the rest in order, is idempotent and keeps the selection duplicate-free. |
| DeckView.DeselectUndoesSelect | src/pages/DeckView.tsx:100-114 | Deselecting an id just selected (and absent before) restores the previous selection. |
| DeckView.ApplyClicksKeepNoDuplicates | src/pages/DeckView.tsx:100-114 | Any sequence of select and deselect clicks keeps a duplicate-free selection duplicate-free. |
| DeckView.ClicksKeepNoDuplicates | src/pages/DeckView.tsx:76-114 | From the loaded deck, any sequence of clicks yields a duplicate-free selection. |
| DeckView.AfterSaveSpec | src/pages/DeckView.tsx:137-140 | After a successful save, the deck's ids are exactly the current selection and nothing else changes. A failed save leaves the deck as it was. |
| DeckView.NonOwnerCannotEdit | src/pages/DeckView.tsx:157 | A visitor who fails the owner test cannot change the selection, whether the viewers are wired as written or as intended. That covers a visitor who is not signed in, who is not the owner, or whose deck has owner id 0. |
| DeckView.OwnerClickIgnored | src/components/CardDefinitionViewer.tsx:13-17 | As wired, the viewers take only the card definitions. So even the owner's click on an unselected card leaves the selection unchanged, where the intended wiring appends the card. |
| DeckView.OwnerClicksReachHandler | src/pages/DeckView.tsx:231-246 | With the handler passed to the owner's viewers, any run of the owner's clicks is the handler's run. Started from the loaded deck, it keeps the selection free of duplicates. |
| DeckView.RenderedPanelsSpec | src/pages/DeckView.tsx:207-254 | No table name renders nothing. Otherwise exactly one block renders: the token viewer, the discovery viewer or the fallback, according to how the name resolves. |
| GameView.ClassifyLineSpec | src/pages/GameView.tsx:105-121 | On the trimmed line, `# ` gives H1, `## ` H2, `### ` H3 and `- ` a bullet, each iff the line starts with that marker. A numbered line, kept whole, arises iff no marker matches and the line starts with `1. `. A spacer arises iff the line is blank. Text arises iff none of these holds. |
| GameView.ClassifyTrimmedSpec | src/pages/GameView.tsx:105-121 | The classification of an already trimmed line: each heading or bullet kind iff its marker starts the line; numbered iff no marker matches and the line starts with `1. `; spacer iff the line is empty; text otherwise. |
| GameView.MarkersExclusive | src/pages/GameView.tsx:107-112 | A line starting with `## ` or `### ` does not start with a shorter heading marker, so the source's order of tests cannot misread a deeper heading. |
| GameView.ClassifyLineLossless | src/pages/GameView.tsx:105-121 | Putting each element's marker back in front of its text restores the trimmed line. |
| GameView.EmptyHeadingIsText | src/pages/GameView.tsx:105-107 | `# ` alone is trimmed to `#` and renders as text, not as an empty heading. |
| GameView.RenderRules | src/pages/GameView.tsx:101-123 | There is one element per newline-separated line, and element i classifies line i. |
| GameView.FetchCardDefinitionsSpec | src/pages/GameView.tsx:57-89 | A name has an entry iff the game lists it, it is one of the two known tables, and its fetch succeeded. The entry is the fetched rows. |
| GameView.SidebarDisabledSpec | src/pages/GameView.tsx:173-185 | A listed table's button is disabled iff the table is unknown, its fetch failed, or it returned no rows. |
| GameView.FindTable | src/pages/GameView.tsx:219-221 | The lookup returns the first listed table with that name, or nothing when none is listed. |
| GameView.CardsPanelMatchesDeckDispatch | src/pages/GameView.tsx:254-258 | Cards are only shown for a known table. The discovery viewer is chosen iff the deck page would render the discovery viewer for that name, and likewise for the token viewer. |
| CreateCardSet.SetField | src/components/CreateCardSet.tsx:167-169 | Writing a field sets that field and leaves the other three alone. |
| CreateCardSet.ValidateFormSpec | src/components/CreateCardSet.tsx:75-102 | Every field has an error iff one of its checks fails, and at most one message: the first failing check's. |
| CreateCardSet.IsValidSpec | src/components/CreateCardSet.tsx:75-102 | The form is valid iff all of these hold: the title is non-blank with length ≥ 3; the description is non-blank with length ≥ 10; a category is set; the URL is non-blank and valid. |
| CreateCardSet.ValidFormNonEmpty | src/components/CreateCardSet.tsx:75-102 | A valid form has non-empty text in all four fields. |
| CreateCardSet.TitleErrorPrecedence | src/components/CreateCardSet.tsx:78-82 | A blank title is "required", never "too short". The too-short error appears iff the title is non-blank and shorter than 3 untrimmed, so `"  a"` passes. |
| CreateCardSet.HandleInputChangeSpec | src/components/CreateCardSet.tsx:167-173 | Editing sets only that field and hides only that field's error. The error keys and the other fields' messages stay unchanged. |
| CreateCardSet.RequestBodyAsWritten | src/components/CreateCardSet.tsx:134 | The body sent has no `gameId` key. |
| CreateCardSet.RequestBody | src/components/CreateCardSet.tsx:134 | The corrected body carries the game id alongside every field of the serialised form. |
| CreateCardSet.RequestBodyFields | src/components/CreateCardSet.tsx:134 | Each form field is sent as a string under its own name. |
| CreateCardSet.HandleSubmit | src/components/CreateCardSet.tsx:113-134 | An invalid form yields its non-empty error map and sends nothing. A request is sent iff the form is valid and a non-empty token is stored. It carries that token and the serialised form, which has no gameId. |
| CreateCardSet.HandleSubmitWithGame | src/components/CreateCardSet.tsx:113-134 | The repaired submission of the Findings row takes the same steps as the page's. It sends a request iff the page does, and its body is the page's body with the game id added. |
| CreateCardSet.AfterResponse | src/components/CreateCardSet.tsx:148-153 | On success every field is reset to empty. On failure the form is kept. |
| CardSetView.HandleCreateDeck | src/pages/CardSetView.tsx:87-110 | The request is refused iff there is no card set, the name is empty or no card type is chosen. A sent request is an empty deck of this card set with the form's name and description. |
| CardSetView.HandleCreateDeckSendsChosenType | src/pages/CardSetView.tsx:105-110 | Choosing the option of card type d sends exactly d as an integer, with no ids. |
| CardSetView.OnDeckCreated | src/pages/CardSetView.tsx:120-130 | The new deck is appended after the unchanged existing decks. The form is reset to empty and the panel closed. |
| CardSetView.OwnerTestsAgree | src/pages/CardSetView.tsx:149 | The card-set page's owner test agrees with the deck page's for every non-zero owner id, and differs at owner id 0. |
| CardSetView.CountLabelSpec | src/pages/CardSetView.tsx:269 | The label takes the plural suffix iff the count is not 1, and the count reads back from the label. |
| HomePage.FilteredCardSetsSpec | src/pages/HomePage.tsx:60-65 | A card set is listed iff the lower-cased query is a substring of its lower-cased title, description or game name, where a missing game counts as the empty name. The list is an order-preserving subsequence. |
| HomePage.EmptyQueryKeepsAll | src/pages/HomePage.tsx:60-65 | The empty query lists every card set in order. |
| HomePage.SearchIgnoresQueryCase | src/pages/HomePage.tsx:60-65 | Lower-casing the query does not change the listing. |
| HomePage.HandleCardSetCreated | src/pages/HomePage.tsx:67-70 | The created card set is added after the unchanged existing ones. |
| HomePage.CreatedCardSetListedLast | src/pages/HomePage.tsx:60-70 | After a creation the listing is the old listing, followed by the new card set iff it matches the query. |
| RegisterForm.HandleSubmit | src/components/Register.tsx:30-62 | Mismatched passwords are refused first. Then a password shorter than 6 is refused. `register` is called iff both checks pass, and the display name is passed as undefined iff it is empty. |
| RegisterForm.RegisterBody | src/contexts/AuthContext.tsx:100-107 | The body has a `displayName` key iff a display name was passed. |
| RegisterForm.SubmittedFormRegisters | src/components/Register.tsx:57-62 | A form that passes the checks, with a username and email not yet taken, creates the account. Its stored display name is the typed one, or the username when none was typed. |
| CardSets.WithoutPassword | api/index.ts:347 | The public user carries every column of the stored user except the password. |
| Auth.BearerToken | api/index.ts:139 | An extracted token is non-empty and has no spaces. |
| Auth.BearerTokenOfScheme | api/index.ts:139 | `Bearer <token>`, or any single-word scheme followed by a space-free token, yields that token. |
| Auth.BearerTokenMissing | api/index.ts:139-143 | A header without a space, or with two spaces after the scheme, yields no token. |
| Auth.AuthenticateToken | api/index.ts:137-152 | The request is 401 iff no token is extracted, and 403 iff a token is extracted but fails verification. Otherwise it carries the verified claims. |
| Auth.StoredTokenAuthenticates | api/index.ts:137-152 | The pages' `Bearer <token>` header admits the holder of a valid space-free token. |
| CardSetsApi.IncludeOptions | api/index.ts:184-185 | An absent or empty parameter gives no list. Otherwise the list is non-empty and joins back to the parameter. |
| CardSetsApi.IncludeOptionsOfNames | api/index.ts:184-185 | A comma-joined list of comma-free names parses back to that list. |
| CardSetsApi.IncludeOptionsOfPair | api/index.ts:184-185 | `a,b`, for a non-empty comma-free `a` and a comma-free `b`, parses to the list of the two names. |
| CardSetsApi.AllCardSetsInclude | api/index.ts:55-67 | With no list, both relations are embedded. Otherwise each relation is embedded iff its name is an item. |
| CardSetsApi.AllCardSetsIncludeOfPair | api/index.ts:55-67 | `a,b` embeds exactly the relations named a or b, matched untrimmed. |
| CardSetsApi.MyCardSetsInclude | api/index.ts:204-222 | The owner's selected columns are all user columns except password. The game is embedded iff there is no list or the list contains `game`. |
| CardSetsApi.MyCardSets | api/index.ts:196-235 | The request is rejected, with the middleware's status, iff authentication fails. |
| CardSetsApi.MyCardSetsSpec | api/index.ts:198-228 | The listing holds exactly the card sets owned by the token's user, each as often as stored, newest first. |
| CardSetsApi.PostCardSet | api/index.ts:253-276 | Authentication comes first. The result is 400 iff any of title, description, imageUrl or gameId is falsy. A row is created iff the request is authenticated, the fields are truthy, the three text fields are strings, `parseInt` reads the game id, and the game and the token's user are stored. A string id such as `"5"` counts. Otherwise the result is 500. A created row's owner is the token's user, and its game is `parseInt` of the body's gameId. |
| CardSetsApi.PostCardSetOfFields | api/index.ts:253-276 | A body with non-empty string fields and a non-zero numeric game id, for a stored game, sent by a stored user, is stored with exactly those fields. |
| CardSetsApi.UnknownGameFails | api/index.ts:82-95 | A game id that names no stored game makes an otherwise acceptable request fail with 500. |
| CardSetsApi.PostIgnoresBodyUserId | api/index.ts:261 | A `userId` in the body has no effect on the result. |
| CardSetsApi.AsWrittenFormAlwaysRejected | api/index.ts:257-259 | Every request the card-set form sends is answered 400 once authenticated, whatever the form holds. |
| CardSetsApi.CorrectedFormAccepted | api/index.ts:253-266 | Every request the repaired form sends is stored with its title, description, URL and game, owned by the token's user. This holds when the game id is non-zero and names a stored game, and the user is stored. |
| Orderings.StringLeTotal | api/index.ts:27-31 | Any two names are comparable. |
| Orderings.StringLeTransitive | api/index.ts:27-31 | The name order is transitive. |
| Orderings.StringLeAntisymmetric | api/index.ts:27-31 | Names that each precede the other are equal. |
| Orderings.GamesByNameSpec | api/index.ts:25-37 | The games listing is a permutation of the games, in ascending name order. |
| Orderings.CardDefinitionLeIsPreorder | api/index.ts:281-287 | Tier ascending, then points descending, then token ascending is a total preorder. |
| Orderings.CardDefinitionsOrderedSpec | api/index.ts:279-287 | The card-definition listing is a permutation in which tiers never decrease. Within a tier points never increase, and within equal tier and points token names ascend. |
| Orderings.NewestFirstSpec | api/index.ts:69-74 | A card-set listing is a permutation in which creation times never increase. |
| RegisterApi.Register | api/index.ts:303-356 | The result is 400 "required" iff username, email or password is falsy. It is 400 "already exists" iff they are truthy, username and email are strings, and a stored user has either. It is 500 iff the fields are truthy and either username or email is not a string, or the pair is free and the password, or a truthy display name, is not a string. A registered account: has the sent username and email; stores the hash of the sent password; clashes with no stored user's username or email; is returned without its password; and gets a token signed over its id and username. An account is registered iff every check passes. |
| RegisterApi.RegisterDisplayName | api/index.ts:335 | The stored display name is the sent one when it is truthy, and the username otherwise. |
| RegisterApi.TakenBeforeHash | api/index.ts:312-327 | A taken username or email is refused with 400 "already exists" even when the password is not a string, because the uniqueness query runs before the hash. |
| RegisterApi.RegisterTwiceRejected | api/index.ts:312-323 | Registering the same body again after a success is refused with 400 "already exists". |

## Left out

- Rendering, styling, modals, toasts, navigation, `document.title` and loading or error flags:
  these have no rule beyond what is modelled.
- HTTP, `fetch`, `localStorage`, the auth context and the Express/Vercel wiring. Responses
  and stored tokens are parameters.
- Prisma itself. Filters and orders are specified over sequences. The only database errors
  modelled are the card-set insert's foreign keys (`CardSetsApi.Stored`) and its field types.
  Other database errors are not modelled.
- bcrypt, JWT signing and verification, `JSON.parse` and `new URL`: foreign code, taken as
  parameters.
- The slider's pixel-to-value rounding and the percentage positions: floating point. The
  drag distance is an integer input.
- Unicode case mapping: `toLowerCase` is ASCII only. String lengths count code points, not
  UTF-16 units.
- JavaScript numbers are integers in this model. Fractional points, tiers or costs are not
  represented.
- Orderings.GamesByNameSpec: database collation is modelled as code-point order.
- Orderings.CardDefinitionsOrderedSpec: "token ascending" is the lexical order of the token
  names. With a database enum column it would be declaration order. The schema is not part
  of this model.
- Orderings.NewestFirstSpec: the database's order among equal keys is unspecified. The
  model fixes it as the stored order.
- The token viewer's checkbox toggles for the token and tier lists: list editing, not
  filtering. The filters take the lists as given.
- GameView.SidebarDisabledSpec: the page looks table names up in a plain object. A listed
  table named after an inherited `Object.prototype` member, such as `constructor` or
  `hasOwnProperty`, finds a function there whose `length` may be positive. This enables its
  button. The model's entries are own entries only.
- GameView.CardsPanelMatchesDeckDispatch: the same plain-object lookup would hand an
  inherited function, as cards, to the token viewer for such a table name. "Cards only for a
  known table" holds only for names that are not `Object.prototype` members.
- CostCodec.ParseCost: `JSON.parse` of cost text may yield a value that is not an object,
  for example `null`. The filter's `cost.WHITE` then throws a TypeError. The parser parameter
  returns either a map or a parse failure, so the model does not express that.
- GameView.FetchCardDefinitionsSpec: a table listed twice is fetched twice, and a later ok
  response overwrites the first. The fetcher parameter gives every fetch of a table the same
  answer.
- GameView.FetchCardDefinitionsSpec: a game whose table list is absent is modelled as an
  empty list.
- CardSetsApi.AllCardSetsInclude: a repeated `include` query parameter, which Express
  parses as an array, is not modelled.
- RegisterApi.Register: request bodies hold JSON scalars and plain objects, not arrays. A
  username or email that is an object is read by Prisma's `findFirst` as a query filter. The
  model answers 500 for it, as for any other non-string, and does not model filter matching.
- The login handler, the `/api/auth/me` route, the GET-by-id routes and the server's deck
  create and update handlers.
- The legacy category model, the duplicate handlers under `api/auth`, `api/cardsets` and
  `api/card-definitions`, and the debug and migration scripts.

## Findings

| source | as written | input that shows it | evidently intended | confidence | as-written member | corrected member |
|---|---|---|---|---|---|---|
| src/components/CreateCardSet.tsx:134 | The card-set form posts title, description, category and imageUrl only. `POST /api/cardsets` answers 400 unless gameId is truthy (api/index.ts:257-259). | Any valid form, e.g. title "Space Race", description "Ten or more chars", category "Strategy", a valid image URL, with a valid token. | The form sends the id of the game the card set belongs to, so a valid form is stored. | high; not executed | CardSetsApi.AsWrittenFormAlwaysRejected | CardSetsApi.CorrectedFormAccepted |
| src/pages/DeckView.tsx:234-245 | The deck page passes `selectedCardIds`, `onCardSelectionChange` and `allowSelection` to both viewers. Both viewers declare only `cardDefinitions` (src/components/CardDefinitionViewer.tsx:13-17, src/components/DiscoveryCardDefinitionViewer.tsx:10-14), so `handleCardSelection` is never called. | The deck's owner clicks a card that is not in the deck. | The owner's clicks select and deselect cards through `handleCardSelection`, and other visitors' clicks do nothing. | high; not executed | DeckView.OwnerClickIgnored | DeckView.OwnerClicksReachHandler |
