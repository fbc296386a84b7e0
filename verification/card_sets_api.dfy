/** The card-set routes of the API: `?include=` parsing, `GET /api/cardsets`,
    `GET /api/cardsets/user/me` and `POST /api/cardsets`. */
module CardSetsApi {
  import opened Wrappers
  import opened Text
  import opened Seqs
  import opened Json
  import opened CardSets
  import opened Auth
  import Orderings
  import CreateCardSet

  /** The include options: an absent or empty parameter gives
      no list; otherwise the comma-separated items, untrimmed. */
  function IncludeOptions(param: Option<string>): (r: Option<seq<string>>)
    ensures r.None? <==> param.None? || param.value == ""
    ensures r.Some? ==> Join(r.value, ',') == param.value && |r.value| > 0
  {
    if param.None? || param.value == "" then None
    else
      JoinSplit(param.value, ',');
      Some(Split(param.value, ','))
  }

  /** A comma-joined list of comma-free names reads back as that list. */
  lemma IncludeOptionsOfNames(names: seq<string>)
    requires |names| > 0 && forall k :: 0 <= k < |names| ==> ',' !in names[k]
    requires Join(names, ',') != ""
    ensures IncludeOptions(Some(Join(names, ','))) == Some(names)
  {
    SplitJoin(names, ',');
  }

  /** Which relations a listing embeds. */
  datatype Include = Include(user: bool, game: bool)

  /** `getAllCardSets`: without options both relations; with options each relation whose name
      is one of the items. */
  function AllCardSetsInclude(options: Option<seq<string>>): (r: Include)
    ensures options.None? ==> r == Include(true, true)
    ensures options.Some? ==> (r.user <==> "user" in options.value) && (r.game <==> "game" in options.value)
  {
    match options
    case None => Include(true, true)
    case Some(items) => Include("user" in items, "game" in items)
  }

  /** Two comma-free names joined by a comma read back as the pair. */
  lemma IncludeOptionsOfPair(a: string, b: string)
    requires a != "" && ',' !in a && ',' !in b
    ensures IncludeOptions(Some(a + "," + b)) == Some([a, b])
  {
    assert [a, b][1..] == [b];
    assert Join([a, b], ',') == a + "," + b;
    IncludeOptionsOfNames([a, b]);
  }

  /** `?include=a,b` embeds exactly the relations named `a` or `b`, compared untrimmed (so
      `game, user` embeds no owner). */
  lemma AllCardSetsIncludeOfPair(a: string, b: string)
    requires a != "" && ',' !in a && ',' !in b
    ensures AllCardSetsInclude(IncludeOptions(Some(a + "," + b)))
      == Include(a == "user" || b == "user", a == "game" || b == "game")
  {
    IncludeOptionsOfPair(a, b);
  }

  /** `GET /api/cardsets`: every card set, newest first, with the requested relations. */
  function AllCardSets(db: seq<CardSet>, includeParam: Option<string>): (seq<CardSet>, Include) {
    (Orderings.NewestFirst(db), AllCardSetsInclude(IncludeOptions(includeParam)))
  }

  /** The user columns `/cardsets/user/me` selects. */
  const MyUserFields: set<string> :=
    {"id", "username", "email", "displayName", "bio", "avatarUrl", "createdAt", "updatedAt"}

  /** The owner is always embedded through a fixed selection; the game is embedded unless the
      options leave it out. */
  datatype MyInclude = MyInclude(userFields: set<string>, game: bool)

  function MyCardSetsInclude(options: Option<seq<string>>): (r: MyInclude)
    ensures r.userFields == UserColumns - {"password"}
    ensures r.game <==> options.None? || "game" in options.value
  {
    MyInclude(MyUserFields, options.None? || "game" in options.value)
  }

  /** The owner's card sets, newest first. */
  function OwnedNewestFirst(db: seq<CardSet>, userId: int): seq<CardSet> {
    Orderings.NewestFirst(Filter(db, (cs: CardSet) => cs.userId == userId))
  }

  datatype MyCardSetsResult = MyRejected(status: int) | MyListed(cardSets: seq<CardSet>, relations: MyInclude)

  /** `GET /api/cardsets/user/me`: authentication first, then the caller's card sets. */
  function MyCardSets(header: Option<string>, verify: Verifier, db: seq<CardSet>, includeParam: Option<string>): (r: MyCardSetsResult)
    ensures r.MyRejected? <==> !AuthenticateToken(header, verify).Authenticated?
    ensures r.MyRejected? ==> r.status == Status(AuthenticateToken(header, verify))
  {
    match AuthenticateToken(header, verify)
    case Authenticated(claims) =>
      MyListed(OwnedNewestFirst(db, claims.userId), MyCardSetsInclude(IncludeOptions(includeParam)))
    case other => MyRejected(Status(other))
  }

  /** The listing holds exactly the card sets whose owner is the token's user, each as often as
      in the database, newest first. */
  lemma MyCardSetsSpec(header: Option<string>, verify: Verifier, db: seq<CardSet>, includeParam: Option<string>, cs: CardSet)
    requires AuthenticateToken(header, verify).Authenticated?
    ensures var r := MyCardSets(header, verify, db, includeParam);
      var userId := AuthenticateToken(header, verify).claims.userId;
      && r.MyListed?
      && (cs in r.cardSets <==> cs in db && cs.userId == userId)
      && multiset(r.cardSets) == multiset(Filter(db, (c: CardSet) => c.userId == userId))
      && (forall i, j :: 0 <= i < j < |r.cardSets| ==> r.cardSets[i].createdAt >= r.cardSets[j].createdAt)
  {
    var userId := AuthenticateToken(header, verify).claims.userId;
    var owned := Filter(db, (c: CardSet) => c.userId == userId);
    FilterMembership(db, (c: CardSet) => c.userId == userId, cs);
    Orderings.NewestFirstSpec(owned);
    assert cs in Orderings.NewestFirst(owned) <==> cs in multiset(Orderings.NewestFirst(owned));
  }

  /** The row `createCardSet` inserts. */
  datatype NewCardSet = NewCardSet(title: string, description: string, imageUrl: string, gameId: int, userId: int)

  datatype PostResult = PostRejected(status: int) | BadRequest | ServerError | Created(row: NewCardSet)

  /** The four fields the route requires are all truthy. */
  predicate HasRequiredFields(body: JsonObject) {
    FieldTruthy(body, "title") && FieldTruthy(body, "description")
    && FieldTruthy(body, "imageUrl") && FieldTruthy(body, "gameId")
  }

  /** The ids of the stored games and users, the rows the inserted card set's `game` and
      `user` relations must point at. */
  datatype Stored = Stored(gameIds: set<int>, userIds: set<int>)

  /** `POST /api/cardsets`: authentication; 400 unless title, description, imageUrl and
      gameId are truthy; the owner is the token's user. The insert fails (500) when a text field
      is not a string, when `parseInt` reads the game id as `NaN`, or when the game id or the
      token's user id names no stored row. */
  function PostCardSet(header: Option<string>, verify: Verifier, stored: Stored, body: JsonObject): (r: PostResult)
    ensures r.PostRejected? <==> !AuthenticateToken(header, verify).Authenticated?
    ensures r.PostRejected? ==> r.status == Status(AuthenticateToken(header, verify))
    ensures r.BadRequest? <==> AuthenticateToken(header, verify).Authenticated? && !HasRequiredFields(body)
    ensures r.Created? <==>
      && AuthenticateToken(header, verify).Authenticated?
      && HasRequiredFields(body)
      && body["title"].JString? && body["description"].JString? && body["imageUrl"].JString?
      && ParseIntOf(body["gameId"]).Some?
      && ParseIntOf(body["gameId"]).value in stored.gameIds
      && AuthenticateToken(header, verify).claims.userId in stored.userIds
    ensures r.Created? ==>
      && HasRequiredFields(body)
      && r.row.userId == AuthenticateToken(header, verify).claims.userId
      && Some(r.row.gameId) == ParseIntOf(body["gameId"])
      && r.row.gameId in stored.gameIds
      && r.row.userId in stored.userIds
      && body["title"] == JString(r.row.title)
      && body["description"] == JString(r.row.description)
      && body["imageUrl"] == JString(r.row.imageUrl)
  {
    match AuthenticateToken(header, verify)
    case Authenticated(claims) =>
      if !HasRequiredFields(body) then BadRequest
      else if !body["title"].JString? || !body["description"].JString? || !body["imageUrl"].JString? then ServerError
      else
        (match ParseIntOf(body["gameId"])
         case None => ServerError
         case Some(gameId) =>
           if gameId !in stored.gameIds || claims.userId !in stored.userIds then ServerError
           else Created(NewCardSet(body["title"].s, body["description"].s, body["imageUrl"].s, gameId, claims.userId)))
    case other => PostRejected(Status(other))
  }

  /** A game id that names no stored game makes an otherwise acceptable request fail with 500. */
  lemma UnknownGameFails(header: Option<string>, verify: Verifier, stored: Stored, body: JsonObject)
    requires AuthenticateToken(header, verify).Authenticated? && HasRequiredFields(body)
    requires ParseIntOf(body["gameId"]).Some? && ParseIntOf(body["gameId"]).value !in stored.gameIds
    ensures PostCardSet(header, verify, stored, body) == ServerError
  {
  }

  /** The owner never comes from the body: a `userId` field in it changes nothing. */
  lemma PostIgnoresBodyUserId(header: Option<string>, verify: Verifier, stored: Stored, body: JsonObject, v: JsonValue)
    ensures PostCardSet(header, verify, stored, body["userId" := v]) == PostCardSet(header, verify, stored, body)
  {
    var b := body["userId" := v];
    assert forall k :: k in {"title", "description", "imageUrl", "gameId"} ==>
      (k in b <==> k in body) && (k in body ==> b[k] == body[k]);
    assert HasRequiredFields(b) == HasRequiredFields(body);
  }

  /** As written, the card-set form posts no game id, so every authenticated submission the
      page sends is answered 400. */
  lemma AsWrittenFormAlwaysRejected(form: CreateCardSet.FormData, isValidUrl: CreateCardSet.UrlCheck,
                                    token: Option<string>, header: Option<string>, verify: Verifier, stored: Stored)
    requires AuthenticateToken(header, verify).Authenticated?
    ensures PostCardSet(header, verify, stored, CreateCardSet.RequestBodyAsWritten(form)) == BadRequest
    ensures CreateCardSet.HandleSubmit(form, isValidUrl, token).Send? ==>
      PostCardSet(header, verify, stored, CreateCardSet.HandleSubmit(form, isValidUrl, token).body) == BadRequest
  {
  }

  /** A body with non-empty string fields and the numeric id of a stored game, sent by a stored
      user, is stored as sent. */
  lemma PostCardSetOfFields(header: Option<string>, verify: Verifier, stored: Stored, body: JsonObject,
                            title: string, description: string, imageUrl: string, gameId: int)
    requires AuthenticateToken(header, verify).Authenticated?
    requires AuthenticateToken(header, verify).claims.userId in stored.userIds
    requires "title" in body && body["title"] == JString(title) && title != ""
    requires "description" in body && body["description"] == JString(description) && description != ""
    requires "imageUrl" in body && body["imageUrl"] == JString(imageUrl) && imageUrl != ""
    requires "gameId" in body && body["gameId"] == JNumber(gameId) && gameId != 0 && gameId in stored.gameIds
    ensures PostCardSet(header, verify, stored, body)
      == Created(NewCardSet(title, description, imageUrl, gameId, AuthenticateToken(header, verify).claims.userId))
  {
    ParseIntOfSpec(JNumber(gameId));
    assert ParseIntOf(body["gameId"]) == Some(gameId);
    assert FieldTruthy(body, "title") && FieldTruthy(body, "description");
    assert FieldTruthy(body, "imageUrl") && FieldTruthy(body, "gameId");
    assert HasRequiredFields(body);
    var userId := AuthenticateToken(header, verify).claims.userId;
    assert PostCardSet(header, verify, stored, body)
      == Created(NewCardSet(body["title"].s, body["description"].s, body["imageUrl"].s, gameId, userId));
  }

  /** With the game id in the body, every submission the page sends for a stored game, by a
      stored user, is stored with the form's fields and owned by the token's user. */
  lemma CorrectedFormAccepted(form: CreateCardSet.FormData, gameId: int, isValidUrl: CreateCardSet.UrlCheck,
                              token: Option<string>, header: Option<string>, verify: Verifier, stored: Stored)
    requires CreateCardSet.HandleSubmitWithGame(form, gameId, isValidUrl, token).Send?
    requires gameId != 0 && gameId in stored.gameIds
    requires AuthenticateToken(header, verify).Authenticated?
    requires AuthenticateToken(header, verify).claims.userId in stored.userIds
    ensures PostCardSet(header, verify, stored, CreateCardSet.HandleSubmitWithGame(form, gameId, isValidUrl, token).body)
      == Created(NewCardSet(form.title, form.description, form.imageUrl, gameId,
                            AuthenticateToken(header, verify).claims.userId))
  {
    var body := CreateCardSet.HandleSubmitWithGame(form, gameId, isValidUrl, token).body;
    assert body == CreateCardSet.RequestBody(form, gameId);
    CreateCardSet.ValidFormNonEmpty(form, isValidUrl);
    CreateCardSet.RequestBodyFields(form, gameId);
    PostCardSetOfFields(header, verify, stored, body, form.title, form.description, form.imageUrl, gameId);
  }
}
