/** `CreateCardSet`: the card-set form, its validation, error clearing, submission and reset. */
module CreateCardSet {
  import opened Wrappers
  import opened Text
  import opened Json

  datatype FormData = FormData(title: string, description: string, category: string, imageUrl: string)

  /** The initial form and the form after a successful submission. */
  const EmptyForm := FormData("", "", "", "")

  datatype Field = Title | Description | Category | ImageUrl

  function GetField(form: FormData, f: Field): string {
    match f
    case Title => form.title
    case Description => form.description
    case Category => form.category
    case ImageUrl => form.imageUrl
  }

  function SetField(form: FormData, f: Field, value: string): (r: FormData)
    ensures GetField(r, f) == value
    ensures forall g :: g != f ==> GetField(r, g) == GetField(form, g)
  {
    match f
    case Title => form.(title := value)
    case Description => form.(description := value)
    case Category => form.(category := value)
    case ImageUrl => form.(imageUrl := value)
  }

  /** The error messages, keyed by field; an entry set to `""` is a cleared error. */
  type Errors = map<Field, string>

  /** `new URL(s)` does not throw: WHATWG URL parsing is a parameter of the model. */
  type UrlCheck = string -> bool

  const TitleRequired := "Title is required"
  const TitleTooShort := "Title must be at least 3 characters"
  const DescriptionRequired := "Description is required"
  const DescriptionTooShort := "Description must be at least 10 characters"
  const CategoryRequired := "Category is required"
  const ImageUrlRequired := "Image URL is required"
  const ImageUrlInvalid := "Please enter a valid URL"

  /** A blank field (nothing left after trimming) is "required"; only a non-blank one is
      checked further. Lengths count the untrimmed text. */
  function TitleError(title: string): Option<string> {
    if Trim(title) == "" then Some(TitleRequired)
    else if |title| < 3 then Some(TitleTooShort)
    else None
  }

  function DescriptionError(description: string): Option<string> {
    if Trim(description) == "" then Some(DescriptionRequired)
    else if |description| < 10 then Some(DescriptionTooShort)
    else None
  }

  /** The category is not trimmed: only the empty string is missing. */
  function CategoryError(category: string): Option<string> {
    if category == "" then Some(CategoryRequired) else None
  }

  function ImageUrlError(imageUrl: string, isValidUrl: UrlCheck): Option<string> {
    if Trim(imageUrl) == "" then Some(ImageUrlRequired)
    else if !isValidUrl(imageUrl) then Some(ImageUrlInvalid)
    else None
  }

  function FieldError(form: FormData, f: Field, isValidUrl: UrlCheck): Option<string> {
    match f
    case Title => TitleError(form.title)
    case Description => DescriptionError(form.description)
    case Category => CategoryError(form.category)
    case ImageUrl => ImageUrlError(form.imageUrl, isValidUrl)
  }

  /** Records `e` as the error of `f`, if there is one. */
  function WithError(errors: Errors, f: Field, e: Option<string>): (r: Errors)
    ensures forall g :: g in r <==> g in errors || (g == f && e.Some?)
    ensures forall g :: g in r ==> r[g] == (if g == f && e.Some? then e.value else errors[g])
  {
    if e.Some? then errors[f := e.value] else errors
  }

  /** The error map built from each field's verdict, in the source's order. */
  function CollectErrors(t: Option<string>, d: Option<string>, c: Option<string>, u: Option<string>): Errors {
    WithError(WithError(WithError(WithError(map[], Title, t), Description, d), Category, c), ImageUrl, u)
  }

  /** The verdict for one field among the four. */
  function Pick(f: Field, t: Option<string>, d: Option<string>, c: Option<string>, u: Option<string>): Option<string> {
    match f
    case Title => t
    case Description => d
    case Category => c
    case ImageUrl => u
  }

  lemma CollectErrorsSpec(t: Option<string>, d: Option<string>, c: Option<string>, u: Option<string>, f: Field)
    ensures f in CollectErrors(t, d, c, u) <==> Pick(f, t, d, c, u).Some?
    ensures f in CollectErrors(t, d, c, u) ==> CollectErrors(t, d, c, u)[f] == Pick(f, t, d, c, u).value
  {
  }

  /** `validateForm`: every field is checked in turn. */
  function ValidateForm(form: FormData, isValidUrl: UrlCheck): Errors {
    CollectErrors(TitleError(form.title), DescriptionError(form.description),
                  CategoryError(form.category), ImageUrlError(form.imageUrl, isValidUrl))
  }

  /** Each field gets an error exactly when one of its checks fails, and only one: the message
      of the first check that fails. */
  lemma ValidateFormSpec(form: FormData, isValidUrl: UrlCheck, f: Field)
    ensures f in ValidateForm(form, isValidUrl) <==> FieldError(form, f, isValidUrl).Some?
    ensures f in ValidateForm(form, isValidUrl) ==>
      ValidateForm(form, isValidUrl)[f] == FieldError(form, f, isValidUrl).value
  {
    var t := TitleError(form.title);
    var d := DescriptionError(form.description);
    var c := CategoryError(form.category);
    var u := ImageUrlError(form.imageUrl, isValidUrl);
    CollectErrorsSpec(t, d, c, u, f);
    assert FieldError(form, f, isValidUrl) == Pick(f, t, d, c, u);
  }

  /** The form may be submitted: validation recorded no error at all. */
  predicate IsValid(form: FormData, isValidUrl: UrlCheck) {
    |ValidateForm(form, isValidUrl)| == 0
  }

  /** The form is accepted exactly when the title is non-blank and at least 3 characters long,
      the description non-blank and at least 10 long, a category is chosen, and the image URL
      is non-blank and valid. */
  lemma IsValidSpec(form: FormData, isValidUrl: UrlCheck)
    ensures IsValid(form, isValidUrl) <==>
      !AllSpace(form.title) && |form.title| >= 3
      && !AllSpace(form.description) && |form.description| >= 10
      && form.category != ""
      && !AllSpace(form.imageUrl) && isValidUrl(form.imageUrl)
  {
    ValidateFormSpec(form, isValidUrl, Title);
    ValidateFormSpec(form, isValidUrl, Description);
    ValidateFormSpec(form, isValidUrl, Category);
    ValidateFormSpec(form, isValidUrl, ImageUrl);
    var r := ValidateForm(form, isValidUrl);
    if |r| != 0 {
      var f :| f in r;
    }
  }

  /** A valid form has non-empty text in every field. */
  lemma ValidFormNonEmpty(form: FormData, isValidUrl: UrlCheck)
    requires IsValid(form, isValidUrl)
    ensures form.title != "" && form.description != "" && form.category != "" && form.imageUrl != ""
  {
    IsValidSpec(form, isValidUrl);
  }

  /** Precedence: a blank title is reported as missing, never as too short, whatever its
      length; a padded title is measured with its padding. */
  lemma TitleErrorPrecedence(title: string)
    ensures AllSpace(title) ==> TitleError(title) == Some(TitleRequired)
    ensures TitleError(title) == Some(TitleTooShort) <==> !AllSpace(title) && |title| < 3
    ensures TitleError("  a") == None
  {
    assert !IsSpace('a');
    assert Trim("  a") != "" by {
      assert !AllSpace("  a") by { assert "  a"[2] == 'a'; }
    }
  }

  /** A field's error is on display when its entry is truthy. */
  predicate Shown(errors: Errors, f: Field) {
    f in errors && errors[f] != ""
  }

  /** `handleInputChange`: stores the value and clears that field's error if one is shown. */
  function HandleInputChange(form: FormData, errors: Errors, f: Field, value: string): (FormData, Errors) {
    (SetField(form, f, value), if Shown(errors, f) then errors[f := ""] else errors)
  }

  /** Editing a field changes only that field, hides only that field's error, and leaves every
      other error entry as it was. */
  lemma HandleInputChangeSpec(form: FormData, errors: Errors, f: Field, value: string)
    ensures GetField(HandleInputChange(form, errors, f, value).0, f) == value
    ensures forall g :: g != f ==> GetField(HandleInputChange(form, errors, f, value).0, g) == GetField(form, g)
    ensures !Shown(HandleInputChange(form, errors, f, value).1, f)
    ensures HandleInputChange(form, errors, f, value).1.Keys == errors.Keys
    ensures forall g :: g != f && g in errors ==> HandleInputChange(form, errors, f, value).1[g] == errors[g]
  {
  }

  /** The body `handleSubmit` sends, the serialised form state: the four form fields and no
      game. */
  function RequestBodyAsWritten(form: FormData): (r: JsonObject)
    ensures "gameId" !in r
  {
    map["title" := JString(form.title), "description" := JString(form.description),
        "category" := JString(form.category), "imageUrl" := JString(form.imageUrl)]
  }

  /** The body the server needs: the form fields and the id of the game the card set is for. */
  function RequestBody(form: FormData, gameId: int): (r: JsonObject)
    ensures "gameId" in r && r["gameId"] == JNumber(gameId)
    ensures forall k :: k in RequestBodyAsWritten(form) ==> k in r && r[k] == RequestBodyAsWritten(form)[k]
  {
    RequestBodyAsWritten(form)["gameId" := JNumber(gameId)]
  }

  /** Each form field is sent as a string under its own name, beside the game id. */
  lemma RequestBodyFields(form: FormData, gameId: int)
    ensures var body := RequestBody(form, gameId);
      && "title" in body && body["title"] == JString(form.title)
      && "description" in body && body["description"] == JString(form.description)
      && "category" in body && body["category"] == JString(form.category)
      && "imageUrl" in body && body["imageUrl"] == JString(form.imageUrl)
      && "gameId" in body && body["gameId"] == JNumber(gameId)
  {
  }

  /** The outcome of `handleSubmit` up to the request. */
  datatype SubmitStep =
    | Invalid(errors: Errors)
    | NotSignedIn
    | Send(token: string, body: JsonObject)

  /** Validation comes first; then a stored token is required; then the serialised form
      state, which holds no game, is posted. */
  function HandleSubmit(form: FormData, isValidUrl: UrlCheck, token: Option<string>): (r: SubmitStep)
    ensures r.Invalid? <==> !IsValid(form, isValidUrl)
    ensures r.Invalid? ==> r.errors == ValidateForm(form, isValidUrl) && |r.errors| > 0
    ensures r.Send? <==> IsValid(form, isValidUrl) && token.Some? && token.value != ""
    ensures r.Send? ==> r.token == token.value && r.body == RequestBodyAsWritten(form)
    ensures r.Send? ==> "gameId" !in r.body
  {
    if !IsValid(form, isValidUrl) then Invalid(ValidateForm(form, isValidUrl))
    else if token.None? || token.value == "" then NotSignedIn
    else Send(token.value, RequestBodyAsWritten(form))
  }

  /** The repaired submission: the same steps, but the request also names the game
      `gameId` the card set is created for. */
  function HandleSubmitWithGame(form: FormData, gameId: int, isValidUrl: UrlCheck, token: Option<string>): (r: SubmitStep)
    ensures r.Invalid? <==> HandleSubmit(form, isValidUrl, token).Invalid?
    ensures r.Invalid? ==> r == HandleSubmit(form, isValidUrl, token)
    ensures r.Send? <==> HandleSubmit(form, isValidUrl, token).Send?
    ensures r.Send? ==>
      && r.token == HandleSubmit(form, isValidUrl, token).token
      && r.body == HandleSubmit(form, isValidUrl, token).body["gameId" := JNumber(gameId)]
  {
    match HandleSubmit(form, isValidUrl, token)
    case Send(t, body) => Send(t, RequestBody(form, gameId))
    case other => other
  }

  /** The form after the server answers: reset to empty fields on success, kept otherwise. */
  function AfterResponse(form: FormData, ok: bool): (r: FormData)
    ensures ok ==> forall f :: GetField(r, f) == ""
    ensures !ok ==> r == form
  {
    if ok then EmptyForm else form
  }
}
