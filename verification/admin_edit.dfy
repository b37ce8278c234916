/** The admin add/edit form: field validation in a fixed order, the trimmed
    payload, and the choice between creating and updating a record. */
module AdminEdit {
  import opened Wrappers
  import opened JsString
  import Catalog

  /** The form's `useState` hooks. `formKey` only forces a re-render. */
  datatype Form = Form(
    isEditMode: bool,
    butterflyId: Option<string>,
    commonName: string,
    latinName: string,
    imageUrl: string,
    difficulty: int,
    formKey: int)

  const InitialForm := Form(false, None, "", "", "", 1, 0)

  /** The route parameter the screen is opened with. */
  datatype Params =
    | NoButterfly                      // "Add New Butterfly"
    | Parsed(b: Catalog.Butterfly)     // "Edit" on a listed record, JSON that parses
    | Unparseable                      // a parameter `JSON.parse` rejects

  /** The mount effect: edit mode loads the record, add mode resets every field,
      and an unparseable parameter leaves the form as it was. */
  function ApplyParams(f: Form, p: Params): (g: Form)
    ensures p.NoButterfly? ==> g == InitialForm.(formKey := f.formKey + 1)
    ensures p.Parsed? ==>
      && g.isEditMode && g.butterflyId == p.b.id && g.difficulty == p.b.difficulty
      && g.commonName == p.b.commonName && g.latinName == p.b.latinName && g.imageUrl == p.b.imageUrl
    ensures p.Unparseable? ==> g == f
  {
    match p
    case NoButterfly =>
      f.(isEditMode := false, butterflyId := None, commonName := "", latinName := "",
         imageUrl := "", difficulty := 1, formKey := f.formKey + 1)
    case Parsed(b) =>
      f.(isEditMode := true, butterflyId := b.id, commonName := b.commonName, latinName := b.latinName,
         imageUrl := b.imageUrl, difficulty := b.difficulty, formKey := f.formKey + 1)
    case Unparseable => f
  }

  /** The validation failures, in the order the form checks them. */
  datatype FormError = MissingCommonName | MissingLatinName | MissingImageUrl | BadImageScheme

  function Rank(e: FormError): nat {
    match e
    case MissingCommonName => 0
    case MissingLatinName => 1
    case MissingImageUrl => 2
    case BadImageScheme => 3
  }

  /** The alert shown for each failure. */
  function AlertText(e: FormError): string {
    match e
    case MissingCommonName => "Please enter a common name"
    case MissingLatinName => "Please enter a Latin name"
    case MissingImageUrl => "Please enter an image URL"
    case BadImageScheme => "Image URL must start with http:// or https://"
  }

  /** The scheme check looks at the URL as typed, not at its trimmed form. */
  predicate HasWebScheme(url: string) {
    StartsWith(url, "http://") || StartsWith(url, "https://")
  }

  /** Whether the form fails the check behind `e`, independent of the order the checks run in. */
  ghost predicate Fails(f: Form, e: FormError) {
    match e
    case MissingCommonName => AllWhitespace(f.commonName)
    case MissingLatinName => AllWhitespace(f.latinName)
    case MissingImageUrl => AllWhitespace(f.imageUrl)
    case BadImageScheme => !HasWebScheme(f.imageUrl)
  }

  /** `validateForm`: the first failing check in the fixed order, or `None` when all pass. */
  function ValidateForm(f: Form): (r: Option<FormError>)
    ensures r.None? ==> forall e :: !Fails(f, e)
    ensures r.Some? ==> Fails(f, r.value)
  {
    TrimEmptyIffBlank(f.commonName);
    TrimEmptyIffBlank(f.latinName);
    TrimEmptyIffBlank(f.imageUrl);
    if Trim(f.commonName) == [] then Some(MissingCommonName)
    else if Trim(f.latinName) == [] then Some(MissingLatinName)
    else if Trim(f.imageUrl) == [] then Some(MissingImageUrl)
    else if !StartsWith(f.imageUrl, "http://") && !StartsWith(f.imageUrl, "https://") then Some(BadImageScheme)
    else None
  }

  /** Conversely, a form whose names are not blank and whose URL carries a web
      scheme passes validation. */
  lemma ValidateFormAccepts(f: Form)
    requires !AllWhitespace(f.commonName) && !AllWhitespace(f.latinName)
    requires HasWebScheme(f.imageUrl)
    ensures ValidateForm(f).None?
  {
    SchemeStartsUrl(f.imageUrl);
  }

  /** The reported failure is the earliest one in the checking order: every
      check ranked before it passes. */
  lemma ValidationOrder(f: Form, e: FormError)
    requires ValidateForm(f).Some? && Rank(e) < Rank(ValidateForm(f).value)
    ensures !Fails(f, e)
  {
    TrimEmptyIffBlank(f.commonName);
    TrimEmptyIffBlank(f.latinName);
    TrimEmptyIffBlank(f.imageUrl);
  }

  /** The request `handleSave` issues. */
  datatype SaveRequest =
    | Create(payload: Catalog.Butterfly)             // POST /api/admin/butterfly
    | Update(id: string, payload: Catalog.Butterfly) // PUT /api/admin/butterfly/{id}

  /** The body sent: trimmed strings, the difficulty as is, and no id. */
  function Payload(f: Form): Catalog.Butterfly {
    Catalog.Butterfly(None, Trim(f.commonName), Trim(f.latinName), Trim(f.imageUrl), f.difficulty)
  }

  /** `butterflyId` as a JavaScript condition: present and not the empty string. */
  predicate HasId(f: Form) {
    f.butterflyId.Some? && f.butterflyId.value != ""
  }

  /** `handleSave`: nothing is sent unless validation passes; then an update when
      editing a record with an id, a create otherwise. */
  function HandleSave(f: Form): (r: Result<SaveRequest, FormError>)
    ensures r.Failure? <==> ValidateForm(f).Some?
    ensures r.Failure? ==> r.error == ValidateForm(f).value
    ensures r.Success? ==> r.value.payload == Payload(f)
    ensures r.Success? ==> (r.value.Update? <==> f.isEditMode && HasId(f))
    ensures r.Success? && r.value.Update? ==> Some(r.value.id) == f.butterflyId
  {
    match ValidateForm(f)
    case Some(e) => Failure(e)
    case None =>
      if f.isEditMode && HasId(f) then Success(Update(f.butterflyId.value, Payload(f)))
      else Success(Create(Payload(f)))
  }

  /** What an accepted form sends: names with no surrounding white space and not
      empty, and an image URL that keeps its `http://` or `https://` prefix. */
  lemma SavedPayloadIsClean(f: Form)
    requires HandleSave(f).Success?
    ensures var p := HandleSave(f).value.payload;
      && p.id.None? && p.commonName != [] && p.latinName != [] && p.imageUrl != []
      && Trim(p.commonName) == p.commonName && Trim(p.latinName) == p.latinName
      && HasWebScheme(p.imageUrl)
  {
    assert !Fails(f, MissingCommonName) && !Fails(f, MissingLatinName) && !Fails(f, BadImageScheme);
    CleanPayload(f);
  }

  /** Helper: the payload of a form whose checks pass. */
  lemma CleanPayload(f: Form)
    requires !AllWhitespace(f.commonName) && !AllWhitespace(f.latinName) && HasWebScheme(f.imageUrl)
    ensures var p := Payload(f);
      && p.id.None? && p.commonName != [] && p.latinName != [] && p.imageUrl != []
      && Trim(p.commonName) == p.commonName && Trim(p.latinName) == p.latinName
      && HasWebScheme(p.imageUrl)
  {
    TrimEmptyIffBlank(f.commonName);
    TrimEmptyIffBlank(f.latinName);
    TrimIdempotent(f.commonName);
    TrimIdempotent(f.latinName);
    if StartsWith(f.imageUrl, "http://") {
      TrimKeepsPrefix(f.imageUrl, "http://");
    } else {
      TrimKeepsPrefix(f.imageUrl, "https://");
    }
  }

  /** When the scheme check is the only one that fails, it is the one reported. */
  lemma OnlySchemeFails(f: Form)
    requires !AllWhitespace(f.commonName) && !AllWhitespace(f.latinName) && !AllWhitespace(f.imageUrl)
    requires !HasWebScheme(f.imageUrl)
    ensures HandleSave(f) == Failure(BadImageScheme)
  {
    assert Fails(f, BadImageScheme);
  }

  /** A URL typed with a leading space is refused by the scheme check, although
      the trimmed URL that would have been sent is well-formed. */
  lemma LeadingSpaceRejected(f: Form, u: string)
    requires !AllWhitespace(f.commonName) && !AllWhitespace(f.latinName)
    requires StartsWith(u, "https://") && f.imageUrl == [' '] + u
    ensures HandleSave(f) == Failure(BadImageScheme)
    ensures StartsWith(Trim(f.imageUrl), "https://")
  {
    SchemeStartsUrl(u);
    assert f.imageUrl[1] == u[0];
    assert !HasWebScheme(f.imageUrl) by { assert f.imageUrl[0] == ' '; }
    OnlySchemeFails(f);
    assert f.imageUrl[1..] == u;
    assert TrimStart(f.imageUrl) == TrimStart(u);
    TrimKeepsPrefix(u, "https://");
  }

  /** A freshly reset add form cannot be saved: the common name is reported first. */
  lemma EmptyAddFormRejected(f: Form)
    ensures HandleSave(ApplyParams(f, NoButterfly)) == Failure(MissingCommonName)
  {
  }

  /** A record whose text fields carry no surrounding white space. */
  predicate Trimmed(b: Catalog.Butterfly) {
    && b.commonName != [] && !IsWhitespace(b.commonName[0]) && !IsWhitespace(b.commonName[|b.commonName| - 1])
    && b.latinName != [] && !IsWhitespace(b.latinName[0]) && !IsWhitespace(b.latinName[|b.latinName| - 1])
    && b.imageUrl != [] && !IsWhitespace(b.imageUrl[0]) && !IsWhitespace(b.imageUrl[|b.imageUrl| - 1])
  }

  /** Loading a trimmed record into the form and building the payload gives the
      record back without its id. */
  lemma PayloadOfLoaded(f: Form, b: Catalog.Butterfly)
    requires Trimmed(b)
    ensures Payload(ApplyParams(f, Parsed(b))) == b.(id := None)
  {
    var g := ApplyParams(f, Parsed(b));
    assert g.commonName == b.commonName && g.latinName == b.latinName;
    assert g.imageUrl == b.imageUrl && g.difficulty == b.difficulty;
    TrimOfTrimmed(b.commonName);
    TrimOfTrimmed(b.latinName);
    TrimOfTrimmed(b.imageUrl);
    assert Payload(g) == Catalog.Butterfly(None, b.commonName, b.latinName, b.imageUrl, b.difficulty);
  }

  /** Opening a stored record for editing and saving it unchanged sends an update
      of that record with exactly its fields, provided they were already trimmed
      and valid. */
  lemma EditRoundTrip(f: Form, b: Catalog.Butterfly)
    requires b.id.Some? && b.id.value != ""
    requires Trimmed(b) && HasWebScheme(b.imageUrl)
    ensures HandleSave(ApplyParams(f, Parsed(b))) == Success(Update(b.id.value, b.(id := None)))
  {
    var g := ApplyParams(f, Parsed(b));
    ValidateFormAccepts(g);
    PayloadOfLoaded(f, b);
  }

  /** A URL with a web scheme starts with a letter, so it is not blank. */
  lemma SchemeStartsUrl(url: string)
    requires HasWebScheme(url)
    ensures url != [] && url[0] == 'h' && !IsWhitespace(url[0])
  {
    if StartsWith(url, "http://") {
      assert url[0] == url[..7][0];
    } else {
      assert url[0] == url[..8][0];
    }
  }
}
