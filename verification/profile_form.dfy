/** The profile screen: routing of input names into the loaded profile, the
    update payload, and what fetch and submit leave behind. */
module ProfileForm {
  import opened Common
  import opened Vendor
  import ApiClient
  import AuthService

  datatype VendorInfo = VendorInfo(
    businessName: string,
    businessAddress: string,
    businessPhone: string,
    businessDescription: string,
    businessCategory: string,
    isVerified: bool)

  datatype Profile = Profile(
    id: string,
    name: string,
    email: string,
    role: string,
    vendorInfo: VendorInfo,
    createdAt: string,
    updatedAt: string)

  /** The top-level members the form has inputs for. The email input is
      rendered disabled, so in practice only the name changes. */
  datatype PersonField = NameField | EmailField

  datatype Target = Person(field: PersonField) | Business(business: BusinessField)

  /** What `PUT /vendors/profile` carries: the name and the five business
      members, flattened. */
  datatype Payload = Payload(
    name: string,
    businessName: string,
    businessAddress: string,
    businessPhone: string,
    businessDescription: string,
    businessCategory: string)

  datatype Screen = Screen(profile: Option<Profile>, loading: bool, error: Option<string>)

  /** A settled profile call: the screen afterwards, and the storage and
      redirect the shared client's response handler leaves behind. */
  datatype Fetched = Fetched(screen: Screen, store: Store, redirect: Option<string>)

  /** The outcome of pressing save: the screen afterwards, the payload sent
      (if any), the toast shown (if any), and the storage and redirect the
      shared client's response handler leaves behind. */
  datatype Saved = Saved(screen: Screen, request: Option<Payload>, toast: Option<Toast>,
                         store: Store, redirect: Option<string>)

  /** An edit event: the input's `name` and its new value. */
  datatype Edit = Edit(name: string, value: string)

  const BusinessPrefix: string := "business"
  const FetchFailed: string := "Failed to fetch profile"
  const UpdateFailed: string := "Failed to update profile"

  function Initial(): Screen {
    Screen(None, true, None)
  }

  function PersonNamed(s: string): Option<PersonField> {
    if s == "name" then Some(NameField)
    else if s == "email" then Some(EmailField)
    else None
  }

  /** Names starting with "business" go into `vendorInfo` under that same name;
      the rest go to the top-level member of that name. Names no input uses
      land nowhere. */
  function Route(name: string): (r: Option<Target>)
    ensures r.Some? && r.value.Business? ==> name == FieldName(r.value.business)
    ensures r.Some? && r.value.Person? ==> name == (if r.value.field == NameField then "name" else "email")
  {
    if StartsWith(name, BusinessPrefix) then
      match FieldNamed(name)
      case Some(b) => Some(Business(b))
      case None => None
    else
      match PersonNamed(name)
      case Some(f) => Some(Person(f))
      case None => None
  }

  function GetBusiness(vi: VendorInfo, b: BusinessField): string {
    match b
    case BusinessName => vi.businessName
    case BusinessAddress => vi.businessAddress
    case BusinessPhone => vi.businessPhone
    case BusinessDescription => vi.businessDescription
    case BusinessCategory => vi.businessCategory
  }

  function Get(p: Profile, t: Target): string {
    match t
    case Person(NameField) => p.name
    case Person(EmailField) => p.email
    case Business(b) => GetBusiness(p.vendorInfo, b)
  }

  function SetBusiness(vi: VendorInfo, b: BusinessField, v: string): (r: VendorInfo)
    ensures GetBusiness(r, b) == v && r.isVerified == vi.isVerified
    ensures forall c :: c != b ==> GetBusiness(r, c) == GetBusiness(vi, c)
  {
    match b
    case BusinessName => vi.(businessName := v)
    case BusinessAddress => vi.(businessAddress := v)
    case BusinessPhone => vi.(businessPhone := v)
    case BusinessDescription => vi.(businessDescription := v)
    case BusinessCategory => vi.(businessCategory := v)
  }

  function Set(p: Profile, t: Target, v: string): (r: Profile)
    ensures Get(r, t) == v
    ensures forall u :: u != t ==> Get(r, u) == Get(p, u)
    ensures r.id == p.id && r.role == p.role && r.createdAt == p.createdAt && r.updatedAt == p.updatedAt
    ensures r.vendorInfo.isVerified == p.vendorInfo.isVerified
  {
    match t
    case Person(NameField) => p.(name := v)
    case Person(EmailField) => p.(email := v)
    case Business(b) => p.(vendorInfo := SetBusiness(p.vendorInfo, b, v))
  }

  /** `handleChange`: nothing happens before a profile is loaded; afterwards
      the routed member takes the value and every other member (identifier,
      role, verification flag and timestamps included) keeps its own. */
  function HandleChange(p: Option<Profile>, name: string, value: string): (r: Option<Profile>)
    ensures p.None? ==> r.None?
    ensures p.Some? ==> r.Some?
    ensures p.Some? && Route(name).Some? ==>
              && Get(r.value, Route(name).value) == value
              && (forall t :: t != Route(name).value ==> Get(r.value, t) == Get(p.value, t))
              && r.value.id == p.value.id && r.value.role == p.value.role
              && r.value.vendorInfo.isVerified == p.value.vendorInfo.isVerified
              && r.value.createdAt == p.value.createdAt && r.value.updatedAt == p.value.updatedAt
    ensures p.Some? && Route(name).None? ==> r == p
  {
    match p
    case None => None
    case Some(prof) =>
      match Route(name)
      case Some(t) => Some(Set(prof, t, value))
      case None => p
  }

  /** Every input of the form reaches its own member. */
  lemma FormNamesRoute(b: BusinessField)
    ensures Route(FieldName(b)) == Some(Business(b))
    ensures Route("name") == Some(Person(NameField))
    ensures Route("email") == Some(Person(EmailField))
  {
    FieldNameRoundTrip(b);
    assert !StartsWith("name", BusinessPrefix);
    assert !StartsWith("email", BusinessPrefix);
  }

  function UpdatePayload(p: Profile): Payload {
    var vi := p.vendorInfo;
    Payload(p.name, vi.businessName, vi.businessAddress, vi.businessPhone, vi.businessDescription, vi.businessCategory)
  }

  /** The payload is determined by the name and the five business members
      alone: two profiles that agree on those send the same payload, whatever
      their email, role, identifier or verification flag; so an email edit
      never reaches the server. */
  lemma PayloadSendsOnlyEditableMembers(p: Profile, q: Profile, v: string)
    requires Get(p, Person(NameField)) == Get(q, Person(NameField))
    requires forall b :: Get(p, Business(b)) == Get(q, Business(b))
    ensures UpdatePayload(p) == UpdatePayload(q)
    ensures UpdatePayload(HandleChange(Some(p), "email", v).value) == UpdatePayload(p)
  {
    assert Get(p, Business(BusinessName)) == Get(q, Business(BusinessName));
    assert Get(p, Business(BusinessAddress)) == Get(q, Business(BusinessAddress));
    assert Get(p, Business(BusinessPhone)) == Get(q, Business(BusinessPhone));
    assert Get(p, Business(BusinessDescription)) == Get(q, Business(BusinessDescription));
    assert Get(p, Business(BusinessCategory)) == Get(q, Business(BusinessCategory));
    FormNamesRoute(BusinessName);
  }

  /** The payload carries each edited value back: whatever the form shows for
      the name and business members is exactly what is sent. */
  lemma PayloadReflectsForm(p: Profile)
    ensures var pl := UpdatePayload(p);
            && pl.name == Get(p, Person(NameField))
            && pl.businessName == Get(p, Business(BusinessName))
            && pl.businessAddress == Get(p, Business(BusinessAddress))
            && pl.businessPhone == Get(p, Business(BusinessPhone))
            && pl.businessDescription == Get(p, Business(BusinessDescription))
            && pl.businessCategory == Get(p, Business(BusinessCategory))
  {
  }

  /** `fetchProfile` settling: success loads the profile and clears the error,
      failure keeps what was there and sets the error; loading ends either way.
      The call goes through the shared client, so a 401 also drops the token
      and sends the window to the login page. */
  function FetchProfile(s: Screen, store: Store, answer: ApiClient.Outcome<Profile>): (r: Fetched)
    ensures !r.screen.loading
    ensures answer.Fulfilled? ==> r.screen.profile == Some(answer.response) && r.screen.error == None
    ensures answer.Rejected? ==> r.screen.profile == s.profile && r.screen.error == Some(FetchFailed)
    ensures ApiClient.Unauthorized(answer) ==> TokenKey !in r.store && r.redirect == Some(ApiClient.LoginPath)
    ensures !ApiClient.Unauthorized(answer) ==> r.store == store && r.redirect == None
    ensures forall k :: k != TokenKey ==> GetItem(r.store, k) == GetItem(store, k)
  {
    var h := ApiClient.OnResponse(store, answer);
    match answer
    case Fulfilled(p) => Fetched(Screen(Some(p), false, None), h.store, h.redirect)
    case Rejected(_) => Fetched(s.(loading := false, error := Some(FetchFailed)), h.store, h.redirect)
  }

  /** `handleSubmit`: with no profile nothing happens at all. Otherwise the
      payload is sent; success replaces the draft by the server's copy and
      clears the error, failure keeps the draft and sets the error; loading
      ends false either way. A 401 also drops the token and redirects. */
  function HandleSubmit(s: Screen, store: Store, answer: ApiClient.Outcome<Profile>): (r: Saved)
    ensures s.profile.None? ==> r == Saved(s, None, None, store, None)
    ensures s.profile.Some? ==> r.request == Some(UpdatePayload(s.profile.value)) && !r.screen.loading
    ensures s.profile.Some? && answer.Fulfilled? ==>
              && r.screen.profile == Some(answer.response) && r.screen.error == None
              && r.toast == Some(ToastSuccess("Profile updated successfully"))
    ensures s.profile.Some? && answer.Rejected? ==>
              && r.screen.profile == s.profile && r.screen.error == Some(UpdateFailed)
              && r.toast == Some(ToastError(UpdateFailed))
    ensures s.profile.Some? && ApiClient.Unauthorized(answer) ==>
              TokenKey !in r.store && r.redirect == Some(ApiClient.LoginPath)
    ensures !(s.profile.Some? && ApiClient.Unauthorized(answer)) ==> r.store == store && r.redirect == None
    ensures forall k :: k != TokenKey ==> GetItem(r.store, k) == GetItem(store, k)
  {
    match s.profile
    case None => Saved(s, None, None, store, None)
    case Some(p) =>
      var payload := Some(UpdatePayload(p));
      var h := ApiClient.OnResponse(store, answer);
      match answer
      case Fulfilled(updated) =>
        Saved(Screen(Some(updated), false, None), payload, Some(ToastSuccess("Profile updated successfully")),
              h.store, h.redirect)
      case Rejected(_) =>
        Saved(s.(loading := false, error := Some(UpdateFailed)), payload, Some(ToastError(UpdateFailed)),
              h.store, h.redirect)
  }

  /** Before the profile has loaded, typing changes nothing and saving sends
      nothing. */
  lemma NothingBeforeLoad(name: string, value: string, store: Store, answer: ApiClient.Outcome<Profile>)
    ensures Initial().loading && Initial().profile == None
    ensures HandleChange(Initial().profile, name, value) == None
    ensures HandleSubmit(Initial(), store, answer).request == None
    ensures HandleSubmit(Initial(), store, answer).store == store
  {
  }

  /** A failed save keeps the draft, so saving again at once sends exactly the
      same payload. */
  lemma RetryAfterFailedSaveSendsSamePayload(s: Screen, store: Store, first: ApiClient.Outcome<Profile>,
                                             store': Store, second: ApiClient.Outcome<Profile>)
    requires s.profile.Some? && first.Rejected?
    ensures var r := HandleSubmit(s, store, first);
            && r.request == Some(UpdatePayload(s.profile.value))
            && HandleSubmit(r.screen, store', second).request == r.request
  {
  }

  /** A 401 on loading the profile signs the caller out: the token is gone,
      the window goes to the login page, and the screen keeps what it showed. */
  lemma UnauthorizedFetchSignsOut(s: Screen, store: Store)
    ensures var r := FetchProfile(s, store, ApiClient.Rejected(Some(401)));
            && !AuthService.IsAuthenticated(r.store)
            && r.redirect == Some(ApiClient.LoginPath)
            && r.screen.profile == s.profile
  {
  }

  /** Typing into the form, one event after another. */
  function ApplyEdits(p: Option<Profile>, edits: seq<Edit>): Option<Profile>
    decreases |edits|
  {
    if edits == [] then p else ApplyEdits(HandleChange(p, edits[0].name, edits[0].value), edits[1..])
  }

  /** No sequence of edits touches what only the server sets: the identifier,
      role, verification flag and timestamps change only when a save adopts
      the server's copy. Edits also never conjure a profile before one has
      loaded. */
  lemma {:induction false} EditsKeepServerOwnedMembers(p: Option<Profile>, edits: seq<Edit>)
    ensures ApplyEdits(p, edits).Some? <==> p.Some?
    ensures p.Some? ==>
              var q := ApplyEdits(p, edits).value;
              && q.id == p.value.id && q.role == p.value.role
              && q.vendorInfo.isVerified == p.value.vendorInfo.isVerified
              && q.createdAt == p.value.createdAt && q.updatedAt == p.value.updatedAt
    decreases |edits|
  {
    if edits != [] {
      EditsKeepServerOwnedMembers(HandleChange(p, edits[0].name, edits[0].value), edits[1..]);
    }
  }
}
