/** The registration screen: routing of input names into the draft, the
    password check, the request body, and what a response leaves in storage. */
module RegisterForm {
  import opened Common
  import opened Http
  import opened Vendor
  import AuthService

  datatype VendorInfo = VendorInfo(
    businessName: string,
    businessAddress: string,
    businessPhone: string,
    businessDescription: string,
    businessCategory: string)

  datatype Draft = Draft(
    name: string,
    email: string,
    password: string,
    confirmPassword: string,
    role: string,
    vendorInfo: VendorInfo)

  datatype TopField = Name | Email | Password | ConfirmPassword | Role

  /** Where a change lands: a top-level member or a member of `vendorInfo`. */
  datatype Target = Top(field: TopField) | Business(business: BusinessField)

  /** What `POST /auth/register` carries; the confirmation is not part of it. */
  datatype Body = Body(name: string, email: string, password: string, role: string, vendorInfo: VendorInfo)

  /** The server's answer: success with a token, a non-ok status with the
      `message` of its body ("" when missing), or a thrown error (network,
      unreadable body) with its message. */
  datatype Answer = Ok(token: string) | NotOk(message: string) | Failed(message: string)

  /** The outcome of pressing submit: the body posted (if any), the storage
      afterwards, the toast, and where the view navigated. */
  datatype Submitted = Submitted(request: Option<Body>, store: Store, toast: Toast, navigate: Option<string>)

  const VendorPrefix: string := "vendorInfo."
  const DashboardPath: string := "/dashboard"

  function Initial(): (d: Draft)
    ensures d.role == "vendor"
    ensures d.vendorInfo.businessCategory == "restaurant" && d.vendorInfo.businessCategory in BusinessCategories
    ensures d.password == d.confirmPassword
  {
    Draft("", "", "", "", "vendor", VendorInfo("", "", "", "", "restaurant"))
  }

  function TopName(f: TopField): string {
    match f
    case Name => "name"
    case Email => "email"
    case Password => "password"
    case ConfirmPassword => "confirmPassword"
    case Role => "role"
  }

  function TopNamed(s: string): (r: Option<TopField>)
    ensures r.Some? ==> TopName(r.value) == s
  {
    if s == "name" then Some(Name)
    else if s == "email" then Some(Email)
    else if s == "password" then Some(Password)
    else if s == "confirmPassword" then Some(ConfirmPassword)
    else if s == "role" then Some(Role)
    else None
  }

  /** `vendorInfo.<f>` goes to the business member named by the text between
      the first and second dot; any other name goes to the top-level member of
      that name. Names no input uses land nowhere. */
  function Route(name: string): (r: Option<Target>)
    ensures r.Some? && r.value.Top? ==> name == TopName(r.value.field)
    ensures r.Some? && r.value.Business? ==>
              StartsWith(name, VendorPrefix) && UpToDot(name[|VendorPrefix|..]) == FieldName(r.value.business)
  {
    if StartsWith(name, VendorPrefix) then
      match FieldNamed(UpToDot(name[|VendorPrefix|..]))
      case Some(b) => Some(Business(b))
      case None => None
    else
      match TopNamed(name)
      case Some(f) => Some(Top(f))
      case None => None
  }

  function GetTop(d: Draft, f: TopField): string {
    match f
    case Name => d.name
    case Email => d.email
    case Password => d.password
    case ConfirmPassword => d.confirmPassword
    case Role => d.role
  }

  function GetBusiness(vi: VendorInfo, b: BusinessField): string {
    match b
    case BusinessName => vi.businessName
    case BusinessAddress => vi.businessAddress
    case BusinessPhone => vi.businessPhone
    case BusinessDescription => vi.businessDescription
    case BusinessCategory => vi.businessCategory
  }

  function Get(d: Draft, t: Target): string {
    match t
    case Top(f) => GetTop(d, f)
    case Business(b) => GetBusiness(d.vendorInfo, b)
  }

  function SetTop(d: Draft, f: TopField, v: string): (r: Draft)
    ensures GetTop(r, f) == v && r.vendorInfo == d.vendorInfo
    ensures forall g :: g != f ==> GetTop(r, g) == GetTop(d, g)
  {
    match f
    case Name => d.(name := v)
    case Email => d.(email := v)
    case Password => d.(password := v)
    case ConfirmPassword => d.(confirmPassword := v)
    case Role => d.(role := v)
  }

  function SetBusiness(vi: VendorInfo, b: BusinessField, v: string): (r: VendorInfo)
    ensures GetBusiness(r, b) == v
    ensures forall c :: c != b ==> GetBusiness(r, c) == GetBusiness(vi, c)
  {
    match b
    case BusinessName => vi.(businessName := v)
    case BusinessAddress => vi.(businessAddress := v)
    case BusinessPhone => vi.(businessPhone := v)
    case BusinessDescription => vi.(businessDescription := v)
    case BusinessCategory => vi.(businessCategory := v)
  }

  function Set(d: Draft, t: Target, v: string): (r: Draft)
    ensures Get(r, t) == v
    ensures forall u :: u != t ==> Get(r, u) == Get(d, u)
  {
    match t
    case Top(f) => SetTop(d, f, v)
    case Business(b) =>
      var r := d.(vendorInfo := SetBusiness(d.vendorInfo, b, v));
      assert forall g :: GetTop(r, g) == GetTop(d, g);
      r
  }

  /** `handleChange`: the routed member takes the new value and every other
      member keeps its value. */
  function HandleChange(d: Draft, name: string, value: string): (r: Draft)
    ensures Route(name).Some? ==> Get(r, Route(name).value) == value
    ensures Route(name).Some? ==> forall t :: t != Route(name).value ==> Get(r, t) == Get(d, t)
    ensures Route(name).None? ==> r == d
  {
    match Route(name)
    case Some(t) => Set(d, t, value)
    case None => d
  }

  /** Every `vendorInfo.<f>` input reaches the business member `f`. */
  lemma {:induction false} VendorNamesRoute(b: BusinessField)
    ensures Route(VendorPrefix + FieldName(b)) == Some(Business(b))
  {
    var n := VendorPrefix + FieldName(b);
    assert StartsWith(n, VendorPrefix) by { assert n[..|VendorPrefix|] == VendorPrefix; }
    assert n[|VendorPrefix|..] == FieldName(b);
    FieldNameRoundTrip(b);
    UpToDotWhole(FieldName(b));
  }

  /** Every top-level input reaches its own top-level member. */
  lemma TopNamesRoute(f: TopField)
    ensures Route(TopName(f)) == Some(Top(f))
  {
    assert TopName(f)[0] != VendorPrefix[0];
    match f
    case Name =>
    case Email =>
    case Password =>
    case ConfirmPassword =>
    case Role =>
  }

  lemma {:induction false} UpToDotWhole(s: string)
    requires '.' !in s
    ensures UpToDot(s) == s
  {
    if s != [] {
      assert '.' !in s[1..];
      UpToDotWhole(s[1..]);
    }
  }

  function RequestBody(d: Draft): (b: Body)
    ensures b.name == d.name && b.email == d.email && b.password == d.password
    ensures b.role == d.role && b.vendorInfo == d.vendorInfo
  {
    Body(d.name, d.email, d.password, d.role, d.vendorInfo)
  }

  /** The confirmation never reaches the server: drafts that differ only in it
      post the same body. */
  lemma BodyIgnoresConfirmation(d: Draft, v: string)
    ensures RequestBody(d.(confirmPassword := v)) == RequestBody(d)
  {
  }

  /** `handleSubmit`. A mismatched confirmation stops before any request. A
      non-ok answer or a thrown error shows its message (or a fallback) and
      stores nothing. Success stores only `token` and goes to the dashboard. */
  function HandleSubmit(d: Draft, store: Store, answer: Answer): (r: Submitted)
    ensures d.password != d.confirmPassword ==>
              r == Submitted(None, store, ToastError("Passwords do not match"), None)
    ensures d.password == d.confirmPassword ==> r.request == Some(RequestBody(d))
    ensures d.password == d.confirmPassword && answer.Ok? ==>
              && r.store == store[TokenKey := answer.token]
              && r.navigate == Some(DashboardPath)
              && r.toast == ToastSuccess("Registration successful")
    ensures d.password == d.confirmPassword && answer.NotOk? ==>
              && r.store == store && r.navigate == None
              && r.toast == ToastError(if answer.message != "" then answer.message else "Registration failed")
    ensures d.password == d.confirmPassword && answer.Failed? ==>
              && r.store == store && r.navigate == None
              && r.toast == ToastError(if answer.message != "" then answer.message
                                       else "Registration failed. Please try again.")
  {
    if d.password != d.confirmPassword then Submitted(None, store, ToastError("Passwords do not match"), None)
    else
      var body := Some(RequestBody(d));
      match answer
      case Ok(token) => Submitted(body, store[TokenKey := token], ToastSuccess("Registration successful"), Some(DashboardPath))
      case NotOk(message) =>
        var thrown := if message != "" then message else "Registration failed";
        Submitted(body, store, ToastError(thrown), None)
      case Failed(message) =>
        Submitted(body, store, ToastError(if message != "" then message else "Registration failed. Please try again."), None)
  }

  /** Unlike the session store's own `register`, this screen writes `token`
      alone: the stored identity is whatever was there before, so from empty
      storage the caller is signed in with no user to read back. */
  lemma ScreenRegistrationStoresOnlyToken(d: Draft, store: Store, token: string)
    requires d.password == d.confirmPassword
    ensures var s := HandleSubmit(d, store, Ok(token)).store;
            && (AuthService.IsAuthenticated(s) <==> token != "")
            && AuthService.GetCurrentUser(s) == AuthService.GetCurrentUser(store)
            && (store == map[] ==> !AuthService.SessionConsistent(s))
  {
    var s := HandleSubmit(d, store, Ok(token)).store;
    assert GetItem(s, UserKey) == GetItem(store, UserKey);
  }
}
