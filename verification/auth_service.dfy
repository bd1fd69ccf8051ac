/** The session store: login, registration and logout over the two storage
    entries `token` and `user`, and the read-only queries on them. */
module AuthService {
  import opened Common
  import ApiClient

  /** The identity record the server returns, kept opaque: `members` is the
      text of its JSON members. */
  datatype User = User(members: string)

  datatype AuthResponse = AuthResponse(token: string, user: User)

  datatype Credentials = Credentials(email: string, password: string)

  /** Registration input; the description is the one optional member. */
  datatype RegisterVendorInfo = RegisterVendorInfo(
    businessName: string,
    businessAddress: string,
    businessPhone: string,
    businessDescription: Option<string>,
    businessCategory: string)

  datatype RegisterData = RegisterData(
    name: string, email: string, password: string, phone: string, role: string,
    vendorInfo: RegisterVendorInfo)

  /** What `register` posts: the same data with the description always present. */
  datatype RegisterBody = RegisterBody(
    name: string, email: string, password: string, phone: string, role: string,
    businessName: string, businessAddress: string, businessPhone: string,
    businessDescription: string, businessCategory: string)

  /** `getCurrentUser`: nothing stored, the parsed record, or stored text that
      the model cannot read as a record (any text not of the form `{…}`). */
  datatype CurrentUser = Absent | Present(user: User) | Malformed

  /** The result of a call that writes storage: the body it posted, the
      storage afterwards and what the caller receives. */
  datatype Step<+B, +T> = Step(sent: B, store: Store, result: ApiClient.Outcome<T>)

  /** `JSON.stringify` of the identity record. */
  function Stringify(u: User): string {
    "{" + u.members + "}"
  }

  /** `JSON.parse`, modelled only as the inverse of `Stringify`. */
  function ParseUser(s: string): Option<User> {
    if 2 <= |s| && s[0] == '{' && s[|s| - 1] == '}' then Some(User(s[1..|s| - 1])) else None
  }

  /** The stored form of a user reads back as that user, and is never the
      empty (falsy) string. */
  lemma ParseStringify(u: User)
    ensures ParseUser(Stringify(u)) == Some(u)
    ensures Stringify(u) != ""
  {
    var s := Stringify(u);
    assert s[1..|s| - 1] == u.members;
  }

  /** Writes both entries from a server answer. */
  function Persist(store: Store, resp: AuthResponse): Store {
    store[TokenKey := resp.token][UserKey := Stringify(resp.user)]
  }

  /** `login`: the post resolves, then `token` and the serialised `user` are
      written and the answer returned; a rejected post is rethrown with the
      storage untouched. */
  function Login(store: Store, creds: Credentials, answer: ApiClient.Outcome<AuthResponse>): (r: Step<Credentials, AuthResponse>)
    ensures r.sent == creds && r.result == answer
    ensures answer.Fulfilled? ==>
              && GetItem(r.store, TokenKey) == Some(answer.response.token)
              && GetCurrentUser(r.store) == Present(answer.response.user)
              && r.store.Keys == store.Keys + {TokenKey, UserKey}
              && (forall k :: k in store && k != TokenKey && k != UserKey ==> r.store[k] == store[k])
    ensures answer.Rejected? ==> r.store == store
  {
    match answer
    case Fulfilled(resp) =>
      ParseStringify(resp.user);
      Step(creds, Persist(store, resp), answer)
    case Rejected(_) => Step(creds, store, answer)
  }

  /** The body `register` posts: everything the caller gave, with a missing
      description sent as the empty string. */
  function RegisterRequest(data: RegisterData): (b: RegisterBody)
    ensures b.businessDescription == (if data.vendorInfo.businessDescription.Some?
                                      then data.vendorInfo.businessDescription.value else "")
    ensures && b.name == data.name && b.email == data.email && b.password == data.password
            && b.phone == data.phone && b.role == data.role
    ensures && b.businessName == data.vendorInfo.businessName
            && b.businessAddress == data.vendorInfo.businessAddress
            && b.businessPhone == data.vendorInfo.businessPhone
            && b.businessCategory == data.vendorInfo.businessCategory
  {
    var v := data.vendorInfo;
    RegisterBody(data.name, data.email, data.password, data.phone, data.role,
                 v.businessName, v.businessAddress, v.businessPhone,
                 v.businessDescription.GetOr(""), v.businessCategory)
  }

  /** The registration data with the description made explicit, "" standing
      for a missing one. */
  function WithDescription(data: RegisterData): RegisterData {
    data.(vendorInfo := data.vendorInfo.(businessDescription := Some(data.vendorInfo.businessDescription.GetOr(""))))
  }

  /** Two registrations post the same body exactly when they agree once a
      missing description is read as "": nothing else is dropped or merged. */
  lemma RegisterRequestLosesOnlyMissingDescription(a: RegisterData, b: RegisterData)
    ensures RegisterRequest(a) == RegisterRequest(b) <==> WithDescription(a) == WithDescription(b)
  {
    if RegisterRequest(a) == RegisterRequest(b) {
      assert a.vendorInfo.businessDescription.GetOr("") == b.vendorInfo.businessDescription.GetOr("");
      assert WithDescription(a).vendorInfo == WithDescription(b).vendorInfo;
    }
    if WithDescription(a) == WithDescription(b) {
      assert WithDescription(a).vendorInfo.businessDescription == WithDescription(b).vendorInfo.businessDescription;
    }
  }

  /** `register`: like `login`, both entries are written only after the post
      resolves. */
  function Register(store: Store, data: RegisterData, answer: ApiClient.Outcome<AuthResponse>): (r: Step<RegisterBody, AuthResponse>)
    ensures r.sent == RegisterRequest(data) && r.result == answer
    ensures answer.Fulfilled? ==>
              && GetItem(r.store, TokenKey) == Some(answer.response.token)
              && GetCurrentUser(r.store) == Present(answer.response.user)
              && r.store.Keys == store.Keys + {TokenKey, UserKey}
              && (forall k :: k in store && k != TokenKey && k != UserKey ==> r.store[k] == store[k])
    ensures answer.Rejected? ==> r.store == store
  {
    match answer
    case Fulfilled(resp) =>
      ParseStringify(resp.user);
      Step(RegisterRequest(data), Persist(store, resp), answer)
    case Rejected(_) => Step(RegisterRequest(data), store, answer)
  }

  /** `logout`: exactly `token` and `user` disappear. */
  function Logout(store: Store): (r: Store)
    ensures TokenKey !in r && UserKey !in r
    ensures forall k :: k in store && k != TokenKey && k != UserKey ==> k in r && r[k] == store[k]
    ensures r.Keys <= store.Keys
  {
    store - {TokenKey, UserKey}
  }

  function GetCurrentUser(store: Store): (r: CurrentUser)
    ensures !Truthy(GetItem(store, UserKey)) <==> r == Absent
    ensures r.Present? ==> Stringify(r.user) == store[UserKey]
    ensures forall u :: GetItem(store, UserKey) == Some(Stringify(u)) ==> r == Present(u)
    ensures r == Malformed <==> Truthy(GetItem(store, UserKey)) && ParseUser(store[UserKey]).None?
  {
    var text := GetItem(store, UserKey);
    if !Truthy(text) then Absent
    else match ParseUser(text.value)
      case Some(u) =>
        ParseStringify(u);
        Present(u)
      case None => Malformed
  }

  function GetToken(store: Store): (r: Option<string>)
    ensures r.Some? <==> TokenKey in store
    ensures r.Some? ==> r.value == store[TokenKey]
  {
    GetItem(store, TokenKey)
  }

  /** True exactly when a non-empty token is stored; the server is not asked. */
  function IsAuthenticated(store: Store): (b: bool)
    ensures b <==> TokenKey in store && store[TokenKey] != ""
  {
    Truthy(GetToken(store))
  }

  /** The two entries are present together or absent together. */
  predicate SessionConsistent(store: Store) {
    TokenKey in store <==> UserKey in store
  }

  /** After a successful login the caller is authenticated exactly when the
      server's token is non-empty, and the identity reads back unchanged. */
  lemma LoginStartsSession(store: Store, creds: Credentials, resp: AuthResponse)
    ensures var s := Login(store, creds, ApiClient.Fulfilled(resp)).store;
            && (IsAuthenticated(s) <==> resp.token != "")
            && GetCurrentUser(s) == Present(resp.user)
            && SessionConsistent(s)
  {
  }

  /** After logout nobody is authenticated and no user is read back. */
  lemma LogoutEndsSession(store: Store)
    ensures !IsAuthenticated(Logout(store))
    ensures GetCurrentUser(Logout(store)) == Absent
    ensures SessionConsistent(Logout(store))
  {
  }

  /** Login, registration and logout each keep the two entries in step. */
  lemma SessionOperationsKeepConsistency(store: Store, creds: Credentials, data: RegisterData,
                                         answer: ApiClient.Outcome<AuthResponse>)
    requires SessionConsistent(store)
    ensures SessionConsistent(Login(store, creds, answer).store)
    ensures SessionConsistent(Register(store, data, answer).store)
    ensures SessionConsistent(Logout(store))
  {
  }

  /** The 401 handler breaks that pairing: from any signed-in storage it leaves
      a user behind with no token, so the caller is signed out while
      `getCurrentUser` still answers with the old identity. */
  lemma UnauthorizedLeavesStaleUser<T>(store: Store, u: User)
    requires IsAuthenticated(store) && GetCurrentUser(store) == Present(u)
    ensures var h := ApiClient.OnResponse<T>(store, ApiClient.Rejected(Some(401)));
            && !IsAuthenticated(h.store)
            && GetCurrentUser(h.store) == Present(u)
            && !SessionConsistent(h.store)
  {
    var h := ApiClient.OnResponse<T>(store, ApiClient.Rejected(Some(401)));
    assert UserKey in h.store && h.store[UserKey] == store[UserKey];
  }

  /** The request interceptor this service installs on its own client is the
      shared one; it adds the bearer header exactly when `isAuthenticated`
      holds, and otherwise leaves the request alone. */
  lemma InterceptorFollowsIsAuthenticated(store: Store, c: ApiClient.Config)
    requires ApiClient.AuthorizationHeader !in c.headers
    ensures ApiClient.AuthorizationHeader in ApiClient.AttachToken(store, c).headers <==> IsAuthenticated(store)
    ensures IsAuthenticated(store) ==>
              ApiClient.AttachToken(store, c).headers[ApiClient.AuthorizationHeader] == "Bearer " + store[TokenKey]
  {
  }
}
