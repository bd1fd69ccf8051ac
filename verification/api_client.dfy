/** The shared HTTP client: a request interceptor that adds the bearer
    credential and a response interceptor that reacts to 401. */
module ApiClient {
  import opened Common
  import Http

  const AuthorizationHeader: string := "Authorization"
  const LoginPath: string := "/login"

  /** The parts of an outgoing request configuration the interceptors see. */
  datatype Config = Config(verb: string, url: string, headers: map<string, string>)

  /** A settled call: either the server's response, or a rejection carrying
      the HTTP status when a response arrived at all. */
  datatype Outcome<+T> = Fulfilled(response: T) | Rejected(status: Option<int>)

  /** What the response interceptor leaves behind: the storage, where the
      window was sent, and the outcome handed on to the caller. */
  datatype Handled<+T> = Handled(store: Store, redirect: Option<string>, outcome: Outcome<T>)

  /** A rejection that carries HTTP status 401. */
  predicate Unauthorized<T>(o: Outcome<T>) {
    o.Rejected? && o.status == Some(401)
  }

  function Bearer(token: string): string {
    "Bearer " + token
  }

  /** Request interceptor: with a truthy stored token the config gains
      `Authorization: Bearer <token>`; otherwise it is returned as it was. */
  function AttachToken(store: Store, c: Config): (r: Config)
    ensures Truthy(GetItem(store, TokenKey)) ==>
              && AuthorizationHeader in r.headers
              && r.headers[AuthorizationHeader] == Bearer(store[TokenKey])
              && r.verb == c.verb && r.url == c.url
              && r.headers.Keys == c.headers.Keys + {AuthorizationHeader}
              && (forall h :: h in c.headers && h != AuthorizationHeader ==> r.headers[h] == c.headers[h])
    ensures !Truthy(GetItem(store, TokenKey)) ==> r == c
  {
    var token := GetItem(store, TokenKey);
    if Truthy(token) then c.(headers := c.headers[AuthorizationHeader := Bearer(token.value)])
    else c
  }

  /** Response interceptor. Successes pass through untouched. Every failure
      is handed on as a rejection; a 401 first removes `token` (and only
      `token`) and sends the window to the login page. */
  function OnResponse<T>(store: Store, o: Outcome<T>): (r: Handled<T>)
    ensures r.outcome == o
    ensures Unauthorized(o) ==>
              && TokenKey !in r.store
              && r.redirect == Some(LoginPath)
              && r.store.Keys == store.Keys - {TokenKey}
              && (forall k :: k in r.store ==> r.store[k] == store[k])
    ensures !Unauthorized(o) ==> r.store == store && r.redirect == None
  {
    match o
    case Fulfilled(_) => Handled(store, None, o)
    case Rejected(status) =>
      if status == Some(401) then Handled(store - {TokenKey}, Some(LoginPath), o)
      else Handled(store, None, o)
  }

  /** The screens that call `fetch` themselves send the same header as this
      interceptor whenever a non-empty token is stored. Otherwise they still
      send one, `Bearer null` or `Bearer `, where the interceptor sends none. */
  lemma RawBearerAgreesWithInterceptor(store: Store, c: Config)
    ensures Truthy(GetItem(store, TokenKey)) ==>
              AttachToken(store, c).headers[AuthorizationHeader] == Http.RawBearer(store)
    ensures TokenKey !in store ==> AttachToken(store, c) == c && Http.RawBearer(store) == "Bearer null"
    ensures GetItem(store, TokenKey) == Some("") ==> AttachToken(store, c) == c && Http.RawBearer(store) == "Bearer "
  {
  }
}
