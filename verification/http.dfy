/** Outbound requests as values. Nothing is sent: a screen step returns the
    requests it would issue, and the server's answer is an input of the next
    step. */
module Http {
  import opened Common

  const ApiBase: string := "http://localhost:3000/api/v1"

  datatype Method = GET | POST | PUT | PATCH | DELETE

  /** A request the screens issue with `fetch`; `authorization` is the header
      they build by hand, `body` whatever the screen sends. */
  datatype Request<+B> = Request(verb: Method, url: string, authorization: string, body: B)

  /** The header the hand-written `fetch` calls build: the template literal
      turns a missing token into the text "null". */
  function RawBearer(store: Store): (h: string)
    ensures TokenKey in store ==> h == "Bearer " + store[TokenKey]
    ensures TokenKey !in store ==> h == "Bearer null"
  {
    "Bearer " + GetItem(store, TokenKey).GetOr("null")
  }
}
