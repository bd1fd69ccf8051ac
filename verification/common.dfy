/** Shared vocabulary: optional values, the browser's key/value storage and the
    few string operations the screens rely on. */
module Common {

  datatype Option<+T> = None | Some(value: T) {
    function GetOr(default: T): T {
      match this
      case Some(v) => v
      case None => default
    }
  }

  /** A notification shown to the user. */
  datatype Toast = ToastSuccess(message: string) | ToastError(message: string)

  /** `localStorage`: string keys to string values. */
  type Store = map<string, string>

  const TokenKey: string := "token"
  const UserKey: string := "user"

  /** `localStorage.getItem(k)`: null when the key is absent. */
  function GetItem(store: Store, k: string): Option<string> {
    if k in store then Some(store[k]) else None
  }

  /** JavaScript truthiness of a nullable string: present and non-empty. */
  predicate Truthy(s: Option<string>) {
    s.Some? && s.value != ""
  }

  predicate StartsWith(s: string, prefix: string) {
    |prefix| <= |s| && s[..|prefix|] == prefix
  }

  /** Everything in `s` up to (not including) its first '.', or all of `s`. */
  function UpToDot(s: string): (r: string)
    ensures |r| <= |s| && r == s[..|r|]
    ensures '.' !in r
    ensures |r| < |s| ==> s[|r|] == '.'
  {
    if s == [] || s[0] == '.' then [] else [s[0]] + UpToDot(s[1..])
  }
}
