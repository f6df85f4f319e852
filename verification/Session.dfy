/**
 * The client-side session: `localStorage` as a finite map from keys to
 * strings, the session operations of the API service (src/service/apiService.ts)
 * and the route guard (src/components/PrivateRoute.tsx).
 */
module Session {
  import opened Wrappers
  import opened JsValue

  type Store = map<string, string>

  const TokenKey: string := "userToken"
  const UserKey: string := "userData"

  /** `localStorage.getItem(k)`, `None` standing for `null`. */
  function GetItem(st: Store, k: string): Option<string> {
    if k in st then Some(st[k]) else None
  }

  /** `!!localStorage.getItem(k)`: the key is present and its text is not empty. */
  predicate Filled(st: Store, k: string) {
    k in st && st[k] != ""
  }

  /** A router navigation request. */
  datatype Navigation = Navigation(path: string, replace: bool)

  const ToLogin: Navigation := Navigation("/", true)

  // ---------------------------------------------------------------------------
  // PrivateRoute.tsx

  /** `isLoggedIn`: both the token and the user snapshot are present and non-empty. */
  predicate IsLoggedIn(st: Store) {
    Filled(st, TokenKey) && Filled(st, UserKey)
  }

  /** What the guard does for one render: show the protected children, or render nothing and redirect. */
  datatype GuardDecision = GuardDecision(renderChildren: bool, redirect: Option<Navigation>)

  /** The protected route reads the store (it never writes it) and decides. */
  function Guard(st: Store): (d: GuardDecision)
    ensures d.renderChildren <==>
      (TokenKey in st && UserKey in st && |st[TokenKey]| > 0 && |st[UserKey]| > 0)
    ensures d.redirect.Some? <==> !d.renderChildren
    ensures d.redirect.Some? ==> d.redirect.value == Navigation("/", true)
  {
    if IsLoggedIn(st) then GuardDecision(true, None) else GuardDecision(false, Some(ToLogin))
  }

  /** The snapshot is never parsed: any two non-empty snapshots get the same decision. */
  lemma GuardIgnoresUserContent(st: Store, u1: string, u2: string)
    requires u1 != "" && u2 != ""
    ensures Guard(st[UserKey := u1]) == Guard(st[UserKey := u2])
  {
  }

  // ---------------------------------------------------------------------------
  // apiService.ts

  /** `isAuthenticated`: only the token is consulted. */
  predicate IsAuthenticated(st: Store) {
    Filled(st, TokenKey)
  }

  /** The guard is stricter than `isAuthenticated`. */
  lemma LoggedInIsAuthenticated(st: Store)
    ensures Guard(st).renderChildren ==> IsAuthenticated(st)
  {
  }

  /** ... and strictly so: a token without a user snapshot is authenticated but kept out by the guard. */
  lemma AuthenticatedNotLoggedIn()
    ensures var st := map[TokenKey := "t"];
      IsAuthenticated(st) && !Guard(st).renderChildren
  {
    var st := map[TokenKey := "t"];
    assert UserKey !in st;
  }

  /** `logout`: removes the token and the snapshot. */
  function Logout(st: Store): (r: Store)
    ensures TokenKey !in r && UserKey !in r
    ensures forall k :: k != TokenKey && k != UserKey ==> (k in r <==> k in st)
    ensures forall k :: k in r ==> r[k] == st[k]
  {
    st - {TokenKey, UserKey}
  }

  lemma LogoutEndsSession(st: Store)
    ensures !IsAuthenticated(Logout(st)) && !Guard(Logout(st)).renderChildren
  {
  }

  /** The outcome of the HTTP call: the promise rejected, or it resolved with `response.data`. */
  datatype HttpReply = Rejected(reason: Value) | Answered(data: Value)

  /** `login(email, password)`: the new store, and the resolved body or the rethrown rejection. */
  datatype LoginStep = LoginStep(store: Store, result: Result<Value, Value>)

  /**
   * `login`: on a response whose body carries a truthy `token`, stores
   * `String(token)` under `userToken` and `JSON.stringify(user)` under
   * `userData`; otherwise the store is left alone. The body is returned, a
   * rejection rethrown.
   */
  function ApiLogin(st: Store, reply: HttpReply): (r: LoginStep)
    ensures reply.Rejected? ==> r == LoginStep(st, Failure(reply.reason))
    ensures reply.Answered? ==> r.result == Success(reply.data)
    ensures reply.Answered? && Truthy(reply.data) && Truthy(Get(reply.data, "token")) ==>
      && r.store.Keys == st.Keys + {TokenKey, UserKey}
      && r.store[TokenKey] == ToJsString(Get(reply.data, "token"))
      && r.store[UserKey] == StoredJson(Get(reply.data, "user"))
      && forall k :: k in st && k != TokenKey && k != UserKey ==> r.store[k] == st[k]
    ensures !(reply.Answered? && Truthy(reply.data) && Truthy(Get(reply.data, "token"))) ==> r.store == st
  {
    match reply
    case Rejected(reason) => LoginStep(st, Failure(reason))
    case Answered(data) =>
      if Truthy(data) && Truthy(Get(data, "token")) then
        var token := ToJsString(Get(data, "token"));
        var user := StoredJson(Get(data, "user"));
        LoginStep(st[TokenKey := token][UserKey := user], Success(data))
      else LoginStep(st, Success(data))
  }

  /** A login answered with a non-empty string token passes both `isAuthenticated` and the guard. */
  lemma LoginStartsSession(st: Store, data: Value, token: string)
    requires Get(data, "token") == Str(token) && token != ""
    ensures IsAuthenticated(ApiLogin(st, Answered(data)).store)
    ensures Guard(ApiLogin(st, Answered(data)).store).renderChildren
  {
  }

  /** `getCurrentUser`: the stored snapshot text to be parsed, or `null` when there is none. */
  function CurrentUserText(st: Store): (r: Option<string>)
    ensures r.None? <==> !Filled(st, UserKey)
    ensures r.Some? ==> UserKey in st && r.value == st[UserKey]
  {
    if Filled(st, UserKey) then Some(st[UserKey]) else None
  }
}
