/** The authentication context: the provider's token and user state, the
    storage writes of login and logout, the derived `isAuthenticated` flag
    and the `useAuth` guard. */
module Auth {
  import opened Results
  import opened JsText
  import opened Storage

  datatype User = User(userId: int, email: string, firstName: string, lastName: Option<string>)

  const OutsideProvider := "useAuth must be used within an AuthProvider"

  /** `JSON.stringify(user)`, with the properties in declaration order and
      `last_name` left out when it is undefined. */
  function SerializeUser(u: User): (s: string)
    ensures |s| >= 2 && s[0] == '{' && s[|s| - 1] == '}'
  {
    "{\"user_id\":" + IntToDecimal(u.userId)
    + ",\"email\":" + JsonQuote(u.email)
    + ",\"first_name\":" + JsonQuote(u.firstName)
    + (if u.lastName.Some? then ",\"last_name\":" + JsonQuote(u.lastName.value) else "")
    + "}"
  }

  /** `!!token && !!user`: a non-empty token and a user. A null or empty
      token, or a null user, is falsy. */
  predicate Authenticated(token: Option<string>, user: Option<User>): (r: bool)
    ensures token.None? || token == Some("") || user.None? ==> !r
    ensures r ==> token.Some? && |token.value| > 0 && user.Some?
    ensures token.Some? && token.value != "" && user.Some? ==> r
  {
    token.Some? && token.value != "" && user.Some?
  }

  /** What the provider hands to its consumers. */
  datatype AuthContextValue = AuthContextValue(user: Option<User>, token: Option<string>, isAuthenticated: bool)

  /** `useAuth`: the context value, or an error when there is no provider
      above the caller (the context is `undefined`). */
  function UseAuth(context: Option<AuthContextValue>): (r: Result<AuthContextValue>)
    ensures r.Err? <==> context.None?
    ensures r.Err? ==> r.error == OutsideProvider
    ensures context.Some? ==> r.Ok? && r.value == context.value
  {
    match context
    case None => Err(OutsideProvider)
    case Some(value) => Ok(value)
  }

  /** The storage after `login`: the token, the serialised user and the user
      id in decimal are written, every other key keeps its value. */
  function LoginWrites(items: map<string, string>, newToken: string, newUser: User): (r: map<string, string>)
    ensures r.Keys == items.Keys + {JwtTokenKey, UserKey, UserIdKey}
    ensures r[JwtTokenKey] == newToken && r[UserKey] == SerializeUser(newUser)
    ensures r[UserIdKey] == IntToDecimal(newUser.userId)
    ensures forall k :: k in items && k != JwtTokenKey && k != UserKey && k != UserIdKey ==> r[k] == items[k]
  {
    items[JwtTokenKey := newToken][UserKey := SerializeUser(newUser)][UserIdKey := IntToDecimal(newUser.userId)]
  }

  /** The storage after `logout`: the three keys are gone, every other key
      keeps its value. */
  function LogoutClears(items: map<string, string>): (r: map<string, string>)
    ensures r.Keys == items.Keys - {JwtTokenKey, UserKey, UserIdKey}
    ensures forall k :: k in r ==> r[k] == items[k]
  {
    items - {JwtTokenKey, UserKey, UserIdKey}
  }

  /** Signing out after signing in leaves storage as signing out alone does:
      login writes only the keys logout removes. */
  lemma LogoutUndoesLogin(items: map<string, string>, newToken: string, newUser: User)
    ensures LogoutClears(LoginWrites(items, newToken, newUser)) == LogoutClears(items)
  {
  }

  /** Signing out twice is signing out once. */
  lemma LogoutIdempotent(items: map<string, string>)
    ensures LogoutClears(LogoutClears(items)) == LogoutClears(items)
  {
  }

  /** `AuthProvider`: the `token` and `user` state, and the storage it writes. */
  class AuthProvider {
    var token: Option<string>
    var user: Option<User>
    const storage: LocalStorage

    /** The provider starts signed out, whatever the storage holds. */
    constructor (storage: LocalStorage)
      ensures this.storage == storage
      ensures token.None? && user.None?
      ensures !IsAuthenticated()
    {
      this.storage := storage;
      token := None;
      user := None;
    }

    predicate IsAuthenticated()
      reads this
    {
      Authenticated(token, user)
    }

    /** The value rendered into the context. */
    function Value(): (v: AuthContextValue)
      reads this
      ensures v.user == user && v.token == token
      ensures v.isAuthenticated <==> token.Some? && token.value != "" && user.Some?
    {
      AuthContextValue(user, token, IsAuthenticated())
    }

    /** `login`: the new token and user become the state, and storage gets the
        token, the serialised user and the user id in decimal. */
    method Login(newToken: string, newUser: User)
      modifies this, storage
      ensures token == Some(newToken) && user == Some(newUser)
      ensures storage.items == LoginWrites(old(storage.items), newToken, newUser)
      ensures IsAuthenticated() <==> newToken != ""
    {
      token := Some(newToken);
      user := Some(newUser);
      storage.SetItem(JwtTokenKey, newToken);
      storage.SetItem(UserKey, SerializeUser(newUser));
      storage.SetItem(UserIdKey, IntToDecimal(newUser.userId));
    }

    /** `logout`: the three keys leave storage, every other key stays as it
        was, and token and user become null. */
    method Logout()
      modifies this, storage
      ensures storage.items == LogoutClears(old(storage.items))
      ensures token.None? && user.None?
      ensures !IsAuthenticated()
    {
      storage.RemoveItem(JwtTokenKey);
      storage.RemoveItem(UserKey);
      storage.RemoveItem(UserIdKey);
      token := None;
      user := None;
    }
  }
}
