/** AuthContext.tsx: the signed-in user and token, kept in component state
    and mirrored into two storage keys. `JSON.stringify` and `JSON.parse`
    are the parameters `serialize` and `parse`; a parse that throws is
    `None`. */
module Session {
  import opened Common
  import opened Web

  /** types/index.ts: User */
  datatype User = User(id: string, username: string, email: string)

  const TokenKey: string := "token"
  const UserKey: string := "user"

  /** `getInitialToken`: the stored token, whatever it is. */
  function InitialToken(storage: map<string, string>): (t: Option<string>)
    ensures t.Some? <==> TokenKey in storage
    ensures t.Some? ==> t.value == storage[TokenKey]
  {
    if TokenKey in storage then Some(storage[TokenKey]) else None
  }

  /** A stored user text worth parsing: not empty and not the text of
      `undefined` or `null`. */
  predicate Parseable(stored: string) {
    stored != [] && stored != "undefined" && stored != "null"
  }

  /** `getInitialUser`: the parsed stored user, or nothing. */
  function InitialUser(storage: map<string, string>, parse: string -> Option<User>): Option<User> {
    if UserKey in storage && Parseable(storage[UserKey]) then parse(storage[UserKey]) else None
  }

  /** Storage after start-up: a stored user that fails to parse is removed,
      and nothing else is touched. */
  function StorageAfterInit(storage: map<string, string>, parse: string -> Option<User>): map<string, string> {
    if UserKey in storage && Parseable(storage[UserKey]) && parse(storage[UserKey]).None?
    then storage - {UserKey}
    else storage
  }

  /** Start-up cases: no user without a parseable stored text; a parse
      failure drops the `user` key alone, so the token (and with it the
      signed-in flag) survives a corrupt user. */
  lemma InitialState(storage: map<string, string>, parse: string -> Option<User>)
    ensures UserKey !in storage || !Parseable(storage[UserKey]) ==>
      InitialUser(storage, parse) == None && StorageAfterInit(storage, parse) == storage
    ensures UserKey in storage && Parseable(storage[UserKey]) && parse(storage[UserKey]).None? ==>
      && InitialUser(storage, parse) == None
      && StorageAfterInit(storage, parse) == storage - {UserKey}
      && InitialToken(StorageAfterInit(storage, parse)) == InitialToken(storage)
    ensures UserKey in storage && Parseable(storage[UserKey]) && parse(storage[UserKey]).Some? ==>
      InitialUser(storage, parse) == parse(storage[UserKey]) && StorageAfterInit(storage, parse) == storage
  {
  }

  /** Storage after `login`. */
  function LoggedIn(storage: map<string, string>, token: string, userText: string): (s: map<string, string>)
    ensures s.Keys == storage.Keys + {TokenKey, UserKey}
    ensures s[TokenKey] == token && s[UserKey] == userText
    ensures forall k :: k in storage && k != TokenKey && k != UserKey ==> s[k] == storage[k]
  {
    storage[TokenKey := token][UserKey := userText]
  }

  /** Storage after `logout`, and after a 401 response. */
  function LoggedOut(storage: map<string, string>): (s: map<string, string>)
    ensures TokenKey !in s && UserKey !in s
    ensures forall k :: k in storage && k != TokenKey && k != UserKey ==> k in s && s[k] == storage[k]
    ensures s.Keys <= storage.Keys
  {
    storage - {TokenKey, UserKey}
  }

  /** Clearing twice is clearing once. */
  lemma LoggedOutIdempotent(storage: map<string, string>)
    ensures LoggedOut(LoggedOut(storage)) == LoggedOut(storage)
  {
  }

  /** `!!token`: a token that is present and not empty. */
  predicate SignedIn(token: Option<string>) {
    token.Some? && token.value != []
  }

  /** A session written by `login` comes back whole on the next start-up,
      provided the user's JSON text parses back to the user (an object's
      JSON text is never empty, `undefined` or `null`). */
  lemma {:induction false} LoginSurvivesReload(storage: map<string, string>, token: string, u: User,
                                              serialize: User -> string, parse: string -> Option<User>)
    requires parse(serialize(u)) == Some(u)
    requires Parseable(serialize(u))
    ensures InitialToken(StorageAfterInit(LoggedIn(storage, token, serialize(u)), parse)) == Some(token)
    ensures InitialUser(LoggedIn(storage, token, serialize(u)), parse) == Some(u)
    ensures StorageAfterInit(LoggedIn(storage, token, serialize(u)), parse) == LoggedIn(storage, token, serialize(u))
  {
    var s := LoggedIn(storage, token, serialize(u));
    assert s[UserKey] == serialize(u);
  }

  /** A corrupt stored user next to a valid token: the token is kept and
      the session counts as signed in, with no user. */
  lemma SignedInWithoutUser(parse: string -> Option<User>)
    requires parse("{broken").None?
    ensures var storage := map[TokenKey := "abc", UserKey := "{broken"];
      && InitialUser(storage, parse) == None
      && StorageAfterInit(storage, parse) == map[TokenKey := "abc"]
      && SignedIn(InitialToken(StorageAfterInit(storage, parse)))
  {
    var storage := map[TokenKey := "abc", UserKey := "{broken"];
    assert TokenKey != UserKey;
    assert Parseable(storage[UserKey]);
    assert StorageAfterInit(storage, parse) == map[TokenKey := "abc"];
  }

  /** The `AuthProvider` state. */
  class AuthStore {
    const browser: Browser
    var token: Option<string>
    var user: Option<User>

    /** Mounting the provider: both initialisers read storage once; the
        user's runs first and may remove the `user` key. */
    constructor (browser: Browser, parse: string -> Option<User>)
      modifies browser
      ensures this.browser == browser
      ensures user == InitialUser(old(browser.storage), parse)
      ensures token == InitialToken(old(browser.storage))
      ensures browser.storage == StorageAfterInit(old(browser.storage), parse)
      ensures browser.location == old(browser.location) && browser.toasts == old(browser.toasts)
      ensures browser.requests == old(browser.requests) && browser.clipboard == old(browser.clipboard)
    {
      this.browser := browser;
      var stored := browser.GetItem(UserKey);
      var initialUser: Option<User> := None;
      if stored.Some? && Parseable(stored.value) {
        initialUser := parse(stored.value);
        if initialUser.None? {
          browser.RemoveItem(UserKey);
        }
      }
      user := initialUser;
      token := browser.GetItem(TokenKey);
      assert TokenKey != UserKey;
    }

    /** `isAuthenticated` */
    predicate IsAuthenticated()
      reads this
    {
      SignedIn(token)
    }

    /** `login`: both keys written, both state values set. */
    method Login(newToken: string, newUser: User, serialize: User -> string)
      modifies this, browser
      ensures browser.storage == LoggedIn(old(browser.storage), newToken, serialize(newUser))
      ensures token == Some(newToken) && user == Some(newUser)
      ensures IsAuthenticated() <==> newToken != []
      ensures browser.location == old(browser.location) && browser.toasts == old(browser.toasts)
      ensures browser.requests == old(browser.requests) && browser.clipboard == old(browser.clipboard)
    {
      browser.SetItem(TokenKey, newToken);
      browser.SetItem(UserKey, serialize(newUser));
      token := Some(newToken);
      user := Some(newUser);
    }

    /** `logout`: both keys removed, both state values cleared. */
    method Logout()
      modifies this, browser
      ensures browser.storage == LoggedOut(old(browser.storage))
      ensures token == None && user == None && !IsAuthenticated()
      ensures browser.location == old(browser.location) && browser.toasts == old(browser.toasts)
      ensures browser.requests == old(browser.requests) && browser.clipboard == old(browser.clipboard)
    {
      browser.RemoveItem(TokenKey);
      browser.RemoveItem(UserKey);
      token := None;
      user := None;
    }
  }
}
