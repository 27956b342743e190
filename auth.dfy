/** The admin session of the client: the signed-in user, whether the stored token is
    still being looked at, and the token kept in `localStorage` across page loads. */
module Auth {
  import opened Common
  import opened Js
  import Api

  datatype User = User(username: string)

  /** What the session consists of: the browser's storage, the signed-in user and the
      loading flag. */
  datatype Session = Session(stored: map<string, string>, user: Option<User>, loading: bool)

  predicate HasToken(stored: map<string, string>) {
    Api.TokenKey in stored && stored[Api.TokenKey] != ""
  }

  /** A page load: no user yet, still loading. */
  function Initial(stored: map<string, string>): Session {
    Session(stored, None, true)
  }

  /** The mount effect: a truthy stored token signs in the user "admin", without asking
      the server; loading ends either way. */
  function MountSpec(s: Session): Session {
    Session(s.stored, if HasToken(s.stored) then Some(User("admin")) else s.user, false)
  }

  /** `login`: when the request is refused (`token` is None) the error propagates and
      nothing changes; otherwise the returned token is stored and the user is the name
      typed in. */
  function LoginSpec(s: Session, username: string, token: Option<string>): Session {
    match token
    case None => s
    case Some(t) => Session(s.stored[Api.TokenKey := t], Some(User(username)), s.loading)
  }

  /** `logout`: the token is removed and the user cleared. */
  function LogoutSpec(s: Session): Session {
    Session(s.stored - {Api.TokenKey}, None, s.loading)
  }

  /** `isAuthenticated`. */
  predicate IsAuthenticated(s: Session) {
    s.user.Some?
  }

  /** On a fresh page load the admin is signed in exactly when a non-empty token is
      stored, always under the name "admin", and loading has ended. */
  lemma MountSignsInIff(stored: map<string, string>)
    ensures var s := MountSpec(Initial(stored));
      && (IsAuthenticated(s) <==> HasToken(stored))
      && (IsAuthenticated(s) ==> s.user == Some(User("admin")))
      && !s.loading && s.stored == stored
  {
  }

  /** A successful login signs the typed name in and stores the token, leaving every other
      stored item alone; a refused one changes nothing. */
  lemma LoginSpecProps(s: Session, username: string, token: Option<string>)
    ensures token.None? ==> LoginSpec(s, username, token) == s
    ensures token.Some? ==>
      var s' := LoginSpec(s, username, token);
      && IsAuthenticated(s') && s'.user.value.username == username
      && Api.TokenKey in s'.stored && s'.stored[Api.TokenKey] == token.value
      && (forall k :: k != Api.TokenKey ==> (k in s'.stored <==> k in s.stored))
      && (forall k :: k in s.stored && k != Api.TokenKey ==> s'.stored[k] == s.stored[k])
  {
  }

  /** A logout signs out and forgets the token, leaving every other stored item alone. */
  lemma LogoutSpecProps(s: Session)
    ensures var s' := LogoutSpec(s);
      && !IsAuthenticated(s') && !HasToken(s'.stored)
      && (forall k :: k != Api.TokenKey ==> (k in s'.stored <==> k in s.stored))
      && (forall k :: k in s.stored && k != Api.TokenKey ==> s'.stored[k] == s.stored[k])
  {
  }

  /** After a successful login with a non-empty token, every request carries it as a
      bearer token, and a page reload keeps the admin signed in, now under the name
      "admin" whatever name was typed. */
  lemma LoginThenRequestAndReload(s: Session, username: string, t: string, headers: map<string, string>)
    requires t != ""
    ensures var s' := LoginSpec(s, username, Some(t));
      && var h := Api.WithBearer(headers, s'.stored);
      && "Authorization" in h && h["Authorization"] == "Bearer " + t
      && MountSpec(Initial(s'.stored)).user == Some(User("admin"))
  {
    var s' := LoginSpec(s, username, Some(t));
    Api.WithBearerIff(headers, s'.stored);
    MountSignsInIff(s'.stored);
  }

  /** After a logout, requests go out without a bearer token and a page reload does not
      sign anyone in. */
  lemma LogoutThenRequestAndReload(s: Session, headers: map<string, string>)
    ensures var s' := LogoutSpec(s);
      && Api.WithBearer(headers, s'.stored) == headers
      && !IsAuthenticated(MountSpec(Initial(s'.stored)))
  {
    var s' := LogoutSpec(s);
    Api.WithBearerIff(headers, s'.stored);
    MountSignsInIff(s'.stored);
  }

  /** The `AuthProvider` component's state. */
  class AuthProvider {
    var user: Option<User>
    var loading: bool

    /** `useState(null)` and `useState(true)`. */
    constructor ()
      ensures user == None && loading
    {
      user := None;
      loading := true;
    }

    function State(storage: LocalStorage): Session
      reads this, storage
    {
      Session(storage.items, user, loading)
    }

    /** The mount effect. */
    method Mount(storage: LocalStorage)
      modifies this
      ensures State(storage) == MountSpec(old(State(storage)))
    {
      var token := storage.GetItem(Api.TokenKey);
      if token.Some? && token.value != "" {
        user := Some(User("admin"));
      }
      loading := false;
    }

    /** `login(username, password)`: the request it sends, and given what that request
        returned (the token, or None when the server refused the credentials) the new session. */
    method Login(storage: LocalStorage, username: string, password: string, response: Option<string>)
      returns (request: Api.Request, ok: bool)
      modifies this, storage
      ensures request == Api.LoginRequest(username, password)
      ensures ok <==> response.Some?
      ensures State(storage) == LoginSpec(old(State(storage)), username, response)
    {
      request := Api.LoginRequest(username, password);
      ok := false;
      if response.None? {
        return;
      }
      storage.SetItem(Api.TokenKey, response.value);
      user := Some(User(username));
      ok := true;
    }

    /** `logout()`. */
    method Logout(storage: LocalStorage)
      modifies this, storage
      ensures State(storage) == LogoutSpec(old(State(storage)))
    {
      storage.RemoveItem(Api.TokenKey);
      user := None;
    }
  }
}
