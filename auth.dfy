/** The auth slice: the session (`user`, `isLoading`) and its mirror in storage. */
module Auth {
  import opened Wrappers
  import opened Entities
  import opened Storage

  const SessionKey := "@user_session"

  datatype AuthState = AuthState(user: Option<User>, isLoading: bool)

  /** The three transitions of the slice. */
  datatype AuthAction =
    | LoginSuccess(user: User)
    | LogoutUser
    | LoadUserFulfilled(payload: Option<User>)

  /** Before any action: no user, and loading until the stored session is checked. */
  const Initial := AuthState(None, true)

  function Reduce(s: AuthState, a: AuthAction): (r: AuthState)
    ensures !r.isLoading
    ensures a.LoginSuccess? ==> r.user == Some(a.user)
    ensures a.LogoutUser? ==> r.user == None
    ensures a.LoadUserFulfilled? ==> r.user == a.payload
  {
    match a
    case LoginSuccess(u) => AuthState(Some(u), false)
    case LogoutUser => AuthState(None, false)
    case LoadUserFulfilled(p) => AuthState(p, false)
  }

  /** The state after a sequence of actions, first to last. */
  function Run(s: AuthState, actions: seq<AuthAction>): AuthState
    decreases |actions|
  {
    if actions == [] then s else Run(Reduce(s, actions[0]), actions[1..])
  }

  /** The storage effect of each action: set on login, removed on logout, untouched on load. */
  function Persist(entries: map<string, Blob>, a: AuthAction): (r: map<string, Blob>)
    ensures a.LoginSuccess? ==> r == entries[SessionKey := Stringify(Session(a.user))]
    ensures a.LogoutUser? ==> SessionKey !in r && r == entries - {SessionKey}
    ensures a.LoadUserFulfilled? ==> r == entries
  {
    match a
    case LoginSuccess(u) => entries[SessionKey := Stringify(Session(u))]
    case LogoutUser => entries - {SessionKey}
    case LoadUserFulfilled(_) => entries
  }

  /** What `loadUser` resolves to, given what `getItem` returned. */
  function SessionPayload(stored: Option<Blob>): (user: Option<User>)
    ensures stored.None? ==> user == None
    ensures stored.Some? && Parse(stored.value).None? ==> user == None
    ensures forall u :: stored == Some(Stringify(Session(u))) ==> user == Some(u)
  {
    match stored
    case None => None
    case Some(blob) =>
      match Parse(blob)
      case Some(Session(u)) => Some(u)
      case _ => None
  }

  /** The session in memory is what a reload from storage would give. */
  predicate Mirrored(s: AuthState, entries: map<string, Blob>) {
    SessionPayload(Lookup(entries, SessionKey)) == s.user
  }

  class AuthStore {
    var user: Option<User>
    var isLoading: bool
    const storage: KeyValueStore

    function State(): AuthState
      reads this
    {
      AuthState(user, isLoading)
    }

    constructor (storage: KeyValueStore)
      ensures State() == Initial && this.storage == storage
    {
      user := None;
      isLoading := true;
      this.storage := storage;
    }

    method LoginSuccess(u: User)
      modifies this, storage
      ensures State() == Reduce(old(State()), AuthAction.LoginSuccess(u))
      ensures storage.entries == Persist(old(storage.entries), AuthAction.LoginSuccess(u))
    {
      user := Some(u);
      isLoading := false;
      storage.SetItem(SessionKey, Stringify(Session(u)));
    }

    method LogoutUser()
      modifies this, storage
      ensures State() == Reduce(old(State()), AuthAction.LogoutUser)
      ensures storage.entries == Persist(old(storage.entries), AuthAction.LogoutUser)
    {
      user := None;
      isLoading := false;
      storage.RemoveItem(SessionKey);
    }

    /** The `loadUser` thunk: the stored user, or none when missing or unparseable. */
    method LoadUser() returns (payload: Option<User>)
      ensures payload == SessionPayload(Lookup(storage.entries, SessionKey))
    {
      var stored := storage.GetItem(SessionKey);
      payload := SessionPayload(stored);
    }

    method LoadUserFulfilled(payload: Option<User>)
      modifies this
      ensures State() == Reduce(old(State()), AuthAction.LoadUserFulfilled(payload))
    {
      user := payload;
      isLoading := false;
    }
  }

  /** Loading is true exactly until the first action; no transition turns it back on. */
  lemma {:induction false} LoadingUntilFirstAction(s: AuthState, actions: seq<AuthAction>)
    ensures actions != [] ==> !Run(s, actions).isLoading
    ensures actions == [] ==> Run(s, actions) == s
    decreases |actions|
  {
    if |actions| > 1 {
      LoadingUntilFirstAction(Reduce(s, actions[0]), actions[1..]);
    }
  }

  lemma InitialIsLoadingOnlyBeforeActions(actions: seq<AuthAction>)
    ensures Run(Initial, actions).isLoading <==> actions == []
  {
    LoadingUntilFirstAction(Initial, actions);
  }

  /** Login and logout keep storage mirrored; so does fulfilling with what was loaded. */
  lemma ActionsKeepMirror(s: AuthState, entries: map<string, Blob>, a: AuthAction)
    requires a.LoadUserFulfilled? ==> a.payload == SessionPayload(Lookup(entries, SessionKey))
    ensures Mirrored(Reduce(s, a), Persist(entries, a))
  {
  }

  /** Mirroring holds along any run that starts from a hydrated session. */
  lemma {:induction false} RunKeepsMirror(s: AuthState, entries: map<string, Blob>, actions: seq<AuthAction>)
    requires Mirrored(s, entries)
    requires forall i :: 0 <= i < |actions| ==> !actions[i].LoadUserFulfilled?
    ensures Mirrored(Run(s, actions), RunPersist(entries, actions))
    decreases |actions|
  {
    if actions != [] {
      ActionsKeepMirror(s, entries, actions[0]);
      RunKeepsMirror(Reduce(s, actions[0]), Persist(entries, actions[0]), actions[1..]);
    }
  }

  function RunPersist(entries: map<string, Blob>, actions: seq<AuthAction>): map<string, Blob>
    decreases |actions|
  {
    if actions == [] then entries else RunPersist(Persist(entries, actions[0]), actions[1..])
  }

  /** Under the abstract JSON encoding, a login followed by `loadUser` reads the user back. */
  lemma LoginThenLoadReadsBack(entries: map<string, Blob>, u: User)
    ensures SessionPayload(Lookup(Persist(entries, AuthAction.LoginSuccess(u)), SessionKey)) == Some(u)
  {
  }

  lemma LogoutThenLoadReadsNothing(entries: map<string, Blob>)
    ensures SessionPayload(Lookup(Persist(entries, AuthAction.LogoutUser), SessionKey)) == None
  {
  }
}
