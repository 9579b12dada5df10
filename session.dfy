/** The session store (src/context/AuthContext.tsx): the credential
    registry, the current identity, the logout timer and the durable `user`
    key. The pure functions below say what each operation does to the whole
    state; the class `SessionStore` performs the same steps in place. */
module Session {
  import opened Types
  import opened Persistence

  const UserKey := "user"
  const InvalidCredentialsMessage := "Invalid email or password"
  const EmailTakenMessage := "User with this email already exists"

  /** The registry the module starts with (`mockUsers`). */
  const SeedUsers: seq<Credential> := [
    Credential("1", "admin", "admin@example.com", "admin123", Admin),
    Credential("2", "customer", "customer@example.com", "customer123", Customer)
  ]

  datatype Outcome = Ok | Err(message: string)

  /** Everything the session store holds, plus the storage map it writes.
      `logoutTimer` is the handle the store remembers; `scheduled` holds the
      handles whose expiry callback is still due; `nextTimer` is the handle
      the runtime hands out next. */
  datatype SessionState = SessionState(
    registry: seq<Credential>,
    user: Option<User>,
    logoutTimer: Option<nat>,
    scheduled: set<nat>,
    nextTimer: nat,
    isLoading: bool,
    error: Option<string>,
    storage: map<string, Value>)

  /** The result of an operation that can fail: the new state and what the caller sees. */
  datatype Step = Step(state: SessionState, outcome: Outcome)

  predicate Matches(c: Credential, email: string, password: string)
  {
    c.email == email && c.password == password
  }

  /** `mockUsers.find(u => u.email === email && u.password === password)`,
      as the index of the record found. */
  function FindCredential(registry: seq<Credential>, email: string, password: string): (r: Option<nat>)
    ensures r.Some? ==> r.value < |registry| && Matches(registry[r.value], email, password)
    ensures r.Some? ==> forall j :: 0 <= j < r.value ==> !Matches(registry[j], email, password)
    ensures r.None? ==> forall j :: 0 <= j < |registry| ==> !Matches(registry[j], email, password)
  {
    if registry == [] then None
    else if Matches(registry[0], email, password) then Some(0)
    else match FindCredential(registry[1..], email, password)
      case None => None
      case Some(i) => Some(i + 1)
  }

  /** `mockUsers.some(u => u.email === email)` */
  function EmailInUse(registry: seq<Credential>, email: string): (r: bool)
    ensures r <==> exists j :: 0 <= j < |registry| && registry[j].email == email
  {
    if registry == [] then false
    else registry[0].email == email || EmailInUse(registry[1..], email)
  }

  /** `isAuthenticated: !!user` */
  predicate IsAuthenticated(s: SessionState)
  {
    s.user.Some?
  }

  /** At most the remembered timer is still due, and handles already handed
      out are below `nextTimer`. */
  ghost predicate TimerInvariant(s: SessionState)
  {
    && (forall t :: t in s.scheduled ==> s.logoutTimer == Some(t))
    && (s.logoutTimer.Some? ==> s.logoutTimer.value < s.nextTimer)
  }

  /** `startLogoutTimer`: cancel the remembered timer, then arm a new one. */
  function StartTimer(s: SessionState): (r: SessionState)
    ensures r.logoutTimer == Some(s.nextTimer) && s.nextTimer in r.scheduled
    ensures r.scheduled <= s.scheduled + {s.nextTimer} && r.nextTimer > s.nextTimer
    ensures r.user == s.user && r.storage == s.storage && r.registry == s.registry
  {
    var cancelled := if s.logoutTimer.Some? then s.scheduled - {s.logoutTimer.value} else s.scheduled;
    s.(logoutTimer := Some(s.nextTimer), scheduled := cancelled + {s.nextTimer}, nextTimer := s.nextTimer + 1)
  }

  /** The state right after the provider mounts, before its effect runs. */
  function Mounted(registry: seq<Credential>, storage: map<string, Value>): SessionState
  {
    SessionState(registry, None, None, {}, 0, true, None, storage)
  }

  /** The startup effect: restore the stored identity and arm its timer. A
      stored value that does not parse aborts the effect before `isLoading`
      is cleared. */
  function Rehydrated(s: SessionState): (r: SessionState)
    ensures r.registry == s.registry && r.storage == s.storage
  {
    if UserKey !in s.storage then s.(isLoading := false)
    else match s.storage[UserKey]
      case UserRecord(u) => StartTimer(s.(user := Some(u))).(isLoading := false)
      case _ => s
  }

  /** `login(email, password)` */
  function LoginStep(s: SessionState, email: string, password: string): (r: Step)
    ensures r.outcome == Ok <==> FindCredential(s.registry, email, password).Some?
    ensures r.state.registry == s.registry && !r.state.isLoading
    ensures r.outcome == Ok ==> IsAuthenticated(r.state) && UserKey in r.state.storage && r.state.error == None
    ensures r.outcome == Ok ==> r.state.logoutTimer == Some(s.nextTimer) && s.nextTimer in r.state.scheduled
    ensures r.outcome.Err? ==> r.state.user == s.user && r.state.storage == s.storage && r.state.scheduled == s.scheduled
  {
    match FindCredential(s.registry, email, password)
    case None =>
      Step(s.(isLoading := false, error := Some(InvalidCredentialsMessage)), Err(InvalidCredentialsMessage))
    case Some(i) =>
      var u := s.registry[i].Identity();
      Step(StartTimer(s.(user := Some(u), storage := s.storage[UserKey := UserRecord(u)])).(isLoading := false, error := None), Ok)
  }

  /** `signup(username, email, password, role)`; `freshId` stands for the random id. */
  function SignupStep(s: SessionState, username: string, email: string, password: string, role: Role, freshId: string): (r: Step)
    ensures r.outcome == Ok <==> !EmailInUse(s.registry, email)
    ensures !r.state.isLoading
    ensures r.outcome == Ok ==> |r.state.registry| == |s.registry| + 1 && r.state.user == Some(User(freshId, username, email, role))
    ensures r.outcome == Ok ==>
      && r.state.storage == s.storage[UserKey := UserRecord(User(freshId, username, email, role))]
      && r.state.error == None
      && r.state.logoutTimer == Some(s.nextTimer) && s.nextTimer in r.state.scheduled
    ensures r.outcome.Err? ==> r.state.registry == s.registry && r.state.user == s.user && r.state.storage == s.storage
  {
    if EmailInUse(s.registry, email) then
      Step(s.(isLoading := false, error := Some(EmailTakenMessage)), Err(EmailTakenMessage))
    else
      var u := User(freshId, username, email, role);
      var s1 := s.(registry := s.registry + [Credential(freshId, username, email, password, role)],
                   user := Some(u), storage := s.storage[UserKey := UserRecord(u)]);
      Step(StartTimer(s1).(isLoading := false, error := None), Ok)
  }

  /** `logout()`: forget the identity, drop the durable key, cancel the remembered timer. */
  function LoggedOut(s: SessionState): (r: SessionState)
    ensures !IsAuthenticated(r) && UserKey !in r.storage
    ensures forall k :: k in r.storage ==> k in s.storage && r.storage[k] == s.storage[k]
    ensures forall k :: k != UserKey && k in s.storage ==> k in r.storage
    ensures r.registry == s.registry && r.scheduled <= s.scheduled
  {
    s.(user := None, storage := s.storage - {UserKey},
       scheduled := if s.logoutTimer.Some? then s.scheduled - {s.logoutTimer.value} else s.scheduled)
  }

  /** The pending timer `t` fires: it is no longer due, and its callback logs out. */
  function Expired(s: SessionState, t: nat): (r: SessionState)
    ensures t !in r.scheduled && !IsAuthenticated(r) && UserKey !in r.storage
  {
    LoggedOut(s.(scheduled := s.scheduled - {t}))
  }

  // ---------------------------------------------------------------------
  // Properties of the session operations

  /** With no record matching both email and password, login fails with the
      fixed message and leaves identity, storage, timer and registry alone. */
  lemma LoginWithoutMatchFails(s: SessionState, email: string, password: string)
    requires forall j :: 0 <= j < |s.registry| ==> !Matches(s.registry[j], email, password)
    ensures var step := LoginStep(s, email, password);
      && step.outcome == Err(InvalidCredentialsMessage)
      && step.state == s.(isLoading := false, error := Some(InvalidCredentialsMessage))
  {
  }

  /** A successful login makes the first matching record, without its
      password, the current identity and stores that same identity. */
  lemma LoginUsesFirstMatch(s: SessionState, email: string, password: string, i: nat)
    requires i < |s.registry| && Matches(s.registry[i], email, password)
    requires forall j :: 0 <= j < i ==> !Matches(s.registry[j], email, password)
    ensures var step := LoginStep(s, email, password);
      && step.outcome == Ok
      && step.state.user == Some(s.registry[i].Identity())
      && step.state.storage == s.storage[UserKey := UserRecord(s.registry[i].Identity())]
      && step.state.registry == s.registry
  {
  }

  /** A login that succeeds has a record matching both fields. */
  lemma LoginOkOnlyWithMatch(s: SessionState, email: string, password: string)
    requires LoginStep(s, email, password).outcome == Ok
    ensures exists j :: 0 <= j < |s.registry| && Matches(s.registry[j], email, password)
  {
    var r := FindCredential(s.registry, email, password);
    assert r.Some?;
    assert Matches(s.registry[r.value], email, password);
  }

  /** The seeded registry: the admin's credentials log in as admin, a wrong password does not. */
  lemma SeededAdminLogin(storage: map<string, Value>)
    ensures var s := Rehydrated(Mounted(SeedUsers, storage));
      && LoginStep(s, "admin@example.com", "admin123").outcome == Ok
      && LoginStep(s, "admin@example.com", "admin123").state.user.value.role == Admin
      && LoginStep(s, "admin@example.com", "wrong").outcome == Err(InvalidCredentialsMessage)
  {
    var s := Rehydrated(Mounted(SeedUsers, storage));
    assert s.registry == SeedUsers;
    LoginUsesFirstMatch(s, "admin@example.com", "admin123", 0);
    LoginWithoutMatchFails(s, "admin@example.com", "wrong");
  }

  /** Signing up with an email already in the registry fails, whatever the
      other fields, and the registry, identity and storage stay as they were. */
  lemma SignupDuplicateFails(s: SessionState, username: string, email: string, password: string, role: Role, freshId: string, j: nat)
    requires j < |s.registry| && s.registry[j].email == email
    ensures var step := SignupStep(s, username, email, password, role, freshId);
      && step.outcome == Err(EmailTakenMessage)
      && step.state == s.(isLoading := false, error := Some(EmailTakenMessage))
  {
  }

  /** A record appended behind records with other emails is the one `find` returns. */
  lemma {:induction false} FindAppendedCredential(registry: seq<Credential>, c: Credential)
    requires forall j :: 0 <= j < |registry| ==> registry[j].email != c.email
    ensures FindCredential(registry + [c], c.email, c.password) == Some(|registry|)
  {
    if registry != [] {
      FindAppendedCredential(registry[1..], c);
      assert (registry + [c])[1..] == registry[1..] + [c];
    }
  }

  /** After a successful signup the registry has grown by exactly the new
      record, and logging in with the same email and password succeeds with
      the same identity and role. */
  lemma SignupThenLogin(s: SessionState, username: string, email: string, password: string, role: Role, freshId: string)
    requires SignupStep(s, username, email, password, role, freshId).outcome == Ok
    ensures var s1 := SignupStep(s, username, email, password, role, freshId).state;
      && s1.registry == s.registry + [Credential(freshId, username, email, password, role)]
      && LoginStep(s1, email, password).outcome == Ok
      && LoginStep(s1, email, password).state.user == Some(User(freshId, username, email, role))
  {
    FindAppendedCredential(s.registry, Credential(freshId, username, email, password, role));
  }

  /** Logging out twice leaves the same state as logging out once. */
  lemma LogoutIdempotent(s: SessionState)
    ensures LoggedOut(LoggedOut(s)) == LoggedOut(s)
    ensures LoggedOut(s).user == None && UserKey !in LoggedOut(s).storage
  {
  }

  /** A successful login or signup leaves exactly one expiry due: the one
      it has just armed. */
  lemma SuccessArmsOneExpiry(s: SessionState, email: string, username: string, password: string, role: Role, freshId: string)
    requires TimerInvariant(s)
    ensures LoginStep(s, email, password).outcome == Ok ==> LoginStep(s, email, password).state.scheduled == {s.nextTimer}
    ensures SignupStep(s, username, email, password, role, freshId).outcome == Ok ==>
      SignupStep(s, username, email, password, role, freshId).state.scheduled == {s.nextTimer}
  {
    var found := FindCredential(s.registry, email, password);
    if found.Some? {
      var u := s.registry[found.value].Identity();
      StartTimerReplaces(s.(user := Some(u), storage := s.storage[UserKey := UserRecord(u)]));
    }
    if !EmailInUse(s.registry, email) {
      var u := User(freshId, username, email, role);
      StartTimerReplaces(s.(registry := s.registry + [Credential(freshId, username, email, password, role)],
                            user := Some(u), storage := s.storage[UserKey := UserRecord(u)]));
    }
  }

  /** Under the timer invariant at most one expiry is ever due. */
  lemma AtMostOnePending(s: SessionState)
    requires TimerInvariant(s)
    ensures |s.scheduled| <= 1
  {
    if s.logoutTimer.Some? {
      var t := s.logoutTimer.value;
      assert s.scheduled == {} || s.scheduled == {t};
    } else {
      assert s.scheduled == {};
    }
  }

  /** Arming a timer first cancels the one that was due: afterwards exactly
      the new handle is due, and the invariant holds again. */
  lemma StartTimerReplaces(s: SessionState)
    requires TimerInvariant(s)
    ensures StartTimer(s).scheduled == {s.nextTimer}
    ensures TimerInvariant(StartTimer(s))
  {
    var s1 := StartTimer(s);
    forall t | t in s1.scheduled ensures t == s.nextTimer {
    }
  }

  /** The due timer firing has the same effect as an explicit logout. */
  lemma ExpiryIsLogout(s: SessionState, t: nat)
    requires TimerInvariant(s) && t in s.scheduled
    ensures Expired(s, t) == LoggedOut(s)
    ensures Expired(s, t).scheduled == {}
  {
    assert s.logoutTimer == Some(t);
  }

  lemma LoginKeepsTimerInvariant(s: SessionState, email: string, password: string)
    requires TimerInvariant(s)
    ensures TimerInvariant(LoginStep(s, email, password).state)
  {
    var found := FindCredential(s.registry, email, password);
    if found.Some? {
      var u := s.registry[found.value].Identity();
      StartTimerReplaces(s.(user := Some(u), storage := s.storage[UserKey := UserRecord(u)]));
    }
  }

  lemma SignupKeepsTimerInvariant(s: SessionState, username: string, email: string, password: string, role: Role, freshId: string)
    requires TimerInvariant(s)
    ensures TimerInvariant(SignupStep(s, username, email, password, role, freshId).state)
  {
    if !EmailInUse(s.registry, email) {
      var u := User(freshId, username, email, role);
      StartTimerReplaces(s.(registry := s.registry + [Credential(freshId, username, email, password, role)],
                            user := Some(u), storage := s.storage[UserKey := UserRecord(u)]));
    }
  }

  /** Every operation keeps the timer invariant. */
  lemma OperationsKeepTimerInvariant(s: SessionState, email: string, username: string, password: string, role: Role, freshId: string, t: nat)
    requires TimerInvariant(s)
    ensures TimerInvariant(LoginStep(s, email, password).state)
    ensures TimerInvariant(SignupStep(s, username, email, password, role, freshId).state)
    ensures TimerInvariant(LoggedOut(s))
    ensures TimerInvariant(Expired(s, t))
    ensures TimerInvariant(Rehydrated(s))
  {
    LoginKeepsTimerInvariant(s, email, password);
    SignupKeepsTimerInvariant(s, username, email, password, role, freshId);
    if UserKey in s.storage && s.storage[UserKey].UserRecord? {
      StartTimerReplaces(s.(user := Some(s.storage[UserKey].user)));
    }
  }

  /** Startup restores exactly the stored identity (none when the key is
      absent), stops loading unless the stored text fails to parse, and the
      session is authenticated exactly when an identity was restored. */
  lemma RehydrationRestoresStoredUser(registry: seq<Credential>, storage: map<string, Value>)
    ensures var s := Rehydrated(Mounted(registry, storage));
      && (UserKey !in storage ==> s.user == None && !s.isLoading)
      && (UserKey in storage && storage[UserKey].UserRecord? ==>
            s.user == Some(storage[UserKey].user) && !s.isLoading && |s.scheduled| == 1)
      && (IsAuthenticated(s) <==> UserKey in storage && storage[UserKey].UserRecord?)
  {
  }

  /** The live store. Its fields are the components of `SessionState`;
      `storage` is the shared durable store it writes through. */
  class SessionStore {
    var registry: seq<Credential>
    var user: Option<User>
    var logoutTimer: Option<nat>
    var scheduled: set<nat>
    var nextTimer: nat
    var isLoading: bool
    var error: Option<string>
    const storage: Storage

    function State(): SessionState
      reads this, storage
    {
      SessionState(registry, user, logoutTimer, scheduled, nextTimer, isLoading, error, storage.entries)
    }

    ghost predicate Valid()
      reads this, storage
    {
      TimerInvariant(State())
    }

    /** Mount the provider with the seeded registry and run the startup effect. */
    constructor (storage: Storage)
      ensures this.storage == storage
      ensures State() == Rehydrated(Mounted(SeedUsers, storage.entries))
      ensures Valid()
    {
      this.storage := storage;
      registry := SeedUsers;
      user := None;
      logoutTimer := None;
      scheduled := {};
      nextTimer := 0;
      isLoading := true;
      error := None;
      new;
      var stored := storage.Get(UserKey);
      if stored.Some? {
        if stored.value.UserRecord? {
          user := Some(stored.value.user);
          StartLogoutTimer();
          isLoading := false;
        }
      } else {
        isLoading := false;
      }
    }

    /** `startLogoutTimer` */
    method StartLogoutTimer()
      modifies this
      ensures State() == StartTimer(old(State()))
    {
      if logoutTimer.Some? {
        scheduled := scheduled - {logoutTimer.value};
      }
      var timer := nextTimer;
      nextTimer := nextTimer + 1;
      scheduled := scheduled + {timer};
      logoutTimer := Some(timer);
    }

    method Login(email: string, password: string) returns (outcome: Outcome)
      requires Valid()
      modifies this, storage
      ensures Valid()
      ensures State() == LoginStep(old(State()), email, password).state
      ensures outcome == LoginStep(old(State()), email, password).outcome
    {
      ghost var s0 := State();
      isLoading := true;
      error := None;
      var found := FindCredential(registry, email, password);
      if found.None? {
        error := Some(InvalidCredentialsMessage);
        outcome := Err(InvalidCredentialsMessage);
      } else {
        var u := registry[found.value].Identity();
        user := Some(u);
        storage.Set(UserKey, UserRecord(u));
        StartLogoutTimer();
        outcome := Ok;
      }
      isLoading := false;
      LoginKeepsTimerInvariant(s0, email, password);
    }

    method Signup(username: string, email: string, password: string, role: Role, freshId: string) returns (outcome: Outcome)
      requires Valid()
      modifies this, storage
      ensures Valid()
      ensures State() == SignupStep(old(State()), username, email, password, role, freshId).state
      ensures outcome == SignupStep(old(State()), username, email, password, role, freshId).outcome
    {
      ghost var s0 := State();
      isLoading := true;
      error := None;
      var taken := EmailInUse(registry, email);
      if taken {
        error := Some(EmailTakenMessage);
        outcome := Err(EmailTakenMessage);
      } else {
        var u := User(freshId, username, email, role);
        registry := registry + [Credential(freshId, username, email, password, role)];
        user := Some(u);
        storage.Set(UserKey, UserRecord(u));
        StartLogoutTimer();
        outcome := Ok;
      }
      isLoading := false;
      SignupKeepsTimerInvariant(s0, username, email, password, role, freshId);
    }

    method Logout()
      requires Valid()
      modifies this, storage
      ensures Valid()
      ensures State() == LoggedOut(old(State()))
    {
      ghost var s0 := State();
      user := None;
      storage.Remove(UserKey);
      if logoutTimer.Some? {
        scheduled := scheduled - {logoutTimer.value};
      }
      OperationsKeepTimerInvariant(s0, "", "", "", Admin, "", 0);
    }

    /** The pending timer `t` fires and runs its callback, `logout()`. */
    method ExpiryFires(t: nat)
      requires Valid() && t in scheduled
      modifies this, storage
      ensures Valid()
      ensures State() == Expired(old(State()), t)
      ensures State() == LoggedOut(old(State()))
    {
      ExpiryIsLogout(State(), t);
      scheduled := scheduled - {t};
      Logout();
    }
  }
}
