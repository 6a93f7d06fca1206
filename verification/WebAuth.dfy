/**
 Browser login: one private file shared by several processes, and per process a bounded map of
 sessions and a map of pending passkey challenges.

 Every operation holds the file lock, so it is one step on the file and on its own process's
 maps. Tokens, challenge IDs, generations, user IDs and codes are random in the source; here they
 are fresh numbers, and a code stands for its digest. Passkey verification is an input. A write of
 the file is refused, and the old file kept, when the new one would be too large.
 */
module WebAuth {
  import opened LoginFile
  import opened Options
  import ChannelIds

  const CODE_TTL := 300
  const CODE_ATTEMPTS: int := 5
  const PREAUTH_TTL := 600
  const SESSION_TTL := 28800
  const FRESH_TTL := 300
  const CHALLENGE_TTL := 120
  const MAX_SESSIONS: nat := 256
  const MAX_CREDENTIALS: nat := 20
  const MAX_ORIGINS: nat := 16

  datatype Session = Session(
    authenticated: bool, expires: int, generation: nat, authenticatedAt: int, credential: Option<nat>)

  datatype Kind = Register | Authenticate
  datatype Challenge = Challenge(kind: Kind, expires: int, id: nat)

  /** One process: its origin and its maps, keyed by session token. */
  datatype Store = Store(origin: string, sessions: map<nat, Session>, challenges: map<nat, Challenge>)

  datatype Outcome = Refused | Issued | Opened(token: nat) | Found(session: Session) | Missing | Begun(challenge: nat) | Done

  /** Bookkeeping of what was used up; no operation reads it. */
  datatype Entry = Tried(digest: nat) | LoggedIn(digest: nat) | Consumed(challenge: nat)

  datatype Result = Result(file: File, store: Store, outcome: Outcome, entries: seq<Entry>)

  /** What the passkey library reports about a response it accepts; `bytes` belongs to the entry a registration makes. */
  datatype Assertion = Assertion(id: nat, counter: int, eligible: bool, backedUp: bool, bytes: nat)

  // ---------- The operations ----------

  predicate Live(s: Session, file: File, now: int) {
    s.expires > now && s.generation == file.generation
  }

  function Prune(store: Store, file: File, now: int): Store {
    var sessions := map t | t in store.sessions && Live(store.sessions[t], file, now) :: store.sessions[t];
    Store(store.origin, sessions,
          map t | t in store.challenges && (t in store.sessions ==> t in sessions) && store.challenges[t].expires > now ::
            store.challenges[t])
  }

  function Drop(store: Store, token: nat): Store {
    store.(sessions := store.sessions - {token}, challenges := store.challenges - {token})
  }

  function Open(file: File, store: Store, now: int, token: nat, authenticated: bool, credential: Option<nat>): Result {
    var pruned := Prune(store, file, now);
    if |pruned.sessions| >= MAX_SESSIONS then Result(file, pruned, Refused, [])
    else
      var session := Session(authenticated, now + (if authenticated then SESSION_TTL else PREAUTH_TTL),
                             file.generation, if authenticated then now else 0, credential);
      Result(file, pruned.(sessions := pruned.sessions[token := session]), Opened(token), [])
  }

  function Refuse(file: File, store: Store): Result {
    Result(file, store, Refused, [])
  }

  /** The file the terminal command writes. */
  function IssuedFile(file: File, origin: string, now: int, generation: nat, code: nat, user: nat, printed: nat): File {
    Switched(file, origin, user).(generation := generation, code := Some(Code(code, now + CODE_TTL, CODE_ATTEMPTS, printed)))
  }

  /** The origin that is left needs a place in a table that has none. */
  predicate OriginsFull(file: File, origin: string) {
    file.origin != origin && file.origin !in file.previous && |file.previous| >= MAX_ORIGINS
  }

  /** The terminal command: switches the file to this origin if needed, and revokes every session. */
  ghost function IssueCode(file: File, store: Store, now: int, generation: nat, code: nat, user: nat, printed: nat): Result {
    var issued := IssuedFile(file, store.origin, now, generation, code, user, printed);
    if OriginsFull(file, store.origin) || !Fits(issued) then Refuse(file, store)
    else Result(issued, store.(sessions := map[], challenges := map[]), Issued, [])
  }

  function NewSession(file: File, store: Store, now: int, token: nat): Result {
    if file.origin != store.origin then Refuse(file, store) else Open(file, store, now, token, false, None)
  }

  function FindSession(file: File, store: Store, token: nat, now: int): Result {
    if file.origin != store.origin then Refuse(file, store)
    else
      var pruned := Prune(store, file, now);
      Result(file, pruned, if token in pruned.sessions then Found(pruned.sessions[token]) else Missing, [])
  }

  /** `_require`, on an already pruned store. */
  predicate Permitted(pruned: Store, token: nat, authenticated: bool, recent: bool, now: int) {
    && token in pruned.sessions && (authenticated ==> pruned.sessions[token].authenticated)
    && (recent ==> pruned.sessions[token].authenticatedAt + FRESH_TTL > now)
  }

  predicate Usable(code: Option<Code>, now: int) {
    code.Some? && code.value.expires > now && code.value.attempts > 0
  }

  /** What a try leaves of the code. */
  function Spent(entry: Code, code: nat): Option<Code> {
    if code == entry.digest then None else Some(entry.(attempts := entry.attempts - 1))
  }

  ghost function LoginCode(file: File, store: Store, token: nat, code: nat, now: int, secret: nat): Result {
    if file.origin != store.origin then Refuse(file, store)
    else
      var pruned := Prune(store, file, now);
      if !Permitted(pruned, token, false, false, now) || !Usable(file.code, now) then Refuse(file, pruned)
      else
        var entry := file.code.value;
        var file' := file.(code := Spent(entry, code));
        if !Fits(file') then Refuse(file, pruned)
        else if code != entry.digest then Result(file', pruned, Refused, [Tried(entry.digest)])
        else
          var r := Open(file', Drop(pruned, token), now, secret, true, None);
          r.(entries := [Tried(entry.digest)] + if r.outcome.Opened? then [LoggedIn(entry.digest)] else [])
  }

  function Logout(file: File, store: Store, token: nat): Result {
    Result(file, Drop(store, token), Done, [])
  }

  function RegistrationBegin(file: File, store: Store, token: nat, now: int, secret: nat): Result {
    if file.origin != store.origin then Refuse(file, store)
    else
      var pruned := Prune(store, file, now);
      if !Permitted(pruned, token, true, true, now) || |file.identity.credentials| >= MAX_CREDENTIALS
      then Refuse(file, pruned)
      else Result(file, pruned.(challenges := pruned.challenges[token := Challenge(Register, now + CHALLENGE_TTL, secret)]),
                  Begun(secret), [])
  }

  function AuthenticationBegin(file: File, store: Store, token: nat, now: int, secret: nat): Result {
    if file.origin != store.origin then Refuse(file, store)
    else
      var pruned := Prune(store, file, now);
      if !Permitted(pruned, token, false, false, now) || file.identity.credentials == [] then Refuse(file, pruned)
      else Result(file, pruned.(challenges := pruned.challenges[token := Challenge(Authenticate, now + CHALLENGE_TTL, secret)]),
                  Begun(secret), [])
  }

  predicate Matches(store: Store, token: nat, kind: Kind, id: nat, now: int) {
    && token in store.challenges && store.challenges[token].kind == kind
    && store.challenges[token].expires > now && store.challenges[token].id == id
  }

  function IndexOf(credentials: seq<Credential>, id: nat): (index: Option<nat>)
    ensures index.Some? ==> index.value < |credentials| && credentials[index.value].id == id
    ensures index.None? ==> forall c | c in credentials :: c.id != id
  {
    if credentials == [] then None
    else if credentials[0].id == id then Some(0)
    else match IndexOf(credentials[1..], id)
      case None => None
      case Some(i) => Some(i + 1)
  }

  function WithCredentials(file: File, credentials: seq<Credential>): File {
    file.(identity := file.identity.(credentials := credentials))
  }

  /** The challenge is popped whether or not it matches; it is consumed only when it matches. */
  ghost function RegistrationComplete(
    file: File, store: Store, token: nat, challenge: nat, verified: Option<Assertion>, now: int): Result
  {
    if file.origin != store.origin then Refuse(file, store)
    else
      var pruned := Prune(store, file, now);
      if !Permitted(pruned, token, true, true, now) then Refuse(file, pruned)
      else
        var popped := pruned.(challenges := pruned.challenges - {token});
        if !Matches(pruned, token, Register, challenge, now) then Refuse(file, popped)
        else
          var used := [Consumed(challenge)];
          if verified.None? || (verified.value.backedUp && !verified.value.eligible)
             || IndexOf(file.identity.credentials, verified.value.id).Some?
             || |file.identity.credentials| >= MAX_CREDENTIALS
          then Result(file, popped, Refused, used)
          else
            var a := verified.value;
            var file' := WithCredentials(file, file.identity.credentials + [Credential(a.id, a.counter, a.eligible, a.bytes)]);
            if !Fits(file') then Result(file, popped, Refused, used) else Result(file', popped, Done, used)
  }

  ghost function AuthenticationComplete(
    file: File, store: Store, token: nat, challenge: nat, verified: Option<Assertion>, now: int, secret: nat): Result
  {
    if file.origin != store.origin then Refuse(file, store)
    else
      var pruned := Prune(store, file, now);
      if !Permitted(pruned, token, false, false, now) then Refuse(file, pruned)
      else
        var popped := pruned.(challenges := pruned.challenges - {token});
        if !Matches(pruned, token, Authenticate, challenge, now) then Refuse(file, popped)
        else
          var used := [Consumed(challenge)];
          if verified.None? || IndexOf(file.identity.credentials, verified.value.id).None?
          then Result(file, popped, Refused, used)
          else
            var a := verified.value;
            var i := IndexOf(file.identity.credentials, a.id).value;
            var c := file.identity.credentials[i];
            if a.eligible != c.eligible || (a.backedUp && !a.eligible)
               || ((c.counter != 0 || a.counter != 0) && a.counter <= c.counter)
            then Result(file, popped, Refused, used)
            else
              var file' := WithCredentials(file, file.identity.credentials[i := c.(counter := a.counter)]);
              if !Fits(file') then Result(file, popped, Refused, used)
              else Open(file', Drop(popped, token), now, secret, true, Some(a.id)).(entries := used)
  }

  function Others(credentials: seq<Credential>, id: nat): seq<Credential> {
    if credentials == [] then []
    else (if credentials[0].id == id then [] else [credentials[0]]) + Others(credentials[1..], id)
  }

  ghost function DeleteCredential(file: File, store: Store, token: nat, id: nat, now: int, generation: nat): Result {
    if file.origin != store.origin then Refuse(file, store)
    else
      var pruned := Prune(store, file, now);
      if !Permitted(pruned, token, true, true, now) || |Others(file.identity.credentials, id)| == |file.identity.credentials|
      then Refuse(file, pruned)
      else
        var file' := WithCredentials(file, Others(file.identity.credentials, id)).(generation := generation, code := None);
        if !Fits(file') then Refuse(file, pruned)
        else Result(file', pruned.(sessions := map[], challenges := map[]), Done, [])
  }

  // ---------- A process as an object ----------

  class AuthStore {
    const origin: string
    const file: AuthFile
    var sessions: map<nat, Session>
    var challenges: map<nat, Challenge>

    ghost function Model(): Store
      reads this
    {
      Store(origin, sessions, challenges)
    }

    constructor (origin: string, file: AuthFile)
      ensures this.origin == origin && this.file == file && Model() == Store(origin, map[], map[])
    {
      this.origin, this.file, sessions, challenges := origin, file, map[], map[];
    }

    method PruneMaps(now: int)
      modifies this`sessions, this`challenges
      ensures Model() == Prune(old(Model()), file.state, now)
    {
      var before := sessions;
      sessions := map t | t in before && Live(before[t], file.state, now) :: before[t];
      challenges := map t | t in challenges && (t in before ==> t in sessions) && challenges[t].expires > now :: challenges[t];
    }

    method OpenSession(now: int, token: nat, authenticated: bool, credential: Option<nat>) returns (outcome: Outcome)
      modifies this`sessions, this`challenges
      ensures var r := Open(file.state, old(Model()), now, token, authenticated, credential);
              Model() == r.store && outcome == r.outcome
    {
      PruneMaps(now);
      if |sessions| >= MAX_SESSIONS {
        return Refused;
      }
      sessions := sessions[token := Session(
        authenticated, now + (if authenticated then SESSION_TTL else PREAUTH_TTL), file.state.generation,
        if authenticated then now else 0, credential)];
      outcome := Opened(token);
    }

    method EndSession(token: nat)
      modifies this`sessions, this`challenges
      ensures Model() == Drop(old(Model()), token)
    {
      sessions := sessions - {token};
      challenges := challenges - {token};
    }

    method IssueTerminalCode(now: int, generation: nat, code: nat, user: nat, printed: nat) returns (outcome: Outcome)
      modifies this, file
      ensures var r := IssueCode(old(file.state), old(Model()), now, generation, code, user, printed);
              file.state == r.file && Model() == r.store && outcome == r.outcome
    {
      var state := file.state;
      if state.origin != origin {
        if state.origin !in state.previous && |state.previous| >= MAX_ORIGINS {
          return Refused;
        }
        var origins := state.previous[state.origin := state.identity];
        var identity := if origin in origins then origins[origin] else Identity(user, []);
        state := state.(origin := origin, identity := identity, previous := origins - {origin});
      }
      var ok := file.Write(
        state.(generation := generation, code := Some(Code(code, now + CODE_TTL, CODE_ATTEMPTS, printed))));
      if !ok {
        return Refused;
      }
      sessions, challenges := map[], map[];
      outcome := Issued;
    }

    method Login(token: nat, code: nat, now: int, secret: nat) returns (outcome: Outcome)
      modifies this, file
      ensures var r := LoginCode(old(file.state), old(Model()), token, code, now, secret);
              file.state == r.file && Model() == r.store && outcome == r.outcome
    {
      if file.state.origin != origin {
        return Refused;
      }
      PruneMaps(now);
      if token !in sessions || !Usable(file.state.code, now) {
        return Refused;
      }
      var entry := file.state.code.value;
      var valid := code == entry.digest;
      var ok := file.Write(file.state.(code := if valid then None else Some(entry.(attempts := entry.attempts - 1))));
      if !ok || !valid {
        return Refused;
      }
      EndSession(token);
      outcome := OpenSession(now, secret, true, None);
    }

    method StartSession(now: int, token: nat) returns (outcome: Outcome)
      modifies this`sessions, this`challenges
      ensures var r := NewSession(file.state, old(Model()), now, token);
              Model() == r.store && outcome == r.outcome
    {
      if file.state.origin != origin {
        return Refused;
      }
      outcome := OpenSession(now, token, false, None);
    }

    method LookUp(token: nat, now: int) returns (outcome: Outcome)
      modifies this`sessions, this`challenges
      ensures var r := FindSession(file.state, old(Model()), token, now);
              Model() == r.store && outcome == r.outcome
    {
      if file.state.origin != origin {
        return Refused;
      }
      PruneMaps(now);
      outcome := if token in sessions then Found(sessions[token]) else Missing;
    }

    method BeginChallenge(token: nat, kind: Kind, now: int, secret: nat) returns (outcome: Outcome)
      modifies this
      ensures var r := if kind.Register? then RegistrationBegin(file.state, old(Model()), token, now, secret)
                       else AuthenticationBegin(file.state, old(Model()), token, now, secret);
              Model() == r.store && outcome == r.outcome
    {
      if file.state.origin != origin {
        return Refused;
      }
      PruneMaps(now);
      var credentials := file.state.identity.credentials;
      if !Permitted(Store(origin, sessions, challenges), token, kind.Register?, kind.Register?, now) {
        return Refused;
      }
      if if kind.Register? then |credentials| >= MAX_CREDENTIALS else credentials == [] {
        return Refused;
      }
      challenges := challenges[token := Challenge(kind, now + CHALLENGE_TTL, secret)];
      outcome := Begun(secret);
    }

    method CompleteRegistration(token: nat, challenge: nat, verified: Option<Assertion>, now: int)
      returns (outcome: Outcome)
      modifies this, file
      ensures var r := RegistrationComplete(old(file.state), old(Model()), token, challenge, verified, now);
              file.state == r.file && Model() == r.store && outcome == r.outcome
    {
      if file.state.origin != origin {
        return Refused;
      }
      PruneMaps(now);
      if !Permitted(Store(origin, sessions, challenges), token, true, true, now) {
        return Refused;
      }
      var matches := Matches(Store(origin, sessions, challenges), token, Register, challenge, now);
      challenges := challenges - {token};
      var credentials := file.state.identity.credentials;
      if !matches || verified.None? || |credentials| >= MAX_CREDENTIALS {
        return Refused;
      }
      var a := verified.value;
      if (a.backedUp && !a.eligible) || IndexOf(credentials, a.id).Some? {
        return Refused;
      }
      var ok := file.Write(WithCredentials(file.state, credentials + [Credential(a.id, a.counter, a.eligible, a.bytes)]));
      outcome := if ok then Done else Refused;
    }

    method RemoveCredential(token: nat, id: nat, now: int, generation: nat) returns (outcome: Outcome)
      modifies this, file
      ensures var r := DeleteCredential(old(file.state), old(Model()), token, id, now, generation);
              file.state == r.file && Model() == r.store && outcome == r.outcome
    {
      if file.state.origin != origin {
        return Refused;
      }
      PruneMaps(now);
      if !Permitted(Store(origin, sessions, challenges), token, true, true, now) {
        return Refused;
      }
      var entries := Others(file.state.identity.credentials, id);
      if |entries| == |file.state.identity.credentials| {
        return Refused;
      }
      var ok := file.Write(WithCredentials(file.state, entries).(generation := generation, code := None));
      if !ok {
        return Refused;
      }
      sessions, challenges := map[], map[];
      outcome := Done;
    }

    method CompleteAuthentication(token: nat, challenge: nat, verified: Option<Assertion>, now: int, secret: nat)
      returns (outcome: Outcome)
      modifies this, file
      ensures var r := AuthenticationComplete(old(file.state), old(Model()), token, challenge, verified, now, secret);
              file.state == r.file && Model() == r.store && outcome == r.outcome
    {
      if file.state.origin != origin {
        return Refused;
      }
      PruneMaps(now);
      if token !in sessions {
        return Refused;
      }
      var matches := Matches(Store(origin, sessions, challenges), token, Authenticate, challenge, now);
      challenges := challenges - {token};
      if !matches || verified.None? {
        return Refused;
      }
      var a := verified.value;
      var found := IndexOf(file.state.identity.credentials, a.id);
      if found.None? {
        return Refused;
      }
      var c := file.state.identity.credentials[found.value];
      if a.eligible != c.eligible || (a.backedUp && !a.eligible) || ((c.counter != 0 || a.counter != 0) && a.counter <= c.counter) {
        return Refused;
      }
      var ok := file.Write(
        WithCredentials(file.state, file.state.identity.credentials[found.value := c.(counter := a.counter)]));
      if !ok {
        return Refused;
      }
      EndSession(token);
      outcome := OpenSession(now, secret, true, Some(a.id));
    }
  }

  // ---------- Facts about one operation ----------

  ghost predicate StoreInv(store: Store) {
    |store.sessions| <= MAX_SESSIONS && store.challenges.Keys <= store.sessions.Keys
  }

  ghost predicate DistinctIds(credentials: seq<Credential>) {
    forall i, j | 0 <= i < j < |credentials| :: credentials[i].id != credentials[j].id
  }

  ghost predicate IdentityInv(identity: Identity) {
    |identity.credentials| <= MAX_CREDENTIALS && DistinctIds(identity.credentials)
  }

  ghost predicate FileInv(file: File) {
    && file.origin !in file.previous && |file.previous| <= MAX_ORIGINS && IdentityInv(file.identity) && Fits(file)
    && (forall o | o in file.previous :: IdentityInv(file.previous[o]))
    && (file.code.Some? ==> 0 <= file.code.value.attempts <= CODE_ATTEMPTS)
  }

  /** How one operation may use the stored code. */
  ghost predicate CodeStep(file: File, r: Result, secret: nat) {
    || (r.file.code == file.code && forall e | e in r.entries :: e.Consumed?)
    || (r.file.code.None? && r.entries == [])
    || (r.file.code.Some? && r.file.code.value.digest == secret + 1 && r.file.code.value.attempts == CODE_ATTEMPTS && r.entries == [])
    || (file.code.Some? && file.code.value.attempts > 0
        && var c := file.code.value;
           || (r.entries == [Tried(c.digest)] && r.file.code == Some(c.(attempts := c.attempts - 1)))
           || (r.file.code.None? && (r.entries == [Tried(c.digest)] || r.entries == [Tried(c.digest), LoggedIn(c.digest)])))
  }

  /** How one operation may change the challenges: drop some, add one fresh one, or consume one and drop it. */
  ghost predicate ChallengeStep(store: Store, r: Result, token: nat, secret: nat) {
    && (forall t | t in r.store.challenges ::
          (t in store.challenges && r.store.challenges[t] == store.challenges[t])
          || (t == token && r.store.challenges[t].id == secret && forall e | e in r.entries :: !e.Consumed?))
    && (forall e | e in r.entries && e.Consumed? ::
          r.entries == [e] && token in store.challenges && store.challenges[token].id == e.challenge
          && token !in r.store.challenges)
  }

  ghost predicate OpOk(file: File, store: Store, r: Result, token: nat, secret: nat) {
    && FileInv(r.file) && StoreInv(r.store) && r.store.origin == store.origin
    && (r.file.generation == file.generation || r.file.generation == secret)
    && CodeStep(file, r, secret) && ChallengeStep(store, r, token, secret)
  }

  /** The store may only have lost sessions' challenges. */
  ghost predicate Shrunk(store: Store, store': Store) {
    && StoreInv(store') && store'.origin == store.origin
    && forall t | t in store'.challenges :: t in store.challenges && store'.challenges[t] == store.challenges[t]
  }

  lemma PruneShrinks(store: Store, file: File, now: int)
    requires StoreInv(store)
    ensures Shrunk(store, Prune(store, file, now))
    ensures |Prune(store, file, now).sessions| <= |store.sessions|
  {
    var pruned := Prune(store, file, now);
    SubsetSize(pruned.sessions.Keys, store.sessions.Keys);
  }

  lemma {:induction false} SubsetSize<T>(a: set<T>, b: set<T>)
    requires a <= b
    ensures |a| <= |b|
  {
    if a != {} {
      var x :| x in a;
      SubsetSize(a - {x}, b - {x});
    }
  }

  lemma DropShrinks(store: Store, token: nat)
    requires StoreInv(store)
    ensures Shrunk(store, Drop(store, token)) && token !in Drop(store, token).challenges
    ensures token in store.sessions ==> |Drop(store, token).sessions| < |store.sessions|
  {
    SubsetSize(store.sessions.Keys - {token}, store.sessions.Keys);
    assert (store.sessions - {token}).Keys == store.sessions.Keys - {token};
  }

  lemma OpenShrinks(file: File, store: Store, now: int, token: nat, authenticated: bool, credential: Option<nat>)
    requires StoreInv(store)
    ensures Shrunk(store, Open(file, store, now, token, authenticated, credential).store)
    ensures |store.sessions| < MAX_SESSIONS ==> Open(file, store, now, token, authenticated, credential).outcome == Opened(token)
  {
    PruneShrinks(store, file, now);
    var pruned := Prune(store, file, now);
    var r := Open(file, store, now, token, authenticated, credential);
    if r.outcome.Opened? {
      SubsetSize(r.store.sessions.Keys, pruned.sessions.Keys + {token});
    }
  }

  lemma {:induction false} OthersFacts(credentials: seq<Credential>, id: nat)
    ensures |Others(credentials, id)| <= |credentials|
    ensures forall c | c in Others(credentials, id) :: c in credentials && c.id != id
    ensures DistinctIds(credentials) ==> DistinctIds(Others(credentials, id))
  {
    if credentials != [] {
      OthersFacts(credentials[1..], id);
      var rest := Others(credentials[1..], id);
      if DistinctIds(credentials) && credentials[0].id != id {
        forall k | 0 <= k < |rest| ensures credentials[0].id != rest[k].id {
          assert rest[k] in credentials[1..];
          var l :| 0 <= l < |credentials[1..]| && credentials[1..][l] == rest[k];
          assert credentials[l + 1] == rest[k];
        }
      }
    }
  }

  /** The process has a session of this token, unexpired and of the file's generation. */
  predicate HoldsSession(store: Store, file: File, token: nat, now: int) {
    token in store.sessions && store.sessions[token].expires > now && store.sessions[token].generation == file.generation
  }

  predicate LoggedInRecently(s: Session, now: int) {
    s.authenticated && s.authenticatedAt + 300 > now
  }

  /** The session's own pending challenge, of this kind and ID. */
  predicate HoldsChallenge(store: Store, token: nat, kind: Kind, id: nat, now: int) {
    && token in store.challenges && store.challenges[token].kind == kind && store.challenges[token].id == id
    && store.challenges[token].expires > now
  }

  /**
   A code login succeeds exactly when its session is live and the code is the current, usable one. Room
   for the session is never the reason, since it replaces one, nor is the size of the file, which shrinks.
   */
  lemma LoginSucceedsIff(file: File, store: Store, token: nat, code: nat, now: int, secret: nat)
    requires StoreInv(store) && Fits(file)
    ensures LoginCode(file, store, token, code, now, secret).outcome.Opened?
       <==> (&& file.origin == store.origin && HoldsSession(store, file, token, now) && file.code.Some?
             && file.code.value.expires > now && file.code.value.attempts > 0 && code == file.code.value.digest)
    ensures var r := LoginCode(file, store, token, code, now, secret);
            r.outcome.Opened? ==>
              SessionOpened(file.(code := None), r, token, secret, Session(true, now + 28800, file.generation, now, None))
  {
    if file.origin == store.origin {
      var pruned := Prune(store, file, now);
      PruneShrinks(store, file, now);
      DropShrinks(pruned, token);
      OpenShrinks(file.(code := None), Drop(pruned, token), now, secret, true, None);
      SpentFits(file, code);
      LoginOutcome(file, store, token, code, now, secret);
      if HoldsSession(store, file, token, now) {
        ReplacedSession(file.(code := None), pruned, token, now, secret, None);
      }
    }
  }

  lemma SpentFits(file: File, code: nat)
    requires Fits(file)
    ensures file.code.Some? ==> Fits(file.(code := Spent(file.code.value, code)))
  {
    if file.code.Some? {
      SpendingShrinks(file, Spent(file.code.value, code));
    }
  }

  lemma LoginOutcome(file: File, store: Store, token: nat, code: nat, now: int, secret: nat)
    requires file.origin == store.origin && (file.code.Some? ==> Fits(file.(code := Spent(file.code.value, code))))
    ensures var pruned := Prune(store, file, now);
            var r := LoginCode(file, store, token, code, now, secret);
            if Permitted(pruned, token, false, false, now) && Usable(file.code, now) && code == file.code.value.digest
            then r == Open(file.(code := None), Drop(pruned, token), now, secret, true, None).(entries := r.entries)
            else r.outcome == Refused
  {
  }

  lemma {:induction false} OthersItems(credentials: seq<Credential>, id: nat)
    ensures ItemsSize(Others(credentials, id)) <= ItemsSize(credentials)
  {
    if credentials != [] {
      OthersItems(credentials[1..], id);
      var rest := Others(credentials[1..], id);
      assert ([credentials[0]] + rest)[1..] == rest && [] + rest == rest;
    }
  }

  lemma OthersSize(credentials: seq<Credential>, id: nat)
    ensures ListSize(Others(credentials, id)) <= ListSize(credentials)
  {
    OthersItems(credentials, id);
    if credentials == [] {
      assert Others(credentials, id) == [];
    } else {
      assert ItemsSize(credentials) >= 1;
    }
  }

  /** A deletion succeeds exactly with a recent login and a stored passkey; the file shrinks, so it always fits. */
  lemma DeletionSucceedsIff(file: File, store: Store, token: nat, id: nat, now: int, generation: nat)
    requires Fits(file)
    ensures DeleteCredential(file, store, token, id, now, generation).outcome.Done?
       <==> (&& file.origin == store.origin && (exists c | c in file.identity.credentials :: c.id == id)
             && HoldsSession(store, file, token, now) && LoggedInRecently(store.sessions[token], now))
  {
    OthersSize(file.identity.credentials, id);
    OthersFewer(file.identity.credentials, id);
  }

  /** Pruning keeps exactly the sessions that are held, and of the challenges those in time whose session is. */
  lemma PruneKeepsIff(store: Store, file: File, now: int, t: nat)
    ensures var pruned := Prune(store, file, now);
            && (t in pruned.sessions <==> HoldsSession(store, file, t, now))
            && (t in pruned.sessions ==> pruned.sessions[t] == store.sessions[t])
            && (t in pruned.challenges <==>
                  t in store.challenges && store.challenges[t].expires > now && (t in store.sessions ==> HoldsSession(store, file, t, now)))
            && (t in pruned.challenges ==> pruned.challenges[t] == store.challenges[t])
  {
  }

  /** A session is found exactly when it is held, at the origin of the file. */
  lemma SessionIsFoundIff(file: File, store: Store, token: nat, now: int)
    ensures var r := FindSession(file, store, token, now);
            && (r.outcome.Found? <==> file.origin == store.origin && HoldsSession(store, file, token, now))
            && (r.outcome.Found? ==> r.outcome.session == store.sessions[token]) && r.file == file
  {
    PruneKeepsIff(store, file, now, token);
  }

  /** A new session is refused at another origin and at 256 held sessions; it is not authenticated and lasts ten minutes. */
  lemma SessionStartsIff(file: File, store: Store, now: int, token: nat)
    ensures var r := NewSession(file, store, now, token);
            && (r.outcome.Opened? <==> file.origin == store.origin && |set t | t in store.sessions && HoldsSession(store, file, t, now)| < 256)
            && (r.outcome.Opened? ==> r.outcome == Opened(token) && token in r.store.sessions
                                      && r.store.sessions[token] == Session(false, now + 600, file.generation, 0, None))
            && r.file == file
  {
    var pruned := Prune(store, file, now);
    forall t ensures t in pruned.sessions <==> HoldsSession(store, file, t, now) {
      PruneKeepsIff(store, file, now, t);
    }
    assert pruned.sessions.Keys == set t | t in store.sessions && HoldsSession(store, file, t, now);
  }

  /**
   A code is issued unless a seventeenth origin would be stored or the file would be too large. It lasts 300 seconds
   and five tries and revokes every session. The present origin's identity is stored when another is entered,
   whose own comes back, or is empty.
   */
  lemma IssueSucceedsIff(file: File, store: Store, now: int, generation: nat, code: nat, user: nat, printed: nat)
    requires file.origin !in file.previous
    ensures var r := IssueCode(file, store, now, generation, code, user, printed);
            && (r.outcome.Issued? <==>
                  && (store.origin == file.origin || |file.previous| < 16)
                  && Fits(IssuedFile(file, store.origin, now, generation, code, user, printed)))
            && (!r.outcome.Issued? ==> r.file == file && r.store == store)
            && (r.outcome.Issued? ==>
                  && r.file.origin == store.origin && r.file.generation == generation
                  && r.file.code == Some(Code(code, now + 300, 5, printed))
                  && r.store == Store(store.origin, map[], map[]) && EntersOrigin(file, r.file, store.origin, user))
  {
  }

  ghost predicate EntersOrigin(file: File, file': File, origin: string, user: nat) {
    if origin == file.origin then file'.identity == file.identity && file'.previous == file.previous
    else
      && file'.identity == (if origin in file.previous then file.previous[origin] else Identity(user, []))
      && (forall o :: o in file'.previous <==> o == file.origin || (o in file.previous && o != origin))
      && (forall o | o in file'.previous :: file'.previous[o] == if o == file.origin then file.identity else file.previous[o])
  }

  /** A registration can begin exactly after a recent login, with room for one more passkey. */
  lemma RegistrationBeginsIff(file: File, store: Store, token: nat, now: int, secret: nat)
    ensures var r := RegistrationBegin(file, store, token, now, secret);
            && (r.outcome.Begun? <==>
                  && file.origin == store.origin && HoldsSession(store, file, token, now)
                  && LoggedInRecently(store.sessions[token], now) && |file.identity.credentials| < 20)
            && (r.outcome.Begun? ==> r.outcome == Begun(secret) && token in r.store.challenges
                                     && r.store.challenges[token] == Challenge(Register, now + 120, secret))
  {
  }

  /** A passkey login can begin exactly with a session and a stored passkey. */
  lemma AuthenticationBeginsIff(file: File, store: Store, token: nat, now: int, secret: nat)
    ensures var r := AuthenticationBegin(file, store, token, now, secret);
            && (r.outcome.Begun? <==>
                  file.origin == store.origin && HoldsSession(store, file, token, now) && file.identity.credentials != [])
            && (r.outcome.Begun? ==> r.outcome == Begun(secret) && token in r.store.challenges
                                     && r.store.challenges[token] == Challenge(Authenticate, now + 120, secret))
  {
  }

  /** The file with the new passkey. */
  function Registered(file: File, a: Assertion): File {
    file.(identity := file.identity.(credentials := file.identity.credentials + [Credential(a.id, a.counter, a.eligible, a.bytes)]))
  }

  /**
   A passkey is registered exactly by a session that logged in less than 300 seconds ago, with its own unexpired
   challenge and an accepted response for a new passkey, while fewer than twenty are stored and it fits.
   Nothing else in the file changes.
   */
  lemma RegistrationSucceedsIff(file: File, store: Store, token: nat, challenge: nat, verified: Option<Assertion>, now: int)
    ensures var r := RegistrationComplete(file, store, token, challenge, verified, now);
            && (r.outcome.Done? <==>
                  && file.origin == store.origin && HoldsSession(store, file, token, now)
                  && LoggedInRecently(store.sessions[token], now) && HoldsChallenge(store, token, Register, challenge, now)
                  && verified.Some? && (verified.value.backedUp ==> verified.value.eligible)
                  && (forall c | c in file.identity.credentials :: c.id != verified.value.id)
                  && |file.identity.credentials| < 20 && Fits(Registered(file, verified.value)))
            && r.file == (if r.outcome.Done? then Registered(file, verified.value) else file)
  {
    RegistrationCases(file, store, token, challenge, verified, now);
    assert verified.Some? && IndexOf(file.identity.credentials, verified.value.id).Some? ==>
        file.identity.credentials[IndexOf(file.identity.credentials, verified.value.id).value] in file.identity.credentials;
  }

  lemma RegistrationCases(file: File, store: Store, token: nat, challenge: nat, verified: Option<Assertion>, now: int)
    ensures var r := RegistrationComplete(file, store, token, challenge, verified, now);
            && (r.outcome.Done? <==>
                  && file.origin == store.origin && HoldsSession(store, file, token, now)
                  && LoggedInRecently(store.sessions[token], now) && HoldsChallenge(store, token, Register, challenge, now)
                  && verified.Some? && (verified.value.backedUp ==> verified.value.eligible)
                  && IndexOf(file.identity.credentials, verified.value.id).None?
                  && |file.identity.credentials| < 20 && Fits(Registered(file, verified.value)))
            && r.file == (if r.outcome.Done? then Registered(file, verified.value) else file)
  {
  }

  /** The response is accepted for stored passkey `i`: same eligibility, consistent flags, a new counter. */
  predicate AcceptedFor(c: Credential, a: Assertion) {
    && c.id == a.id && c.eligible == a.eligible && (a.backedUp ==> a.eligible)
    && (a.counter > c.counter || (a.counter == 0 && c.counter == 0))
  }

  function Counted(file: File, i: nat, counter: int): File
    requires i < |file.identity.credentials|
  {
    file.(identity := file.identity.(credentials :=
      file.identity.credentials[i := file.identity.credentials[i].(counter := counter)]))
  }

  /**
   A passkey opens a session exactly from a session with its own unexpired challenge and an accepted response for a
   stored passkey, if the file with the new counter fits. The new session is authenticated, at this moment and for
   eight hours; the old one is gone. Room for it is never the reason.
   */
  lemma AuthenticationSucceedsIff(
    file: File, store: Store, token: nat, challenge: nat, verified: Option<Assertion>, now: int, secret: nat)
    requires StoreInv(store) && DistinctIds(file.identity.credentials)
    ensures var r := AuthenticationComplete(file, store, token, challenge, verified, now, secret);
            && (r.outcome.Opened? <==>
                  && file.origin == store.origin && HoldsSession(store, file, token, now)
                  && HoldsChallenge(store, token, Authenticate, challenge, now) && verified.Some?
                  && exists i: nat | i < |file.identity.credentials| ::
                       AcceptedFor(file.identity.credentials[i], verified.value) && Fits(Counted(file, i, verified.value.counter)))
            && (r.outcome.Opened? ==>
                  && r.outcome == Opened(secret) && secret in r.store.sessions && (token != secret ==> token !in r.store.sessions)
                  && r.store.sessions[secret] == Session(true, now + 28800, file.generation, now, Some(verified.value.id)))
  {
    AuthenticationOutcome(file, store, token, challenge, verified, now, secret);
    if verified.Some? {
      TheCredential(file.identity.credentials, verified.value.id);
      if file.origin == store.origin && HoldsSession(store, file, token, now) {
        AuthenticationRoom(file, store, token, now);
        AuthenticationOpens(file, store, token, verified.value, now, secret);
      }
    }
  }

  /** What opening the session in the place of the old one gives. */
  lemma AuthenticationOpens(file: File, store: Store, token: nat, a: Assertion, now: int, secret: nat)
    requires var pruned := Prune(store, file, now);
             var popped := pruned.(challenges := pruned.challenges - {token});
             StoreInv(Drop(popped, token)) && |Drop(popped, token).sessions| < MAX_SESSIONS
    ensures var pruned := Prune(store, file, now);
            var popped := pruned.(challenges := pruned.challenges - {token});
            forall file': File | file'.generation == file.generation ::
              SessionOpened(file', Open(file', Drop(popped, token), now, secret, true, Some(a.id)), token, secret,
                            Session(true, now + 28800, file.generation, now, Some(a.id)))
  {
    var pruned := Prune(store, file, now);
    var popped := pruned.(challenges := pruned.challenges - {token});
    forall file': File | file'.generation == file.generation
      ensures SessionOpened(file', Open(file', Drop(popped, token), now, secret, true, Some(a.id)), token, secret,
                            Session(true, now + 28800, file.generation, now, Some(a.id)))
    {
      ReplacedSession(file', popped, token, now, secret, Some(a.id));
    }
  }

  /** The session is open under the new token, and the old token is gone. */
  ghost predicate SessionOpened(file: File, r: Result, token: nat, secret: nat, session: Session) {
    && r.outcome == Opened(secret) && r.file == file && secret in r.store.sessions && r.store.sessions[secret] == session
    && (token != secret ==> token !in r.store.sessions)
  }

  lemma ReplacedSession(file: File, store: Store, token: nat, now: int, secret: nat, credential: Option<nat>)
    requires StoreInv(Drop(store, token)) && |Drop(store, token).sessions| < MAX_SESSIONS
    ensures SessionOpened(file, Open(file, Drop(store, token), now, secret, true, credential), token, secret,
                          Session(true, now + 28800, file.generation, now, credential))
  {
    PruneShrinks(Drop(store, token), file, now);
  }

  lemma TheCredential(credentials: seq<Credential>, id: nat)
    requires DistinctIds(credentials)
    ensures forall i: nat | i < |credentials| && credentials[i].id == id :: IndexOf(credentials, id) == Some(i)
  {
    forall i: nat | i < |credentials| && credentials[i].id == id ensures IndexOf(credentials, id) == Some(i) {
      assert credentials[i] in credentials;
    }
  }

  lemma AuthenticationRoom(file: File, store: Store, token: nat, now: int)
    requires StoreInv(store)
    ensures var pruned := Prune(store, file, now);
            var popped := pruned.(challenges := pruned.challenges - {token});
            token in pruned.sessions ==> StoreInv(Drop(popped, token)) && |Drop(popped, token).sessions| < MAX_SESSIONS
  {
    PruneShrinks(store, file, now);
    var pruned := Prune(store, file, now);
    PopShrinks(pruned, token);
    DropShrinks(pruned.(challenges := pruned.challenges - {token}), token);
  }

  lemma AuthenticationOutcome(
    file: File, store: Store, token: nat, challenge: nat, verified: Option<Assertion>, now: int, secret: nat)
    ensures var r := AuthenticationComplete(file, store, token, challenge, verified, now, secret);
            var pruned := Prune(store, file, now);
            var popped := pruned.(challenges := pruned.challenges - {token});
            if && file.origin == store.origin && HoldsSession(store, file, token, now)
               && HoldsChallenge(store, token, Authenticate, challenge, now) && verified.Some?
               && IndexOf(file.identity.credentials, verified.value.id).Some?
               && AcceptedFor(file.identity.credentials[IndexOf(file.identity.credentials, verified.value.id).value], verified.value)
               && Fits(Counted(file, IndexOf(file.identity.credentials, verified.value.id).value, verified.value.counter))
            then var file' := Counted(file, IndexOf(file.identity.credentials, verified.value.id).value, verified.value.counter);
                 var after := Open(file', Drop(popped, token), now, secret, true, Some(verified.value.id));
                 r == after.(entries := r.entries)
            else r.outcome == Refused
  {
  }

  lemma {:induction false} OthersFewer(credentials: seq<Credential>, id: nat)
    ensures |Others(credentials, id)| <= |credentials|
    ensures |Others(credentials, id)| == |credentials| <==> forall c | c in credentials :: c.id != id
  {
    if credentials != [] {
      OthersFewer(credentials[1..], id);
      assert credentials == [credentials[0]] + credentials[1..];
    }
  }

  // ---------- Several processes ----------

  datatype Event =
    | Issue(process: nat, now: int, printed: nat)
    | Start(process: nat, now: int)
    | Find(process: nat, token: nat, now: int)
    | TryCode(process: nat, token: nat, code: nat, now: int)
    | SignOut(process: nat, token: nat)
    | BeginRegistration(process: nat, token: nat, now: int)
    | CompleteRegistration(process: nat, token: nat, challenge: nat, verified: Option<Assertion>, now: int)
    | BeginAuthentication(process: nat, token: nat, now: int)
    | CompleteAuthentication(process: nat, token: nat, challenge: nat, verified: Option<Assertion>, now: int)
    | Delete(process: nat, token: nat, id: nat, now: int)
    | Restart(process: nat)

  /** `next` is the next fresh number. */
  datatype World = World(file: File, stores: seq<Store>, next: nat, log: seq<Entry>)

  function TokenOf(e: Event): nat {
    match e
    case Issue(_, _, _) => 0
    case Start(_, _) => 0
    case Restart(_) => 0
    case _ => e.token
  }

  ghost function Perform(w: World, e: Event): Result
    requires e.process < |w.stores|
  {
    var file := w.file;
    var store := w.stores[e.process];
    match e
    case Issue(_, now, printed) => IssueCode(file, store, now, w.next, w.next + 1, w.next + 2, printed)
    case Start(_, now) => NewSession(file, store, now, w.next)
    case Find(_, token, now) => FindSession(file, store, token, now)
    case TryCode(_, token, code, now) => LoginCode(file, store, token, code, now, w.next)
    case SignOut(_, token) => Logout(file, store, token)
    case BeginRegistration(_, token, now) => RegistrationBegin(file, store, token, now, w.next)
    case CompleteRegistration(_, token, challenge, verified, now) =>
      RegistrationComplete(file, store, token, challenge, verified, now)
    case BeginAuthentication(_, token, now) => AuthenticationBegin(file, store, token, now, w.next)
    case CompleteAuthentication(_, token, challenge, verified, now) =>
      AuthenticationComplete(file, store, token, challenge, verified, now, w.next)
    case Delete(_, token, id, now) => DeleteCredential(file, store, token, id, now, w.next)
    case Restart(_) => Result(file, store.(sessions := map[], challenges := map[]), Done, [])
  }

  ghost function Advance(w: World, e: Event): World
    requires e.process < |w.stores|
  {
    var r := Perform(w, e);
    World(r.file, w.stores[e.process := r.store], w.next + 3, w.log + r.entries)
  }

  function Count(log: seq<Entry>, e: Entry): nat {
    if log == [] then 0 else Count(log[..|log| - 1], e) + (if log[|log| - 1] == e then 1 else 0)
  }

  ghost predicate CodeInv(w: World) {
    && (w.file.code.Some? ==>
          var c := w.file.code.value;
          c.digest < w.next && Count(w.log, LoggedIn(c.digest)) == 0 && Count(w.log, Tried(c.digest)) + c.attempts == CODE_ATTEMPTS)
    && (forall d: nat :: Count(w.log, LoggedIn(d)) <= 1 && Count(w.log, Tried(d)) <= CODE_ATTEMPTS)
    && (forall d: nat | d >= w.next :: Count(w.log, Tried(d)) == 0 && Count(w.log, LoggedIn(d)) == 0)
  }

  ghost predicate ChallengesInv(w: World) {
    && (forall p, t | 0 <= p < |w.stores| && t in w.stores[p].challenges ::
          w.stores[p].challenges[t].id < w.next && Count(w.log, Consumed(w.stores[p].challenges[t].id)) == 0)
    && DistinctChallenges(w.stores)
    && (forall id: nat :: Count(w.log, Consumed(id)) <= 1)
    && (forall id: nat | id >= w.next :: Count(w.log, Consumed(id)) == 0)
  }

  ghost predicate Inv(w: World) {
    && FileInv(w.file) && w.file.generation < w.next && (forall p | 0 <= p < |w.stores| :: StoreInv(w.stores[p]))
    && CodeInv(w) && ChallengesInv(w)
  }

  ghost predicate Initial(w: World) {
    && FileInv(w.file) && w.file.code.None? && w.file.generation < w.next && w.log == []
    && forall p | 0 <= p < |w.stores| :: w.stores[p].sessions == map[] && w.stores[p].challenges == map[]
  }

  ghost predicate IsRun(trace: seq<World>, events: seq<Event>) {
    && |trace| == |events| + 1 && Initial(trace[0])
    && forall i | 0 <= i < |events| ::
         events[i].process < |trace[i].stores| && trace[i + 1] == Advance(trace[i], events[i])
  }

  lemma SwitchKeepsBounds(file: File, origin: string, user: nat)
    requires FileInv(file) && !OriginsFull(file, origin)
    ensures var file' := Switched(file, origin, user);
            && file'.origin !in file'.previous && |file'.previous| <= MAX_ORIGINS && IdentityInv(file'.identity)
            && forall o | o in file'.previous :: IdentityInv(file'.previous[o])
  {
    if file.origin != origin {
      var origins := file.previous[file.origin := file.identity];
      SubsetSize(origins.Keys, file.previous.Keys + {file.origin});
      SubsetSize((origins - {origin}).Keys, origins.Keys);
    }
  }

  lemma IssueOk(file: File, store: Store, now: int, secret: nat, printed: nat)
    requires FileInv(file) && StoreInv(store)
    ensures OpOk(file, store, IssueCode(file, store, now, secret, secret + 1, secret + 2, printed), 0, secret)
  {
    var r := IssueCode(file, store, now, secret, secret + 1, secret + 2, printed);
    if r.outcome.Refused? {
      ShrinkingOk(file, store, r, 0, secret);
    } else {
      SwitchKeepsBounds(file, store.origin, secret + 2);
      assert FileInv(r.file);
    }
  }

  /** An operation that changes nothing in the file and only loses entries of the maps. */
  lemma ShrinkingOk(file: File, store: Store, r: Result, token: nat, secret: nat)
    requires FileInv(file) && r.file == file && r.entries == [] && Shrunk(store, r.store)
    ensures OpOk(file, store, r, token, secret)
  {
  }

  lemma LoginOk(file: File, store: Store, token: nat, code: nat, now: int, secret: nat)
    requires FileInv(file) && StoreInv(store)
    ensures OpOk(file, store, LoginCode(file, store, token, code, now, secret), token, secret)
  {
    PruneShrinks(store, file, now);
    var pruned := Prune(store, file, now);
    var r := LoginCode(file, store, token, code, now, secret);
    if file.origin != store.origin {
      ShrinkingOk(file, store, r, token, secret);
    } else if !Permitted(pruned, token, false, false, now) || !Usable(file.code, now) {
      ShrinkingOk(file, store, r, token, secret);
    } else {
      LoginTry(file, store, token, code, now, secret);
      CodeUseOk(file, store, r, token, secret);
    }
  }

  lemma LoginTry(file: File, store: Store, token: nat, code: nat, now: int, secret: nat)
    requires FileInv(file) && StoreInv(store) && file.origin == store.origin
    requires Permitted(Prune(store, file, now), token, false, false, now) && Usable(file.code, now)
    ensures var (r, c) := (LoginCode(file, store, token, code, now, secret), file.code.value);
            && Shrunk(store, r.store) && r.file == file.(code := Spent(c, code)) && Fits(r.file)
            && if code != c.digest then r.entries == [Tried(c.digest)]
               else r.entries == [Tried(c.digest)] || r.entries == [Tried(c.digest), LoggedIn(c.digest)]
  {
    var pruned := Prune(store, file, now);
    PruneShrinks(store, file, now);
    SpentFits(file, code);
    LoginIs(file, store, token, code, now, secret);
    if code == file.code.value.digest {
      DropShrinks(pruned, token);
      OpenShrinks(file.(code := None), Drop(pruned, token), now, secret, true, None);
      OpenKeepsFile(file.(code := None), Drop(pruned, token), now, secret, true, None);
    }
  }

  lemma OpenKeepsFile(file: File, store: Store, now: int, token: nat, authenticated: bool, credential: Option<nat>)
    ensures Open(file, store, now, token, authenticated, credential).file == file
  {
  }

  /** A try of a usable code, whose write always fits. */
  lemma LoginIs(file: File, store: Store, token: nat, code: nat, now: int, secret: nat)
    requires file.origin == store.origin && Permitted(Prune(store, file, now), token, false, false, now) && Usable(file.code, now)
    requires Fits(file.(code := Spent(file.code.value, code)))
    ensures var (r, c, pruned) := (LoginCode(file, store, token, code, now, secret), file.code.value, Prune(store, file, now));
            if code != c.digest then r == Result(file.(code := Spent(c, code)), pruned, Refused, [Tried(c.digest)])
            else && r.entries == [Tried(c.digest)] + (if r.outcome.Opened? then [LoggedIn(c.digest)] else [])
                 && r == Open(file.(code := None), Drop(pruned, token), now, secret, true, None).(entries := r.entries)
  {
  }

  /** An operation that only spends an attempt, and possibly the code, and loses entries of the maps. */
  lemma CodeUseOk(file: File, store: Store, r: Result, token: nat, secret: nat)
    requires FileInv(file) && Shrunk(store, r.store) && r.file == file.(code := r.file.code) && Fits(r.file)
    requires file.code.Some? && file.code.value.attempts > 0
    requires var c := file.code.value;
             || (r.entries == [Tried(c.digest)] && r.file.code == Some(c.(attempts := c.attempts - 1)))
             || (r.file.code.None? && (r.entries == [Tried(c.digest)] || r.entries == [Tried(c.digest), LoggedIn(c.digest)]))
    ensures OpOk(file, store, r, token, secret)
  {
  }

  lemma RegistrationBeginOk(file: File, store: Store, token: nat, now: int, secret: nat)
    requires FileInv(file) && StoreInv(store)
    ensures OpOk(file, store, RegistrationBegin(file, store, token, now, secret), token, secret)
  {
    PruneShrinks(store, file, now);
  }

  lemma AuthenticationBeginOk(file: File, store: Store, token: nat, now: int, secret: nat)
    requires FileInv(file) && StoreInv(store)
    ensures OpOk(file, store, AuthenticationBegin(file, store, token, now, secret), token, secret)
  {
    PruneShrinks(store, file, now);
  }

  lemma BeginOk(file: File, store: Store, token: nat, now: int, secret: nat)
    requires FileInv(file) && StoreInv(store)
    ensures OpOk(file, store, RegistrationBegin(file, store, token, now, secret), token, secret)
    ensures OpOk(file, store, AuthenticationBegin(file, store, token, now, secret), token, secret)
  {
    RegistrationBeginOk(file, store, token, now, secret);
    AuthenticationBeginOk(file, store, token, now, secret);
  }

  /** Popping the challenge of a session, consumed or not. */
  lemma PopOk(file: File, store: Store, token: nat, kind: Kind, challenge: nat, now: int, r: Result, secret: nat)
    requires FileInv(file) && StoreInv(store) && FileInv(r.file)
    requires r.file.code == file.code && r.file.generation == file.generation
    requires Shrunk(Prune(store, file, now).(challenges := Prune(store, file, now).challenges - {token}), r.store)
    requires r.entries == [] || (r.entries == [Consumed(challenge)] && Matches(Prune(store, file, now), token, kind, challenge, now))
    ensures OpOk(file, store, r, token, secret)
  {
  }

  lemma PopShrinks(store: Store, token: nat)
    requires StoreInv(store)
    ensures Shrunk(store, store.(challenges := store.challenges - {token}))
  {
  }

  lemma RegistrationPops(
    file: File, store: Store, pruned: Store, token: nat, challenge: nat, verified: Option<Assertion>, now: int)
    requires FileInv(file) && StoreInv(pruned) && file.origin == store.origin
    requires pruned == Prune(store, file, now) && Permitted(pruned, token, true, true, now)
    ensures var r := RegistrationComplete(file, store, token, challenge, verified, now);
            && FileInv(r.file) && r.file.code == file.code && r.file.generation == file.generation
            && r.store == pruned.(challenges := pruned.challenges - {token})
            && (r.entries == [] || (r.entries == [Consumed(challenge)] && Matches(pruned, token, Register, challenge, now)))
  {
  }

  lemma RegistrationOk(file: File, store: Store, token: nat, challenge: nat, verified: Option<Assertion>, now: int, secret: nat)
    requires FileInv(file) && StoreInv(store)
    ensures OpOk(file, store, RegistrationComplete(file, store, token, challenge, verified, now), token, secret)
  {
    PruneShrinks(store, file, now);
    var pruned := Prune(store, file, now);
    PopShrinks(pruned, token);
    var r := RegistrationComplete(file, store, token, challenge, verified, now);
    if file.origin != store.origin {
      ShrinkingOk(file, store, r, token, secret);
    } else if !Permitted(pruned, token, true, true, now) {
      ShrinkingOk(file, store, r, token, secret);
    } else {
      RegistrationPops(file, store, pruned, token, challenge, verified, now);
      PopOk(file, store, token, Register, challenge, now, r, secret);
    }
  }

  lemma CounterKeepsFileInv(file: File, i: nat, counter: int)
    requires FileInv(file) && i < |file.identity.credentials|
    requires Fits(WithCredentials(file, file.identity.credentials[i := file.identity.credentials[i].(counter := counter)]))
    ensures var c := file.identity.credentials[i];
            FileInv(WithCredentials(file, file.identity.credentials[i := c.(counter := counter)]))
  {
  }

  lemma AuthenticationOk(
    file: File, store: Store, token: nat, challenge: nat, verified: Option<Assertion>, now: int, secret: nat)
    requires FileInv(file) && StoreInv(store)
    ensures OpOk(file, store, AuthenticationComplete(file, store, token, challenge, verified, now, secret), token, secret)
  {
    PruneShrinks(store, file, now);
    var pruned := Prune(store, file, now);
    var r := AuthenticationComplete(file, store, token, challenge, verified, now, secret);
    if file.origin != store.origin {
      ShrinkingOk(file, store, r, token, secret);
    } else if !Permitted(pruned, token, false, false, now) {
      ShrinkingOk(file, store, r, token, secret);
    } else {
      AuthenticationPops(file, store, token, challenge, verified, now, secret);
      PopOk(file, store, token, Authenticate, challenge, now, r, secret);
    }
  }

  /** An assertion is refused with the file unchanged, or it moves the counter in a file that fits. */
  lemma AuthenticationCases(
    file: File, store: Store, token: nat, challenge: nat, verified: Option<Assertion>, now: int, secret: nat)
    requires file.origin == store.origin && Permitted(Prune(store, file, now), token, false, false, now)
    ensures var r := AuthenticationComplete(file, store, token, challenge, verified, now, secret);
            var pruned := Prune(store, file, now);
            var popped := pruned.(challenges := pruned.challenges - {token});
            && (r.entries == [] || (r.entries == [Consumed(challenge)] && Matches(pruned, token, Authenticate, challenge, now)))
            && ((r.file == file && r.store == popped)
                || (&& verified.Some? && IndexOf(file.identity.credentials, verified.value.id).Some?
                    && var (a, before) := (verified.value, file.identity.credentials);
                       var i := IndexOf(before, a.id).value;
                       var file' := WithCredentials(file, before[i := before[i].(counter := a.counter)]);
                       Fits(file') && r == Open(file', Drop(popped, token), now, secret, true, Some(a.id)).(entries := r.entries)))
  {
  }

  lemma AuthenticationPops(
    file: File, store: Store, token: nat, challenge: nat, verified: Option<Assertion>, now: int, secret: nat)
    requires FileInv(file) && StoreInv(store) && file.origin == store.origin
    requires StoreInv(Prune(store, file, now)) && Permitted(Prune(store, file, now), token, false, false, now)
    ensures var r := AuthenticationComplete(file, store, token, challenge, verified, now, secret);
            var pruned := Prune(store, file, now);
            && FileInv(r.file) && r.file.code == file.code && r.file.generation == file.generation
            && Shrunk(pruned.(challenges := pruned.challenges - {token}), r.store)
            && (r.entries == [] || (r.entries == [Consumed(challenge)] && Matches(pruned, token, Authenticate, challenge, now)))
  {
    var pruned := Prune(store, file, now);
    var popped := pruned.(challenges := pruned.challenges - {token});
    var r := AuthenticationComplete(file, store, token, challenge, verified, now, secret);
    PopShrinks(pruned, token);
    AuthenticationCases(file, store, token, challenge, verified, now, secret);
    if !(r.file == file && r.store == popped) {
      var i := IndexOf(file.identity.credentials, verified.value.id).value;
      OpenedAfterCounter(file, popped, i, verified.value, token, now, secret);
    }
  }

  lemma OpenedAfterCounter(file: File, popped: Store, i: nat, a: Assertion, token: nat, now: int, secret: nat)
    requires FileInv(file) && StoreInv(popped) && i < |file.identity.credentials|
    requires Fits(WithCredentials(file, file.identity.credentials[i := file.identity.credentials[i].(counter := a.counter)]))
    ensures var file' := WithCredentials(file, file.identity.credentials[i := file.identity.credentials[i].(counter := a.counter)]);
            var r := Open(file', Drop(popped, token), now, secret, true, Some(a.id));
            FileInv(r.file) && r.file.code == file.code && r.file.generation == file.generation && Shrunk(popped, r.store)
  {
    CounterKeepsFileInv(file, i, a.counter);
    DropShrinks(popped, token);
    var file' := WithCredentials(file, file.identity.credentials[i := file.identity.credentials[i].(counter := a.counter)]);
    OpenShrinks(file', Drop(popped, token), now, secret, true, Some(a.id));
  }

  lemma DeleteOk(file: File, store: Store, token: nat, id: nat, now: int, secret: nat)
    requires FileInv(file) && StoreInv(store)
    ensures OpOk(file, store, DeleteCredential(file, store, token, id, now, secret), token, secret)
  {
    PruneShrinks(store, file, now);
    OthersFacts(file.identity.credentials, id);
  }

  lemma SessionEventOk(w: World, e: Event)
    requires Inv(w) && e.process < |w.stores| && (e.Start? || e.Find? || e.SignOut? || e.Restart?)
    ensures OpOk(w.file, w.stores[e.process], Perform(w, e), TokenOf(e), w.next)
  {
    var file := w.file;
    var store := w.stores[e.process];
    match e {
      case Start(_, now) => OpenShrinks(file, store, now, w.next, false, None);
      case Find(_, token, now) => PruneShrinks(store, file, now);
      case SignOut(_, token) => DropShrinks(store, token);
      case Restart(_) =>
    }
    ShrinkingOk(file, store, Perform(w, e), TokenOf(e), w.next);
  }

  lemma FileEventOk(w: World, e: Event)
    requires Inv(w) && e.process < |w.stores| && (e.Issue? || e.TryCode? || e.Delete?)
    ensures OpOk(w.file, w.stores[e.process], Perform(w, e), TokenOf(e), w.next)
  {
    var file, store := w.file, w.stores[e.process];
    if e.Issue? {
      IssueOk(file, store, e.now, w.next, e.printed);
    } else if e.TryCode? {
      LoginOk(file, store, e.token, e.code, e.now, w.next);
    } else {
      DeleteOk(file, store, e.token, e.id, e.now, w.next);
    }
  }

  lemma PasskeyEventOk(w: World, e: Event)
    requires Inv(w) && e.process < |w.stores|
    requires e.BeginRegistration? || e.BeginAuthentication? || e.CompleteRegistration? || e.CompleteAuthentication?
    ensures OpOk(w.file, w.stores[e.process], Perform(w, e), TokenOf(e), w.next)
  {
    var file, store := w.file, w.stores[e.process];
    if e.CompleteRegistration? {
      RegistrationOk(file, store, e.token, e.challenge, e.verified, e.now, w.next);
    } else if e.CompleteAuthentication? {
      AuthenticationOk(file, store, e.token, e.challenge, e.verified, e.now, w.next);
    } else {
      BeginOk(file, store, e.token, e.now, w.next);
    }
  }

  lemma PerformOk(w: World, e: Event)
    requires Inv(w) && e.process < |w.stores|
    ensures OpOk(w.file, w.stores[e.process], Perform(w, e), TokenOf(e), w.next)
  {
    if e.Issue? || e.TryCode? || e.Delete? {
      FileEventOk(w, e);
    } else if e.Start? || e.Find? || e.SignOut? || e.Restart? {
      SessionEventOk(w, e);
    } else {
      PasskeyEventOk(w, e);
    }
  }

  lemma {:induction false} CountAppend(log: seq<Entry>, more: seq<Entry>, e: Entry)
    ensures Count(log + more, e) == Count(log, e) + Count(more, e)
  {
    if more == [] {
      assert log + more == log;
    } else {
      var last := |more| - 1;
      assert (log + more)[..|log + more| - 1] == log + more[..last];
      CountAppend(log, more[..last], e);
    }
  }

  lemma CountAppendAll(log: seq<Entry>, more: seq<Entry>)
    ensures forall e :: Count(log + more, e) == Count(log, e) + Count(more, e)
  {
    forall e ensures Count(log + more, e) == Count(log, e) + Count(more, e) {
      CountAppend(log, more, e);
    }
  }

  lemma CountSmall(a: Entry, b: Entry)
    ensures forall e :: Count([], e) == 0
    ensures forall e :: Count([a], e) == if e == a then 1 else 0
    ensures forall e :: Count([a, b], e) == (if e == a then 1 else 0) + (if e == b then 1 else 0)
  {
    assert [a][..0] == [];
    forall e ensures Count([a, b], e) == (if e == a then 1 else 0) + (if e == b then 1 else 0) {
      assert [a, b] == [a] + [b];
      CountAppend([a], [b], e);
      assert [b][..0] == [];
    }
  }

  lemma {:induction false} CountAbsent(log: seq<Entry>, e: Entry)
    requires e !in log
    ensures Count(log, e) == 0
  {
    if log != [] {
      CountAbsent(log[..|log| - 1], e);
    }
  }

  lemma NoCodeEntries(entries: seq<Entry>)
    requires forall x | x in entries :: x.Consumed?
    ensures forall d :: Count(entries, Tried(d)) == 0 && Count(entries, LoggedIn(d)) == 0
  {
    forall d ensures Count(entries, Tried(d)) == 0 && Count(entries, LoggedIn(d)) == 0 {
      CountAbsent(entries, Tried(d));
      CountAbsent(entries, LoggedIn(d));
    }
  }

  lemma CodeInvKept(w: World, w': World, r: Result)
    requires CodeInv(w) && CodeStep(w.file, r, w.next)
    requires w'.file == r.file && w'.next == w.next + 3 && w'.log == w.log + r.entries
    ensures CodeInv(w')
  {
    CountAppendAll(w.log, r.entries);
    if forall x | x in r.entries :: x.Consumed? {
      NoCodeEntries(r.entries);
    } else {
      CodeUseKept(w, w', r, w.file.code.value);
    }
  }

  lemma CodeUseKept(w: World, w': World, r: Result, c: Code)
    requires CodeInv(w) && w.file.code == Some(c) && c.attempts > 0
    requires || (r.entries == [Tried(c.digest)] && w'.file.code == Some(c.(attempts := c.attempts - 1)))
             || (w'.file.code.None? && (r.entries == [Tried(c.digest)] || r.entries == [Tried(c.digest), LoggedIn(c.digest)]))
    requires w'.next == w.next + 3
    requires forall e :: Count(w'.log, e) == Count(w.log, e) + Count(r.entries, e)
    ensures CodeInv(w')
  {
    CountSmall(Tried(c.digest), LoggedIn(c.digest));
  }

  ghost predicate DistinctChallenges(stores: seq<Store>) {
    forall p, t, q, u | 0 <= p < |stores| && 0 <= q < |stores| && t in stores[p].challenges && u in stores[q].challenges
                        && stores[p].challenges[t].id == stores[q].challenges[u].id :: p == q && t == u
  }

  lemma DistinctKept(w: World, p: nat, r: Result, token: nat)
    requires ChallengesInv(w) && p < |w.stores| && ChallengeStep(w.stores[p], r, token, w.next)
    ensures DistinctChallenges(w.stores[p := r.store])
  {
    var stores := w.stores[p := r.store];
    forall q, t | 0 <= q < |stores| && t in stores[q].challenges
      ensures (t in w.stores[q].challenges && stores[q].challenges[t] == w.stores[q].challenges[t] && stores[q].challenges[t].id < w.next)
              || (q == p && t == token && stores[q].challenges[t].id == w.next)
    {
    }
  }

  lemma ChallengesInvKept(w: World, w': World, p: nat, r: Result, token: nat)
    requires ChallengesInv(w) && p < |w.stores| && ChallengeStep(w.stores[p], r, token, w.next)
    requires w'.stores == w.stores[p := r.store] && w'.next == w.next + 3 && w'.log == w.log + r.entries
    ensures ChallengesInv(w')
  {
    CountAppendAll(w.log, r.entries);
    DistinctKept(w, p, r, token);
    if exists x :: x in r.entries && x.Consumed? {
      var x :| x in r.entries && x.Consumed?;
      CountSmall(x, x);
      forall q, t | 0 <= q < |w'.stores| && t in w'.stores[q].challenges
        ensures t in w.stores[q].challenges && w'.stores[q].challenges[t] == w.stores[q].challenges[t]
        ensures w'.stores[q].challenges[t].id != x.challenge
      {
      }
    } else {
      forall id ensures Count(r.entries, Consumed(id)) == 0 {
        CountAbsent(r.entries, Consumed(id));
      }
      forall q, t | 0 <= q < |w'.stores| && t in w'.stores[q].challenges
        ensures w'.stores[q].challenges[t].id <= w.next
        ensures Count(w.log, Consumed(w'.stores[q].challenges[t].id)) == 0
      {
      }
    }
  }

  lemma StepKeepsInv(w: World, e: Event)
    requires Inv(w) && e.process < |w.stores|
    ensures Inv(Advance(w, e))
  {
    PerformOk(w, e);
    CodeInvKept(w, Advance(w, e), Perform(w, e));
    ChallengesInvKept(w, Advance(w, e), e.process, Perform(w, e), TokenOf(e));
  }

  lemma {:induction false} RunKeepsInv(trace: seq<World>, events: seq<Event>, n: nat)
    requires IsRun(trace, events) && n < |trace|
    ensures Inv(trace[n])
  {
    if n > 0 {
      RunKeepsInv(trace, events, n - 1);
      StepKeepsInv(trace[n - 1], events[n - 1]);
    }
  }

  // ---------- Main results ----------

  /** In every run of several processes: a code logs in at most once, is tried at most five times, and a challenge is consumed at most once. */
  lemma NothingIsUsedTwice(trace: seq<World>, events: seq<Event>, n: nat, value: nat)
    requires IsRun(trace, events) && n < |trace|
    ensures Count(trace[n].log, LoggedIn(value)) <= 1
    ensures Count(trace[n].log, Tried(value)) <= CODE_ATTEMPTS
    ensures Count(trace[n].log, Consumed(value)) <= 1
  {
    RunKeepsInv(trace, events, n);
  }

  /** Every challenge belongs to a session of its process, and the maps and the file stay bounded. */
  lemma ChallengesHaveSessions(trace: seq<World>, events: seq<Event>, n: nat, p: nat)
    requires IsRun(trace, events) && n < |trace| && p < |trace[n].stores|
    ensures trace[n].stores[p].challenges.Keys <= trace[n].stores[p].sessions.Keys
    ensures |trace[n].stores[p].sessions| <= MAX_SESSIONS
    ensures |trace[n].file.identity.credentials| <= MAX_CREDENTIALS && |trace[n].file.previous| <= MAX_ORIGINS
    ensures Fits(trace[n].file)
  {
    RunKeepsInv(trace, events, n);
  }

  // What a new generation revokes. A generation is an unordered fresh value: all that is used of its
  // number is that it was not in use before.

  /** The step gave the file a new generation. */
  ghost predicate Revokes(w: World, e: Event)
    requires e.process < |w.stores|
  {
    var outcome := Perform(w, e).outcome;
    (e.Issue? && outcome.Issued?) || (e.Delete? && outcome.Done?)
  }

  predicate UsesSession(e: Event) {
    !e.Issue? && !e.Start? && !e.Restart? && !e.SignOut?
  }

  /** A session is the one held before, or a fresh one of the file's generation. */
  ghost predicate KeptOrFresh(file: File, store: Store, r: Store, t: nat, secret: nat) {
    t in r.sessions ==>
      || (t in store.sessions && r.sessions[t] == store.sessions[t])
      || (t == secret && r.sessions[t].generation == file.generation)
  }

  lemma OpenSessions(file: File, store: Store, now: int, secret: nat, authenticated: bool, credential: Option<nat>, t: nat)
    ensures KeptOrFresh(file, store, Open(file, store, now, secret, authenticated, credential).store, t, secret)
  {
  }

  lemma LoginSessions(file: File, store: Store, token: nat, code: nat, now: int, secret: nat, t: nat)
    ensures KeptOrFresh(file, store, LoginCode(file, store, token, code, now, secret).store, t, secret)
  {
    var pruned, spent := Prune(store, file, now), file.(code := None);
    var after := Open(spent, Drop(pruned, token), now, secret, true, None).store;
    OpenSessions(spent, Drop(pruned, token), now, secret, true, None, t);
    assert KeptOrFresh(file, store, after, t, secret);
    LoginStores(file, store, token, code, now, secret);
  }

  lemma LoginStores(file: File, store: Store, token: nat, code: nat, now: int, secret: nat)
    ensures var (r, pruned) := (LoginCode(file, store, token, code, now, secret).store, Prune(store, file, now));
            r == store || r == pruned || r == Open(file.(code := None), Drop(pruned, token), now, secret, true, None).store
  {
  }

  lemma AuthenticationSessions(
    file: File, store: Store, token: nat, challenge: nat, verified: Option<Assertion>, now: int, secret: nat, t: nat)
    ensures KeptOrFresh(file, store, AuthenticationComplete(file, store, token, challenge, verified, now, secret).store, t, secret)
  {
    var r := AuthenticationComplete(file, store, token, challenge, verified, now, secret);
    if r.outcome.Opened? {
      OpenedFacts(file, store, token, challenge, verified, now, secret);
    }
  }

  /** The counter check an accepted assertion passed. */
  predicate CounterMoves(c: Credential, a: Assertion) {
    (c.counter == 0 && a.counter == 0) || a.counter > c.counter
  }

  /** What an accepted assertion has gone through: its passkey is stored, its counter is new, and nothing else changes in the file. */
  lemma OpenedFacts(
    file: File, store: Store, token: nat, challenge: nat, verified: Option<Assertion>, now: int, secret: nat)
    requires AuthenticationComplete(file, store, token, challenge, verified, now, secret).outcome.Opened?
    ensures verified.Some? && IndexOf(file.identity.credentials, verified.value.id).Some?
    ensures var (r, a, before) := (AuthenticationComplete(file, store, token, challenge, verified, now, secret), verified.value,
                                   file.identity.credentials);
            var i := IndexOf(before, a.id).value;
            && CounterMoves(before[i], a) && r.file == WithCredentials(file, before[i := before[i].(counter := a.counter)])
            && forall t: nat | t in r.store.sessions && t != secret :: t in store.sessions && r.store.sessions[t] == store.sessions[t]
    ensures secret in AuthenticationComplete(file, store, token, challenge, verified, now, secret).store.sessions
    ensures AuthenticationComplete(file, store, token, challenge, verified, now, secret).store.sessions[secret].generation == file.generation
  {
  }

  lemma SessionStep(w: World, e: Event, t: nat)
    requires e.process < |w.stores|
    ensures KeptOrFresh(w.file, w.stores[e.process], Perform(w, e).store, t, w.next)
  {
    var file, store := w.file, w.stores[e.process];
    if e.Start? {
      OpenSessions(file, store, e.now, w.next, false, None, t);
    } else if e.TryCode? {
      LoginSessions(file, store, e.token, e.code, e.now, w.next, t);
    } else if e.CompleteAuthentication? {
      AuthenticationSessions(file, store, e.token, e.challenge, e.verified, e.now, w.next, t);
    }
  }

  /** Tokens and generations in use are not fresh. */
  ghost predicate SessionsInv(w: World) {
    && w.file.generation < w.next
    && forall p, t | 0 <= p < |w.stores| && t in w.stores[p].sessions :: t < w.next && w.stores[p].sessions[t].generation < w.next
  }

  lemma SessionsInvKept(w: World, e: Event)
    requires Inv(w) && SessionsInv(w) && e.process < |w.stores|
    ensures SessionsInv(Advance(w, e))
  {
    var w' := Advance(w, e);
    PerformOk(w, e);
    forall p, t | 0 <= p < |w'.stores| && t in w'.stores[p].sessions ensures t < w'.next && w'.stores[p].sessions[t].generation < w'.next {
      if p == e.process {
        SessionStep(w, e, t);
      }
    }
  }

  lemma {:induction false} RunKeepsSessions(trace: seq<World>, events: seq<Event>, n: nat)
    requires IsRun(trace, events) && n < |trace|
    ensures SessionsInv(trace[n])
  {
    if n > 0 {
      RunKeepsSessions(trace, events, n - 1);
      RunKeepsInv(trace, events, n - 1);
      SessionsInvKept(trace[n - 1], events[n - 1]);
    }
  }

  /** Session `t` of process `p` is older than everything numbered from `floor` on, and the file is not. */
  ghost predicate Outdated(w: World, p: nat, t: nat, floor: nat) {
    && p < |w.stores| && t < floor <= w.next && floor <= w.file.generation
    && (t in w.stores[p].sessions ==> w.stores[p].sessions[t].generation < floor)
  }

  lemma OutdatedStep(w: World, e: Event, p: nat, t: nat, floor: nat)
    requires Inv(w) && e.process < |w.stores| && Outdated(w, p, t, floor)
    ensures Outdated(Advance(w, e), p, t, floor)
  {
    PerformOk(w, e);
    if p == e.process && t in Perform(w, e).store.sessions {
      SessionStep(w, e, t);
    }
  }

  lemma RevokingStep(w: World, e: Event, p: nat, t: nat)
    requires Inv(w) && SessionsInv(w) && e.process < |w.stores| && Revokes(w, e)
    requires p < |w.stores| && t in w.stores[p].sessions
    ensures Outdated(Advance(w, e), p, t, w.next)
  {
    if p == e.process && t in Perform(w, e).store.sessions {
      SessionStep(w, e, t);
    }
  }

  lemma OutdatedNext(trace: seq<World>, events: seq<Event>, k: nat, p: nat, t: nat, floor: nat)
    requires IsRun(trace, events) && k < |events| && Outdated(trace[k], p, t, floor)
    ensures Outdated(trace[k + 1], p, t, floor)
  {
    RunKeepsInv(trace, events, k);
    OutdatedStep(trace[k], events[k], p, t, floor);
  }

  lemma {:induction false} OutdatedStays(trace: seq<World>, events: seq<Event>, i: nat, j: nat, p: nat, t: nat, floor: nat)
    requires IsRun(trace, events) && i <= j < |trace| && Outdated(trace[i], p, t, floor)
    ensures Outdated(trace[j], p, t, floor)
  {
    forall k | i <= k < j && Outdated(trace[k], p, t, floor) ensures Outdated(trace[k + 1], p, t, floor) {
      OutdatedNext(trace, events, k, p, t, floor);
    }
    Carried(trace, i, j, (w: World) => Outdated(w, p, t, floor));
  }

  /** What every step keeps holds until the end. */
  lemma {:induction false} Carried(trace: seq<World>, i: nat, j: nat, holds: World -> bool)
    requires i <= j < |trace| && holds(trace[i])
    requires forall k | i <= k < j && holds(trace[k]) :: holds(trace[k + 1])
    ensures holds(trace[j])
    decreases j - i
  {
    if i < j {
      Carried(trace, i + 1, j, holds);
    }
  }

  lemma OutdatedOpensNothing(w: World, e: Event, floor: nat)
    requires e.process < |w.stores| && UsesSession(e) && Outdated(w, e.process, TokenOf(e), floor)
    ensures Perform(w, e).outcome.Refused? || Perform(w, e).outcome.Missing?
  {
    var now := e.now;
    assert TokenOf(e) !in Prune(w.stores[e.process], w.file, now).sessions;
  }

  /**
   In every run, whatever session a process holds when a code is issued or a passkey deleted, in that
   process or another, is revoked for good: at no later step is it found, nor does it open,
   begin, complete or delete anything.
   */
  lemma RevokedStaysRevoked(trace: seq<World>, events: seq<Event>, i: nat, j: nat, p: nat, t: nat)
    requires IsRun(trace, events) && i < j < |trace| && Revokes(trace[i], events[i])
    requires p < |trace[i].stores| && t in trace[i].stores[p].sessions
    ensures p < |trace[j].stores|
    ensures forall e: Event | e.process == p && UsesSession(e) && TokenOf(e) == t ::
              Perform(trace[j], e).outcome.Refused? || Perform(trace[j], e).outcome.Missing?
  {
    RunKeepsInv(trace, events, i);
    RunKeepsSessions(trace, events, i);
    RevokingStep(trace[i], events[i], p, t);
    OutdatedStays(trace, events, i + 1, j, p, t, trace[i].next);
    forall e: Event | e.process == p && UsesSession(e) && TokenOf(e) == t
      ensures Perform(trace[j], e).outcome.Refused? || Perform(trace[j], e).outcome.Missing?
    {
      OutdatedOpensNothing(trace[j], e, trace[i].next);
    }
  }

  /** A deletion takes the passkey with that ID and no other, and revokes the unused code and every session and challenge. */
  lemma DeletionRevokes(w: World, e: Event)
    requires e.Delete? && e.process < |w.stores| && Perform(w, e).outcome.Done?
    ensures var (file, file', after) := (w.file, Advance(w, e).file, Advance(w, e).stores[e.process]);
            && file'.code.None? && file'.generation == w.next && after.sessions == map[] && after.challenges == map[]
            && file'.origin == file.origin && file'.previous == file.previous && file'.identity.user == file.identity.user
            && forall c :: c in file'.identity.credentials <==> c in file.identity.credentials && c.id != e.id
  {
    OthersAre(w.file.identity.credentials, e.id);
  }

  lemma {:induction false} OthersAre(credentials: seq<Credential>, id: nat)
    ensures forall c :: c in Others(credentials, id) <==> c in credentials && c.id != id
  {
    if credentials != [] {
      OthersAre(credentials[1..], id);
      assert credentials == [credentials[0]] + credentials[1..];
    }
  }

  /** The step looks at the sessions, and so discards the outdated ones. */
  ghost predicate Looks(w: World, e: Event) {
    e.process < |w.stores| && w.file.origin == w.stores[e.process].origin && !e.Issue? && !e.SignOut? && !e.Restart?
  }

  /**
   When a session of a process ends: by a restart, by signing out of it, by a revocation, by being exchanged for a new
   one, or, once the process looks, by its age or a new generation. Until then it stays as it is.
   */
  lemma SessionEndsIff(w: World, e: Event, t: nat)
    requires Inv(w) && SessionsInv(w) && e.process < |w.stores| && t in w.stores[e.process].sessions
    ensures var (before, after) := (w.stores[e.process].sessions, Advance(w, e).stores[e.process].sessions);
            && (t in after ==> after[t] == before[t])
            && (t !in after <==>
                  || e.Restart? || Revokes(w, e) || (e.SignOut? && e.token == t)
                  || ((e.TryCode? || e.CompleteAuthentication?) && Perform(w, e).outcome.Opened? && e.token == t)
                  || (Looks(w, e) && !(before[t].expires > e.now && before[t].generation == w.file.generation)))
  {
    assert Advance(w, e).stores[e.process] == Perform(w, e).store;
    if e.TryCode? {
      CodeEnds(w, e, t);
    } else if e.CompleteAuthentication? {
      AssertionEnds(w, e, t);
    } else if e.Delete? || e.Issue? || e.SignOut? || e.Restart? {
      ClosingEnds(w, e, t);
    } else {
      LookingEnds(w, e, t);
    }
  }

  /** Only age or a new generation ends the session. */
  ghost predicate EndsByAge(w: World, e: Event, t: nat)
    requires e.process < |w.stores| && t in w.stores[e.process].sessions && !e.Restart? && !e.SignOut?
  {
    var session := w.stores[e.process].sessions[t];
    w.file.origin == w.stores[e.process].origin && !(session.expires > e.now && session.generation == w.file.generation)
  }

  lemma LookingEnds(w: World, e: Event, t: nat)
    requires SessionsInv(w) && e.process < |w.stores| && t in w.stores[e.process].sessions
    requires e.Start? || e.Find? || e.BeginRegistration? || e.BeginAuthentication? || e.CompleteRegistration?
    ensures var (before, after) := (w.stores[e.process].sessions, Perform(w, e).store.sessions);
            (t in after ==> after[t] == before[t]) && (t !in after <==> EndsByAge(w, e, t))
  {
  }

  lemma ClosingEnds(w: World, e: Event, t: nat)
    requires SessionsInv(w) && e.process < |w.stores| && t in w.stores[e.process].sessions
    requires e.Delete? || e.Issue? || e.SignOut? || e.Restart?
    ensures var (before, after) := (w.stores[e.process].sessions, Perform(w, e).store.sessions);
            && (t in after ==> after[t] == before[t])
            && (t !in after <==>
                  e.Restart? || Revokes(w, e) || (e.SignOut? && e.token == t) || (e.Delete? && EndsByAge(w, e, t)))
  {
  }

  /** Exchanging a session keeps the others that are unexpired and current. */
  lemma ExchangeKeeps(file: File, file': File, store: Store, between: Store, token: nat, now: int, secret: nat, credential: Option<nat>, t: nat)
    requires StoreInv(store) && file'.generation == file.generation && t in store.sessions && t != secret
    requires token in Prune(store, file, now).sessions && between.sessions == Prune(store, file, now).sessions
    ensures var (r, live) := (Open(file', Drop(between, token), now, secret, true, credential), Prune(store, file, now).sessions);
            && r.outcome.Opened? && (t in r.store.sessions <==> t in live && t != token)
            && (t in r.store.sessions ==> r.store.sessions[t] == store.sessions[t])
  {
    PruneShrinks(store, file, now);
    var live := Prune(store, file, now).sessions;
    var rest := live - {token};
    assert |rest| < |live| by {
      assert rest.Keys == live.Keys - {token};
    }
    assert Prune(Drop(between, token), file', now).sessions == rest;
  }

  lemma CodeEnds(w: World, e: Event, t: nat)
    requires Inv(w) && SessionsInv(w) && e.process < |w.stores| && t in w.stores[e.process].sessions && e.TryCode?
    ensures var (before, after) := (w.stores[e.process].sessions, Perform(w, e).store.sessions);
            && (t in after ==> after[t] == before[t])
            && (t !in after <==> EndsByAge(w, e, t) || (Perform(w, e).outcome.Opened? && e.token == t))
  {
    var file, store := w.file, w.stores[e.process];
    var pruned := Prune(store, file, e.now);
    LoginOutcomes(file, store, e.token, e.code, e.now, w.next);
    if e.token in pruned.sessions {
      ExchangeKeeps(file, file.(code := None), store, pruned, e.token, e.now, w.next, None, t);
    }
  }

  lemma AssertionEnds(w: World, e: Event, t: nat)
    requires Inv(w) && SessionsInv(w) && e.process < |w.stores| && t in w.stores[e.process].sessions && e.CompleteAuthentication?
    ensures var (before, after) := (w.stores[e.process].sessions, Perform(w, e).store.sessions);
            && (t in after ==> after[t] == before[t])
            && (t !in after <==> EndsByAge(w, e, t) || (Perform(w, e).outcome.Opened? && e.token == t))
  {
    var file, store := w.file, w.stores[e.process];
    AssertionStores(file, store, e.token, e.challenge, e.verified, e.now, w.next);
    var pruned := Prune(store, file, e.now);
    if e.token in pruned.sessions && e.verified.Some? && IndexOf(file.identity.credentials, e.verified.value.id).Some? {
      var file' := Counted(file, IndexOf(file.identity.credentials, e.verified.value.id).value, e.verified.value.counter);
      ExchangeKeeps(file, file', store, pruned.(challenges := pruned.challenges - {e.token}), e.token, e.now, w.next, Some(e.verified.value.id), t);
    }
  }

  lemma AssertionStores(
    file: File, store: Store, token: nat, challenge: nat, verified: Option<Assertion>, now: int, secret: nat)
    ensures var (r, pruned) := (AuthenticationComplete(file, store, token, challenge, verified, now, secret), Prune(store, file, now));
            var popped := pruned.(challenges := pruned.challenges - {token});
            || (r.outcome.Refused? && r.store.sessions == if file.origin == store.origin then pruned.sessions else store.sessions)
            || (file.origin == store.origin && token in pruned.sessions
                && verified.Some? && IndexOf(file.identity.credentials, verified.value.id).Some?
                && var file' := Counted(file, IndexOf(file.identity.credentials, verified.value.id).value, verified.value.counter);
                   var opening := Open(file', Drop(popped, token), now, secret, true, Some(verified.value.id));
                   r.store == opening.store && r.outcome == opening.outcome)
  {
  }

  /** Signing out closes one session and its challenge, and changes nothing else. */
  lemma SignOutCloses(w: World, e: Event)
    requires e.SignOut? && e.process < |w.stores|
    ensures var (before, after) := (w.stores[e.process], Advance(w, e).stores[e.process]);
            && Advance(w, e).file == w.file && after.origin == before.origin
            && e.token !in after.sessions && e.token !in after.challenges
            && (forall t | t != e.token ::
                  && (t in after.sessions <==> t in before.sessions) && (t in after.challenges <==> t in before.challenges)
                  && (t in before.sessions ==> after.sessions[t] == before.sessions[t])
                  && (t in before.challenges ==> after.challenges[t] == before.challenges[t]))
            && forall p | 0 <= p < |w.stores| && p != e.process :: Advance(w, e).stores[p] == w.stores[p]
  {
  }

  /** The token was given out, and its session is closed in the process. */
  ghost predicate Closed(w: World, p: nat, t: nat) {
    p < |w.stores| && t < w.next && t !in w.stores[p].sessions
  }

  lemma ClosedNext(w: World, e: Event, p: nat, t: nat)
    requires e.process < |w.stores| && Closed(w, p, t)
    ensures Closed(Advance(w, e), p, t)
  {
    if p == e.process {
      SessionStep(w, e, t);
    }
  }

  lemma ClosedOpensNothing(w: World, e: Event)
    requires e.process < |w.stores| && UsesSession(e) && Closed(w, e.process, TokenOf(e))
    ensures Perform(w, e).outcome.Refused? || Perform(w, e).outcome.Missing?
  {
    assert TokenOf(e) !in Prune(w.stores[e.process], w.file, e.now).sessions;
  }

  /** In every run, a session that was signed out of opens nothing in its process at any later step. */
  lemma SignedOutStaysOut(trace: seq<World>, events: seq<Event>, i: nat, j: nat)
    requires IsRun(trace, events) && i < j < |trace| && events[i].SignOut?
    requires events[i].process < |trace[i].stores| && events[i].token in trace[i].stores[events[i].process].sessions
    ensures var (p, t) := (events[i].process, events[i].token);
            && p < |trace[j].stores|
            && forall e: Event | e.process == p && UsesSession(e) && TokenOf(e) == t ::
                 Perform(trace[j], e).outcome.Refused? || Perform(trace[j], e).outcome.Missing?
  {
    var p, t := events[i].process, events[i].token;
    RunKeepsSessions(trace, events, i);
    SignOutCloses(trace[i], events[i]);
    forall k | i + 1 <= k < j && Closed(trace[k], p, t) ensures Closed(trace[k + 1], p, t) {
      ClosedNext(trace[k], events[k], p, t);
    }
    Carried(trace, i + 1, j, (w: World) => Closed(w, p, t));
    forall e: Event | e.process == p && UsesSession(e) && TokenOf(e) == t
      ensures Perform(trace[j], e).outcome.Refused? || Perform(trace[j], e).outcome.Missing?
    {
      ClosedOpensNothing(trace[j], e);
    }
  }

  /** In every run, a session that is found is unexpired and current, and was opened after every revocation so far. */
  lemma FoundSessionIsCurrent(trace: seq<World>, events: seq<Event>, n: nat, e: Event)
    requires IsRun(trace, events) && n < |trace| && e.Find? && e.process < |trace[n].stores|
    requires Perform(trace[n], e).outcome.Found?
    ensures var (session, sessions) := (Perform(trace[n], e).outcome.session, trace[n].stores[e.process].sessions);
            && e.token in sessions && session == sessions[e.token]
            && session.expires > e.now && session.generation == trace[n].file.generation
    ensures forall i | 0 <= i < n && Revokes(trace[i], events[i]) && e.process < |trace[i].stores| ::
              e.token !in trace[i].stores[e.process].sessions
  {
    forall i | 0 <= i < n && Revokes(trace[i], events[i]) && e.process < |trace[i].stores|
      ensures e.token !in trace[i].stores[e.process].sessions
    {
      if e.token in trace[i].stores[e.process].sessions {
        RevokedStaysRevoked(trace, events, i, n, e.process, e.token);
      }
    }
  }

  // Where sessions, codes and challenges come from.

  /** Step `k` opened this session: by a start, a code or an assertion. */
  ghost predicate OpenedBy(w: World, e: Event, p: nat, t: nat, session: Session) {
    && p < |w.stores| && e.process == p && Perform(w, e).outcome == Opened(t)
    && match e
       case Start(_, now) => session == Session(false, now + 600, w.file.generation, 0, None)
       case TryCode(_, _, _, now) => session == Session(true, now + 28800, w.file.generation, now, None)
       case CompleteAuthentication(_, _, _, verified, now) =>
         verified.Some? && session == Session(true, now + 28800, w.file.generation, now, Some(verified.value.id))
       case _ => false
  }

  ghost predicate IssuedBy(w: World, e: Event, origin: string, code: Code) {
    && e.Issue? && e.process < |w.stores| && w.stores[e.process].origin == origin && Perform(w, e).outcome.Issued?
    && code.digest == w.next + 1 && code.expires == e.now + 300
  }

  ghost predicate BegunBy(w: World, e: Event, p: nat, t: nat, challenge: Challenge) {
    && p < |w.stores| && e.process == p && (e.BeginRegistration? || e.BeginAuthentication?) && e.token == t
    && Perform(w, e).outcome == Begun(challenge.id)
    && challenge == Challenge(if e.BeginRegistration? then Register else Authenticate, e.now + 120, challenge.id)
  }

  lemma OpenOrigin(file: File, store: Store, now: int, secret: nat, authenticated: bool, credential: Option<nat>, t: nat)
    ensures var r := Open(file, store, now, secret, authenticated, credential);
            t in r.store.sessions ==>
              || (t in store.sessions && r.store.sessions[t] == store.sessions[t])
              || (r.outcome == Opened(t) && t == secret
                  && r.store.sessions[t] == Session(authenticated, now + (if authenticated then 28800 else 600), file.generation,
                                                    if authenticated then now else 0, credential))
    ensures forall u | u in Open(file, store, now, secret, authenticated, credential).store.challenges ::
              u in store.challenges && Open(file, store, now, secret, authenticated, credential).store.challenges[u] == store.challenges[u]
  {
  }

  /** A session in a store is an old one or the one the step opened. */
  lemma SessionOrigin(w: World, e: Event, t: nat)
    requires Inv(w) && e.process < |w.stores| && t in Perform(w, e).store.sessions
    ensures KeptOrOpened(w, e, t)
  {
    if e.Start? {
      StartOrigin(w, e, t);
    } else if e.TryCode? {
      LoggedInOrigin(w, e, t);
    } else if e.CompleteAuthentication? {
      AssertionOrigin(w, e, t);
    } else {
      OtherSessions(w, e, t);
    }
  }

  ghost predicate KeptOrOpened(w: World, e: Event, t: nat)
    requires e.process < |w.stores| && t in Perform(w, e).store.sessions
  {
    var before, session := w.stores[e.process].sessions, Perform(w, e).store.sessions[t];
    (t in before && session == before[t]) || OpenedBy(w, e, e.process, t, session)
  }

  lemma StartOrigin(w: World, e: Event, t: nat)
    requires e.process < |w.stores| && e.Start? && t in Perform(w, e).store.sessions
    ensures KeptOrOpened(w, e, t)
  {
    OpenOrigin(w.file, w.stores[e.process], e.now, w.next, false, None, t);
  }

  lemma LoggedInOrigin(w: World, e: Event, t: nat)
    requires Inv(w) && e.process < |w.stores| && e.TryCode? && t in Perform(w, e).store.sessions
    ensures KeptOrOpened(w, e, t)
  {
    LoginOrigin(w.file, w.stores[e.process], e.token, e.code, e.now, w.next, t);
  }

  lemma AssertionOrigin(w: World, e: Event, t: nat)
    requires Inv(w) && e.process < |w.stores| && e.CompleteAuthentication? && t in Perform(w, e).store.sessions
    ensures KeptOrOpened(w, e, t)
  {
    AuthenticationOrigin(w.file, w.stores[e.process], e.token, e.challenge, e.verified, e.now, w.next, t);
  }

  lemma OtherSessions(w: World, e: Event, t: nat)
    requires e.process < |w.stores| && t in Perform(w, e).store.sessions && !e.Start? && !e.TryCode? && !e.CompleteAuthentication?
    ensures t in w.stores[e.process].sessions && Perform(w, e).store.sessions[t] == w.stores[e.process].sessions[t]
  {
  }

  lemma LoginOrigin(file: File, store: Store, token: nat, code: nat, now: int, secret: nat, t: nat)
    requires StoreInv(store) && Fits(file) && t in LoginCode(file, store, token, code, now, secret).store.sessions
    ensures var r := LoginCode(file, store, token, code, now, secret);
            || (t in store.sessions && r.store.sessions[t] == store.sessions[t])
            || (r.outcome == Opened(t) && r.store.sessions[t] == Session(true, now + 28800, file.generation, now, None))
  {
    LoginSucceedsIff(file, store, token, code, now, secret);
    LoginSessions(file, store, token, code, now, secret, t);
    LoginKeepsOthers(file, store, token, code, now, secret, t);
  }

  lemma LoginKeepsOthers(file: File, store: Store, token: nat, code: nat, now: int, secret: nat, t: nat)
    requires t in LoginCode(file, store, token, code, now, secret).store.sessions
    ensures var r := LoginCode(file, store, token, code, now, secret);
            (t in store.sessions && r.store.sessions[t] == store.sessions[t]) || (r.outcome.Opened? && t == secret)
  {
    var pruned := Prune(store, file, now);
    OpenOrigin(file.(code := None), Drop(pruned, token), now, secret, true, None, t);
    LoginStores(file, store, token, code, now, secret);
    LoginOutcomes(file, store, token, code, now, secret);
  }

  lemma LoginOutcomes(file: File, store: Store, token: nat, code: nat, now: int, secret: nat)
    ensures var (r, pruned) := (LoginCode(file, store, token, code, now, secret), Prune(store, file, now));
            r.store == store || r.store == pruned
            || (r.store == Open(file.(code := None), Drop(pruned, token), now, secret, true, None).store
                && r.outcome == Open(file.(code := None), Drop(pruned, token), now, secret, true, None).outcome)
  {
  }

  lemma AuthenticationOrigin(
    file: File, store: Store, token: nat, challenge: nat, verified: Option<Assertion>, now: int, secret: nat, t: nat)
    requires StoreInv(store) && DistinctIds(file.identity.credentials)
    requires t in AuthenticationComplete(file, store, token, challenge, verified, now, secret).store.sessions
    ensures var r := AuthenticationComplete(file, store, token, challenge, verified, now, secret);
            || (t in store.sessions && r.store.sessions[t] == store.sessions[t])
            || (r.outcome == Opened(t) && verified.Some?
                && r.store.sessions[t] == Session(true, now + 28800, file.generation, now, Some(verified.value.id)))
  {
    var r := AuthenticationComplete(file, store, token, challenge, verified, now, secret);
    AuthenticationSucceedsIff(file, store, token, challenge, verified, now, secret);
    if r.outcome.Opened? {
      OpenedFacts(file, store, token, challenge, verified, now, secret);
    } else {
      AuthenticationKeeps(file, store, token, challenge, verified, now, secret, t);
    }
  }

  lemma AuthenticationKeeps(
    file: File, store: Store, token: nat, challenge: nat, verified: Option<Assertion>, now: int, secret: nat, t: nat)
    requires !AuthenticationComplete(file, store, token, challenge, verified, now, secret).outcome.Opened?
    requires t in AuthenticationComplete(file, store, token, challenge, verified, now, secret).store.sessions
    ensures t in store.sessions
    ensures AuthenticationComplete(file, store, token, challenge, verified, now, secret).store.sessions[t] == store.sessions[t]
  {
  }

  /** A code in the file is an older one with the same digest and expiry, or the one the step issued. */
  lemma CodeOrigin(w: World, e: Event)
    requires e.process < |w.stores| && Perform(w, e).file.code.Some?
    ensures var (file, file') := (w.file, Perform(w, e).file);
            || (file.code.Some? && file'.origin == file.origin && file'.code.value.digest == file.code.value.digest
                && file'.code.value.expires == file.code.value.expires)
            || IssuedBy(w, e, file'.origin, file'.code.value)
  {
    if e.CompleteAuthentication? {
      AuthenticationCode(w.file, w.stores[e.process], e.token, e.challenge, e.verified, e.now, w.next);
    } else if !e.Issue? {
      OtherCodes(w, e);
    }
  }

  lemma AuthenticationCode(
    file: File, store: Store, token: nat, challenge: nat, verified: Option<Assertion>, now: int, secret: nat)
    ensures var file' := AuthenticationComplete(file, store, token, challenge, verified, now, secret).file;
            file'.code == file.code && file'.origin == file.origin
  {
  }

  lemma OtherCodes(w: World, e: Event)
    requires e.process < |w.stores| && Perform(w, e).file.code.Some? && !e.Issue? && !e.CompleteAuthentication?
    ensures var (file, file') := (w.file, Perform(w, e).file);
            file.code.Some? && file'.origin == file.origin && file'.code.value.digest == file.code.value.digest
            && file'.code.value.expires == file.code.value.expires
  {
  }

  /** A pending challenge is an old one or the one the step began. */
  lemma ChallengeOrigin(w: World, e: Event, t: nat)
    requires e.process < |w.stores| && t in Perform(w, e).store.challenges
    ensures var before := w.stores[e.process].challenges;
            || (t in before && Perform(w, e).store.challenges[t] == before[t])
            || BegunBy(w, e, e.process, t, Perform(w, e).store.challenges[t])
  {
    var file, store := w.file, w.stores[e.process];
    if e.BeginRegistration? {
      RegistrationBeginsIff(file, store, e.token, e.now, w.next);
    } else if e.BeginAuthentication? {
      AuthenticationBeginsIff(file, store, e.token, e.now, w.next);
    } else if e.CompleteAuthentication? {
      AuthenticationChallenges(file, store, e.token, e.challenge, e.verified, e.now, w.next, t);
    } else if e.TryCode? {
      LoginStores(file, store, e.token, e.code, e.now, w.next);
    } else {
      OtherChallenges(w, e, t);
    }
  }

  lemma AuthenticationChallenges(
    file: File, store: Store, token: nat, challenge: nat, verified: Option<Assertion>, now: int, secret: nat, t: nat)
    requires t in AuthenticationComplete(file, store, token, challenge, verified, now, secret).store.challenges
    ensures t in store.challenges
    ensures AuthenticationComplete(file, store, token, challenge, verified, now, secret).store.challenges[t] == store.challenges[t]
  {
  }

  lemma OtherChallenges(w: World, e: Event, t: nat)
    requires e.process < |w.stores| && t in Perform(w, e).store.challenges
    requires !e.BeginRegistration? && !e.BeginAuthentication? && !e.CompleteAuthentication? && !e.TryCode?
    ensures t in w.stores[e.process].challenges && Perform(w, e).store.challenges[t] == w.stores[e.process].challenges[t]
  {
  }

  // Whatever is held in state `n` was opened, issued or begun by an earlier step.

  ghost predicate SessionsTraced(trace: seq<World>, events: seq<Event>, n: nat, stores: seq<Store>)
    requires n <= |events| < |trace|
  {
    forall p, t | 0 <= p < |stores| && t in stores[p].sessions ::
      exists k | 0 <= k < n :: OpenedBy(trace[k], events[k], p, t, stores[p].sessions[t])
  }

  ghost predicate CodeTraced(trace: seq<World>, events: seq<Event>, n: nat, file: File)
    requires n <= |events| < |trace|
  {
    file.code.Some? ==> exists k | 0 <= k < n :: IssuedBy(trace[k], events[k], file.origin, file.code.value)
  }

  ghost predicate ChallengesTraced(trace: seq<World>, events: seq<Event>, n: nat, stores: seq<Store>)
    requires n <= |events| < |trace|
  {
    forall p, t | 0 <= p < |stores| && t in stores[p].challenges ::
      exists k | 0 <= k < n :: BegunBy(trace[k], events[k], p, t, stores[p].challenges[t])
  }

  ghost predicate Traced(trace: seq<World>, events: seq<Event>, n: nat, w: World)
    requires n <= |events| < |trace|
  {
    && SessionsTraced(trace, events, n, w.stores) && CodeTraced(trace, events, n, w.file)
    && ChallengesTraced(trace, events, n, w.stores)
  }

  lemma {:induction false} RunIsTraced(trace: seq<World>, events: seq<Event>, n: nat)
    requires IsRun(trace, events) && n < |trace|
    ensures Traced(trace, events, n, trace[n])
  {
    if n > 0 {
      RunIsTraced(trace, events, n - 1);
      RunKeepsInv(trace, events, n - 1);
      AdvanceParts(trace[n - 1], events[n - 1]);
      TracedSessions(trace, events, n - 1, trace[n]);
      TracedCode(trace, events, n - 1, trace[n]);
      TracedChallenges(trace, events, n - 1, trace[n]);
    }
  }

  lemma AdvanceParts(w: World, e: Event)
    requires e.process < |w.stores|
    ensures Advance(w, e).file == Perform(w, e).file && Advance(w, e).stores == w.stores[e.process := Perform(w, e).store]
  {
  }

  lemma TracedSessions(trace: seq<World>, events: seq<Event>, n: nat, w': World)
    requires n < |events| < |trace| && Inv(trace[n]) && SessionsTraced(trace, events, n, trace[n].stores)
    requires events[n].process < |trace[n].stores|
    requires w'.stores == trace[n].stores[events[n].process := Perform(trace[n], events[n]).store]
    ensures SessionsTraced(trace, events, n + 1, w'.stores)
  {
    var w, e := trace[n], events[n];
    forall p, t | 0 <= p < |w'.stores| && t in w'.stores[p].sessions
      ensures exists k | 0 <= k < n + 1 :: OpenedBy(trace[k], events[k], p, t, w'.stores[p].sessions[t])
    {
      if p == e.process {
        SessionOrigin(w, e, t);
      }
      if t in w.stores[p].sessions && w'.stores[p].sessions[t] == w.stores[p].sessions[t] {
        var k :| 0 <= k < n && OpenedBy(trace[k], events[k], p, t, w.stores[p].sessions[t]);
      } else {
        assert OpenedBy(trace[n], events[n], p, t, w'.stores[p].sessions[t]);
      }
    }
  }

  lemma TracedCode(trace: seq<World>, events: seq<Event>, n: nat, w': World)
    requires n < |events| < |trace| && CodeTraced(trace, events, n, trace[n].file) && events[n].process < |trace[n].stores|
    requires w'.file == Perform(trace[n], events[n]).file
    ensures CodeTraced(trace, events, n + 1, w'.file)
  {
    var w, e := trace[n], events[n];
    if w'.file.code.Some? {
      CodeOrigin(w, e);
      if IssuedBy(w, e, w'.file.origin, w'.file.code.value) {
        assert IssuedBy(trace[n], events[n], w'.file.origin, w'.file.code.value);
      } else {
        var k :| 0 <= k < n && IssuedBy(trace[k], events[k], w.file.origin, w.file.code.value);
        assert IssuedBy(trace[k], events[k], w'.file.origin, w'.file.code.value);
      }
    }
  }

  lemma TracedChallenges(trace: seq<World>, events: seq<Event>, n: nat, w': World)
    requires n < |events| < |trace| && ChallengesTraced(trace, events, n, trace[n].stores) && events[n].process < |trace[n].stores|
    requires w'.stores == trace[n].stores[events[n].process := Perform(trace[n], events[n]).store]
    ensures ChallengesTraced(trace, events, n + 1, w'.stores)
  {
    var w, e := trace[n], events[n];
    forall p, t | 0 <= p < |w'.stores| && t in w'.stores[p].challenges
      ensures exists k | 0 <= k < n + 1 :: BegunBy(trace[k], events[k], p, t, w'.stores[p].challenges[t])
    {
      if p == e.process {
        ChallengeOrigin(w, e, t);
      }
      if t in w.stores[p].challenges && w'.stores[p].challenges[t] == w.stores[p].challenges[t] {
        var k :| 0 <= k < n && BegunBy(trace[k], events[k], p, t, w.stores[p].challenges[t]);
      } else {
        assert BegunBy(trace[n], events[n], p, t, w'.stores[p].challenges[t]);
      }
    }
  }

  /** In every run, a code login uses a code that the terminal issued for the same origin less than 300 seconds before. */
  lemma LoginNeedsIssuedCode(trace: seq<World>, events: seq<Event>, n: nat) returns (k: nat)
    requires IsRun(trace, events) && n < |events| && events[n].TryCode? && Perform(trace[n], events[n]).outcome.Opened?
    ensures k < n && events[k].Issue? && events[k].process < |trace[k].stores| && Perform(trace[k], events[k]).outcome.Issued?
    ensures trace[k].stores[events[k].process].origin == trace[n].stores[events[n].process].origin
    ensures events[n].code == trace[k].next + 1 && events[n].now < events[k].now + 300
  {
    RunIsTraced(trace, events, n);
    RunKeepsInv(trace, events, n);
    var e, w := events[n], trace[n];
    LoginSucceedsIff(w.file, w.stores[e.process], e.token, e.code, e.now, w.next);
    k :| 0 <= k < n && IssuedBy(trace[k], events[k], w.file.origin, w.file.code.value);
  }

  /** In every run, a passkey login answers a challenge that its own session began less than 120 seconds before. */
  lemma AssertionNeedsChallenge(trace: seq<World>, events: seq<Event>, n: nat) returns (k: nat)
    requires IsRun(trace, events) && n < |events| && events[n].CompleteAuthentication? && Perform(trace[n], events[n]).outcome.Opened?
    ensures k < n && events[k].BeginAuthentication? && events[k].process == events[n].process < |trace[k].stores|
    ensures events[k].token == events[n].token && Perform(trace[k], events[k]).outcome == Begun(events[n].challenge)
    ensures events[n].now < events[k].now + 120
  {
    RunIsTraced(trace, events, n);
    RunKeepsInv(trace, events, n);
    var e, w := events[n], trace[n];
    AuthenticationSucceedsIff(w.file, w.stores[e.process], e.token, e.challenge, e.verified, e.now, w.next);
    k :| 0 <= k < n && BegunBy(trace[k], events[k], e.process, e.token, w.stores[e.process].challenges[e.token]);
  }

  /**
   In every run, a step that brings a passkey the origin did not have is a registration at that origin, by a session
   that an accepted code or assertion opened in the same process less than 300 seconds before, with a
   challenge that this session began less than 120 seconds before.
   */
  lemma PasskeysComeFromLogins(trace: seq<World>, events: seq<Event>, n: nat, origin: string, c: Credential)
    returns (login: nat, begin: nat)
    requires IsRun(trace, events) && n < |events| && c in CredentialsOf(trace[n + 1].file, origin)
    requires forall x | x in CredentialsOf(trace[n].file, origin) :: x.id != c.id
    ensures events[n].CompleteRegistration? && Perform(trace[n], events[n]).outcome.Done? && trace[n].file.origin == origin
    ensures login < n && events[login].process == events[n].process < |trace[login].stores|
    ensures (events[login].TryCode? || events[login].CompleteAuthentication?)
            && Perform(trace[login], events[login]).outcome == Opened(events[n].token)
            && events[n].now < events[login].now + 300
    ensures begin < n && events[begin].BeginRegistration? && events[begin].process == events[n].process < |trace[begin].stores|
    ensures events[begin].token == events[n].token && Perform(trace[begin], events[begin]).outcome == Begun(events[n].challenge)
            && events[n].now < events[begin].now + 120
  {
    var e, w := events[n], trace[n];
    NewPasskeyIsRegistered(w, e, origin, c);
    RunIsTraced(trace, events, n);
    RegistrationSucceedsIff(w.file, w.stores[e.process], e.token, e.challenge, e.verified, e.now);
    login :| 0 <= login < n && OpenedBy(trace[login], events[login], e.process, e.token, w.stores[e.process].sessions[e.token]);
    begin :| 0 <= begin < n && BegunBy(trace[begin], events[begin], e.process, e.token, w.stores[e.process].challenges[e.token]);
  }

  lemma NewPasskeyIsRegistered(w: World, e: Event, origin: string, c: Credential)
    requires e.process < |w.stores| && c in CredentialsOf(Advance(w, e).file, origin)
    requires forall x | x in CredentialsOf(w.file, origin) :: x.id != c.id
    ensures w.file.origin == origin && Registers(w, e, c.id)
  {
    assert Guarded(w.file, origin, c.id, None);
    if !(w.file.origin == origin && Registers(w, e, c.id)) {
      GuardStep(w, e, origin, c.id, None);
    }
  }

  // What a passkey can still do after it was used or deleted.

  /** The passkeys of an origin, whether it is the present one or stored. */
  function CredentialsOf(file: File, origin: string): seq<Credential> {
    if file.origin == origin then file.identity.credentials
    else if origin in file.previous then file.previous[origin].credentials
    else []
  }

  /** A passkey of the origin is absent, or present with a counter not below the floor. */
  ghost predicate Guarded(file: File, origin: string, id: nat, floor: Option<int>) {
    forall c | c in CredentialsOf(file, origin) && c.id == id :: floor.Some? && c.counter >= floor.value
  }

  /** The step registers the passkey at the file's origin. */
  ghost predicate Registers(w: World, e: Event, id: nat)
    requires e.process < |w.stores|
  {
    e.CompleteRegistration? && e.verified.Some? && e.verified.value.id == id && Perform(w, e).outcome.Done?
  }

  lemma AuthenticationGuards(
    file: File, store: Store, token: nat, challenge: nat, verified: Option<Assertion>, now: int, secret: nat,
    origin: string, id: nat, floor: Option<int>)
    requires Guarded(file, origin, id, floor)
    ensures Guarded(AuthenticationComplete(file, store, token, challenge, verified, now, secret).file, origin, id, floor)
  {
    var file' := AuthenticationComplete(file, store, token, challenge, verified, now, secret).file;
    if file' != file && file.origin == origin {
      var i := IndexOf(file.identity.credentials, verified.value.id).value;
      forall c | c in file'.identity.credentials && c.id == id ensures floor.Some? && c.counter >= floor.value {
        var k :| 0 <= k < |file'.identity.credentials| && file'.identity.credentials[k] == c;
        assert file.identity.credentials[k] in file.identity.credentials && file.identity.credentials[k].id == id;
      }
    }
  }

  lemma DeletionGuards(
    file: File, store: Store, token: nat, deleted: nat, now: int, generation: nat, origin: string, id: nat, floor: Option<int>)
    requires Guarded(file, origin, id, floor)
    ensures Guarded(DeleteCredential(file, store, token, deleted, now, generation).file, origin, id, floor)
  {
    OthersFacts(file.identity.credentials, deleted);
  }

  lemma RegistrationGuards(w: World, e: Event, origin: string, id: nat, floor: Option<int>)
    requires e.process < |w.stores| && e.CompleteRegistration? && Guarded(w.file, origin, id, floor)
    requires w.file.origin == origin ==> !Registers(w, e, id)
    ensures Guarded(Perform(w, e).file, origin, id, floor)
  {
  }

  lemma IssueGuards(
    file: File, store: Store, now: int, generation: nat, code: nat, user: nat, printed: nat,
    origin: string, id: nat, floor: Option<int>)
    requires Guarded(file, origin, id, floor)
    ensures Guarded(IssueCode(file, store, now, generation, code, user, printed).file, origin, id, floor)
  {
  }

  lemma CredentialsStay(w: World, e: Event, origin: string)
    requires e.process < |w.stores| && !e.CompleteAuthentication? && !e.Delete? && !e.CompleteRegistration? && !e.Issue?
    ensures CredentialsOf(Perform(w, e).file, origin) == CredentialsOf(w.file, origin)
  {
  }

  lemma WriteGuards(w: World, e: Event, origin: string, id: nat, floor: Option<int>)
    requires e.process < |w.stores| && Guarded(w.file, origin, id, floor) && (e.CompleteAuthentication? || e.Delete? || e.Issue?)
    ensures Guarded(Perform(w, e).file, origin, id, floor)
  {
    var store := w.stores[e.process];
    if e.CompleteAuthentication? {
      AuthenticationGuards(w.file, store, e.token, e.challenge, e.verified, e.now, w.next, origin, id, floor);
    } else if e.Delete? {
      DeletionGuards(w.file, store, e.token, e.id, e.now, w.next, origin, id, floor);
    } else {
      IssueGuards(w.file, store, e.now, w.next, w.next + 1, w.next + 2, e.printed, origin, id, floor);
    }
  }

  lemma GuardStep(w: World, e: Event, origin: string, id: nat, floor: Option<int>)
    requires e.process < |w.stores| && Guarded(w.file, origin, id, floor)
    requires w.file.origin == origin ==> !Registers(w, e, id)
    ensures Guarded(Advance(w, e).file, origin, id, floor)
  {
    if e.CompleteAuthentication? || e.Delete? || e.Issue? {
      WriteGuards(w, e, origin, id, floor);
    } else if e.CompleteRegistration? {
      RegistrationGuards(w, e, origin, id, floor);
    } else {
      CredentialsStay(w, e, origin);
    }
  }

  /** The passkey was not registered again at the origin in the steps from `i` up to `j`. */
  ghost predicate NotRegistered(trace: seq<World>, events: seq<Event>, origin: string, id: nat, i: nat, j: nat)
    requires |trace| == |events| + 1 && j <= |events|
  {
    forall k | i <= k < j && events[k].process < |trace[k].stores| && trace[k].file.origin == origin ::
      !Registers(trace[k], events[k], id)
  }

  lemma GuardStays(
    trace: seq<World>, events: seq<Event>, origin: string, id: nat, floor: Option<int>, i: nat, j: nat)
    requires IsRun(trace, events) && i <= j <= |events| && NotRegistered(trace, events, origin, id, i, j)
    requires Guarded(trace[i].file, origin, id, floor)
    ensures Guarded(trace[j].file, origin, id, floor)
  {
    forall k | i <= k < j && Guarded(trace[k].file, origin, id, floor) ensures Guarded(trace[k + 1].file, origin, id, floor) {
      GuardStep(trace[k], events[k], origin, id, floor);
    }
    Carried(trace, i, j, (w: World) => Guarded(w.file, origin, id, floor));
  }

  lemma AcceptedSetsFloor(w: World, e: Event)
    requires e.process < |w.stores| && e.CompleteAuthentication? && e.verified.Some? && Perform(w, e).outcome.Opened?
    requires DistinctIds(w.file.identity.credentials)
    ensures Guarded(Advance(w, e).file, w.file.origin, e.verified.value.id, Some(e.verified.value.counter))
  {
    var a, before := e.verified.value, w.file.identity.credentials;
    OpenedFacts(w.file, w.stores[e.process], e.token, e.challenge, e.verified, e.now, w.next);
    CounterIsFloor(before, IndexOf(before, a.id).value, a);
  }

  lemma CounterIsFloor(before: seq<Credential>, i: nat, a: Assertion)
    requires DistinctIds(before) && i < |before| && before[i].id == a.id
    ensures forall c | c in before[i := before[i].(counter := a.counter)] && c.id == a.id :: c.counter >= a.counter
  {
  }

  /** A passkey that is absent opens nothing, and one with a counter below its floor neither. */
  lemma GuardedIsRefused(w: World, e: Event, floor: Option<int>)
    requires e.process < |w.stores| && e.CompleteAuthentication? && e.verified.Some?
    requires Guarded(w.file, w.file.origin, e.verified.value.id, floor)
    requires floor.Some? ==> e.verified.value.counter <= floor.value != 0
    ensures !Perform(w, e).outcome.Opened?
  {
    var credentials := w.file.identity.credentials;
    var found := IndexOf(credentials, e.verified.value.id);
    assert found.Some? ==> credentials[found.value] in credentials;
    if Perform(w, e).outcome.Opened? {
      OpenedFacts(w.file, w.stores[e.process], e.token, e.challenge, e.verified, e.now, w.next);
    }
  }

  /**
   In every run: after an accepted assertion, one of the same passkey whose counter is not above it, as
   a copied authenticator would send, is refused at every later step, in every process and session,
   unless the passkey was registered anew. Without counters the check does not apply.
   */
  lemma UsedCounterIsRefused(trace: seq<World>, events: seq<Event>, i: nat, j: nat)
    requires IsRun(trace, events) && i < j < |events| && trace[j].file.origin == trace[i].file.origin
    requires events[i].CompleteAuthentication? && events[i].verified.Some? && Perform(trace[i], events[i]).outcome.Opened?
    requires events[j].CompleteAuthentication? && events[j].verified.Some?
    requires var a, b := events[i].verified.value, events[j].verified.value;
             b.id == a.id && b.counter <= a.counter && a.counter != 0
    requires NotRegistered(trace, events, trace[i].file.origin, events[i].verified.value.id, i + 1, j)
    ensures !Perform(trace[j], events[j]).outcome.Opened?
  {
    var a := events[i].verified.value;
    RunKeepsInv(trace, events, i);
    AcceptedSetsFloor(trace[i], events[i]);
    GuardStays(trace, events, trace[i].file.origin, a.id, Some(a.counter), i + 1, j);
    GuardedIsRefused(trace[j], events[j], Some(a.counter));
  }

  /**
   In every run: a deleted passkey goes alone, and at no later step does it open a session, in any
   process, unless it was registered anew. The sessions it leaves behind are revoked with the old
   generation.
   */
  lemma DeletedCredentialIsRefused(trace: seq<World>, events: seq<Event>, i: nat, j: nat)
    requires IsRun(trace, events) && i < j < |events| && trace[j].file.origin == trace[i].file.origin
    requires events[i].Delete? && Perform(trace[i], events[i]).outcome.Done?
    requires NotRegistered(trace, events, trace[i].file.origin, events[i].id, i + 1, j)
    ensures forall c :: c in trace[i + 1].file.identity.credentials <==> c in trace[i].file.identity.credentials && c.id != events[i].id
    ensures Revokes(trace[i], events[i])
    ensures events[j].CompleteAuthentication? && events[j].verified.Some? && events[j].verified.value.id == events[i].id ==>
              !Perform(trace[j], events[j]).outcome.Opened?
  {
    var id := events[i].id;
    DeletionFacts(trace[i], events[i]);
    GuardStays(trace, events, trace[i].file.origin, id, None, i + 1, j);
    if events[j].CompleteAuthentication? && events[j].verified.Some? && events[j].verified.value.id == id {
      GuardedIsRefused(trace[j], events[j], None);
    }
  }

  lemma DeletionFacts(w: World, e: Event)
    requires e.process < |w.stores| && e.Delete? && Perform(w, e).outcome.Done?
    ensures var file := Advance(w, e).file;
            && (forall c :: c in file.identity.credentials <==> c in w.file.identity.credentials && c.id != e.id)
            && Guarded(file, w.file.origin, e.id, None)
  {
    OthersFacts(w.file.identity.credentials, e.id);
    OthersKeep(w.file.identity.credentials, e.id);
  }

  lemma {:induction false} OthersKeep(credentials: seq<Credential>, id: nat)
    ensures forall c | c in credentials && c.id != id :: c in Others(credentials, id)
  {
    if credentials != [] {
      OthersKeep(credentials[1..], id);
      assert credentials == [credentials[0]] + credentials[1..];
    }
  }

  /** No process at origin `a` issued a code in the steps from `i` up to `j`. */
  ghost predicate NoIssueAt(trace: seq<World>, events: seq<Event>, a: string, i: nat, j: nat)
    requires |trace| == |events| + 1 && j <= |events|
  {
    forall k | i <= k < j && events[k].Issue? ::
      events[k].process < |trace[k].stores| && trace[k].stores[events[k].process].origin != a
  }

  /** While other origins are in use, the identity of the origin that was left stays stored unchanged. */
  lemma {:induction false} LeftIdentityIsKept(trace: seq<World>, events: seq<Event>, a: string, identity: Identity, i: nat, j: nat)
    requires IsRun(trace, events) && i <= j <= |events| && NoIssueAt(trace, events, a, i, j)
    requires trace[i].file.origin != a && a in trace[i].file.previous && trace[i].file.previous[a] == identity
    ensures trace[j].file.origin != a && a in trace[j].file.previous && trace[j].file.previous[a] == identity
  {
    if i < j {
      LeftIdentityIsKept(trace, events, a, identity, i, j - 1);
      IdentityStays(trace[j - 1], events[j - 1], a, identity);
    }
  }

  lemma IdentityStays(w: World, e: Event, a: string, identity: Identity)
    requires e.process < |w.stores| && w.file.origin != a && a in w.file.previous && w.file.previous[a] == identity
    requires e.Issue? ==> w.stores[e.process].origin != a
    ensures var file := Advance(w, e).file; file.origin != a && a in file.previous && file.previous[a] == identity
  {
    if e.Issue? {
      IssueIs(w, e);
    } else {
      OriginsStay(w, e);
    }
  }

  lemma IssueIs(w: World, e: Event)
    requires e.process < |w.stores| && e.Issue?
    ensures Perform(w, e) == IssueCode(w.file, w.stores[e.process], e.now, w.next, w.next + 1, w.next + 2, e.printed)
    ensures Advance(w, e).file == Perform(w, e).file && Advance(w, e).stores == w.stores[e.process := Perform(w, e).store]
  {
  }

  lemma OriginsStay(w: World, e: Event)
    requires e.process < |w.stores| && !e.Issue?
    ensures Advance(w, e).file.origin == w.file.origin && Advance(w, e).file.previous == w.file.previous
  {
  }

  /**
   Switching to another origin and back restores the user ID and the passkeys, whatever happens in
   between, exactly when fewer than sixteen other origins are stored at the moment of return and the new
   code fits into the file in the place of the old one, which may be spent. Otherwise the return is
   refused and the file stays as it is, although it would have enlarged neither the table of origins nor
   the passkeys. A code that is still there and prints as long always leaves room.
   */
  lemma SwitchingBackRestores(trace: seq<World>, events: seq<Event>, i: nat, j: nat)
    requires IsRun(trace, events) && i < j < |events|
    requires events[i].Issue? && trace[i].stores[events[i].process].origin != trace[i].file.origin
    requires Perform(trace[i], events[i]).outcome.Issued?
    requires NoIssueAt(trace, events, trace[i].file.origin, i, j)
    requires events[j].Issue? && trace[j].stores[events[j].process].origin == trace[i].file.origin
    ensures (trace[j + 1].file.origin == trace[i].file.origin && trace[j + 1].file.identity == trace[i].file.identity)
       <==> |trace[j].file.previous| < MAX_ORIGINS && RoomForCode(trace[j].file, events[j].printed)
    ensures !(|trace[j].file.previous| < MAX_ORIGINS && RoomForCode(trace[j].file, events[j].printed)) ==>
              trace[j + 1].file == trace[j].file
    ensures trace[j].file.code.Some? && events[j].printed <= trace[j].file.code.value.printed ==>
              RoomForCode(trace[j].file, events[j].printed)
  {
    var a := trace[i].file.origin;
    SwitchStores(trace[i], events[i]);
    LeftIdentityIsKept(trace, events, a, trace[i].file.identity, i + 1, j);
    RunKeepsInv(trace, events, j);
    ReturnRestoresIff(trace[j], events[j]);
  }

  /** The new code in the place of the old one keeps the file within its limit. */
  ghost predicate RoomForCode(file: File, printed: nat) {
    FileSize(file) - CodeSize(file.code) + 104 + printed <= MAX_FILE_BYTES
  }

  lemma SwitchStores(w: World, e: Event)
    requires e.process < |w.stores| && e.Issue? && w.stores[e.process].origin != w.file.origin && Perform(w, e).outcome.Issued?
    ensures var file := Advance(w, e).file;
            file.origin != w.file.origin && w.file.origin in file.previous && file.previous[w.file.origin] == w.file.identity
  {
  }

  lemma ReturnRestoresIff(w: World, e: Event)
    requires Inv(w) && e.process < |w.stores| && e.Issue?
    requires w.stores[e.process].origin != w.file.origin && w.stores[e.process].origin in w.file.previous
    ensures var (file, origin) := (Advance(w, e).file, w.stores[e.process].origin);
            if |w.file.previous| < MAX_ORIGINS && RoomForCode(w.file, e.printed)
            then file.origin == origin && file.identity == w.file.previous[origin]
            else file == w.file
  {
    var origin := w.stores[e.process].origin;
    ReturnSize(w.file, origin, w.next + 2);
    var switched := Switched(w.file, origin, w.next + 2);
    CodeChangesSize(switched, w.next, Some(Code(w.next + 1, e.now + CODE_TTL, CODE_ATTEMPTS, e.printed)));
  }

  // ---------- Both refusals happen ----------

  function Stored(n: nat): (previous: map<string, Identity>)
    ensures |previous| == n && forall o | o in previous :: 0 < |o| <= n && o[0] == 'o'
    ensures forall o | o in previous :: previous[o] == Identity(0, [])
  {
    if n == 0 then map[] else Stored(n - 1)[seq(n, i => 'o') := Identity(0, [])]
  }

  /** Two processes issue one after the other, each for its own origin. */
  lemma TwoIssues(file: File, other: string, now: int, first: nat, second: nat) returns (trace: seq<World>, events: seq<Event>)
    requires FileInv(file) && file.code.None? && file.generation == 0
    ensures IsRun(trace, events) && |trace| == 3 && events == [Issue(1, now, first), Issue(0, now, second)] && trace[0].file == file
    ensures HasOrigins(trace[0], file.origin, other) && HasOrigins(trace[1], file.origin, other) && HasOrigins(trace[2], file.origin, other)
    ensures var r := IssueCode(file, Store(other, map[], map[]), now, 1, 2, 3, first);
            trace[1].file == r.file && Perform(trace[0], events[0]).outcome == r.outcome
  {
    var w0 := TwoProcesses(file, other);
    var e1, e2 := Issue(1, now, first), Issue(0, now, second);
    var w1 := IssueNext(w0, e1, file.origin, other);
    var w2 := IssueNext(w1, e2, file.origin, other);
    TwoSteps(w0, e1, w1, e2, w2);
    trace, events := [w0, w1, w2], [e1, e2];
  }

  lemma TwoProcesses(file: File, other: string) returns (w: World)
    requires FileInv(file) && file.code.None? && file.generation == 0
    ensures Initial(w) && HasOrigins(w, file.origin, other) && w.file == file && w.next == 1 && w.stores[1] == Store(other, map[], map[])
  {
    w := World(file, [Store(file.origin, map[], map[]), Store(other, map[], map[])], 1, []);
  }

  lemma TwoSteps(w0: World, e1: Event, w1: World, e2: Event, w2: World)
    requires Initial(w0) && e1.process < |w0.stores| && w1 == Advance(w0, e1) && e2.process < |w1.stores| && w2 == Advance(w1, e2)
    ensures IsRun([w0, w1, w2], [e1, e2])
  {
  }

  lemma IssueNext(w: World, e: Event, first: string, second: string) returns (w': World)
    requires HasOrigins(w, first, second) && e.Issue? && e.process < 2
    ensures w' == Advance(w, e) && HasOrigins(w', first, second)
    ensures var r := IssueCode(w.file, w.stores[e.process], e.now, w.next, w.next + 1, w.next + 2, e.printed);
            w'.file == r.file && Perform(w, e).outcome == r.outcome
  {
    w' := Advance(w, e);
    IssueIs(w, e);
  }

  ghost predicate HasOrigins(w: World, first: string, second: string) {
    |w.stores| == 2 && w.stores[0].origin == first && w.stores[1].origin == second
  }

  /** A run of two processes in which the return meets sixteen stored origins and is refused. */
  lemma SwitchingBackRefused(now: int) returns (trace: seq<World>, events: seq<Event>)
    ensures IsRun(trace, events) && |events| == 2
    ensures events[0].Issue? && trace[0].stores[events[0].process].origin != trace[0].file.origin
    ensures Perform(trace[0], events[0]).outcome.Issued? && NoIssueAt(trace, events, trace[0].file.origin, 0, 1)
    ensures events[1].Issue? && trace[1].stores[events[1].process].origin == trace[0].file.origin
    ensures |trace[1].file.previous| == MAX_ORIGINS && trace[2].file == trace[1].file && trace[2].file.origin != trace[0].file.origin
  {
    var previous := StoredOrigins(MAX_ORIGINS - 1);
    var file := File("a", 0, Identity(0, []), None, previous);
    SmallOriginsFit(file, now);
    trace, events := TwoIssues(file, "b", now, 17, 17);
    SwitchFills(file, Store("b", map[], map[]), now);
  }

  lemma StoredOrigins(n: nat) returns (previous: map<string, Identity>)
    ensures |previous| == n && "a" !in previous && "b" !in previous
    ensures forall o | o in previous :: previous[o] == Identity(0, []) && |o| <= n
  {
    previous := Stored(n);
    assert "a"[0] == 'a' && "b"[0] == 'b';
  }

  lemma SwitchFills(file: File, store: Store, now: int)
    requires file.origin == "a" && store.origin == "b" && |file.previous| == MAX_ORIGINS - 1
    requires "a" !in file.previous && "b" !in file.previous && Fits(IssuedFile(file, "b", now, 1, 2, 3, 17))
    ensures var r := IssueCode(file, store, now, 1, 2, 3, 17);
            r.outcome.Issued? && r.file.origin == "b" && |r.file.previous| == MAX_ORIGINS && "b" !in r.file.previous
  {
    var origins := file.previous["a" := file.identity];
    assert |origins| == 16 && origins - {"b"} == origins;
  }

  lemma {:induction false} EntriesBound(previous: map<string, Identity>)
    requires forall o | o in previous :: EntrySize(o, previous[o]) < 300
    ensures EntriesSize(previous) <= 300 * |previous|
    decreases |previous|
  {
    if previous != map[] {
      var o :| o in previous;
      EntriesRemove(previous, o);
      assert (previous - {o}).Keys == previous.Keys - {o};
      EntriesBound(previous - {o});
    }
  }

  lemma {:induction false} TextBound(s: string)
    ensures TextSize(s) <= 12 * |s|
  {
    if s != [] {
      TextBound(s[1..]);
    }
  }

  lemma SmallOriginsFit(file: File, now: int)
    requires file.origin == "a" && file.identity == Identity(0, []) && file.code.None? && |file.previous| == MAX_ORIGINS - 1
    requires "a" !in file.previous && "b" !in file.previous
    requires forall o | o in file.previous :: file.previous[o] == Identity(0, []) && |o| <= MAX_ORIGINS
    ensures Fits(file) && Fits(IssuedFile(file, "b", now, 1, 2, 3, 17))
  {
    var origins := file.previous["a" := file.identity];
    assert |origins| == 16 && origins - {"b"} == origins;
    forall o | o in origins ensures EntrySize(o, origins[o]) < 300 {
      assert |o| <= MAX_ORIGINS && origins[o] == Identity(0, []);
      TextBound(o);
    }
    EntriesBound(origins);
    EntriesRemove(origins, "a");
    assert origins - {"a"} == file.previous;
    TextBound("a");
    TextBound("b");
  }

  /** The passkeys of the file below: each entry takes 6531 bytes. */
  function Passkeys(n: nat): (credentials: seq<Credential>)
    ensures |credentials| == n && forall c | c in credentials :: c.id <= n
    ensures DistinctIds(credentials)
  {
    if n == 0 then [] else [Credential(n, 0, false, 6525)] + Passkeys(n - 1)
  }

  lemma {:induction false} PasskeysSize(n: nat)
    ensures ItemsSize(Passkeys(n)) == 6532 * n
  {
    if n > 0 {
      PasskeysSize(n - 1);
      assert Passkeys(n)[1..] == Passkeys(n - 1);
      assert |ChannelIds.Decimal(Passkeys(n)[0].counter)| == 1;
    }
  }

  lemma ManyPasskeys(n: nat) returns (credentials: seq<Credential>)
    ensures |credentials| == n && DistinctIds(credentials) && ItemsSize(credentials) == 6532 * n
  {
    credentials := Passkeys(n);
    PasskeysSize(n);
  }

  lemma {:induction false} PlainSize(s: string)
    requires forall c | c in s :: c != '"' && c != '\\' && ' ' <= c <= '~'
    ensures TextSize(s) == |s|
  {
    if s != [] {
      assert s[0] in s && forall c | c in s[1..] :: c in s;
      PlainSize(s[1..]);
    }
  }

  /**
   A run of two processes in which the file is full: with twenty passkeys stored for the first origin it
   has exactly 131072 bytes, and the return is refused because its code prints one digit longer.
   */
  lemma SwitchingBackOverflows(now: int) returns (trace: seq<World>, events: seq<Event>)
    ensures IsRun(trace, events) && |events| == 2
    ensures events[0].Issue? && trace[0].stores[events[0].process].origin != trace[0].file.origin
    ensures Perform(trace[0], events[0]).outcome.Issued? && NoIssueAt(trace, events, trace[0].file.origin, 0, 1)
    ensures events[1].Issue? && trace[1].stores[events[1].process].origin == trace[0].file.origin
    ensures |trace[1].file.previous| == 1 && FileSize(trace[1].file) == MAX_FILE_BYTES
    ensures !RoomForCode(trace[1].file, events[1].printed)
    ensures trace[2].file == trace[1].file && trace[2].file.origin != trace[0].file.origin
  {
    var credentials := ManyPasskeys(MAX_CREDENTIALS);
    var first, second := TwoOrigins();
    var file := File(first, 0, Identity(0, credentials), None, map[]);
    FullFile(file, second, now);
    trace, events := TwoIssues(file, second, now, 17, 18);
    CodeIsLonger(trace[1].file);
    assert NoIssueAt(trace, events, first, 0, 1);
    SwitchingBackRestores(trace, events, 0, 1);
  }

  lemma TwoOrigins() returns (first: string, second: string)
    ensures first != second && TextSize(first) == 13 && TextSize(second) == 14
  {
    first :| first == "https://a.net";
    second :| second == "https://bb.net";
    IsPlain(first, second);
    PlainSize(first);
    PlainSize(second);
  }

  lemma IsPlain(first: string, second: string)
    requires first == "https://a.net" && second == "https://bb.net"
    ensures forall c | c in first + second :: c != '"' && c != '\\' && ' ' <= c <= '~'
    ensures |first| == 13 && |second| == 14 && forall c :: c in first || c in second ==> c in first + second
  {
  }

  lemma CodeIsLonger(file: File)
    requires FileSize(file) == MAX_FILE_BYTES && file.code.Some? && file.code.value.printed == 17
    ensures !RoomForCode(file, 18)
  {
  }

  lemma FullFile(file: File, second: string, now: int)
    requires file == File(file.origin, 0, file.identity, None, map[])
    requires IdentityInv(file.identity) && file.identity.credentials != [] && ItemsSize(file.identity.credentials) == 130640
    requires second != file.origin && TextSize(file.origin) == 13 && TextSize(second) == 14
    ensures FileInv(file)
    ensures var r := IssueCode(file, Store(second, map[], map[]), now, 1, 2, 3, 17);
            && r.outcome.Issued? && FileSize(r.file) == MAX_FILE_BYTES && |r.file.previous| == 1
            && r.file.origin == second && r.file.code.Some? && r.file.code.value.printed == 17
  {
    var origins := map[file.origin := file.identity];
    EntriesRemove(origins, file.origin);
    assert origins - {file.origin} == map[];
    assert map[][file.origin := file.identity] - {second} == origins;
    assert Switched(file, second, 3) == file.(origin := second, identity := Identity(3, []), previous := origins);
  }
}
