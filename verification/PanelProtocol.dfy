/** The panel's credential and session protocol as a step relation at lock granularity: account-lock
    sections, session-lock sections, and verifier derivation outside both locks, interleaved by any
    number of request handlers. */
module PanelProtocol {
  import opened Basics
  import S = SessionStores
  import A = AccountStores

  type Handler = nat

  // Epochs are numbered in order of creation: renewal always yields a number never used before.
  datatype Grant = Grant(epoch: nat, username: string, password: string, doc: A.Document)

  datatype Change = Change(key: S.Key, csrf: string, current: string, replacement: string)

  /** Where a request handler stands between two lock sections. */
  datatype Phase =
    | Idle
    | LoginStarted(epoch: nat, username: string, password: string)
    | LoginLoaded(grant: Grant)
    | LoginVerified(grant: Grant, valid: bool)
    | SetupStarted(epoch: nat, username: string, password: string)
    | Granted(grant: Grant)
    | Issuing(grant: Grant)
    | ChangeStarted(change: Change)
    | ChangeLoaded(change: Change, doc: A.Document)
    | ChangeDerived(change: Change, doc: A.Document, verifier: string)
    | Committing(change: Change, doc: A.Document, verifier: string)
    | CommitRevoked(change: Change, doc: A.Document, verifier: string)
    | Authorizing(key: Option<S.Key>)
    | LookingUp(key: Option<S.Key>, now: int)

  // `holder` owns the account lock across steps, and `clock` never goes back. The last four fields are
  // history: for every key ever issued the grant behind it, how often setup succeeded, how often a request
  // was authorised, and whether a commit failed after its revocation.
  datatype State = State(
    account: A.Account,
    table: S.Table<nat>,
    holder: Option<Handler>,
    clock: int,
    phases: map<Handler, Phase>,
    origin: map<S.Key, Grant>,
    setups: nat,
    authorised: nat,
    commitFailed: bool)

  // A request reads the clock after its account check and before it takes the session lock, so `ReadClock`
  // is a step of its own. The other steps take any time at all.
  datatype Step =
    | CaptureForLogin(h: Handler, username: string, password: string)
    | LoadForLogin(h: Handler, reply: A.LoadReply)
    | VerifyLogin(h: Handler, derived: bool)
    | RecheckLogin(h: Handler, reply: A.LoadReply)
    | CaptureForSetup(h: Handler, username: string, password: string)
    | RunSetup(h: Handler, reply: A.LoadReply, hashed: Option<string>, write: A.WriteReply)
    | EnterIssue(h: Handler, reply: A.LoadReply)
    | CreateSession(h: Handler, now: int, entropy: Option<(S.Key, string)>)
    | FindForChange(h: Handler, change: Change, now: int)
    | LoadForChange(h: Handler, reply: A.LoadReply)
    | DeriveForChange(h: Handler, hashed: Option<string>)
    | EnterCommit(h: Handler, cancelled: bool, reply: A.LoadReply)
    | RevokeForCommit(h: Handler, now: int)
    | CommitReplacement(h: Handler, write: A.WriteReply)
    | BeginAuthorize(h: Handler, key: Option<S.Key>, reply: A.LoadReply)
    | ReadClock(h: Handler)
    | FinishAuthorize(h: Handler)
    | Tick(now: int)
    | ProbeConfigured(reply: A.LoadReply)
    | FindSession(key: Option<S.Key>, now: int)
    | RevokeSession(key: Option<S.Key>)
    | LogoutAll(key: Option<S.Key>, csrf: string, now: int)
    | CloseStore

  function PhaseOf(s: State, h: Handler): Phase {
    if h in s.phases then s.phases[h] else Idle
  }

  function Goto(s: State, h: Handler, p: Phase): State {
    s.(phases := s.phases[h := p])
  }

  // -- Login ----------------------------------------------------------------------------------------

  function StepCaptureForLogin(s: State, h: Handler, username: string, password: string): Option<State> {
    if !PhaseOf(s, h).Idle? then None
    else Some(Goto(s, h, LoginStarted(s.table.epoch, username, password)))
  }

  function StepLoadForLogin(kdf: A.Kdf, s: State, h: Handler, reply: A.LoadReply): Option<State> {
    var p := PhaseOf(s, h);
    if !p.LoginStarted? || s.holder.Some? then None
    else if !kdf.passwordOk(p.password) then Some(Goto(s, h, Idle))
    else
      var (account, loaded) := A.Load(kdf, s.account, reply);
      var next := if loaded.Ok? then LoginLoaded(Grant(p.epoch, p.username, p.password, loaded.value)) else Idle;
      Some(Goto(s.(account := account), h, next))
  }

  function StepVerifyLogin(kdf: A.Kdf, s: State, h: Handler, derived: bool): Option<State> {
    var p := PhaseOf(s, h);
    if !p.LoginLoaded? then None
    else if !derived then Some(Goto(s, h, Idle))
    else Some(Goto(s, h, LoginVerified(p.grant, Proper(kdf, p.grant))))
  }

  function StepRecheckLogin(kdf: A.Kdf, s: State, h: Handler, reply: A.LoadReply): Option<State> {
    var p := PhaseOf(s, h);
    if !p.LoginVerified? || s.holder.Some? then None
    else
      var (account, verdict) := A.Recheck(kdf, s.account, p.grant.doc, p.valid, reply);
      var next := if verdict == Ok(true) then Granted(p.grant) else Idle;
      Some(Goto(s.(account := account), h, next))
  }

  // -- Setup ----------------------------------------------------------------------------------------

  function StepCaptureForSetup(s: State, h: Handler, username: string, password: string): Option<State> {
    if !PhaseOf(s, h).Idle? then None
    else Some(Goto(s, h, SetupStarted(s.table.epoch, username, password)))
  }

  function StepRunSetup(kdf: A.Kdf, s: State, h: Handler, reply: A.LoadReply, hashed: Option<string>,
                        write: A.WriteReply): Option<State>
  {
    var p := PhaseOf(s, h);
    // A derived verifier accepts the password it was derived from.
    if !p.SetupStarted? || s.holder.Some? || (hashed.Some? && !kdf.accepts(p.password, hashed.value)) then None
    else
      var (account, done) := A.Setup(kdf, s.account, p.username, p.password, reply, hashed, write);
      if done.Err? then Some(Goto(s.(account := account), h, Idle))
      else Some(Goto(s.(account := account, setups := s.setups + 1), h,
                     Granted(Grant(p.epoch, p.username, p.password, done.value))))
  }

  // -- Issuing --------------------------------------------------------------------------------------

  function StepEnterIssue(kdf: A.Kdf, s: State, h: Handler, reply: A.LoadReply): Option<State> {
    var p := PhaseOf(s, h);
    if !p.Granted? || s.holder.Some? then None
    else
      var (account, loaded) := A.Load(kdf, s.account, reply);
      if loaded.Err? then Some(Goto(s.(account := account), h, Idle))
      else Some(Goto(s.(account := account, holder := Some(h)), h, Issuing(p.grant)))
  }

  function StepCreateSession(s: State, h: Handler, now: int, entropy: Option<(S.Key, string)>): Option<State> {
    var p := PhaseOf(s, h);
    // Random tokens never repeat.
    if !p.Issuing? || (entropy.Some? && entropy.value.0 in s.origin) then None
    else
      var released := Goto(s.(holder := None), h, Idle);
      if entropy.None? then Some(released)
      else
        var (table, made) := S.Issue(s.table, now, Some(p.grant.epoch), entropy.value.0, entropy.value.1);
        Some(released.(table := table,
                       origin := if made.Ok? then s.origin[entropy.value.0 := p.grant] else s.origin))
  }

  // -- Password change ------------------------------------------------------------------------------

  function StepFindForChange(s: State, h: Handler, change: Change, now: int): Option<State> {
    if !PhaseOf(s, h).Idle? then None
    else
      var (table, found) := S.Find(s.table, Some(change.key), now);
      var next := if found.Some? && found.value.csrf == change.csrf then ChangeStarted(change) else Idle;
      Some(Goto(s.(table := table), h, next))
  }

  function StepLoadForChange(kdf: A.Kdf, s: State, h: Handler, reply: A.LoadReply): Option<State> {
    var p := PhaseOf(s, h);
    if !p.ChangeStarted? || s.holder.Some? then None
    else if !kdf.passwordOk(p.change.current) || !kdf.passwordOk(p.change.replacement) ||
            p.change.current == p.change.replacement then Some(Goto(s, h, Idle))
    else
      var (account, loaded) := A.Load(kdf, s.account, reply);
      var next := if loaded.Ok? && loaded.value.revision != MAX_UINT64 then ChangeLoaded(p.change, loaded.value)
                  else Idle;
      Some(Goto(s.(account := account), h, next))
  }

  function StepDeriveForChange(kdf: A.Kdf, s: State, h: Handler, hashed: Option<string>): Option<State> {
    var p := PhaseOf(s, h);
    if !p.ChangeLoaded? || (hashed.Some? && !kdf.accepts(p.change.replacement, hashed.value)) then None
    else if hashed.None? || !kdf.accepts(p.change.current, p.doc.verifier) then Some(Goto(s, h, Idle))
    else Some(Goto(s, h, ChangeDerived(p.change, p.doc, hashed.value)))
  }

  function StepEnterCommit(kdf: A.Kdf, s: State, h: Handler, cancelled: bool, reply: A.LoadReply): Option<State> {
    var p := PhaseOf(s, h);
    if !p.ChangeDerived? || s.holder.Some? then None
    else if cancelled then Some(Goto(s, h, Idle))
    else
      var (account, loaded) := A.Load(kdf, s.account, reply);
      if loaded != Ok(p.doc) then Some(Goto(s.(account := account), h, Idle))
      else Some(Goto(s.(account := account, holder := Some(h)), h, Committing(p.change, p.doc, p.verifier)))
  }

  function StepRevokeForCommit(s: State, h: Handler, now: int): Option<State> {
    var p := PhaseOf(s, h);
    if !p.Committing? then None
    else
      var (table, revoked) := S.RevokeAll(s.table, Some(p.change.key), p.change.csrf, now, s.table.epoch + 1);
      if revoked.Err? then Some(Goto(s.(holder := None), h, Idle))
      else Some(Goto(s.(table := table), h, CommitRevoked(p.change, p.doc, p.verifier)))
  }

  function StepCommitReplacement(kdf: A.Kdf, s: State, h: Handler, write: A.WriteReply): Option<State> {
    var p := PhaseOf(s, h);
    if !p.CommitRevoked? then None
    else
      var (account, done) := A.Replace(kdf, s.account, p.doc.revision, p.verifier, write);
      Some(Goto(s.(account := account, holder := None, commitFailed := s.commitFailed || done.Err?), h, Idle))
  }

  // -- Authorisation and session-lock steps ---------------------------------------------------------

  function StepBeginAuthorize(kdf: A.Kdf, s: State, h: Handler, key: Option<S.Key>, reply: A.LoadReply): Option<State> {
    if !PhaseOf(s, h).Idle? || s.holder.Some? then None
    else
      var (account, loaded) := A.Load(kdf, s.account, reply);
      Some(Goto(s.(account := account), h, if loaded.Ok? then Authorizing(key) else Idle))
  }

  function StepReadClock(s: State, h: Handler): Option<State> {
    var p := PhaseOf(s, h);
    if !p.Authorizing? then None else Some(Goto(s, h, LookingUp(p.key, s.clock)))
  }

  function StepFinishAuthorize(s: State, h: Handler): Option<State> {
    var p := PhaseOf(s, h);
    if !p.LookingUp? then None
    else
      var (table, found) := S.Find(s.table, p.key, p.now);
      Some(Goto(s.(table := table, authorised := if found.Some? then s.authorised + 1 else s.authorised), h, Idle))
  }

  function StepTick(s: State, now: int): Option<State> {
    if now < s.clock then None else Some(s.(clock := now))
  }

  function StepProbeConfigured(kdf: A.Kdf, s: State, reply: A.LoadReply): Option<State> {
    if s.holder.Some? then None else Some(s.(account := A.Load(kdf, s.account, reply).0))
  }

  function StepLogoutAll(s: State, key: Option<S.Key>, csrf: string, now: int): Option<State> {
    Some(s.(table := S.RevokeAll(s.table, key, csrf, now, s.table.epoch + 1).0))
  }

  function StepClose(s: State): Option<State> {
    if s.holder.Some? then None else Some(s.(account := A.Close(s.account)))
  }

  /** The state after one step, or nothing when the step is not enabled. */
  function Next(kdf: A.Kdf, s: State, step: Step): Option<State> {
    match step
    case CaptureForLogin(h, username, password) => StepCaptureForLogin(s, h, username, password)
    case LoadForLogin(h, reply) => StepLoadForLogin(kdf, s, h, reply)
    case VerifyLogin(h, derived) => StepVerifyLogin(kdf, s, h, derived)
    case RecheckLogin(h, reply) => StepRecheckLogin(kdf, s, h, reply)
    case CaptureForSetup(h, username, password) => StepCaptureForSetup(s, h, username, password)
    case RunSetup(h, reply, hashed, write) => StepRunSetup(kdf, s, h, reply, hashed, write)
    case EnterIssue(h, reply) => StepEnterIssue(kdf, s, h, reply)
    case CreateSession(h, now, entropy) => StepCreateSession(s, h, now, entropy)
    case FindForChange(h, change, now) => StepFindForChange(s, h, change, now)
    case LoadForChange(h, reply) => StepLoadForChange(kdf, s, h, reply)
    case DeriveForChange(h, hashed) => StepDeriveForChange(kdf, s, h, hashed)
    case EnterCommit(h, cancelled, reply) => StepEnterCommit(kdf, s, h, cancelled, reply)
    case RevokeForCommit(h, now) => StepRevokeForCommit(s, h, now)
    case CommitReplacement(h, write) => StepCommitReplacement(kdf, s, h, write)
    case BeginAuthorize(h, key, reply) => StepBeginAuthorize(kdf, s, h, key, reply)
    case ReadClock(h) => StepReadClock(s, h)
    case FinishAuthorize(h) => StepFinishAuthorize(s, h)
    case Tick(now) => StepTick(s, now)
    case ProbeConfigured(reply) => StepProbeConfigured(kdf, s, reply)
    case FindSession(key, now) => Some(s.(table := S.Find(s.table, key, now).0))
    case RevokeSession(key) => Some(s.(table := S.Revoke(s.table, key)))
    case LogoutAll(key, csrf, now) => StepLogoutAll(s, key, csrf, now)
    case CloseStore => StepClose(s)
  }

  function Run(kdf: A.Kdf, s: State, steps: seq<Step>): Option<State>
    decreases |steps|
  {
    if |steps| == 0 then Some(s)
    else
      var next := Next(kdf, s, steps[0]);
      if next.None? then None else Run(kdf, next.value, steps[1..])
  }

  function Initial(stored: Option<A.Document>, clock: int): State {
    State(A.Account(true, None, false, stored), S.Table(0, map[]), None, clock, map[], map[], 0, 0, false)
  }

  // -- Invariant ------------------------------------------------------------------------------------

  /** The presented name and password are the ones the grant's document describes. */
  predicate Proper(kdf: A.Kdf, g: Grant) {
    g.username == g.doc.username && kdf.accepts(g.password, g.doc.verifier)
  }

  predicate HasGrant(p: Phase) {
    p.LoginLoaded? || p.LoginVerified? || p.Granted? || p.Issuing?
  }

  predicate HoldsLock(p: Phase) {
    p.Issuing? || p.Committing? || p.CommitRevoked?
  }

  /** The current password was accepted by the document's verifier, and the new verifier accepts its replacement. */
  predicate Vouched(kdf: A.Kdf, change: Change, doc: A.Document, verifier: string) {
    && kdf.accepts(change.current, doc.verifier) && kdf.accepts(change.replacement, verifier)
    && kdf.passwordOk(change.replacement) && change.current != change.replacement
  }

  predicate AdmissibleChange(kdf: A.Kdf, change: Change) {
    kdf.passwordOk(change.replacement) && change.current != change.replacement
  }

  /** A grant whose epoch is still current was obtained from the document still stored. */
  ghost predicate PhaseOk(kdf: A.Kdf, stored: Option<A.Document>, epoch: nat, p: Phase) {
    && (p.LoginStarted? || p.SetupStarted? ==> p.epoch <= epoch)
    && (HasGrant(p) ==> p.grant.epoch <= epoch && (p.grant.epoch == epoch ==> stored == Some(p.grant.doc)))
    && (p.LoginVerified? && p.valid ==> Proper(kdf, p.grant))
    && (p.Granted? || p.Issuing? ==> Proper(kdf, p.grant))
    && (p.ChangeLoaded? ==> AdmissibleChange(kdf, p.change))
    && (p.ChangeDerived? || p.Committing? || p.CommitRevoked? ==> Vouched(kdf, p.change, p.doc, p.verifier))
  }

  ghost predicate PhasesOk(kdf: A.Kdf, s: State) {
    forall h :: h in s.phases ==> PhaseOk(kdf, s.account.stored, s.table.epoch, s.phases[h])
  }

  /** A session in the table stems from the current epoch and the stored document. */
  ghost predicate SessionOk(kdf: A.Kdf, s: State, k: S.Key) {
    && k in s.origin
    && s.origin[k].epoch == s.table.epoch
    && s.account.stored == Some(s.origin[k].doc)
    && Proper(kdf, s.origin[k])
  }

  ghost predicate SessionsOk(kdf: A.Kdf, s: State) {
    forall k :: k in s.table.sessions ==> SessionOk(kdf, s, k)
  }

  ghost predicate LockOk(s: State) {
    && (s.holder.Some? ==> s.holder.value in s.phases && HoldsLock(s.phases[s.holder.value]))
    && (forall h :: h in s.phases && HoldsLock(s.phases[h]) ==> s.holder == Some(h))
  }

  predicate Unusable(p: Phase, epoch: nat) {
    HasGrant(p) ==> p.grant.epoch < epoch
  }

  /** Between revocation and commit the lock holder faces an empty table and no usable grant. */
  ghost predicate CommitOk(kdf: A.Kdf, s: State) {
    s.holder.Some? && s.holder.value in s.phases ==>
      var p := s.phases[s.holder.value];
      && !A.Latched(s.account)
      && (p.Committing? || p.CommitRevoked? ==> s.account.stored == Some(p.doc))
      && (p.CommitRevoked? ==>
            && p.change.key in s.origin && s.origin[p.change.key].doc == p.doc && Proper(kdf, s.origin[p.change.key])
            && s.table.sessions == map[]
            && (forall h :: h in s.phases ==> Unusable(s.phases[h], s.table.epoch)))
  }

  predicate AccountOk(a: A.Account, setups: nat) {
    && A.FaultOk(a)
    && setups <= 1
    && (setups == 1 ==> a.seen)
  }

  ghost predicate Bookkeeping(s: State) {
    && |s.table.sessions| <= S.MAXIMUM_SESSIONS
    && AccountOk(s.account, s.setups)
    && (s.commitFailed ==> s.account.failure.Some? && s.table.sessions == map[])
  }

  ghost predicate Inv(kdf: A.Kdf, s: State) {
    PhasesOk(kdf, s) && SessionsOk(kdf, s) && LockOk(s) && CommitOk(kdf, s) && Bookkeeping(s)
  }

  // -- Preservation ---------------------------------------------------------------------------------

  ghost predicate Shrinks(before: S.Table<nat>, after: S.Table<nat>) {
    && after.epoch == before.epoch
    && after.sessions.Keys <= before.sessions.Keys
    && |after.sessions| <= S.MAXIMUM_SESSIONS
  }

  predicate Advances(before: A.Account, after: A.Account) {
    && after.stored == before.stored
    && (before.seen ==> after.seen)
    && (before.failure.Some? ==> after.failure == before.failure)
    && (after.failure.Some? && before.failure.None? ==>
          after.failure.value == A.Unavailable || after.failure.value == A.Uncertain)
  }

  /** What one handler may do without touching the stored document, the epoch or another's lock. */
  ghost predicate Moves(kdf: A.Kdf, s: State, h: Handler, p: Phase, s': State) {
    && s'.phases == s.phases[h := p] && s'.origin == s.origin && s'.setups == s.setups
    && s'.commitFailed == s.commitFailed && Shrinks(s.table, s'.table) && Advances(s.account, s'.account)
    && PhaseOk(kdf, s.account.stored, s.table.epoch, p) && !p.CommitRevoked?
    && (HoldsLock(p) <==> s'.holder == Some(h))
    && (s'.holder == s.holder || (s.holder.None? && s'.holder == Some(h)) || (s.holder == Some(h) && s'.holder.None?))
    && (s.holder.Some? ==>
          s'.account == s.account && (HasGrant(p) ==> HasGrant(PhaseOf(s, h)) && p.grant == PhaseOf(s, h).grant))
    && (HoldsLock(p) ==> !A.Latched(s'.account))
    && (p.Committing? ==> s'.account.stored == Some(p.doc))
  }

  lemma MoveKeepsInv(kdf: A.Kdf, s: State, h: Handler, p: Phase, s': State)
    requires Inv(kdf, s) && Moves(kdf, s, h, p, s')
    ensures Inv(kdf, s')
  {
    assert PhasesOk(kdf, s');
    assert SessionsOk(kdf, s') by {
      forall k | k in s'.table.sessions ensures SessionOk(kdf, s', k) {
        assert SessionOk(kdf, s, k);
      }
    }
    assert LockOk(s');
    assert CommitOk(kdf, s');
  }

  /** Steps that move no handler. */
  lemma QuietKeepsInv(kdf: A.Kdf, s: State, s': State)
    requires Inv(kdf, s)
    requires s' == s.(account := s'.account, table := s'.table, clock := s'.clock)
    requires Shrinks(s.table, s'.table) && Advances(s.account, s'.account)
    requires s.holder.Some? ==> s'.account == s.account
    ensures Inv(kdf, s')
  {
    forall k | k in s'.table.sessions ensures SessionOk(kdf, s', k) {
      assert SessionOk(kdf, s, k);
    }
  }

  lemma LoadAdvances(kdf: A.Kdf, a: A.Account, reply: A.LoadReply)
    ensures var (b, r) := A.Load(kdf, a, reply);
            && Advances(a, b)
            && (r.Ok? ==> b.stored == Some(r.value) && !A.Latched(b) && b.seen)
            && (A.Latched(a) ==> r.Err? && b == a)
  {
  }

  lemma FindShrinks(t: S.Table<nat>, key: Option<S.Key>, now: int)
    requires |t.sessions| <= S.MAXIMUM_SESSIONS
    ensures Shrinks(t, S.Find(t, key, now).0) && Shrinks(t, S.Revoke(t, key))
  {
    if key.Some? {
      S.RemovalBounded(t.sessions, key.value);
    }
  }

  /** Renewing the epoch empties the table and outdates every grant in flight. */
  lemma RenewalKeepsInv(kdf: A.Kdf, s: State, h: Handler, p: Phase, s': State)
    requires Inv(kdf, s)
    requires s' == s.(table := S.Table(s.table.epoch + 1, map[]), phases := s'.phases)
    requires s'.phases == s.phases[h := p] || s'.phases == s.phases
    requires s'.phases != s.phases ==>
      && p.CommitRevoked? && s.holder == Some(h) && s.phases[h].Committing?
      && p == CommitRevoked(s.phases[h].change, s.phases[h].doc, s.phases[h].verifier)
      && p.change.key in s.table.sessions
    ensures Inv(kdf, s')
  {
    if s'.phases != s.phases {
      assert SessionOk(kdf, s, p.change.key);
    }
    forall o | o in s'.phases
      ensures PhaseOk(kdf, s'.account.stored, s'.table.epoch, s'.phases[o]) && Unusable(s'.phases[o], s'.table.epoch)
    {
      if s'.phases[o] == p && s'.phases != s.phases {
        assert PhaseOk(kdf, s.account.stored, s.table.epoch, s.phases[h]);
      } else {
        assert PhaseOk(kdf, s.account.stored, s.table.epoch, s.phases[o]);
      }
    }
  }

  lemma CaptureKeepsInv(kdf: A.Kdf, s: State, h: Handler, username: string, password: string)
    requires Inv(kdf, s)
    ensures var r := StepCaptureForLogin(s, h, username, password); r.Some? ==> Inv(kdf, r.value)
    ensures var r := StepCaptureForSetup(s, h, username, password); r.Some? ==> Inv(kdf, r.value)
  {
    if PhaseOf(s, h).Idle? {
      var p, q := LoginStarted(s.table.epoch, username, password), SetupStarted(s.table.epoch, username, password);
      MoveKeepsInv(kdf, s, h, p, Goto(s, h, p));
      MoveKeepsInv(kdf, s, h, q, Goto(s, h, q));
    }
  }

  /** A move under a free account lock: what a handler may do after reading the account. */
  lemma ReadMoves(kdf: A.Kdf, s: State, h: Handler, p: Phase, s': State)
    requires LockOk(s) && |s.table.sessions| <= S.MAXIMUM_SESSIONS && s.holder.None?
    requires s' == s.(account := s'.account, holder := s'.holder, phases := s.phases[h := p])
    requires Advances(s.account, s'.account) && PhaseOk(kdf, s.account.stored, s.table.epoch, p) && !p.CommitRevoked?
    requires if HoldsLock(p) then s'.holder == Some(h) && !A.Latched(s'.account) else s'.holder.None?
    requires p.Committing? ==> s.account.stored == Some(p.doc)
    ensures Moves(kdf, s, h, p, s')
  {
  }

  lemma OwnPhaseOk(kdf: A.Kdf, s: State, h: Handler)
    requires Inv(kdf, s)
    ensures LockOk(s) && PhaseOk(kdf, s.account.stored, s.table.epoch, PhaseOf(s, h))
    ensures |s.table.sessions| <= S.MAXIMUM_SESSIONS
  {
  }

  lemma LoadForLoginMoves(kdf: A.Kdf, s: State, h: Handler, reply: A.LoadReply)
    requires LockOk(s) && |s.table.sessions| <= S.MAXIMUM_SESSIONS
    requires PhaseOk(kdf, s.account.stored, s.table.epoch, PhaseOf(s, h)) && StepLoadForLogin(kdf, s, h, reply).Some?
    ensures var s' := StepLoadForLogin(kdf, s, h, reply).value; h in s'.phases && Moves(kdf, s, h, s'.phases[h], s')
  {
    var s' := StepLoadForLogin(kdf, s, h, reply).value;
    LoadAdvances(kdf, s.account, reply);
    ReadMoves(kdf, s, h, s'.phases[h], s');
  }

  lemma LoadForLoginKeepsInv(kdf: A.Kdf, s: State, h: Handler, reply: A.LoadReply)
    requires Inv(kdf, s) && StepLoadForLogin(kdf, s, h, reply).Some?
    ensures Inv(kdf, StepLoadForLogin(kdf, s, h, reply).value)
  {
    var s' := StepLoadForLogin(kdf, s, h, reply).value;
    OwnPhaseOk(kdf, s, h);
    LoadForLoginMoves(kdf, s, h, reply);
    MoveKeepsInv(kdf, s, h, s'.phases[h], s');
  }

  lemma VerifyLoginKeepsInv(kdf: A.Kdf, s: State, h: Handler, derived: bool)
    requires Inv(kdf, s) && StepVerifyLogin(kdf, s, h, derived).Some?
    ensures Inv(kdf, StepVerifyLogin(kdf, s, h, derived).value)
  {
    var s' := StepVerifyLogin(kdf, s, h, derived).value;
    MoveKeepsInv(kdf, s, h, s'.phases[h], s');
  }

  lemma RecheckLoginKeepsInv(kdf: A.Kdf, s: State, h: Handler, reply: A.LoadReply)
    requires Inv(kdf, s) && StepRecheckLogin(kdf, s, h, reply).Some?
    ensures Inv(kdf, StepRecheckLogin(kdf, s, h, reply).value)
  {
    var s' := StepRecheckLogin(kdf, s, h, reply).value;
    LoadAdvances(kdf, s.account, reply);
    MoveKeepsInv(kdf, s, h, s'.phases[h], s');
  }

  lemma NothingBeforeSetup(kdf: A.Kdf, s: State)
    requires Inv(kdf, s) && s.account.stored.None?
    ensures s.table.sessions == map[]
  {
    assert forall k :: k in s.table.sessions ==> SessionOk(kdf, s, k);
    assert s.table.sessions.Keys == {};
  }

  /** What setup may write: the first document, with the name and a verifier of the password presented. */
  predicate WritesFirst(kdf: A.Kdf, p: Phase, a: A.Account, b: A.Account, done: Result<A.Document, A.AccountError>) {
    && p.SetupStarted? && a.stored.None? && !A.Latched(a) && !a.seen
    && b.stored.Some? && b.stored.value.username == p.username && kdf.accepts(p.password, b.stored.value.verifier)
    && (done.Ok? ==> b.stored == Some(done.value) && b.seen && b.failure.None?)
    && (done.Err? ==> b.failure == Some(A.Unavailable) || b.failure == Some(A.Uncertain))
  }

  lemma SetupOutcome(kdf: A.Kdf, a: A.Account, p: Phase, reply: A.LoadReply, hashed: Option<string>,
                     write: A.WriteReply)
    requires A.FaultOk(a) && p.SetupStarted? && (hashed.Some? ==> kdf.accepts(p.password, hashed.value))
    ensures var (b, done) := A.Setup(kdf, a, p.username, p.password, reply, hashed, write);
            if b.stored == a.stored then done.Err? && Advances(a, b) else WritesFirst(kdf, p, a, b, done)
  {
    LoadAdvances(kdf, a, reply);
  }

  /** Before the first document no grant was usable and no session existed. */
  lemma FirstDocumentKeepsInv(kdf: A.Kdf, s: State, h: Handler, b: A.Account, done: Result<A.Document, A.AccountError>,
                              s': State)
    requires Inv(kdf, s) && s.holder.None? && WritesFirst(kdf, PhaseOf(s, h), s.account, b, done)
    requires var p := PhaseOf(s, h);
             if done.Err? then s' == Goto(s.(account := b), h, Idle)
             else
               var grant := Grant(p.epoch, p.username, p.password, done.value);
               s' == Goto(s.(account := b, setups := s.setups + 1), h, Granted(grant))
    ensures Inv(kdf, s')
  {
    NothingBeforeSetup(kdf, s);
    forall o | o in s'.phases ensures PhaseOk(kdf, s'.account.stored, s'.table.epoch, s'.phases[o]) {
      if o in s.phases {
        assert PhaseOk(kdf, s.account.stored, s.table.epoch, s.phases[o]);
      }
    }
  }

  lemma SetupKeepsInv(kdf: A.Kdf, s: State, h: Handler, reply: A.LoadReply, hashed: Option<string>, write: A.WriteReply)
    requires Inv(kdf, s) && StepRunSetup(kdf, s, h, reply, hashed, write).Some?
    ensures Inv(kdf, StepRunSetup(kdf, s, h, reply, hashed, write).value)
  {
    var s' := StepRunSetup(kdf, s, h, reply, hashed, write).value;
    var p := PhaseOf(s, h);
    var (b, done) := A.Setup(kdf, s.account, p.username, p.password, reply, hashed, write);
    SetupOutcome(kdf, s.account, p, reply, hashed, write);
    if b.stored == s.account.stored {
      MoveKeepsInv(kdf, s, h, Idle, s');
    } else {
      FirstDocumentKeepsInv(kdf, s, h, b, done, s');
    }
  }

  lemma EnterIssueKeepsInv(kdf: A.Kdf, s: State, h: Handler, reply: A.LoadReply)
    requires Inv(kdf, s) && StepEnterIssue(kdf, s, h, reply).Some?
    ensures Inv(kdf, StepEnterIssue(kdf, s, h, reply).value)
  {
    var s' := StepEnterIssue(kdf, s, h, reply).value;
    LoadAdvances(kdf, s.account, reply);
    MoveKeepsInv(kdf, s, h, s'.phases[h], s');
  }

  /** What issuing does: a new key for the handler's grant, in the epoch the grant was obtained in. */
  ghost predicate Issued(s: State, h: Handler, key: S.Key, s': State) {
    && PhaseOf(s, h).Issuing? && PhaseOf(s, h).grant.epoch == s.table.epoch && key !in s.origin
    && s' == Goto(s.(holder := None, table := s'.table, origin := s.origin[key := PhaseOf(s, h).grant]), h, Idle)
    && s'.table.epoch == s.table.epoch && |s'.table.sessions| <= S.MAXIMUM_SESSIONS
    && s'.table.sessions.Keys <= s.table.sessions.Keys + {key}
  }

  lemma RefusedMoves(kdf: A.Kdf, s: State, h: Handler, table: S.Table<nat>)
    requires LockOk(s) && PhaseOf(s, h).Issuing? && Shrinks(s.table, table)
    ensures Moves(kdf, s, h, Idle, Goto(s.(holder := None, table := table), h, Idle))
  {
    assert s.holder == Some(h);
  }

  lemma CreateOutcome(kdf: A.Kdf, s: State, h: Handler, now: int, entropy: Option<(S.Key, string)>)
    requires LockOk(s) && |s.table.sessions| <= S.MAXIMUM_SESSIONS && StepCreateSession(s, h, now, entropy).Some?
    ensures var s' := StepCreateSession(s, h, now, entropy).value;
            Moves(kdf, s, h, Idle, s') || (entropy.Some? && Issued(s, h, entropy.value.0, s'))
  {
    if entropy.None? {
      RefusedMoves(kdf, s, h, s.table);
    } else {
      var grant := PhaseOf(s, h).grant;
      var (table, made) := S.Issue(s.table, now, Some(grant.epoch), entropy.value.0, entropy.value.1);
      S.IssueBounded(s.table, now, Some(grant.epoch), entropy.value.0, entropy.value.1);
      if made.Err? {
        RefusedMoves(kdf, s, h, table);
      }
    }
  }

  /** A session issued in the current epoch rests on the document stored now. */
  lemma IssuedKeepsInv(kdf: A.Kdf, s: State, h: Handler, key: S.Key, s': State)
    requires Inv(kdf, s) && Issued(s, h, key, s')
    ensures Inv(kdf, s')
  {
    assert s.holder == Some(h);
    OwnPhaseOk(kdf, s, h);
    forall k | k in s'.table.sessions ensures SessionOk(kdf, s', k) {
      if k != key {
        assert SessionOk(kdf, s, k);
      }
    }
  }

  lemma CreateKeepsInv(kdf: A.Kdf, s: State, h: Handler, now: int, entropy: Option<(S.Key, string)>)
    requires Inv(kdf, s) && StepCreateSession(s, h, now, entropy).Some?
    ensures Inv(kdf, StepCreateSession(s, h, now, entropy).value)
  {
    var s' := StepCreateSession(s, h, now, entropy).value;
    OwnPhaseOk(kdf, s, h);
    CreateOutcome(kdf, s, h, now, entropy);
    if Moves(kdf, s, h, Idle, s') {
      MoveKeepsInv(kdf, s, h, Idle, s');
    } else {
      IssuedKeepsInv(kdf, s, h, entropy.value.0, s');
    }
  }

  lemma FindForChangeMoves(kdf: A.Kdf, s: State, h: Handler, change: Change, now: int)
    requires LockOk(s) && |s.table.sessions| <= S.MAXIMUM_SESSIONS && StepFindForChange(s, h, change, now).Some?
    ensures var s' := StepFindForChange(s, h, change, now).value; h in s'.phases && Moves(kdf, s, h, s'.phases[h], s')
  {
    FindShrinks(s.table, Some(change.key), now);
  }

  lemma FindForChangeKeepsInv(kdf: A.Kdf, s: State, h: Handler, change: Change, now: int)
    requires Inv(kdf, s) && StepFindForChange(s, h, change, now).Some?
    ensures Inv(kdf, StepFindForChange(s, h, change, now).value)
  {
    var s' := StepFindForChange(s, h, change, now).value;
    OwnPhaseOk(kdf, s, h);
    FindForChangeMoves(kdf, s, h, change, now);
    MoveKeepsInv(kdf, s, h, s'.phases[h], s');
  }

  lemma LoadForChangeMoves(kdf: A.Kdf, s: State, h: Handler, reply: A.LoadReply)
    requires LockOk(s) && |s.table.sessions| <= S.MAXIMUM_SESSIONS && StepLoadForChange(kdf, s, h, reply).Some?
    ensures var s' := StepLoadForChange(kdf, s, h, reply).value; h in s'.phases && Moves(kdf, s, h, s'.phases[h], s')
  {
    var s' := StepLoadForChange(kdf, s, h, reply).value;
    LoadAdvances(kdf, s.account, reply);
    ReadMoves(kdf, s, h, s'.phases[h], s');
  }

  lemma LoadForChangeKeepsInv(kdf: A.Kdf, s: State, h: Handler, reply: A.LoadReply)
    requires Inv(kdf, s) && StepLoadForChange(kdf, s, h, reply).Some?
    ensures Inv(kdf, StepLoadForChange(kdf, s, h, reply).value)
  {
    var s' := StepLoadForChange(kdf, s, h, reply).value;
    OwnPhaseOk(kdf, s, h);
    LoadForChangeMoves(kdf, s, h, reply);
    MoveKeepsInv(kdf, s, h, s'.phases[h], s');
  }

  lemma DeriveForChangeKeepsInv(kdf: A.Kdf, s: State, h: Handler, hashed: Option<string>)
    requires Inv(kdf, s) && StepDeriveForChange(kdf, s, h, hashed).Some?
    ensures Inv(kdf, StepDeriveForChange(kdf, s, h, hashed).value)
  {
    var s' := StepDeriveForChange(kdf, s, h, hashed).value;
    var p := s'.phases[h];
    assert p.Idle? || p.ChangeDerived?;
    assert s' == s.(phases := s.phases[h := p]);
    MoveKeepsInv(kdf, s, h, p, s');
  }

  lemma EnterCommitMoves(kdf: A.Kdf, s: State, h: Handler, cancelled: bool, reply: A.LoadReply)
    requires LockOk(s) && |s.table.sessions| <= S.MAXIMUM_SESSIONS && StepEnterCommit(kdf, s, h, cancelled, reply).Some?
    requires PhaseOk(kdf, s.account.stored, s.table.epoch, PhaseOf(s, h))
    ensures var s' := StepEnterCommit(kdf, s, h, cancelled, reply).value;
            h in s'.phases && Moves(kdf, s, h, s'.phases[h], s')
  {
    var s' := StepEnterCommit(kdf, s, h, cancelled, reply).value;
    LoadAdvances(kdf, s.account, reply);
    ReadMoves(kdf, s, h, s'.phases[h], s');
  }

  lemma EnterCommitKeepsInv(kdf: A.Kdf, s: State, h: Handler, cancelled: bool, reply: A.LoadReply)
    requires Inv(kdf, s) && StepEnterCommit(kdf, s, h, cancelled, reply).Some?
    ensures Inv(kdf, StepEnterCommit(kdf, s, h, cancelled, reply).value)
  {
    var s' := StepEnterCommit(kdf, s, h, cancelled, reply).value;
    OwnPhaseOk(kdf, s, h);
    EnterCommitMoves(kdf, s, h, cancelled, reply);
    MoveKeepsInv(kdf, s, h, s'.phases[h], s');
  }

  lemma RevokeForCommitKeepsInv(kdf: A.Kdf, s: State, h: Handler, now: int)
    requires Inv(kdf, s) && StepRevokeForCommit(s, h, now).Some?
    ensures Inv(kdf, StepRevokeForCommit(s, h, now).value)
  {
    var s' := StepRevokeForCommit(s, h, now).value;
    assert s.holder == Some(h);
    if s'.holder.None? {
      MoveKeepsInv(kdf, s, h, Idle, s');
    } else {
      RenewalKeepsInv(kdf, s, h, s'.phases[h], s');
    }
  }

  /** The commit replaces the document only while nothing rests on the old one. */
  lemma CommitKeepsInv(kdf: A.Kdf, s: State, h: Handler, write: A.WriteReply)
    requires Inv(kdf, s) && StepCommitReplacement(kdf, s, h, write).Some?
    ensures Inv(kdf, StepCommitReplacement(kdf, s, h, write).value)
  {
    var s' := StepCommitReplacement(kdf, s, h, write).value;
    assert s.holder == Some(h);
    forall o | o in s'.phases ensures PhaseOk(kdf, s'.account.stored, s'.table.epoch, s'.phases[o]) {
      if o != h {
        assert PhaseOk(kdf, s.account.stored, s.table.epoch, s.phases[o]);
        assert Unusable(s.phases[o], s.table.epoch);
      }
    }
  }

  lemma BeginAuthorizeKeepsInv(kdf: A.Kdf, s: State, h: Handler, key: Option<S.Key>, reply: A.LoadReply)
    requires Inv(kdf, s) && StepBeginAuthorize(kdf, s, h, key, reply).Some?
    ensures Inv(kdf, StepBeginAuthorize(kdf, s, h, key, reply).value)
  {
    var s' := StepBeginAuthorize(kdf, s, h, key, reply).value;
    LoadAdvances(kdf, s.account, reply);
    MoveKeepsInv(kdf, s, h, s'.phases[h], s');
  }

  lemma LookUpKeepsInv(kdf: A.Kdf, s: State, h: Handler)
    requires Inv(kdf, s)
    ensures var r := StepReadClock(s, h); r.Some? ==> Inv(kdf, r.value)
    ensures var r := StepFinishAuthorize(s, h); r.Some? ==> Inv(kdf, r.value)
  {
    var p := PhaseOf(s, h);
    if p.Authorizing? {
      MoveKeepsInv(kdf, s, h, LookingUp(p.key, s.clock), StepReadClock(s, h).value);
    } else if p.LookingUp? {
      FindShrinks(s.table, p.key, p.now);
      MoveKeepsInv(kdf, s, h, Idle, StepFinishAuthorize(s, h).value);
    }
  }

  lemma SessionStepsKeepInv(kdf: A.Kdf, s: State, key: Option<S.Key>, now: int)
    requires Inv(kdf, s)
    ensures Inv(kdf, s.(table := S.Find(s.table, key, now).0))
    ensures Inv(kdf, s.(table := S.Revoke(s.table, key)))
  {
    FindShrinks(s.table, key, now);
    QuietKeepsInv(kdf, s, s.(table := S.Find(s.table, key, now).0));
    QuietKeepsInv(kdf, s, s.(table := S.Revoke(s.table, key)));
  }

  lemma LogoutKeepsInv(kdf: A.Kdf, s: State, key: Option<S.Key>, csrf: string, now: int)
    requires Inv(kdf, s)
    ensures Inv(kdf, StepLogoutAll(s, key, csrf, now).value)
  {
    var out := StepLogoutAll(s, key, csrf, now).value;
    if out != s {
      RenewalKeepsInv(kdf, s, 0, Idle, out);
    }
  }

  lemma AccountStepsKeepInv(kdf: A.Kdf, s: State, reply: A.LoadReply)
    requires Inv(kdf, s)
    ensures var r := StepProbeConfigured(kdf, s, reply); r.Some? ==> Inv(kdf, r.value)
    ensures var r := StepClose(s); r.Some? ==> Inv(kdf, r.value)
  {
    LoadAdvances(kdf, s.account, reply);
    if s.holder.None? {
      QuietKeepsInv(kdf, s, s.(account := A.Load(kdf, s.account, reply).0));
      QuietKeepsInv(kdf, s, s.(account := A.Close(s.account)));
    }
  }

  predicate GrantPath(step: Step) {
    step.CaptureForLogin? || step.LoadForLogin? || step.VerifyLogin? || step.RecheckLogin? ||
    step.CaptureForSetup? || step.RunSetup? || step.EnterIssue? || step.CreateSession?
  }

  predicate CommitPath(step: Step) {
    step.EnterCommit? || step.RevokeForCommit? || step.CommitReplacement?
  }

  predicate ChangePath(step: Step) {
    step.FindForChange? || step.LoadForChange? || step.DeriveForChange? || CommitPath(step)
  }

  lemma GrantStepKeepsInv(kdf: A.Kdf, s: State, step: Step)
    requires Inv(kdf, s) && Next(kdf, s, step).Some? && GrantPath(step)
    ensures Inv(kdf, Next(kdf, s, step).value)
  {
    match step
    case CaptureForLogin(h, username, password) => CaptureKeepsInv(kdf, s, h, username, password);
    case LoadForLogin(h, reply) => LoadForLoginKeepsInv(kdf, s, h, reply);
    case VerifyLogin(h, derived) => VerifyLoginKeepsInv(kdf, s, h, derived);
    case RecheckLogin(h, reply) => RecheckLoginKeepsInv(kdf, s, h, reply);
    case CaptureForSetup(h, username, password) => CaptureKeepsInv(kdf, s, h, username, password);
    case RunSetup(h, reply, hashed, write) => SetupKeepsInv(kdf, s, h, reply, hashed, write);
    case EnterIssue(h, reply) => EnterIssueKeepsInv(kdf, s, h, reply);
    case CreateSession(h, now, entropy) => CreateKeepsInv(kdf, s, h, now, entropy);
    case _ =>
  }

  lemma CommitStepKeepsInv(kdf: A.Kdf, s: State, step: Step)
    requires Inv(kdf, s) && Next(kdf, s, step).Some? && CommitPath(step)
    ensures Inv(kdf, Next(kdf, s, step).value)
  {
    match step
    case EnterCommit(h, cancelled, reply) => EnterCommitKeepsInv(kdf, s, h, cancelled, reply);
    case RevokeForCommit(h, now) => RevokeForCommitKeepsInv(kdf, s, h, now);
    case CommitReplacement(h, write) => CommitKeepsInv(kdf, s, h, write);
    case _ =>
  }

  lemma ChangeStepKeepsInv(kdf: A.Kdf, s: State, step: Step)
    requires Inv(kdf, s) && Next(kdf, s, step).Some? && ChangePath(step)
    ensures Inv(kdf, Next(kdf, s, step).value)
  {
    if CommitPath(step) {
      CommitStepKeepsInv(kdf, s, step);
    } else {
      match step
      case FindForChange(h, change, now) => FindForChangeKeepsInv(kdf, s, h, change, now);
      case LoadForChange(h, reply) => LoadForChangeKeepsInv(kdf, s, h, reply);
      case DeriveForChange(h, hashed) => DeriveForChangeKeepsInv(kdf, s, h, hashed);
      case _ =>
    }
  }

  lemma OtherStepKeepsInv(kdf: A.Kdf, s: State, step: Step)
    requires Inv(kdf, s) && Next(kdf, s, step).Some? && !GrantPath(step) && !ChangePath(step)
    ensures Inv(kdf, Next(kdf, s, step).value)
  {
    match step
    case BeginAuthorize(h, key, reply) => BeginAuthorizeKeepsInv(kdf, s, h, key, reply);
    case ReadClock(h) => LookUpKeepsInv(kdf, s, h);
    case FinishAuthorize(h) => LookUpKeepsInv(kdf, s, h);
    case Tick(now) => QuietKeepsInv(kdf, s, s.(clock := now));
    case ProbeConfigured(reply) => AccountStepsKeepInv(kdf, s, reply);
    case FindSession(key, now) => SessionStepsKeepInv(kdf, s, key, now);
    case RevokeSession(key) => SessionStepsKeepInv(kdf, s, key, 0);
    case LogoutAll(key, csrf, now) => LogoutKeepsInv(kdf, s, key, csrf, now);
    case CloseStore => AccountStepsKeepInv(kdf, s, A.Delivered);
    case _ =>
  }

  /** Every step of every handler keeps the invariant. */
  lemma StepKeepsInv(kdf: A.Kdf, s: State, step: Step)
    requires Inv(kdf, s) && Next(kdf, s, step).Some?
    ensures Inv(kdf, Next(kdf, s, step).value)
  {
    if GrantPath(step) {
      GrantStepKeepsInv(kdf, s, step);
    } else if ChangePath(step) {
      ChangeStepKeepsInv(kdf, s, step);
    } else {
      OtherStepKeepsInv(kdf, s, step);
    }
  }

  // -- Whole runs -----------------------------------------------------------------------------------

  lemma {:induction false} RunKeepsInv(kdf: A.Kdf, s: State, steps: seq<Step>)
    requires Inv(kdf, s) && Run(kdf, s, steps).Some?
    ensures Inv(kdf, Run(kdf, s, steps).value)
    decreases |steps|
  {
    if |steps| > 0 {
      StepKeepsInv(kdf, s, steps[0]);
      RunKeepsInv(kdf, Next(kdf, s, steps[0]).value, steps[1..]);
    }
  }

  /** In every reachable state every session was issued, in the epoch still in force, to someone who
      presented the name and a password of the document stored now; and there are at most eight. */
  lemma {:induction false} EverySessionIsCurrent(kdf: A.Kdf, stored: Option<A.Document>, clock: int, steps: seq<Step>)
    requires Run(kdf, Initial(stored, clock), steps).Some?
    ensures var s := Run(kdf, Initial(stored, clock), steps).value;
            && |s.table.sessions| <= S.MAXIMUM_SESSIONS
            && s.setups <= 1
            && forall k :: k in s.table.sessions ==>
                 && k in s.origin
                 && s.account.stored == Some(s.origin[k].doc)
                 && s.origin[k].username == s.origin[k].doc.username
                 && kdf.accepts(s.origin[k].password, s.origin[k].doc.verifier)
                 && s.origin[k].epoch == s.table.epoch
  {
    RunKeepsInv(kdf, Initial(stored, clock), steps);
    var s := Run(kdf, Initial(stored, clock), steps).value;
    forall k | k in s.table.sessions ensures SessionOk(kdf, s, k) {
    }
  }

  ghost predicate Submap<K, V>(a: map<K, V>, b: map<K, V>) {
    forall k :: k in a ==> k in b && a[k] == b[k]
  }

  /** The stored revision, and the set of keys ever issued, only grow; a key once gone stays gone. */
  ghost predicate Forward(s: State, t: State) {
    && Grown(s, t)
    && s.origin.Keys <= t.origin.Keys
    && (forall k :: k in t.table.sessions && k in s.origin ==> k in s.table.sessions && t.origin[k] == s.origin[k])
  }

  predicate Grown(s: State, t: State) {
    && (s.account.stored.Some? ==>
          t.account.stored.Some? && s.account.stored.value.revision <= t.account.stored.value.revision)
    && (s.commitFailed ==> t.commitFailed)
    && s.clock <= t.clock
  }

  /** No session and no origin is added. */
  ghost predicate AddsNothing(s: State, t: State) {
    t.origin == s.origin && Submap(t.table.sessions, s.table.sessions)
  }

  function Actor(step: Step): Option<Handler> {
    match step
    case Tick(_) => None
    case ProbeConfigured(_) => None
    case FindSession(_, _) => None
    case RevokeSession(_) => None
    case LogoutAll(_, _, _) => None
    case CloseStore => None
    case _ => Some(step.h)
  }

  /** Past the account check, before the answer. */
  predicate Pending(p: Phase) {
    p.Authorizing? || p.LookingUp?
  }

  /** The earliest time the request can still look its session up with. */
  function LookupTime(p: Phase, clock: int): int {
    if p.LookingUp? then p.now else clock
  }

  /** The same request, at the same point or further on. */
  predicate Continues(p: Phase, clock: int, q: Phase, later: int) {
    Pending(p) && Pending(q) && q.key == p.key && LookupTime(p, clock) <= LookupTime(q, later)
  }

  /** A step moves at most its own handler, only a passed account check makes a request pending, and only
      the lookup authorises one. */
  ghost predicate MovesOne(s: State, step: Step, t: State) {
    && (t.phases != s.phases ==>
          && Actor(step).Some?
          && Actor(step).value in t.phases
          && t.phases == s.phases[Actor(step).value := t.phases[Actor(step).value]]
          && (Pending(t.phases[Actor(step).value]) ==>
                || (step.BeginAuthorize? && !A.Latched(s.account))
                || (step.ReadClock? && Continues(PhaseOf(s, step.h), s.clock, t.phases[step.h], t.clock))))
    && (!step.FinishAuthorize? ==> t.authorised == s.authorised)
  }

  /** A latched account serves nobody and stays as it is. */
  predicate StaysLatched(s: State, t: State) {
    A.Latched(t.account) && t.account.stored == s.account.stored && t.setups == s.setups
  }

  predicate Unlocked(s: State, step: Step) {
    Actor(step).Some? ==> !HoldsLock(PhaseOf(s, Actor(step).value))
  }

  /** What every step but the issuing one does: the revision and the clock only grow, no session is added,
      one handler moves, and a latch holds unless the handler has the account lock. */
  ghost predicate Tame(s: State, step: Step, t: State) {
    && Grown(s, t) && AddsNothing(s, t) && MovesOne(s, step, t)
    && (t.account.stored != s.account.stored ==> step.RunSetup? || step.CommitReplacement?)
    && (A.Latched(s.account) && A.FaultOk(s.account) && Unlocked(s, step) ==> StaysLatched(s, t))
  }

  lemma CaptureTame(s: State, h: Handler, username: string, password: string)
    ensures var r := StepCaptureForLogin(s, h, username, password);
            r.Some? ==> Tame(s, CaptureForLogin(h, username, password), r.value)
    ensures var r := StepCaptureForSetup(s, h, username, password);
            r.Some? ==> Tame(s, CaptureForSetup(h, username, password), r.value)
  {
  }

  lemma LoadForLoginTame(kdf: A.Kdf, s: State, h: Handler, reply: A.LoadReply)
    requires StepLoadForLogin(kdf, s, h, reply).Some?
    ensures Tame(s, LoadForLogin(h, reply), StepLoadForLogin(kdf, s, h, reply).value)
  {
  }

  lemma VerifyLoginTame(kdf: A.Kdf, s: State, h: Handler, derived: bool)
    requires StepVerifyLogin(kdf, s, h, derived).Some?
    ensures Tame(s, VerifyLogin(h, derived), StepVerifyLogin(kdf, s, h, derived).value)
  {
  }

  lemma RecheckLoginTame(kdf: A.Kdf, s: State, h: Handler, reply: A.LoadReply)
    requires StepRecheckLogin(kdf, s, h, reply).Some?
    ensures Tame(s, RecheckLogin(h, reply), StepRecheckLogin(kdf, s, h, reply).value)
  {
  }

  lemma RunSetupTame(kdf: A.Kdf, s: State, h: Handler, reply: A.LoadReply, hashed: Option<string>, write: A.WriteReply)
    requires StepRunSetup(kdf, s, h, reply, hashed, write).Some?
    ensures Tame(s, RunSetup(h, reply, hashed, write), StepRunSetup(kdf, s, h, reply, hashed, write).value)
  {
  }

  lemma EnterIssueTame(kdf: A.Kdf, s: State, h: Handler, reply: A.LoadReply)
    requires StepEnterIssue(kdf, s, h, reply).Some?
    ensures Tame(s, EnterIssue(h, reply), StepEnterIssue(kdf, s, h, reply).value)
  {
  }

  lemma FindForChangeTame(s: State, h: Handler, change: Change, now: int)
    requires StepFindForChange(s, h, change, now).Some?
    ensures Tame(s, FindForChange(h, change, now), StepFindForChange(s, h, change, now).value)
  {
  }

  lemma LoadForChangeTame(kdf: A.Kdf, s: State, h: Handler, reply: A.LoadReply)
    requires StepLoadForChange(kdf, s, h, reply).Some?
    ensures Tame(s, LoadForChange(h, reply), StepLoadForChange(kdf, s, h, reply).value)
  {
  }

  lemma DeriveForChangeTame(kdf: A.Kdf, s: State, h: Handler, hashed: Option<string>)
    requires StepDeriveForChange(kdf, s, h, hashed).Some?
    ensures Tame(s, DeriveForChange(h, hashed), StepDeriveForChange(kdf, s, h, hashed).value)
  {
  }

  lemma EnterCommitTame(kdf: A.Kdf, s: State, h: Handler, cancelled: bool, reply: A.LoadReply)
    requires StepEnterCommit(kdf, s, h, cancelled, reply).Some?
    ensures Tame(s, EnterCommit(h, cancelled, reply), StepEnterCommit(kdf, s, h, cancelled, reply).value)
  {
  }

  lemma RevokeForCommitTame(s: State, h: Handler, now: int)
    requires StepRevokeForCommit(s, h, now).Some?
    ensures Tame(s, RevokeForCommit(h, now), StepRevokeForCommit(s, h, now).value)
  {
  }

  lemma CommitReplacementTame(kdf: A.Kdf, s: State, h: Handler, write: A.WriteReply)
    requires StepCommitReplacement(kdf, s, h, write).Some?
    ensures Tame(s, CommitReplacement(h, write), StepCommitReplacement(kdf, s, h, write).value)
  {
  }

  lemma BeginAuthorizeTame(kdf: A.Kdf, s: State, h: Handler, key: Option<S.Key>, reply: A.LoadReply)
    requires StepBeginAuthorize(kdf, s, h, key, reply).Some?
    ensures Tame(s, BeginAuthorize(h, key, reply), StepBeginAuthorize(kdf, s, h, key, reply).value)
  {
  }

  lemma LookUpTame(s: State, h: Handler)
    ensures var r := StepReadClock(s, h); r.Some? ==> Tame(s, ReadClock(h), r.value)
    ensures var r := StepFinishAuthorize(s, h); r.Some? ==> Tame(s, FinishAuthorize(h), r.value)
  {
  }

  lemma AccountStepsTame(kdf: A.Kdf, s: State, reply: A.LoadReply)
    ensures var r := StepProbeConfigured(kdf, s, reply); r.Some? ==> Tame(s, ProbeConfigured(reply), r.value)
    ensures var r := StepClose(s); r.Some? ==> Tame(s, CloseStore, r.value)
  {
  }

  lemma SessionStepsTame(s: State, key: Option<S.Key>, csrf: string, now: int)
    ensures Tame(s, FindSession(key, now), s.(table := S.Find(s.table, key, now).0))
    ensures Tame(s, RevokeSession(key), s.(table := S.Revoke(s.table, key)))
    ensures Tame(s, LogoutAll(key, csrf, now), StepLogoutAll(s, key, csrf, now).value)
  {
  }

  lemma GrantStepTame(kdf: A.Kdf, s: State, step: Step)
    requires GrantPath(step) && !step.CreateSession? && Next(kdf, s, step).Some?
    ensures Tame(s, step, Next(kdf, s, step).value)
  {
    match step
    case CaptureForLogin(h, username, password) => CaptureTame(s, h, username, password);
    case LoadForLogin(h, reply) => LoadForLoginTame(kdf, s, h, reply);
    case VerifyLogin(h, derived) => VerifyLoginTame(kdf, s, h, derived);
    case RecheckLogin(h, reply) => RecheckLoginTame(kdf, s, h, reply);
    case CaptureForSetup(h, username, password) => CaptureTame(s, h, username, password);
    case RunSetup(h, reply, hashed, write) => RunSetupTame(kdf, s, h, reply, hashed, write);
    case EnterIssue(h, reply) => EnterIssueTame(kdf, s, h, reply);
    case _ =>
  }

  lemma ChangeStepTame(kdf: A.Kdf, s: State, step: Step)
    requires ChangePath(step) && Next(kdf, s, step).Some?
    ensures Tame(s, step, Next(kdf, s, step).value)
  {
    match step
    case FindForChange(h, change, now) => FindForChangeTame(s, h, change, now);
    case LoadForChange(h, reply) => LoadForChangeTame(kdf, s, h, reply);
    case DeriveForChange(h, hashed) => DeriveForChangeTame(kdf, s, h, hashed);
    case EnterCommit(h, cancelled, reply) => EnterCommitTame(kdf, s, h, cancelled, reply);
    case RevokeForCommit(h, now) => RevokeForCommitTame(s, h, now);
    case CommitReplacement(h, write) => CommitReplacementTame(kdf, s, h, write);
    case _ =>
  }

  lemma OtherStepTame(kdf: A.Kdf, s: State, step: Step)
    requires !GrantPath(step) && !ChangePath(step) && Next(kdf, s, step).Some?
    ensures Tame(s, step, Next(kdf, s, step).value)
  {
    match step
    case BeginAuthorize(h, key, reply) => BeginAuthorizeTame(kdf, s, h, key, reply);
    case ReadClock(h) => LookUpTame(s, h);
    case FinishAuthorize(h) => LookUpTame(s, h);
    case ProbeConfigured(reply) => AccountStepsTame(kdf, s, reply);
    case FindSession(key, now) => SessionStepsTame(s, key, "", now);
    case RevokeSession(key) => SessionStepsTame(s, key, "", 0);
    case LogoutAll(key, csrf, now) => SessionStepsTame(s, key, csrf, now);
    case CloseStore => AccountStepsTame(kdf, s, A.Delivered);
    case Tick(now) =>
    case _ =>
  }

  /** Only setup and the commit write the document, a commit moves the revision up, and only the issuing
      step adds a session. */
  lemma StepTame(kdf: A.Kdf, s: State, step: Step)
    requires !step.CreateSession? && Next(kdf, s, step).Some?
    ensures Tame(s, step, Next(kdf, s, step).value)
  {
    if GrantPath(step) {
      GrantStepTame(kdf, s, step);
    } else if ChangePath(step) {
      ChangeStepTame(kdf, s, step);
    } else {
      OtherStepTame(kdf, s, step);
    }
  }

  lemma CreateForward(s: State, h: Handler, now: int, entropy: Option<(S.Key, string)>)
    requires |s.table.sessions| <= S.MAXIMUM_SESSIONS && s.table.sessions.Keys <= s.origin.Keys
    requires StepCreateSession(s, h, now, entropy).Some?
    ensures Forward(s, StepCreateSession(s, h, now, entropy).value)
  {
    if entropy.Some? {
      S.IssueBounded(s.table, now, Some(PhaseOf(s, h).grant.epoch), entropy.value.0, entropy.value.1);
    }
  }

  lemma StepForward(kdf: A.Kdf, s: State, step: Step)
    requires Inv(kdf, s) && Next(kdf, s, step).Some?
    ensures Forward(s, Next(kdf, s, step).value)
  {
    assert s.table.sessions.Keys <= s.origin.Keys by {
      assert forall k :: k in s.table.sessions ==> SessionOk(kdf, s, k);
    }
    if step.CreateSession? {
      CreateForward(s, step.h, step.now, step.entropy);
    } else {
      StepTame(kdf, s, step);
    }
  }

  lemma {:induction false} RunForward(kdf: A.Kdf, s: State, steps: seq<Step>)
    requires Inv(kdf, s) && Run(kdf, s, steps).Some?
    ensures Forward(s, Run(kdf, s, steps).value)
    decreases |steps|
  {
    if |steps| == 0 {
      assert forall k :: k in s.table.sessions ==> SessionOk(kdf, s, k);
    } else {
      StepForward(kdf, s, steps[0]);
      StepKeepsInv(kdf, s, steps[0]);
      RunForward(kdf, Next(kdf, s, steps[0]).value, steps[1..]);
    }
  }

  /** A successful commit anywhere in a run: every session alive later rests on a later document than the
      one replaced, whenever its login began, and no earlier key is ever accepted again. */
  lemma {:induction false} CommitOutdatesEarlierLogins(kdf: A.Kdf, s: State, h: Handler, write: A.WriteReply,
                                                       later: seq<Step>)
    requires Inv(kdf, s) && PhaseOf(s, h).CommitRevoked?
    requires !StepCommitReplacement(kdf, s, h, write).value.commitFailed
    requires Run(kdf, StepCommitReplacement(kdf, s, h, write).value, later).Some?
    ensures var t := Run(kdf, StepCommitReplacement(kdf, s, h, write).value, later).value;
            forall k :: k in t.table.sessions ==>
              && k in t.origin
              && t.origin[k].doc.revision > PhaseOf(s, h).doc.revision
              && k !in s.origin
  {
    var done := StepCommitReplacement(kdf, s, h, write).value;
    var t := Run(kdf, done, later).value;
    assert s.holder == Some(h);
    CommitKeepsInv(kdf, s, h, write);
    RunKeepsInv(kdf, done, later);
    RunForward(kdf, done, later);
    assert forall k :: k in t.table.sessions ==> SessionOk(kdf, t, k);
  }

  /** Whoever has the first document written has presented its name and a password that it accepts. */
  predicate SetUpBy(kdf: A.Kdf, p: Phase, first: Option<A.Document>) {
    && p.SetupStarted? && first.Some? && first.value.revision == 1
    && first.value.username == p.username && kdf.accepts(p.password, first.value.verifier)
  }

  /** Whoever has a document replaced holds a session issued under it, has presented a password that it accepts,
      and another one that the next document accepts. */
  ghost predicate ChangedBy(kdf: A.Kdf, s: State, p: Phase, d: A.Document, next: Option<A.Document>) {
    && p.CommitRevoked? && next.Some?
    && kdf.accepts(p.change.current, d.verifier) && kdf.accepts(p.change.replacement, next.value.verifier)
    && kdf.passwordOk(p.change.replacement) && p.change.current != p.change.replacement
    && next.value.revision == d.revision + 1 && next.value.username == d.username
    && p.change.key in s.origin && s.origin[p.change.key].doc == d && Proper(kdf, s.origin[p.change.key])
  }

  lemma SetupWrites(kdf: A.Kdf, s: State, h: Handler, reply: A.LoadReply, hashed: Option<string>, write: A.WriteReply)
    requires A.FaultOk(s.account) && StepRunSetup(kdf, s, h, reply, hashed, write).Some?
    ensures var t := StepRunSetup(kdf, s, h, reply, hashed, write).value;
            t.account.stored != s.account.stored ==>
              s.account.stored.None? && SetUpBy(kdf, PhaseOf(s, h), t.account.stored)
  {
    SetupOutcome(kdf, s.account, PhaseOf(s, h), reply, hashed, write);
  }

  lemma CommitWrites(kdf: A.Kdf, s: State, h: Handler, write: A.WriteReply)
    requires Inv(kdf, s) && StepCommitReplacement(kdf, s, h, write).Some?
    ensures var t := StepCommitReplacement(kdf, s, h, write).value;
            t.account.stored != s.account.stored ==>
              s.account.stored.Some? && ChangedBy(kdf, s, PhaseOf(s, h), s.account.stored.value, t.account.stored)
  {
    OwnPhaseOk(kdf, s, h);
    assert s.holder == Some(h);
  }

  /** Of every run and every step after it: the document changes only from none to the first one, by the one who
      sets it up, or to its successor, by a session holder who knows its password. */
  lemma {:induction false} DocumentChangeIsVouched(kdf: A.Kdf, stored: Option<A.Document>, clock: int,
                                                   steps: seq<Step>, step: Step)
    requires Run(kdf, Initial(stored, clock), steps).Some?
    requires Next(kdf, Run(kdf, Initial(stored, clock), steps).value, step).Some?
    ensures var s := Run(kdf, Initial(stored, clock), steps).value;
            var t := Next(kdf, s, step).value;
            t.account.stored != s.account.stored ==>
              match s.account.stored
              case None => step.RunSetup? && SetUpBy(kdf, PhaseOf(s, step.h), t.account.stored)
              case Some(d) => step.CommitReplacement? && ChangedBy(kdf, s, PhaseOf(s, step.h), d, t.account.stored)
  {
    RunKeepsInv(kdf, Initial(stored, clock), steps);
    var s := Run(kdf, Initial(stored, clock), steps).value;
    if step.RunSetup? {
      SetupWrites(kdf, s, step.h, step.reply, step.hashed, step.write);
    } else if step.CommitReplacement? {
      CommitWrites(kdf, s, step.h, step.write);
    } else if !step.CreateSession? {
      StepTame(kdf, s, step);
    }
  }

  // -- The latch ------------------------------------------------------------------------------------

  function InFlight(s: State): set<Handler> {
    set h | h in s.phases && Pending(s.phases[h])
  }

  /** Nothing is issued, set up or written any more; pending authorisation checks can only drain. */
  ghost predicate Draining(s: State, t: State) {
    && A.Latched(t.account)
    && t.account.stored == s.account.stored
    && t.origin == s.origin
    && t.setups == s.setups
    && Submap(t.table.sessions, s.table.sessions)
    && (forall h :: h in InFlight(t) ==> h in InFlight(s) && Continues(s.phases[h], s.clock, t.phases[h], t.clock))
    && t.authorised + |InFlight(t)| <= s.authorised + |InFlight(s)|
  }

  /** The request can still be answered from the table: its session is there, and alive at the time the
      request has read or, if it has not read one, now. */
  predicate Servable(s: State, h: Handler) {
    && h in InFlight(s) && s.phases[h].key.Some? && s.phases[h].key.value in s.table.sessions
    && S.Live(s.table.sessions[s.phases[h].key.value], LookupTime(s.phases[h], s.clock))
  }

  lemma LatchedMeansUnlocked(kdf: A.Kdf, s: State, step: Step)
    requires Inv(kdf, s) && A.Latched(s.account) && Next(kdf, s, step).Some?
    ensures Unlocked(s, step) && A.FaultOk(s.account) && !step.CreateSession?
  {
  }

  /** Requests pending after a step of a latched store were pending before it. */
  lemma PendingContinues(s: State, step: Step, t: State)
    requires A.Latched(s.account) && MovesOne(s, step, t) && s.clock <= t.clock
    ensures forall h :: h in InFlight(t) ==> h in InFlight(s) && Continues(s.phases[h], s.clock, t.phases[h], t.clock)
  {
  }

  lemma LookupEnds(s: State, h: Handler)
    requires StepFinishAuthorize(s, h).Some?
    ensures h in InFlight(s) && InFlight(StepFinishAuthorize(s, h).value) == InFlight(s) - {h}
    ensures StepFinishAuthorize(s, h).value.authorised == s.authorised + if Servable(s, h) then 1 else 0
  {
  }

  lemma LatchedStepDrains(kdf: A.Kdf, s: State, step: Step)
    requires Inv(kdf, s) && A.Latched(s.account) && Next(kdf, s, step).Some?
    ensures Draining(s, Next(kdf, s, step).value)
    ensures var t := Next(kdf, s, step).value;
            t.authorised == s.authorised
            || (t.authorised > s.authorised && step.FinishAuthorize? && Servable(s, step.h))
  {
    LatchedMeansUnlocked(kdf, s, step);
    StepTame(kdf, s, step);
    var t := Next(kdf, s, step).value;
    PendingContinues(s, step, t);
    S.SubsetSize(InFlight(t), InFlight(s));
    if step.FinishAuthorize? {
      LookupEnds(s, step.h);
    }
  }

  /** After a recorded failure or a close, over every later run: no session is issued, setup does not
      succeed, nothing is written, and at most the requests already past their account check are authorised. */
  lemma {:induction false} LatchedRunDrains(kdf: A.Kdf, s: State, steps: seq<Step>)
    requires Inv(kdf, s) && A.Latched(s.account) && Run(kdf, s, steps).Some?
    ensures Draining(s, Run(kdf, s, steps).value)
    decreases |steps|
  {
    if |steps| > 0 {
      var t := Next(kdf, s, steps[0]).value;
      LatchedStepDrains(kdf, s, steps[0]);
      StepKeepsInv(kdf, s, steps[0]);
      LatchedRunDrains(kdf, t, steps[1..]);
      DrainingJoins(s, t, Run(kdf, t, steps[1..]).value);
    }
  }

  lemma DrainingJoins(s: State, t: State, u: State)
    requires Draining(s, t) && Draining(t, u)
    ensures Draining(s, u)
  {
  }

  /** What can be served later can be served now. */
  lemma ServableEarlier(s: State, t: State, h: Handler)
    requires Draining(s, t) && Servable(t, h)
    ensures Servable(s, h)
  {
  }

  lemma {:induction false} AuthorisedNeedsServable(kdf: A.Kdf, s: State, steps: seq<Step>) returns (h: Handler)
    requires Inv(kdf, s) && A.Latched(s.account) && Run(kdf, s, steps).Some?
    requires Run(kdf, s, steps).value.authorised > s.authorised
    ensures Servable(s, h)
    decreases |steps|
  {
    var t := Next(kdf, s, steps[0]).value;
    LatchedStepDrains(kdf, s, steps[0]);
    if t.authorised > s.authorised {
      h := steps[0].h;
    } else {
      StepKeepsInv(kdf, s, steps[0]);
      h := AuthorisedNeedsServable(kdf, t, steps[1..]);
      ServableEarlier(s, t, h);
    }
  }

  lemma {:induction false} ServableIsAuthorised(kdf: A.Kdf, s: State, h: Handler) returns (steps: seq<Step>)
    requires Servable(s, h)
    ensures Run(kdf, s, steps).Some? && Run(kdf, s, steps).value.authorised > s.authorised
  {
    var looking := if s.phases[h].LookingUp? then s else StepReadClock(s, h).value;
    var read := if s.phases[h].LookingUp? then [] else [ReadClock(h)];
    assert Run(kdf, s, read) == Some(looking) by {
      if read != [] {
        assert read[1..] == [];
      }
    }
    RunSnoc(kdf, s, read, FinishAuthorize(h), looking);
    steps := read + [FinishAuthorize(h)];
  }

  ghost predicate Authorises(kdf: A.Kdf, s: State, steps: seq<Step>) {
    Run(kdf, s, steps).Some? && Run(kdf, s, steps).value.authorised > s.authorised
  }

  /** A request is authorised in some run after the latch exactly when, at the latch, one was already past
      its account check with its session in the table and still alive. */
  lemma AuthorisedAfterLatchExactly(kdf: A.Kdf, s: State)
    requires Inv(kdf, s) && A.Latched(s.account)
    ensures (exists steps :: Authorises(kdf, s, steps)) <==> (exists h :: Servable(s, h))
  {
    if steps :| Authorises(kdf, s, steps) {
      var h := AuthorisedNeedsServable(kdf, s, steps);
    }
    if h :| Servable(s, h) {
      var steps := ServableIsAuthorised(kdf, s, h);
      assert Authorises(kdf, s, steps);
    }
  }

  lemma FailedCommitStep(kdf: A.Kdf, s: State, step: Step)
    requires Inv(kdf, s) && s.commitFailed && Next(kdf, s, step).Some?
    ensures var t := Next(kdf, s, step).value;
            Inv(kdf, t) && t.commitFailed && t.authorised == s.authorised && t.origin == s.origin
  {
    StepKeepsInv(kdf, s, step);
    LatchedStepDrains(kdf, s, step);
    StepForward(kdf, s, step);
  }

  /** Once a commit has failed after its revocation the table stays empty and no request is authorised. */
  lemma {:induction false} FailedCommitIsFinal(kdf: A.Kdf, s: State, steps: seq<Step>)
    requires Inv(kdf, s) && s.commitFailed && Run(kdf, s, steps).Some?
    ensures var t := Run(kdf, s, steps).value;
            t.table.sessions == map[] && t.authorised == s.authorised && t.origin == s.origin
    decreases |steps|
  {
    if |steps| > 0 {
      FailedCommitStep(kdf, s, steps[0]);
      FailedCommitIsFinal(kdf, Next(kdf, s, steps[0]).value, steps[1..]);
    }
  }

  lemma {:induction false} RunSnoc(kdf: A.Kdf, s: State, steps: seq<Step>, last: Step, t: State)
    requires Run(kdf, s, steps) == Some(t)
    ensures Run(kdf, s, steps + [last]) == Next(kdf, t, last)
    decreases |steps|
  {
    var all := steps + [last];
    if |steps| == 0 {
      assert all[1..] == [];
    } else {
      assert all[1..] == steps[1..] + [last];
      RunSnoc(kdf, Next(kdf, s, steps[0]).value, steps[1..], last, t);
    }
  }

  const SAMPLE: A.Document := A.Document(A.DOCUMENT_VERSION, 1, "a", "v")

  function Script(i: nat): Step
    requires i < 8
  {
    match i
    case 0 => CaptureForLogin(0, "a", "p")
    case 1 => LoadForLogin(0, A.Delivered)
    case 2 => VerifyLogin(0, true)
    case 3 => RecheckLogin(0, A.Delivered)
    case 4 => EnterIssue(0, A.Delivered)
    case 5 => CreateSession(0, 0, Some((7, "c")))
    case 6 => BeginAuthorize(1, Some(7), A.Delivered)
    case _ => CloseStore
  }

  /** The state before step `i` of the script. */
  function ScriptState(i: nat): State
    requires i <= 8
  {
    var g := Grant(0, "a", "p", SAMPLE);
    match i
    case 0 => Initial(Some(SAMPLE), 0)
    case 1 => Goto(ScriptState(0), 0, LoginStarted(0, "a", "p"))
    case 2 => Goto(ScriptState(1).(account := A.Account(true, None, true, Some(SAMPLE))), 0, LoginLoaded(g))
    case 3 => Goto(ScriptState(2), 0, LoginVerified(g, true))
    case 4 => Goto(ScriptState(3), 0, Granted(g))
    case 5 => Goto(ScriptState(4).(holder := Some(0)), 0, Issuing(g))
    case 6 => Goto(ScriptState(5).(holder := None, table := S.Table(0, S.Purge(map[], 0)[7 := S.NewSession("c", 0)]),
                                   origin := map[7 := g]), 0, Idle)
    case 7 => Goto(ScriptState(6), 1, Authorizing(Some(7)))
    case _ => ScriptState(7).(account := A.Account(false, None, true, Some(SAMPLE)))
  }

  function ScriptPrefix(i: nat): (steps: seq<Step>)
    requires i <= 8
    ensures |steps| == i && (i > 0 ==> steps[i - 1] == Script(i - 1))
  {
    if i == 0 then [] else ScriptPrefix(i - 1) + [Script(i - 1)]
  }

  lemma LoginHalfEnabled(kdf: A.Kdf, i: nat)
    requires i < 4 && A.ValidDocument(kdf, SAMPLE) && kdf.passwordOk("p") && kdf.accepts("p", "v")
    ensures Next(kdf, ScriptState(i), Script(i)) == Some(ScriptState(i + 1))
  {
    if i == 3 {
      assert ScriptState(3).account == A.Account(true, None, true, Some(SAMPLE)) && ScriptState(3).holder.None?;
    }
  }

  lemma EnterStepEnabled(kdf: A.Kdf)
    requires A.ValidDocument(kdf, SAMPLE)
    ensures Next(kdf, ScriptState(4), Script(4)) == Some(ScriptState(5))
  {
    assert ScriptState(4).account == A.Account(true, None, true, Some(SAMPLE)) && ScriptState(4).holder.None?;
  }

  lemma SessionStepEnabled(kdf: A.Kdf)
    ensures Next(kdf, ScriptState(5), Script(5)) == Some(ScriptState(6))
  {
    assert S.Purge(map[], 0) == map[];
    assert ScriptState(5).table == S.Table(0, map[]) && ScriptState(5).origin == map[];
  }

  lemma RequestStepEnabled(kdf: A.Kdf)
    requires A.ValidDocument(kdf, SAMPLE)
    ensures Next(kdf, ScriptState(6), Script(6)) == Some(ScriptState(7))
  {
    assert ScriptState(6).account == A.Account(true, None, true, Some(SAMPLE)) && ScriptState(6).holder.None?;
  }

  lemma CloseStepEnabled(kdf: A.Kdf)
    ensures Next(kdf, ScriptState(7), Script(7)) == Some(ScriptState(8))
  {
    assert ScriptState(7).account == A.Account(true, None, true, Some(SAMPLE)) && ScriptState(7).holder.None?;
  }

  lemma RequestHalfEnabled(kdf: A.Kdf, i: nat)
    requires 4 <= i < 8 && A.ValidDocument(kdf, SAMPLE)
    ensures Next(kdf, ScriptState(i), Script(i)) == Some(ScriptState(i + 1))
  {
    if i == 4 {
      EnterStepEnabled(kdf);
    } else if i == 5 {
      SessionStepEnabled(kdf);
    } else if i == 6 {
      RequestStepEnabled(kdf);
    } else {
      CloseStepEnabled(kdf);
    }
  }

  lemma {:induction false} ScriptRuns(kdf: A.Kdf, i: nat)
    requires i <= 8 && A.ValidDocument(kdf, SAMPLE) && kdf.passwordOk("p") && kdf.accepts("p", "v")
    ensures Run(kdf, ScriptState(0), ScriptPrefix(i)) == Some(ScriptState(i))
  {
    if i > 0 {
      ScriptRuns(kdf, i - 1);
      if i <= 4 {
        LoginHalfEnabled(kdf, i - 1);
      } else {
        RequestHalfEnabled(kdf, i - 1);
      }
      RunSnoc(kdf, ScriptState(0), ScriptPrefix(i - 1), Script(i - 1), ScriptState(i - 1));
    }
  }

  /** So closing the store does not stop a request that is between its account check and its session
      lookup: a run that logs in, begins such a request, closes the store, and still authorises it. */
  lemma RequestAuthorisedAfterClose() returns (kdf: A.Kdf, steps: seq<Step>, t: State, later: seq<Step>)
    ensures |steps| == 8 && steps[7].CloseStore? && Run(kdf, Initial(Some(SAMPLE), 0), steps) == Some(t)
    ensures A.Latched(t.account) && Authorises(kdf, t, later)
  {
    kdf := ScriptIsPossible();
    steps, t := WholeScript(kdf, 8);
    later := ServableIsAuthorised(kdf, t, 1);
  }

  lemma WholeScript(kdf: A.Kdf, n: nat) returns (steps: seq<Step>, t: State)
    requires 7 < n <= 8 && A.ValidDocument(kdf, SAMPLE) && kdf.passwordOk("p") && kdf.accepts("p", "v")
    ensures |steps| == n && steps[n - 1] == CloseStore && Run(kdf, Initial(Some(SAMPLE), 0), steps) == Some(t)
    ensures A.Latched(t.account) && Servable(t, 1)
  {
    ScriptRuns(kdf, n);
    ScriptEnds();
    steps, t := ScriptPrefix(n), ScriptState(n);
  }

  lemma ScriptEnds()
    ensures A.Latched(ScriptState(8).account) && Servable(ScriptState(8), 1)
  {
    assert ScriptState(8).table == ScriptState(6).table && ScriptState(8).clock == ScriptState(6).clock == 0;
    assert S.Purge(map[], 0) == map[];
  }

  /** The documents and passwords of the script exist: a derivation that accepts everything has them. */
  lemma ScriptIsPossible() returns (kdf: A.Kdf)
    ensures A.ValidDocument(kdf, SAMPLE) && kdf.passwordOk("p") && kdf.accepts("p", "v")
  {
    kdf := A.Kdf(_ => true, _ => true, (_, _) => true);
  }
}
