/** Requests that nobody interrupts: exactly when login, setup, password change and authorisation go through, and the
    state they leave. */
module PanelRuns {
  import opened Basics
  import opened PanelProtocol
  import S = SessionStores
  import A = AccountStores

  lemma {:induction false} RunCons(kdf: A.Kdf, s: State, step: Step, rest: seq<Step>)
    ensures Run(kdf, s, [step] + rest) ==
              if Next(kdf, s, step).None? then None else Run(kdf, Next(kdf, s, step).value, rest)
  {
    assert ([step] + rest)[1..] == rest;
  }

  lemma GotoTwice(s: State, h: Handler, p: Phase, q: Phase)
    ensures Goto(Goto(s, h, p), h, q) == Goto(s, h, q) && PhaseOf(Goto(s, h, p), h) == p
  {
    assert s.phases[h := p][h := q] == s.phases[h := q];
  }

  /** A step that only continues something begun before. */
  predicate Continuation(step: Step) {
    step.LoadForLogin? || step.VerifyLogin? || step.RecheckLogin? || step.RunSetup? || step.EnterIssue? ||
    step.CreateSession? || step.LoadForChange? || step.DeriveForChange? || step.EnterCommit? ||
    step.RevokeForCommit? || step.CommitReplacement? || step.ReadClock? || step.FinishAuthorize?
  }

  lemma {:induction false} Stuck(kdf: A.Kdf, s: State, h: Handler, step: Step, rest: seq<Step>)
    requires Continuation(step) && step.h == h
    ensures Run(kdf, Goto(s, h, Idle), [step] + rest).None?
  {
    RunCons(kdf, Goto(s, h, Idle), step, rest);
  }

  /** The account serves its document. */
  predicate Serves(kdf: A.Kdf, a: A.Account) {
    a.open && a.failure.None? && a.stored.Some? && A.ValidDocument(kdf, a.stored.value)
  }

  function Seen(s: State): State {
    s.(account := s.account.(seen := true))
  }

  lemma ServesExactly(kdf: A.Kdf, a: A.Account)
    ensures var (b, loaded) := A.Load(kdf, a, A.Delivered);
            if Serves(kdf, a) then b == a.(seen := true) && loaded == Ok(a.stored.value) else loaded.Err?
  {
  }

  // -- Password change -------------------------------------------------------------------------------

  function CommitSteps(h: Handler): seq<Step> {
    [CommitReplacement(h, A.Written)] + []
  }

  function RevokeSteps(h: Handler, now: int): seq<Step> {
    [RevokeForCommit(h, now)] + CommitSteps(h)
  }

  function EnterSteps(h: Handler, now: int): seq<Step> {
    [EnterCommit(h, false, A.Delivered)] + RevokeSteps(h, now)
  }

  function DeriveSteps(h: Handler, now: int, verifier: string): seq<Step> {
    [DeriveForChange(h, Some(verifier))] + EnterSteps(h, now)
  }

  function LoadSteps(h: Handler, now: int, verifier: string): seq<Step> {
    [LoadForChange(h, A.Delivered)] + DeriveSteps(h, now, verifier)
  }

  function ChangeSteps(h: Handler, change: Change, now: int, verifier: string): seq<Step> {
    [FindForChange(h, change, now)] + LoadSteps(h, now, verifier)
  }

  /** The session presented is alive and the CSRF value is its own. */
  predicate Holds(t: S.Table<nat>, change: Change, now: int) {
    && change.key in t.sessions && now < t.sessions[change.key].expiresAt
    && t.sessions[change.key].csrf == change.csrf
  }

  predicate GoodPasswords(kdf: A.Kdf, change: Change) {
    kdf.passwordOk(change.current) && kdf.passwordOk(change.replacement) && change.current != change.replacement
  }

  /** The account after a commit: the next document, or a fault when the verifier cannot make one. */
  function Committed(kdf: A.Kdf, s: State, d: A.Document, verifier: string): State
    requires d.revision != MAX_UINT64
  {
    var next := A.Document(2, d.revision + 1, d.username, verifier);
    if verifier != d.verifier && d.revision != 0 && A.ValidDocument(kdf, next) then
      s.(account := s.account.(stored := Some(next)), holder := None)
    else s.(account := s.account.(failure := Some(A.Unavailable)), holder := None, commitFailed := true)
  }

  function Emptied(s: State): State {
    s.(table := S.Table(s.table.epoch + 1, map[]))
  }

  lemma {:induction false} CommitGoes(kdf: A.Kdf, s: State, h: Handler, change: Change, d: A.Document, verifier: string)
    requires s.account.stored == Some(d) && d.revision != MAX_UINT64
    ensures Run(kdf, Goto(s, h, CommitRevoked(change, d, verifier)), CommitSteps(h)) ==
              Some(Goto(Committed(kdf, s, d, verifier), h, Idle))
  {
    var p := CommitRevoked(change, d, verifier);
    GotoTwice(Committed(kdf, s, d, verifier), h, p, Idle);
    RunCons(kdf, Goto(s, h, p), CommitReplacement(h, A.Written), []);
  }

  lemma RevokeStep(kdf: A.Kdf, s: State, h: Handler, change: Change, d: A.Document, verifier: string, now: int)
    ensures StepRevokeForCommit(Goto(s, h, Committing(change, d, verifier)), h, now) ==
              Some(if Holds(s.table, change, now) then Goto(Emptied(s), h, CommitRevoked(change, d, verifier))
                   else Goto(s.(holder := None), h, Idle))
  {
    var p := Committing(change, d, verifier);
    GotoTwice(Emptied(s), h, p, CommitRevoked(change, d, verifier));
    GotoTwice(s.(holder := None), h, p, Idle);
  }

  lemma {:induction false} RevokeGoes(kdf: A.Kdf, s: State, h: Handler, change: Change, d: A.Document,
                                      verifier: string, now: int)
    requires s.account.stored == Some(d) && d.revision != MAX_UINT64
    ensures Run(kdf, Goto(s, h, Committing(change, d, verifier)), RevokeSteps(h, now)) ==
              if !Holds(s.table, change, now) then None
              else Some(Goto(Committed(kdf, Emptied(s), d, verifier), h, Idle))
  {
    var p := Committing(change, d, verifier);
    RunCons(kdf, Goto(s, h, p), RevokeForCommit(h, now), CommitSteps(h));
    RevokeStep(kdf, s, h, change, d, verifier, now);
    if Holds(s.table, change, now) {
      CommitGoes(kdf, Emptied(s), h, change, d, verifier);
    } else {
      Stuck(kdf, s.(holder := None), h, CommitReplacement(h, A.Written), []);
    }
  }

  lemma EnterStep(kdf: A.Kdf, s: State, h: Handler, change: Change, d: A.Document, verifier: string)
    requires s.holder.None?
    ensures var read := s.(account := A.Load(kdf, s.account, A.Delivered).0);
            StepEnterCommit(kdf, Goto(s, h, ChangeDerived(change, d, verifier)), h, false, A.Delivered) ==
              Some(if Serves(kdf, s.account) && s.account.stored == Some(d) then
                     Goto(Seen(s).(holder := Some(h)), h, Committing(change, d, verifier))
                   else Goto(read, h, Idle))
  {
    var p := ChangeDerived(change, d, verifier);
    ServesExactly(kdf, s.account);
    GotoTwice(Seen(s).(holder := Some(h)), h, p, Committing(change, d, verifier));
    GotoTwice(s.(account := A.Load(kdf, s.account, A.Delivered).0), h, p, Idle);
  }

  /** A commit leaves the account lock free, whoever held it. */
  lemma LockedCommit(kdf: A.Kdf, s: State, h: Handler, d: A.Document, verifier: string)
    requires d.revision != MAX_UINT64
    ensures Committed(kdf, Emptied(s.(holder := Some(h))), d, verifier) == Committed(kdf, Emptied(s), d, verifier)
  {
  }

  lemma {:induction false} EnterGoes(kdf: A.Kdf, s: State, h: Handler, change: Change, d: A.Document,
                                     verifier: string, now: int)
    requires s.holder.None? && d.revision != MAX_UINT64
    ensures Run(kdf, Goto(s, h, ChangeDerived(change, d, verifier)), EnterSteps(h, now)) ==
              if !Serves(kdf, s.account) || s.account.stored != Some(d) || !Holds(s.table, change, now) then None
              else Some(Goto(Committed(kdf, Emptied(Seen(s)), d, verifier), h, Idle))
  {
    var p := ChangeDerived(change, d, verifier);
    RunCons(kdf, Goto(s, h, p), EnterCommit(h, false, A.Delivered), RevokeSteps(h, now));
    EnterStep(kdf, s, h, change, d, verifier);
    if Serves(kdf, s.account) && s.account.stored == Some(d) {
      var locked := Seen(s).(holder := Some(h));
      RevokeGoes(kdf, locked, h, change, d, verifier, now);
      LockedCommit(kdf, Seen(s), h, d, verifier);
    } else {
      var read := s.(account := A.Load(kdf, s.account, A.Delivered).0);
      Stuck(kdf, read, h, RevokeForCommit(h, now), CommitSteps(h));
    }
  }

  lemma {:induction false} DeriveGoes(kdf: A.Kdf, s: State, h: Handler, change: Change, d: A.Document,
                                      verifier: string, now: int)
    requires s.holder.None? && d.revision != MAX_UINT64 && kdf.accepts(change.replacement, verifier)
    ensures Run(kdf, Goto(s, h, ChangeLoaded(change, d)), DeriveSteps(h, now, verifier)) ==
              if !kdf.accepts(change.current, d.verifier) then None
              else Run(kdf, Goto(s, h, ChangeDerived(change, d, verifier)), EnterSteps(h, now))
  {
    var p := ChangeLoaded(change, d);
    RunCons(kdf, Goto(s, h, p), DeriveForChange(h, Some(verifier)), EnterSteps(h, now));
    GotoTwice(s, h, p, Idle);
    GotoTwice(s, h, p, ChangeDerived(change, d, verifier));
    Stuck(kdf, s, h, EnterCommit(h, false, A.Delivered), RevokeSteps(h, now));
  }

  lemma {:induction false} LoadGoes(kdf: A.Kdf, s: State, h: Handler, change: Change, verifier: string, now: int)
    requires s.holder.None?
    ensures Run(kdf, Goto(s, h, ChangeStarted(change)), LoadSteps(h, now, verifier)) ==
              if !GoodPasswords(kdf, change) || !Serves(kdf, s.account)
                 || s.account.stored.value.revision == MAX_UINT64 then None
              else Run(kdf, Goto(Seen(s), h, ChangeLoaded(change, s.account.stored.value)),
                       DeriveSteps(h, now, verifier))
  {
    var p := ChangeStarted(change);
    var step := DeriveForChange(h, Some(verifier));
    RunCons(kdf, Goto(s, h, p), LoadForChange(h, A.Delivered), DeriveSteps(h, now, verifier));
    ServesExactly(kdf, s.account);
    var read := s.(account := A.Load(kdf, s.account, A.Delivered).0);
    GotoTwice(s, h, p, Idle);
    GotoTwice(read, h, p, Idle);
    Stuck(kdf, s, h, step, EnterSteps(h, now));
    Stuck(kdf, read, h, step, EnterSteps(h, now));
    if Serves(kdf, s.account) {
      GotoTwice(read, h, p, ChangeLoaded(change, s.account.stored.value));
    }
  }

  predicate ChangeAllowed(kdf: A.Kdf, s: State, change: Change, now: int) {
    && Holds(s.table, change, now) && GoodPasswords(kdf, change)
    && Serves(kdf, s.account) && s.account.stored.value.revision != MAX_UINT64
    && kdf.accepts(change.current, s.account.stored.value.verifier)
  }

  /** A change goes through exactly with a live session, its CSRF value, the current password and another admissible
      one. It leaves no session, a new epoch and the next document. */
  lemma {:induction false} ChangeExactly(kdf: A.Kdf, s: State, h: Handler, change: Change, now: int, verifier: string)
    requires s.holder.None? && PhaseOf(s, h).Idle? && kdf.accepts(change.replacement, verifier)
    ensures Run(kdf, s, ChangeSteps(h, change, now, verifier)) ==
              if !ChangeAllowed(kdf, s, change, now) then None
              else Some(Goto(Committed(kdf, Emptied(Seen(s)), s.account.stored.value, verifier), h, Idle))
  {
    RunCons(kdf, s, FindForChange(h, change, now), LoadSteps(h, now, verifier));
    if Holds(s.table, change, now) {
      LoadGoes(kdf, s, h, change, verifier, now);
      if GoodPasswords(kdf, change) && Serves(kdf, s.account) && s.account.stored.value.revision != MAX_UINT64 {
        var d := s.account.stored.value;
        DeriveGoes(kdf, Seen(s), h, change, d, verifier, now);
        EnterGoes(kdf, Seen(s), h, change, d, verifier, now);
      }
    } else {
      var found := s.(table := S.Find(s.table, Some(change.key), now).0);
      Stuck(kdf, found, h, LoadForChange(h, A.Delivered), DeriveSteps(h, now, verifier));
    }
  }

  // -- Login and setup -------------------------------------------------------------------------------

  function IssueSteps(h: Handler, now: int, key: S.Key, csrf: string): seq<Step> {
    [EnterIssue(h, A.Delivered)] + ([CreateSession(h, now, Some((key, csrf)))] + [])
  }

  function RecheckSteps(h: Handler, now: int, key: S.Key, csrf: string): seq<Step> {
    [RecheckLogin(h, A.Delivered)] + IssueSteps(h, now, key, csrf)
  }

  function VerifySteps(h: Handler, now: int, key: S.Key, csrf: string): seq<Step> {
    [VerifyLogin(h, true)] + RecheckSteps(h, now, key, csrf)
  }

  function LoginLoadSteps(h: Handler, now: int, key: S.Key, csrf: string): seq<Step> {
    [LoadForLogin(h, A.Delivered)] + VerifySteps(h, now, key, csrf)
  }

  function LoginSteps(h: Handler, username: string, password: string, now: int, key: S.Key, csrf: string): seq<Step> {
    [CaptureForLogin(h, username, password)] + LoginLoadSteps(h, now, key, csrf)
  }

  /** The state with the session added, unless eight are alive; expired ones are gone. */
  ghost predicate Opens(s: State, grant: Grant, now: int, key: S.Key, csrf: string, t: State) {
    && t == s.(table := t.table, origin := t.origin) && t.table.epoch == s.table.epoch
    && (key in t.table.sessions <==> |S.LiveKeys(s.table.sessions, now)| < 8)
    && (key in t.table.sessions ==>
          && t.table.sessions[key].csrf == csrf && t.table.sessions[key].expiresAt == now + S.SESSION_LIFETIME
          && t.origin == s.origin[key := grant])
    && (key !in t.table.sessions ==> t.origin == s.origin)
    && (forall k :: k in t.table.sessions && k != key <==> k in S.LiveKeys(s.table.sessions, now))
    && (forall k :: k in t.table.sessions && k != key ==> t.table.sessions[k] == s.table.sessions[k])
  }

  lemma {:induction false} IssueGoes(kdf: A.Kdf, s: State, h: Handler, grant: Grant, now: int, key: S.Key, csrf: string)
    requires s.holder.None? && grant.epoch == s.table.epoch && key !in s.origin && key !in s.table.sessions
    ensures var r := Run(kdf, Goto(s, h, Granted(grant)), IssueSteps(h, now, key, csrf));
            && (r.Some? <==> Serves(kdf, s.account))
            && (r.Some? ==> Opens(Goto(Seen(s), h, Idle), grant, now, key, csrf, r.value))
  {
    var p := Granted(grant);
    var create := CreateSession(h, now, Some((key, csrf)));
    RunCons(kdf, Goto(s, h, p), EnterIssue(h, A.Delivered), [create] + []);
    ServesExactly(kdf, s.account);
    if Serves(kdf, s.account) {
      var locked := Seen(s).(holder := Some(h));
      GotoTwice(locked, h, p, Issuing(grant));
      CreateGoes(kdf, locked, h, grant, now, key, csrf);
    } else {
      var read := s.(account := A.Load(kdf, s.account, A.Delivered).0);
      GotoTwice(read, h, p, Idle);
      Stuck(kdf, read, h, create, []);
    }
  }

  lemma {:induction false} CreateGoes(kdf: A.Kdf, s: State, h: Handler, grant: Grant, now: int, key: S.Key,
                                      csrf: string)
    requires grant.epoch == s.table.epoch && key !in s.origin && key !in s.table.sessions
    ensures var r := Run(kdf, Goto(s, h, Issuing(grant)), [CreateSession(h, now, Some((key, csrf)))] + []);
            r.Some? && Opens(Goto(s.(holder := None), h, Idle), grant, now, key, csrf, r.value)
  {
    var p := Issuing(grant);
    GotoTwice(s.(holder := None), h, p, Idle);
    RunCons(kdf, Goto(s, h, p), CreateSession(h, now, Some((key, csrf))), []);
    S.IssueExactly(s.table, now, Some(grant.epoch), key, csrf);
  }

  lemma {:induction false} RecheckGoes(kdf: A.Kdf, s: State, h: Handler, grant: Grant, valid: bool, now: int,
                                       key: S.Key, csrf: string)
    requires s.holder.None? && Serves(kdf, s.account) && s.account.stored == Some(grant.doc) && s == Seen(s)
    ensures Run(kdf, Goto(s, h, LoginVerified(grant, valid)), RecheckSteps(h, now, key, csrf)) ==
              if !valid then None else Run(kdf, Goto(s, h, Granted(grant)), IssueSteps(h, now, key, csrf))
  {
    var p := LoginVerified(grant, valid);
    RunCons(kdf, Goto(s, h, p), RecheckLogin(h, A.Delivered), IssueSteps(h, now, key, csrf));
    ServesExactly(kdf, s.account);
    GotoTwice(s, h, p, Idle);
    GotoTwice(s, h, p, Granted(grant));
    Stuck(kdf, s, h, EnterIssue(h, A.Delivered), [CreateSession(h, now, Some((key, csrf)))] + []);
  }

  lemma {:induction false} VerifyGoes(kdf: A.Kdf, s: State, h: Handler, grant: Grant, now: int, key: S.Key,
                                      csrf: string)
    ensures Run(kdf, Goto(s, h, LoginLoaded(grant)), VerifySteps(h, now, key, csrf)) ==
              Run(kdf, Goto(s, h, LoginVerified(grant, Proper(kdf, grant))), RecheckSteps(h, now, key, csrf))
  {
    var p := LoginLoaded(grant);
    RunCons(kdf, Goto(s, h, p), VerifyLogin(h, true), RecheckSteps(h, now, key, csrf));
    GotoTwice(s, h, p, LoginVerified(grant, Proper(kdf, grant)));
  }

  lemma {:induction false} LoginLoadGoes(kdf: A.Kdf, s: State, h: Handler, epoch: nat, username: string,
                                         password: string, now: int, key: S.Key, csrf: string)
    requires s.holder.None?
    ensures Run(kdf, Goto(s, h, LoginStarted(epoch, username, password)), LoginLoadSteps(h, now, key, csrf)) ==
              if !kdf.passwordOk(password) || !Serves(kdf, s.account) then None
              else Run(kdf, Goto(Seen(s), h, LoginLoaded(Grant(epoch, username, password, s.account.stored.value))),
                       VerifySteps(h, now, key, csrf))
  {
    var p := LoginStarted(epoch, username, password);
    RunCons(kdf, Goto(s, h, p), LoadForLogin(h, A.Delivered), VerifySteps(h, now, key, csrf));
    ServesExactly(kdf, s.account);
    var read := s.(account := A.Load(kdf, s.account, A.Delivered).0);
    GotoTwice(s, h, p, Idle);
    GotoTwice(read, h, p, Idle);
    Stuck(kdf, s, h, VerifyLogin(h, true), RecheckSteps(h, now, key, csrf));
    Stuck(kdf, read, h, VerifyLogin(h, true), RecheckSteps(h, now, key, csrf));
    if Serves(kdf, s.account) {
      GotoTwice(read, h, p, LoginLoaded(Grant(epoch, username, password, s.account.stored.value)));
    }
  }

  /** A login goes through exactly with the name and an admissible password of the document served; it then opens a
      session, or finds eight alive. */
  lemma {:induction false} LoginExactly(kdf: A.Kdf, s: State, h: Handler, username: string, password: string,
                                        now: int, key: S.Key, csrf: string)
    requires s.holder.None? && PhaseOf(s, h).Idle? && key !in s.origin && key !in s.table.sessions
    ensures var r := Run(kdf, s, LoginSteps(h, username, password, now, key, csrf));
            && (r.Some? <==>
                  && kdf.passwordOk(password) && Serves(kdf, s.account)
                  && username == s.account.stored.value.username
                  && kdf.accepts(password, s.account.stored.value.verifier))
            && (r.Some? ==> Opens(Goto(Seen(s), h, Idle),
                                  Grant(s.table.epoch, username, password, s.account.stored.value), now, key, csrf,
                                    r.value))
  {
    RunCons(kdf, s, CaptureForLogin(h, username, password), LoginLoadSteps(h, now, key, csrf));
    LoginLoadGoes(kdf, s, h, s.table.epoch, username, password, now, key, csrf);
    if kdf.passwordOk(password) && Serves(kdf, s.account) {
      var grant := Grant(s.table.epoch, username, password, s.account.stored.value);
      VerifyGoes(kdf, Seen(s), h, grant, now, key, csrf);
      RecheckGoes(kdf, Seen(s), h, grant, Proper(kdf, grant), now, key, csrf);
      IssueGoes(kdf, Seen(s), h, grant, now, key, csrf);
    }
  }

  function SetupSteps(h: Handler, username: string, password: string, verifier: string, now: int, key: S.Key,
                      csrf: string): seq<Step>
  {
    [CaptureForSetup(h, username, password)]
    + ([RunSetup(h, A.Delivered, Some(verifier), A.Written)] + IssueSteps(h, now, key, csrf))
  }

  predicate SetupAllowed(kdf: A.Kdf, a: A.Account, username: string, password: string, verifier: string) {
    && a.open && a.failure.None? && !a.seen && a.stored.None? && kdf.passwordOk(password)
    && A.ValidDocument(kdf, A.Document(2, 1, username, verifier))
  }

  function SetUp(s: State, username: string, verifier: string): State {
    s.(account := s.account.(seen := true, stored := Some(A.Document(2, 1, username, verifier))),
       setups := s.setups + 1)
  }

  lemma SetupStep(kdf: A.Kdf, s: State, h: Handler, username: string, password: string, verifier: string)
    requires s.holder.None? && kdf.accepts(password, verifier) && A.FaultOk(s.account)
    ensures var (account, done) := A.Setup(kdf, s.account, username, password, A.Delivered, Some(verifier), A.Written);
            var grant := Grant(s.table.epoch, username, password, A.Document(2, 1, username, verifier));
            StepRunSetup(kdf, Goto(s, h, SetupStarted(s.table.epoch, username, password)), h, A.Delivered,
                         Some(verifier),
                         A.Written) ==
              Some(if SetupAllowed(kdf, s.account, username, password, verifier) then
                     Goto(SetUp(s, username, verifier), h, Granted(grant))
                   else Goto(s.(account := account), h, Idle))
  {
    var p := SetupStarted(s.table.epoch, username, password);
    var (account, done) := A.Setup(kdf, s.account, username, password, A.Delivered, Some(verifier), A.Written);
    var grant := Grant(s.table.epoch, username, password, A.Document(2, 1, username, verifier));
    SetupOutcomeExactly(kdf, s.account, username, password, verifier);
    GotoTwice(SetUp(s, username, verifier), h, p, Granted(grant));
    GotoTwice(s.(account := account), h, p, Idle);
  }

  lemma {:induction false} SetupGoes(kdf: A.Kdf, s: State, h: Handler, username: string, password: string,
                                     verifier: string, now: int, key: S.Key, csrf: string)
    requires s.holder.None? && kdf.accepts(password, verifier) && A.FaultOk(s.account)
    ensures var p := SetupStarted(s.table.epoch, username, password);
            var grant := Grant(s.table.epoch, username, password, A.Document(2, 1, username, verifier));
            Run(kdf, Goto(s, h, p),
                [RunSetup(h, A.Delivered, Some(verifier), A.Written)] + IssueSteps(h, now, key, csrf)) ==
              if !SetupAllowed(kdf, s.account, username, password, verifier) then None
              else Run(kdf, Goto(SetUp(s, username, verifier), h, Granted(grant)), IssueSteps(h, now, key, csrf))
  {
    var p := SetupStarted(s.table.epoch, username, password);
    RunCons(kdf, Goto(s, h, p), RunSetup(h, A.Delivered, Some(verifier), A.Written), IssueSteps(h, now, key, csrf));
    SetupStep(kdf, s, h, username, password, verifier);
    var (account, done) := A.Setup(kdf, s.account, username, password, A.Delivered, Some(verifier), A.Written);
    Stuck(kdf, s.(account := account), h, EnterIssue(h, A.Delivered), [CreateSession(h, now, Some((key, csrf)))] + []);
  }

  /** Setup goes through exactly where there is no document and none was seen, with a valid name and an admissible
      password; it then leaves the first document and opens a session. */
  lemma {:induction false} SetupExactly(kdf: A.Kdf, s: State, h: Handler, username: string, password: string,
                                        verifier: string, now: int, key: S.Key, csrf: string)
    requires s.holder.None? && PhaseOf(s, h).Idle? && key !in s.origin && key !in s.table.sessions
    requires kdf.accepts(password, verifier) && A.FaultOk(s.account)
    ensures var r := Run(kdf, s, SetupSteps(h, username, password, verifier, now, key, csrf));
            var grant := Grant(s.table.epoch, username, password, A.Document(2, 1, username, verifier));
            && (r.Some? <==> SetupAllowed(kdf, s.account, username, password, verifier))
            && (r.Some? ==> Opens(Goto(SetUp(s, username, verifier), h, Idle), grant, now, key, csrf, r.value))
  {
    RunCons(kdf, s, CaptureForSetup(h, username, password),
            [RunSetup(h, A.Delivered, Some(verifier), A.Written)] + IssueSteps(h, now, key, csrf));
    SetupGoes(kdf, s, h, username, password, verifier, now, key, csrf);
    if SetupAllowed(kdf, s.account, username, password, verifier) {
      var grant := Grant(s.table.epoch, username, password, A.Document(2, 1, username, verifier));
      IssueGoes(kdf, SetUp(s, username, verifier), h, grant, now, key, csrf);
      assert Seen(SetUp(s, username, verifier)) == SetUp(s, username, verifier);
    }
  }

  lemma SetupOutcomeExactly(kdf: A.Kdf, a: A.Account, username: string, password: string, verifier: string)
    requires A.FaultOk(a)
    ensures var (b, done) := A.Setup(kdf, a, username, password, A.Delivered, Some(verifier), A.Written);
            var d := A.Document(2, 1, username, verifier);
            if SetupAllowed(kdf, a, username, password, verifier) then
              done == Ok(d) && b == a.(seen := true, stored := Some(d))
            else done.Err?
  {
  }

  // -- Authorisation ---------------------------------------------------------------------------------

  function AuthoriseSteps(h: Handler, key: Option<S.Key>): seq<Step> {
    [BeginAuthorize(h, key, A.Delivered)] + ([ReadClock(h)] + ([FinishAuthorize(h)] + []))
  }

  predicate Alive(t: S.Table<nat>, key: Option<S.Key>, now: int) {
    key.Some? && key.value in t.sessions && now < t.sessions[key.value].expiresAt
  }

  /** The state after a lookup: one more authorised request, or a table without the session asked for. */
  function LookedUp(s: State, key: Option<S.Key>, now: int): State {
    if Alive(s.table, key, now) then s.(authorised := s.authorised + 1)
    else if key.None? then s
    else s.(table := s.table.(sessions := s.table.sessions - {key.value}))
  }

  lemma {:induction false} FinishGoes(kdf: A.Kdf, s: State, h: Handler, key: Option<S.Key>, now: int)
    ensures Run(kdf, Goto(s, h, LookingUp(key, now)), [FinishAuthorize(h)] + []) ==
              Some(Goto(LookedUp(s, key, now), h, Idle))
  {
    GotoTwice(LookedUp(s, key, now), h, LookingUp(key, now), Idle);
    RunCons(kdf, Goto(s, h, LookingUp(key, now)), FinishAuthorize(h), []);
    if key.Some? && key.value !in s.table.sessions {
      assert s.table.sessions - {key.value} == s.table.sessions;
    }
  }

  lemma {:induction false} ReadGoes(kdf: A.Kdf, s: State, h: Handler, key: Option<S.Key>)
    ensures Run(kdf, Goto(s, h, Authorizing(key)), [ReadClock(h)] + ([FinishAuthorize(h)] + [])) ==
              Run(kdf, Goto(s, h, LookingUp(key, s.clock)), [FinishAuthorize(h)] + [])
  {
    GotoTwice(s, h, Authorizing(key), LookingUp(key, s.clock));
    RunCons(kdf, Goto(s, h, Authorizing(key)), ReadClock(h), [FinishAuthorize(h)] + []);
  }

  /** A request is authorised exactly while the account serves its document and the session is alive. */
  lemma {:induction false} AuthoriseExactly(kdf: A.Kdf, s: State, h: Handler, key: Option<S.Key>)
    requires s.holder.None? && PhaseOf(s, h).Idle?
    ensures Run(kdf, s, AuthoriseSteps(h, key)) ==
              if !Serves(kdf, s.account) then None else Some(Goto(LookedUp(Seen(s), key, s.clock), h, Idle))
  {
    var rest := [ReadClock(h)] + ([FinishAuthorize(h)] + []);
    RunCons(kdf, s, BeginAuthorize(h, key, A.Delivered), rest);
    ServesExactly(kdf, s.account);
    if Serves(kdf, s.account) {
      ReadGoes(kdf, Seen(s), h, key);
      FinishGoes(kdf, Seen(s), h, key, s.clock);
    } else {
      Stuck(kdf, s.(account := A.Load(kdf, s.account, A.Delivered).0), h, ReadClock(h), [FinishAuthorize(h)] + []);
    }
  }

  // -- The recheck of a login ------------------------------------------------------------------------

  /** A verified login is granted exactly while the account serves the very document it was verified against. */
  lemma RecheckExactly(kdf: A.Kdf, s: State, h: Handler, grant: Grant, valid: bool)
    requires s.holder.None? && PhaseOf(s, h) == LoginVerified(grant, valid)
    ensures var t := StepRecheckLogin(kdf, s, h, A.Delivered).value;
            PhaseOf(t, h) ==
              if valid && Serves(kdf, s.account) && s.account.stored == Some(grant.doc) then Granted(grant) else Idle
  {
    ServesExactly(kdf, s.account);
  }

  // -- Failed loads ----------------------------------------------------------------------------------

  /** The reply of the account read that the step makes, if it makes one. */
  function AccountRead(kdf: A.Kdf, s: State, step: Step): Option<A.LoadReply> {
    match step
    case LoadForLogin(h, reply) =>
      if PhaseOf(s, h).LoginStarted? && kdf.passwordOk(PhaseOf(s, h).password) then Some(reply) else None
    case RecheckLogin(_, reply) => Some(reply)
    case RunSetup(h, reply, _, _) =>
      var p := PhaseOf(s, h);
      if p.SetupStarted? && A.ValidUsername(p.username) && kdf.passwordOk(p.password) then Some(reply) else None
    case EnterIssue(_, reply) => Some(reply)
    case LoadForChange(h, reply) =>
      if PhaseOf(s, h).ChangeStarted? && GoodPasswords(kdf, PhaseOf(s, h).change) then Some(reply) else None
    case EnterCommit(_, cancelled, reply) => if cancelled then None else Some(reply)
    case BeginAuthorize(_, _, reply) => Some(reply)
    case ProbeConfigured(reply) => Some(reply)
    case _ => None
  }

  /** Whichever step it is, a failed read of the account ends its request and latches the store. */
  lemma FailedReadLatches(kdf: A.Kdf, s: State, step: Step)
    requires A.FaultOk(s.account) && Next(kdf, s, step).Some?
    requires AccountRead(kdf, s, step).Some? && AccountRead(kdf, s, step).value.LoadFailed?
    ensures var t := Next(kdf, s, step).value;
            && A.Latched(t.account) && t.account.stored == s.account.stored
            && t.table == s.table && t.origin == s.origin
            && (Actor(step).Some? ==> PhaseOf(t, Actor(step).value).Idle?)
  {
    FailedLoad(kdf, s.account, AccountRead(kdf, s, step).value);
  }

  lemma FailedLoad(kdf: A.Kdf, a: A.Account, reply: A.LoadReply)
    requires reply.LoadFailed? && A.FaultOk(a)
    ensures var (b, loaded) := A.Load(kdf, a, reply);
            loaded.Err? && loaded.error != A.Missing && A.Latched(b) && b.stored == a.stored
  {
  }
}
