/** The in-memory panel session table: its value-level operations, generic in the epoch token, and
    the object whose methods carry them out in place. */
module SessionStores {
  import opened Basics

  // Times are nanoseconds.
  const SESSION_LIFETIME: int := 1_800_000_000_000
  const MAXIMUM_SESSIONS: nat := 8

  // The SHA-256 image of a 32-byte token. Malformed cookie text is the absent key.
  type Key = nat

  datatype Session = Session(csrf: string, expiresAt: int)

  datatype Table<E> = Table(epoch: E, sessions: map<Key, Session>)

  datatype IssueError = NoRandomness | Revoked | Capacity

  datatype RevokeError = SessionMissing | CsrfMismatch

  predicate Live(session: Session, now: int) {
    now < session.expiresAt
  }

  function Purge(sessions: map<Key, Session>, now: int): (kept: map<Key, Session>)
    ensures kept.Keys <= sessions.Keys
  {
    map k | k in sessions && Live(sessions[k], now) :: sessions[k]
  }

  function NewSession(csrf: string, now: int): Session {
    Session(csrf, now + SESSION_LIFETIME)
  }

  /** `createForEpoch` on values: a stale epoch changes nothing, a full table only loses its expired entries. */
  function Issue<E(==)>(t: Table<E>, now: int, expected: Option<E>, key: Key, csrf: string)
    : (r: (Table<E>, Result<Session, IssueError>))
  {
    if expected.None? || expected.value != t.epoch then (t, Err(Revoked))
    else
      var kept := Purge(t.sessions, now);
      if |kept| >= MAXIMUM_SESSIONS then (t.(sessions := kept), Err(Capacity))
      else (t.(sessions := kept[key := NewSession(csrf, now)]), Ok(NewSession(csrf, now)))
  }

  function Find<E>(t: Table<E>, key: Option<Key>, now: int): (r: (Table<E>, Option<Session>)) {
    if key.None? || key.value !in t.sessions then (t, None)
    else if !Live(t.sessions[key.value], now) then (t.(sessions := t.sessions - {key.value}), None)
    else (t, Some(t.sessions[key.value]))
  }

  function Revoke<E>(t: Table<E>, key: Option<Key>): (r: Table<E>) {
    if key.None? then t else t.(sessions := t.sessions - {key.value})
  }

  /** The caller's own session must be live with a matching CSRF value; only then is everything dropped. */
  function RevokeAll<E>(t: Table<E>, key: Option<Key>, csrf: string, now: int, renewed: E)
    : (r: (Table<E>, Result<(), RevokeError>))
  {
    if key.None? || key.value !in t.sessions || !Live(t.sessions[key.value], now) then (t, Err(SessionMissing))
    else if t.sessions[key.value].csrf != csrf then (t, Err(CsrfMismatch))
    else (Table(renewed, map[]), Ok(()))
  }

  function LiveKeys(sessions: map<Key, Session>, now: int): set<Key> {
    set k | k in sessions && now < sessions[k].expiresAt
  }

  lemma PurgeKeepsLive(sessions: map<Key, Session>, now: int)
    ensures Purge(sessions, now).Keys == LiveKeys(sessions, now)
    ensures |Purge(sessions, now)| == |LiveKeys(sessions, now)|
    ensures forall k :: k in Purge(sessions, now) ==> Purge(sessions, now)[k] == sessions[k]
  {
    assert |Purge(sessions, now)| == |Purge(sessions, now).Keys|;
  }

  /** A stale epoch changes nothing. Otherwise exactly the expired sessions go, the live ones stay as they were,
      and one for half an hour is added unless eight are live. */
  lemma IssueExactly<E>(t: Table<E>, now: int, expected: Option<E>, key: Key, csrf: string)
    ensures var (after, made) := Issue(t, now, expected, key, csrf);
            && (made == Err(Revoked) <==> expected != Some(t.epoch))
            && (made == Err(Capacity) <==> expected == Some(t.epoch) && |LiveKeys(t.sessions, now)| >= 8)
            && made != Err(NoRandomness)
            && after.epoch == t.epoch && (made == Err(Revoked) ==> after == t)
            && (made == Err(Capacity) ==> after.sessions.Keys == LiveKeys(t.sessions, now))
            && (made.Ok? ==>
                  && after.sessions.Keys == LiveKeys(t.sessions, now) + {key}
                  && made.value.csrf == csrf && made.value.expiresAt == now + 1_800_000_000_000
                  && after.sessions[key] == made.value)
            && (forall k :: k in after.sessions && (made.Ok? ==> k != key) ==> after.sessions[k] == t.sessions[k])
  {
    PurgeKeepsLive(t.sessions, now);
  }

  /** Issuing adds at most its own key and stays within the bound. */
  lemma IssueBounded<E>(t: Table<E>, now: int, expected: Option<E>, key: Key, csrf: string)
    requires |t.sessions| <= MAXIMUM_SESSIONS
    ensures var r := Issue(t, now, expected, key, csrf);
            && |r.0.sessions| <= MAXIMUM_SESSIONS
            && r.0.sessions.Keys <= t.sessions.Keys + {key}
            && r.0.epoch == t.epoch
            && (r.1.Err? ==> r.0.sessions.Keys <= t.sessions.Keys)
  {
    var kept := Purge(t.sessions, now);
    SubmapSize(kept, t.sessions);
    if |kept| < MAXIMUM_SESSIONS {
      var issued := kept[key := NewSession(csrf, now)];
      assert issued.Keys == kept.Keys + {key};
    }
  }

  lemma RemovalBounded(sessions: map<Key, Session>, key: Key)
    requires |sessions| <= MAXIMUM_SESSIONS
    ensures |sessions - {key}| <= MAXIMUM_SESSIONS
  {
    SubmapSize(sessions - {key}, sessions);
  }

  lemma SubmapSize(a: map<Key, Session>, b: map<Key, Session>)
    requires a.Keys <= b.Keys
    ensures |a| <= |b|
  {
    SubsetSize(a.Keys, b.Keys);
  }

  lemma {:induction false} SubsetSize<T>(a: set<T>, b: set<T>)
    requires a <= b
    ensures |a| <= |b|
  {
    if a != {} {
      var x :| x in a;
      SubsetSize(a - {x}, b - {x});
    }
  }

  // An opaque generation: two epochs are equal only when they are the same object.
  class Epoch {
    constructor () {}
  }

  class SessionStore {
    var sessions: map<Key, Session>
    var epoch: Epoch

    ghost predicate Valid()
      reads this
    {
      |sessions| <= MAXIMUM_SESSIONS
    }

    ghost function View(): Table<Epoch>
      reads this
    {
      Table(epoch, sessions)
    }

    constructor ()
      ensures Valid() && sessions == map[] && fresh(epoch)
    {
      sessions := map[];
      epoch := new Epoch();
    }

    method PurgeExpired(now: int)
      modifies this`sessions
      ensures sessions == Purge(old(sessions), now)
    {
      var pending := sessions.Keys;
      ghost var before := sessions;
      while pending != {}
        invariant pending <= before.Keys
        invariant sessions == map k | k in before && (k in pending || Live(before[k], now)) :: before[k]
        decreases pending
      {
        var id :| id in pending;
        pending := pending - {id};
        if !(now < sessions[id].expiresAt) {
          sessions := sessions - {id};
        }
      }
    }

    /** `entropy` is what the random source delivered: the new key and CSRF value, or nothing. */
    method CreateForEpoch(now: int, expected: Epoch?, entropy: Option<(Key, string)>)
      returns (r: Result<Session, IssueError>)
      requires Valid()
      modifies this`sessions
      ensures Valid()
      ensures entropy.None? ==> r == Err(NoRandomness) && sessions == old(sessions)
      ensures r == Err(Revoked) <==> entropy.Some? && expected != epoch
      ensures r == Err(Capacity) <==>
                entropy.Some? && expected == epoch && |LiveKeys(old(sessions), now)| >= MAXIMUM_SESSIONS
      ensures r == Err(Capacity) ==> sessions.Keys == LiveKeys(old(sessions), now)
      ensures r.Ok? ==>
                && entropy.Some? && sessions.Keys == LiveKeys(old(sessions), now) + {entropy.value.0}
                && r.value == Session(entropy.value.1, now + SESSION_LIFETIME) && sessions[entropy.value.0] == r.value
      ensures entropy.Some? ==>
                var bound: Option<Epoch> := if expected == null then None else Some(expected);
                (View(), r) == Issue(old(View()), now, bound, entropy.value.0, entropy.value.1)
    {
      if entropy.None? {
        return Err(NoRandomness);
      }
      var (key, csrf) := entropy.value;
      IssueBounded(View(), now, if expected == null then None else Some(expected), key, csrf);
      IssueExactly(View(), now, if expected == null then None else Some(expected), key, csrf);
      if expected == null || expected != epoch {
        return Err(Revoked);
      }
      PurgeExpired(now);
      if |sessions| >= MAXIMUM_SESSIONS {
        return Err(Capacity);
      }
      var session := NewSession(csrf, now);
      sessions := sessions[key := session];
      r := Ok(session);
    }

    /** A session is served exactly while it is present and alive, and nothing but an expired one is dropped. */
    method FindSession(key: Option<Key>, now: int) returns (r: Option<Session>)
      requires Valid()
      modifies this`sessions
      ensures Valid()
      ensures r.Some? <==> key.Some? && key.value in old(sessions) && Live(old(sessions)[key.value], now)
      ensures r.Some? ==> key.value in sessions && r.value == sessions[key.value]
      ensures forall k :: k in sessions ==> k in old(sessions) && sessions[k] == old(sessions)[k]
      ensures forall k :: k in old(sessions) && k !in sessions <==>
                k in old(sessions) && key == Some(k) && !Live(old(sessions)[k], now)
      ensures (View(), r) == Find(old(View()), key, now)
    {
      if key.None? || key.value !in sessions {
        return None;
      }
      var session := sessions[key.value];
      if !(now < session.expiresAt) {
        RemovalBounded(sessions, key.value);
        sessions := sessions - {key.value};
        return None;
      }
      r := Some(session);
    }

    method RevokeSession(key: Option<Key>)
      requires Valid()
      modifies this`sessions
      ensures Valid()
      ensures sessions == if key.Some? then old(sessions) - {key.value} else old(sessions)
      ensures View() == Revoke(old(View()), key)
    {
      if key.Some? {
        RemovalBounded(sessions, key.value);
        sessions := sessions - {key.value};
      }
    }

    /** Only a live session with its own CSRF value ends all sessions, and then their epoch too. */
    method RevokeAllSessions(key: Option<Key>, csrf: string, now: int) returns (r: Result<(), RevokeError>)
      requires Valid()
      modifies this
      ensures Valid()
      ensures r.Ok? <==>
                && key.Some? && key.value in old(sessions) && Live(old(sessions)[key.value], now)
                && old(sessions)[key.value].csrf == csrf
      ensures r.Ok? ==> sessions == map[] && fresh(epoch)
      ensures r.Err? ==> View() == old(View())
      ensures (View(), r) == RevokeAll(old(View()), key, csrf, now, epoch)
    {
      if key.None? || key.value !in sessions || !(now < sessions[key.value].expiresAt) {
        return Err(SessionMissing);
      }
      if sessions[key.value].csrf != csrf {
        return Err(CsrfMismatch);
      }
      sessions := map[];
      epoch := new Epoch();
      r := Ok(());
    }
  }
}
