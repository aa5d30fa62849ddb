/** The administrator credential store: one function per account-lock section over its value, and the
    object whose methods run those sections in place. The durable backend's replies, the verifier
    derivation and the random source are inputs. */
module AccountStores {
  import opened Basics

  // The password hash as the service sees it: which plaintexts are admissible, which verifier texts are
  // well formed, and which plaintexts a verifier accepts.
  datatype Kdf = Kdf(passwordOk: string -> bool, verifierOk: string -> bool, accepts: (string, string) -> bool)

  datatype Document = Document(version: int, revision: Uint64, username: string, verifier: string)

  const DOCUMENT_VERSION: int := 2

  datatype AccountError =
    | Configured | Missing | Unavailable | Uncertain | Closed | Conflict
    | InvalidUsername | ShortPassword | KdfFailed

  // `stored` is the durable document; the other fields live in the process.
  datatype Account = Account(open: bool, failure: Option<AccountError>, seen: bool, stored: Option<Document>)

  // What one backend call answers. A load may lose or damage the document; a failed write may or may not
  // have reached the disk.
  datatype LoadReply = Delivered | Absent | LoadFailed(uncertain: bool)

  datatype WriteReply = Written | Refused | WriteFailed(uncertain: bool, reached: bool)

  predicate UsernameChar(c: char) {
    'a' <= c <= 'z' || 'A' <= c <= 'Z' || '0' <= c <= '9' || c == '.' || c == '_' || c == '-'
  }

  predicate ValidUsername(name: string) {
    0 < |name| <= 32 && forall i :: 0 <= i < |name| ==> UsernameChar(name[i])
  }

  predicate ValidDocument(kdf: Kdf, d: Document) {
    d.version == DOCUMENT_VERSION && d.revision != 0 && ValidUsername(d.username) && kdf.verifierOk(d.verifier)
  }

  function Fault(uncertain: bool): AccountError {
    if uncertain then Uncertain else Unavailable
  }

  /** Only these two faults are ever recorded. */
  predicate FaultOk(a: Account) {
    a.failure.Some? ==> a.failure.value == Unavailable || a.failure.value == Uncertain
  }

  /** No session may be issued and no password changed any more. */
  predicate Latched(a: Account) {
    !a.open || a.failure.Some?
  }

  function Load(kdf: Kdf, a: Account, reply: LoadReply): (r: (Account, Result<Document, AccountError>)) {
    if !a.open then (a, Err(Closed))
    else if a.failure.Some? then (a, Err(a.failure.value))
    else
      var missing := reply.Absent? || (reply.Delivered? && a.stored.None?);
      if missing && !a.seen then (a, Err(Missing))
      else if missing || reply.LoadFailed? || !ValidDocument(kdf, a.stored.value) then
        var fault := Fault(reply.LoadFailed? && reply.uncertain);
        (a.(failure := Some(fault)), Err(fault))
      else (a.(seen := true), Ok(a.stored.value))
  }

  function FirstDocument(username: string, verifier: string): Document {
    Document(DOCUMENT_VERSION, 1, username, verifier)
  }

  /** The lock section of `setup`; `hashed` is the derived verifier, absent when derivation fails. */
  function Setup(kdf: Kdf, a: Account, username: string, password: string,
                 reply: LoadReply, hashed: Option<string>, write: WriteReply)
    : (r: (Account, Result<Document, AccountError>))
  {
    if !ValidUsername(username) then (a, Err(InvalidUsername))
    else if !kdf.passwordOk(password) then (a, Err(ShortPassword))
    else
      var (b, loaded) := Load(kdf, a, reply);
      if loaded.Ok? then (b, Err(Configured))
      else if loaded.error != Missing then (b, Err(loaded.error))
      else if hashed.None? then (b, Err(KdfFailed))
      else
        var d := FirstDocument(username, hashed.value);
        if !ValidDocument(kdf, d) then (b.(failure := Some(Unavailable)), Err(Unavailable))
        else
          match write
          case Refused => (b, Err(Configured))
          case Written =>
            if b.stored.Some? then (b, Err(Configured)) else (b.(seen := true, stored := Some(d)), Ok(d))
          case WriteFailed(uncertain, reached) =>
            var fault := Fault(uncertain);
            var stored := if reached && b.stored.None? then Some(d) else b.stored;
            (b.(failure := Some(fault), stored := stored), Err(fault))
  }

  /** The final lock section of `authenticate`: the verdict stands only for the document still in force. */
  function Recheck(kdf: Kdf, a: Account, d: Document, valid: bool, reply: LoadReply)
    : (r: (Account, Result<bool, AccountError>))
  {
    var (b, loaded) := Load(kdf, a, reply);
    if loaded.Err? then (b, Err(loaded.error))
    else if loaded.value != d then (b, Err(Unavailable))
    else (b, Ok(valid))
  }

  function Successor(d: Document, verifier: string): (next: Document)
    requires d.revision != MAX_UINT64
    ensures next != d && next.username == d.username
  {
    Document(DOCUMENT_VERSION, d.revision + 1, d.username, verifier)
  }

  /** The document a replacement of `expected` would publish, if the backend accepts it at all. */
  function Replacement(kdf: Kdf, stored: Option<Document>, expected: Uint64, verifier: string): (r: Option<Document>)
    ensures r.Some? ==> ValidDocument(kdf, r.value) && r.value.verifier == verifier && r.value.revision == expected + 1
  {
    if stored.None? || expected == 0 || expected == MAX_UINT64 || stored.value.revision != expected ||
       stored.value.verifier == verifier then None
    else
      var next := Successor(stored.value, verifier);
      if ValidDocument(kdf, next) then Some(next) else None
  }

  /** The commit at the end of `changePassword`, after the sessions have been revoked. */
  function Replace(kdf: Kdf, a: Account, expected: Uint64, verifier: string, write: WriteReply)
    : (r: (Account, Result<(), AccountError>))
  {
    var next := Replacement(kdf, a.stored, expected, verifier);
    if write.Written? && next.Some? then (a.(stored := next), Ok(()))
    else
      var fault := Fault(write.WriteFailed? && write.uncertain);
      var stored := if write.WriteFailed? && write.reached && next.Some? then next else a.stored;
      (a.(failure := Some(fault), stored := stored), Err(fault))
  }

  function Close(a: Account): Account {
    a.(open := false)
  }

  class AccountStore {
    const kdf: Kdf
    var open: bool
    var failure: Option<AccountError>
    var seenConfigured: bool
    var stored: Option<Document>

    ghost function View(): Account
      reads this
    {
      Account(open, failure, seenConfigured, stored)
    }

    ghost predicate Valid()
      reads this
    {
      FaultOk(View())
    }

    constructor (kdf: Kdf, stored: Option<Document>)
      ensures Valid()
      ensures this.kdf == kdf && View() == Account(true, None, false, stored)
    {
      this.kdf := kdf;
      open := true;
      failure := None;
      seenConfigured := false;
      this.stored := stored;
    }

    /** Credentials are never served from memory; the first fault, and a document that was seen and is gone,
        end this store for good. */
    method LoadLocked(reply: LoadReply) returns (r: Result<Document, AccountError>)
      requires Valid()
      modifies this`failure, this`seenConfigured
      ensures Valid()
      ensures Latched(old(View())) ==> View() == old(View()) && r == Err(if open then failure.value else Closed)
      ensures r.Ok? ==> !Latched(View()) && seenConfigured && stored == Some(r.value) && ValidDocument(kdf, r.value)
      ensures r.Ok? ==> r.value.version == 2 && r.value.revision >= 1 && 1 <= |r.value.username| <= 32
      ensures r.Ok? ==> kdf.verifierOk(r.value.verifier)
      ensures !Latched(old(View())) && r.Err? ==>
                if Latched(View()) then failure == Some(r.error) && (r.error == Unavailable || r.error == Uncertain)
                else r.error == Missing && View() == old(View())
      ensures old(seenConfigured) ==> seenConfigured && (r.Err? ==> Latched(View()))
      ensures (View(), r) == Load(kdf, old(View()), reply)
    {
      if !open {
        return Err(Closed);
      }
      if failure.Some? {
        return Err(failure.value);
      }
      var missing := reply.Absent? || (reply.Delivered? && stored.None?);
      if missing && !seenConfigured {
        return Err(Missing);
      }
      if missing || reply.LoadFailed? || !ValidDocument(kdf, stored.value) {
        failure := Some(Unavailable);
        if reply.LoadFailed? && reply.uncertain {
          failure := Some(Uncertain);
        }
        return Err(failure.value);
      }
      seenConfigured := true;
      r := Ok(stored.value);
    }

    /** The document is written only where there is none and none was ever seen, and a write that fails after
        it may have reached the disk ends this store. */
    method SetupLocked(username: string, password: string, reply: LoadReply, hashed: Option<string>, write: WriteReply)
      returns (r: Result<Document, AccountError>)
      requires Valid()
      modifies this`failure, this`seenConfigured, this`stored
      ensures Valid()
      ensures stored != old(stored) ==>
                && old(stored).None? && !old(seenConfigured) && !Latched(old(View()))
                && ValidUsername(username) && kdf.passwordOk(password) && hashed.Some?
                && stored == Some(FirstDocument(username, hashed.value)) && ValidDocument(kdf, stored.value)
      ensures r.Ok? <==> stored != old(stored) && !Latched(View())
      ensures r.Ok? ==> stored == Some(r.value) && seenConfigured
      ensures Latched(old(View())) ==> View() == old(View())
      ensures (View(), r) == Setup(kdf, old(View()), username, password, reply, hashed, write)
    {
      if !ValidUsername(username) {
        return Err(InvalidUsername);
      }
      if !kdf.passwordOk(password) {
        return Err(ShortPassword);
      }
      var loaded := LoadLocked(reply);
      if loaded.Ok? {
        return Err(Configured);
      }
      if loaded.error != Missing {
        return Err(loaded.error);
      }
      if hashed.None? {
        return Err(KdfFailed);
      }
      var d := FirstDocument(username, hashed.value);
      if !ValidDocument(kdf, d) {
        failure := Some(Unavailable);
        return Err(Unavailable);
      }
      if write.Refused? || (write.Written? && stored.Some?) {
        return Err(Configured);
      }
      if write.Written? {
        stored := Some(d);
        seenConfigured := true;
        return Ok(d);
      }
      if write.reached && stored.None? {
        stored := Some(d);
      }
      failure := Some(Fault(write.uncertain));
      r := Err(failure.value);
    }

    /** The document only ever moves to the successor of the revision that was checked, and every failure,
        certain or not, ends this store. */
    method ReplaceLocked(expected: Uint64, verifier: string, write: WriteReply) returns (r: Result<(), AccountError>)
      requires Valid()
      modifies this`failure, this`stored
      ensures Valid()
      ensures stored != old(stored) ==>
                && old(stored).Some? && old(stored).value.revision == expected && expected != MAX_UINT64
                && old(stored).value.verifier != verifier
                && stored == Some(Successor(old(stored).value, verifier)) && ValidDocument(kdf, stored.value)
      ensures r.Ok? ==> stored != old(stored) && failure == old(failure)
      ensures r.Err? ==> Latched(View()) && failure == Some(r.error) && (r.error == Unavailable || r.error == Uncertain)
      ensures (View(), r) == Replace(kdf, old(View()), expected, verifier, write)
    {
      var next := Replacement(kdf, stored, expected, verifier);
      if next.Some? && (write.Written? || (write.WriteFailed? && write.reached)) {
        stored := next;
      }
      if write.Written? && next.Some? {
        return Ok(());
      }
      failure := Some(Unavailable);
      if write.WriteFailed? && write.uncertain {
        failure := Some(Uncertain);
      }
      r := Err(failure.value);
    }

    /** Closing latches the store for good and leaves the document and the recorded fault as they are. */
    method CloseLocked()
      requires Valid()
      modifies this`open
      ensures Valid() && Latched(View())
      ensures View() == Close(old(View())) && View() == old(View()).(open := false)
    {
      open := false;
    }
  }
}
