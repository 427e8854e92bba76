/** The two-tier store: the keyring wherever there is one, the file where there may be none. */
module TokenStore {
  import opened Basics
  import opened Tokens
  import opened Keyring
  import opened FileStore

  datatype Backend = KeyringBackend | FileBackend

  /** Unavailable carries the keyring's own reason; it still counts as not logged in. */
  datatype StoreError =
    | NotLoggedIn
    | Unavailable(cause: Cause)
    | KeyringRefuses(cause: Cause)
    | FallbackFailed(file: FileError)
    | FileFailed(file: FileError)
    | Undecodable

  predicate IsNotLoggedIn(e: StoreError) { e.NotLoggedIn? || e.Unavailable? }

  /** Everything a store's answers depend on. */
  datatype Host = Host(
    service: string, goos: string, entries: map<string, Raw>, availability: Availability, disk: Disk)

  function Key(h: Host, clientID: string): string { MemoryKey(h.service, clientID) }

  /** The keyring entry for a client, when the keyring answers and holds a non-empty one. */
  function Seen(h: Host, clientID: string): Option<Raw> {
    if h.availability.onGet.None? && Key(h, clientID) in h.entries && h.entries[Key(h, clientID)] != Plain("")
    then Some(h.entries[Key(h, clientID)]) else None
  }

  function Saved(h: Host, clientID: string, tok: OAuthToken): (Host, Result<Backend, StoreError>) {
    var stored := FromOAuth2(tok);
    if h.availability.onSet.None? then
      (h.(entries := h.entries[Key(h, clientID) := Encoded(stored)]), Ok(KeyringBackend))
    else
      var cause := Diagnose(h.goos, Faulted(h.availability.onSet.value));
      if Present(cause) then (h, Err(KeyringRefuses(cause)))
      else
        var (disk, err) := Put(h.disk, clientID, stored);
        (h.(disk := disk), if err.Some? then Err(FallbackFailed(err.value)) else Ok(FileBackend))
  }

  function Lookup(h: Host, clientID: string): Result<(OAuthToken, Backend), StoreError> {
    var seen := Seen(h, clientID);
    if seen.Some? then
      if seen.value.Encoded? then Ok((ToOAuth2(seen.value.token), KeyringBackend)) else Err(Undecodable)
    else
      match Find(h.disk, clientID)
      case Err(e) => Err(FileFailed(e))
      case Ok(Some(stored)) => Ok((ToOAuth2(stored), FileBackend))
      case Ok(None) =>
        if h.availability.onGet.Some? then Err(Unavailable(Diagnose(h.goos, Faulted(h.availability.onGet.value))))
        else Err(NotLoggedIn)
  }

  function Deleted(h: Host, clientID: string): (Host, Option<StoreError>) {
    var fromKeyring := h.availability.onDelete.None? && Key(h, clientID) in h.entries;
    var entries := if h.availability.onDelete.None? then h.entries - {Key(h, clientID)} else h.entries;
    var (disk, err) := Drop(h.disk, clientID);
    (h.(entries := entries, disk := disk),
     if err.Some? && err.value != NotStored then Some(FileFailed(err.value))
     else if fromKeyring || err.None? then None
     else Some(NotLoggedIn))
  }

  /**
   A save that succeeds is what the next load returns, from the backend it went to,
   exactly when that load reaches it: a keyring that took the token answers Get as
   well, and one that refused it gives no older entry.
   */
  lemma SaveThenLoad(h: Host, clientID: string, tok: OAuthToken)
    requires Saved(h, clientID, tok).1.Ok?
    ensures Lookup(Saved(h, clientID, tok).0, clientID) == Ok((ToOAuth2(FromOAuth2(tok)), Saved(h, clientID, tok).1.value))
       <==> if h.availability.onSet.None? then h.availability.onGet.None? else Seen(h, clientID).None?
  {
  }

  /** The keyring refused this read, and this is its reason. */
  predicate RefusedRead(h: Host, cause: Cause) {
    h.availability.onGet.Some? && cause == Diagnose(h.goos, Faulted(h.availability.onGet.value))
  }

  /**
   What Load answers. A token comes from the keyring whenever it gives one for the
   client, and otherwise from the file. Nothing is said to be logged in exactly where
   both were read and held nothing; a keyring that refused is the reason given exactly
   where the file held nothing either; and the file's own failure comes before that.
   */
  lemma LoadAnswers(h: Host, clientID: string)
    ensures var r, file := Lookup(h, clientID), Find(h.disk, clientID);
            && (forall t :: r == Ok((t, KeyringBackend)) <==>
                  exists s :: Seen(h, clientID) == Some(Encoded(s)) && t == ToOAuth2(s))
            && (forall t :: r == Ok((t, FileBackend)) <==>
                  Seen(h, clientID).None? && exists s :: file == Ok(Some(s)) && t == ToOAuth2(s))
            && (r == Err(Undecodable) <==> Seen(h, clientID).Some? && !Seen(h, clientID).value.Encoded?)
            && (forall e :: r == Err(FileFailed(e)) <==> Seen(h, clientID).None? && file == Err(e))
            && (forall c :: r == Err(Unavailable(c)) <==> RefusedRead(h, c) && file == Ok(None))
            && (r == Err(NotLoggedIn) <==> h.availability.onGet.None? && NoEntry(h, clientID) && file == Ok(None))
  {
    var r := Lookup(h, clientID);
    forall t | r == Ok((t, KeyringBackend)) ensures exists s :: Seen(h, clientID) == Some(Encoded(s)) && t == ToOAuth2(s) {
      assert Seen(h, clientID) == Some(Encoded(Seen(h, clientID).value.token));
    }
    forall t | r == Ok((t, FileBackend)) ensures exists s :: Find(h.disk, clientID) == Ok(Some(s)) && t == ToOAuth2(s) {
      assert Find(h.disk, clientID) == Ok(Some(Find(h.disk, clientID).value.value));
    }
  }

  /**
   What Save answers: the keyring, exactly where it takes the token; its refusal,
   exactly on a Mac; the file, exactly where it works and there may be no keyring; and
   otherwise the file's failure. A save that fails leaves both stores as they were.
   */
  lemma SaveAnswers(h: Host, clientID: string, tok: OAuthToken)
    ensures var (h', r) := Saved(h, clientID, tok);
            && (r == Ok(KeyringBackend) <==> h.availability.onSet.None?)
            && (r == Ok(FileBackend) <==> h.availability.onSet.Some? && h.goos != DARWIN && Working(h.disk))
            && (forall c :: r == Err(KeyringRefuses(c)) <==>
                  && h.availability.onSet.Some? && h.goos == DARWIN
                  && c == Diagnose(h.goos, Faulted(h.availability.onSet.value)))
            && (r.Err? ==> h' == h && (r.error.KeyringRefuses? || r.error.FallbackFailed?))
  {
    PutChangesOne(h.disk, clientID, FromOAuth2(tok));
  }

  /** Nothing is found for a client, which is what ErrNotLoggedIn stands for. */
  predicate Nothing(h: Host, clientID: string) {
    Lookup(h, clientID).Err? && IsNotLoggedIn(Lookup(h, clientID).error)
  }

  /** No entry in the keyring, or an empty one, which Load passes over. */
  predicate NoEntry(h: Host, clientID: string) {
    Key(h, clientID) !in h.entries || h.entries[Key(h, clientID)] == Plain("")
  }

  /** However the keyring answers from now on, nothing is found for the client. */
  ghost predicate Forgets(h: Host, clientID: string) {
    forall a: Availability :: Nothing(h.(availability := a), clientID)
  }

  lemma ForgetsWhenEmpty(h: Host, clientID: string)
    ensures Forgets(h, clientID) <==> NoEntry(h, clientID) && Find(h.disk, clientID) == Ok(None)
  {
    if Forgets(h, clientID) {
      assert Nothing(h.(availability := Alive), clientID);
    }
  }

  lemma DroppedIsFound(d: Disk, clientID: string)
    ensures Find(Drop(d, clientID).0, clientID) == Ok(None) <==> Working(d) || Find(d, clientID) == Ok(None)
  {
    DropChangesOne(d, clientID);
  }

  /**
   Delete forgets a token in both stores for good exactly when the keyring answered it
   or held nothing for the client, and the file works or held nothing either. It
   reports success exactly when it removed something and the file did not fail, and
   says nobody was logged in exactly when it removed nothing and the file held nothing.
   */
  lemma DeleteForgets(h: Host, clientID: string)
    ensures Forgets(Deleted(h, clientID).0, clientID) <==>
            && (h.availability.onDelete.None? || NoEntry(h, clientID))
            && (Working(h.disk) || Find(h.disk, clientID) == Ok(None))
    ensures var taken := h.availability.onDelete.None? && Key(h, clientID) in h.entries;
            var err := Deleted(h, clientID).1;
            && (err == Some(NotLoggedIn) <==> !taken && Find(h.disk, clientID) == Ok(None))
            && (err == None <==> (Working(h.disk) && clientID in Held(h.disk)) || (taken && Find(h.disk, clientID) == Ok(None)))
  {
    ForgetsWhenEmpty(Deleted(h, clientID).0, clientID);
    DroppedIsFound(h.disk, clientID);
    DropChangesOne(h.disk, clientID);
  }

  /** One client's save and delete leave every other client's token as it was. */
  lemma ClientsAreIndependent(h: Host, a: string, b: string, tok: OAuthToken)
    requires a != b
    ensures Lookup(Saved(h, a, tok).0, b) == Lookup(h, b)
    ensures Lookup(Deleted(h, a).0, b) == Lookup(h, b)
  {
    MemoryKeysDiffer(h.service, a, b);
    PutChangesOne(h.disk, a, FromOAuth2(tok));
    DropChangesOne(h.disk, a);
  }

  class Store {
    const service: string
    const goos: string
    const backend: MemoryKeyring
    const file: File

    function State(): Host reads this, backend, file {
      Host(service, goos, backend.entries, backend.availability, file.State())
    }

    constructor (service: string, goos: string, backend: MemoryKeyring, file: File)
      ensures this.service == service && this.goos == goos && this.backend == backend && this.file == file
    {
      this.service, this.goos, this.backend, this.file := service, goos, backend, file;
    }

    method Save(clientID: string, tok: OAuthToken) returns (r: Result<Backend, StoreError>)
      modifies backend`entries, file`content
      ensures (State(), r) == Saved(old(State()), clientID, tok)
    {
      var stored := FromOAuth2(tok);
      var keyringErr := backend.Set(service, clientID, Encoded(stored));
      if keyringErr.None? {
        return Ok(KeyringBackend);
      }
      var cause := Diagnose(goos, keyringErr.value);
      if Present(cause) {
        return Err(KeyringRefuses(cause));
      }
      var fileErr := file.Set(clientID, stored);
      if fileErr.Some? {
        return Err(FallbackFailed(fileErr.value));
      }
      r := Ok(FileBackend);
    }

    method Load(clientID: string) returns (r: Result<(OAuthToken, Backend), StoreError>)
      ensures r == Lookup(State(), clientID)
    {
      var raw := backend.Get(service, clientID);
      if raw.Ok? && raw.value != Plain("") {
        if !raw.value.Encoded? {
          return Err(Undecodable);
        }
        return Ok((ToOAuth2(raw.value.token), KeyringBackend));
      }
      var stored := file.Get(clientID);
      if stored.Err? {
        return Err(FileFailed(stored.error));
      }
      if stored.value.Some? {
        return Ok((ToOAuth2(stored.value.value), FileBackend));
      }
      if raw.Err? && raw.error != NotFound {
        return Err(Unavailable(Diagnose(goos, raw.error)));
      }
      r := Err(NotLoggedIn);
    }

    method Delete(clientID: string) returns (err: Option<StoreError>)
      modifies backend`entries, file`content
      ensures (State(), err) == Deleted(old(State()), clientID)
    {
      var keyringErr := backend.Delete(service, clientID);
      var fileErr := file.Delete(clientID);
      if fileErr.Some? && fileErr.value != NotStored {
        return Some(FileFailed(fileErr.value));
      }
      if keyringErr.None? || fileErr.None? {
        return None;
      }
      err := Some(NotLoggedIn);
    }
  }
}
