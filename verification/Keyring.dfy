/** The OS keyring as the store sees it: what it holds, when it answers, and how its failures are attributed. */
module Keyring {
  import opened Basics
  import opened Tokens

  /** A keyring entry: the JSON of a token, or text no token was encoded into. */
  datatype Raw = Encoded(token: StoredToken) | Plain(text: string)

  /** Why a keyring request failed before any entry was looked at. */
  datatype Fault = Fault(exitCode: Option<int>, message: string)

  datatype KeyringError = NotFound | Faulted(fault: Fault)

  /** Which requests the keyring answers, and why it refuses the others. Each of the three fails on its own. */
  datatype Availability = Availability(onSet: Option<Fault>, onGet: Option<Fault>, onDelete: Option<Fault>) {
    predicate IsAlive() { onSet.None? && onGet.None? && onDelete.None? }
  }

  const Alive := Availability(None, None, None)

  /** A keyring that answers nothing. */
  function Dead(f: Fault): Availability { Availability(Some(f), Some(f), Some(f)) }

  /** A keyring that still answers Get. */
  function ReadOnly(f: Fault): Availability { Availability(Some(f), None, Some(f)) }

  /** A keyring that takes an entry and does not give it back. */
  function WriteOnly(f: Fault): Availability { Availability(None, Some(f), None) }

  datatype Cause = Unattributed | Locked | Refused

  const DARWIN := "darwin"
  const ERR_SEC_INTERACTION_NOT_ALLOWED := 36

  function Diagnose(goos: string, e: KeyringError): Cause {
    if goos == DARWIN then
      if e.Faulted? && e.fault.exitCode == Some(ERR_SEC_INTERACTION_NOT_ALLOWED) then Locked else Refused
    else Unattributed
  }

  predicate Present(c: Cause) { c.Locked? || c.Refused? }

  /** The attribution rule: a keyring is known to exist exactly on a Mac, whatever the failure was. */
  lemma PresentOnlyOnDarwin(goos: string, e: KeyringError)
    ensures Present(Diagnose(goos, e)) <==> goos == DARWIN
    ensures Diagnose(goos, e).Locked? <==> goos == DARWIN && e.Faulted? && e.fault.exitCode == Some(36)
  {
  }

  function MemoryKey(service: string, user: string): string { service + "\0" + user }

  /** Within one service, different users never share an entry. */
  lemma MemoryKeysDiffer(service: string, a: string, b: string)
    requires a != b
    ensures MemoryKey(service, a) != MemoryKey(service, b)
  {
    assert MemoryKey(service, a)[|service| + 1..] == a;
    assert MemoryKey(service, b)[|service| + 1..] == b;
  }

  /** The in-memory keyring, with the availability a real one can have. */
  class MemoryKeyring {
    var entries: map<string, Raw>
    var availability: Availability

    constructor ()
      ensures entries == map[] && availability == Alive
    {
      entries, availability := map[], Alive;
    }

    method Set(service: string, user: string, password: Raw) returns (err: Option<KeyringError>)
      modifies this`entries
      ensures availability.onSet.None? ==>
                err == None && entries == old(entries)[MemoryKey(service, user) := password]
      ensures availability.onSet.Some? ==> err == Some(Faulted(availability.onSet.value)) && entries == old(entries)
    {
      if availability.onSet.Some? {
        return Some(Faulted(availability.onSet.value));
      }
      entries := entries[MemoryKey(service, user) := password];
      err := None;
    }

    method Get(service: string, user: string) returns (r: Result<Raw, KeyringError>)
      ensures availability.onGet.Some? ==> r == Err(Faulted(availability.onGet.value))
      ensures availability.onGet.None? ==>
                r == if MemoryKey(service, user) in entries then Ok(entries[MemoryKey(service, user)]) else Err(NotFound)
    {
      if availability.onGet.Some? {
        return Err(Faulted(availability.onGet.value));
      }
      var key := MemoryKey(service, user);
      r := if key !in entries then Err(NotFound) else Ok(entries[key]);
    }

    method Delete(service: string, user: string) returns (err: Option<KeyringError>)
      modifies this`entries
      ensures availability.onDelete.Some? ==> err == Some(Faulted(availability.onDelete.value)) && entries == old(entries)
      ensures availability.onDelete.None? ==>
                && entries == old(entries) - {MemoryKey(service, user)}
                && err == if MemoryKey(service, user) in old(entries) then None else Some(NotFound)
    {
      if availability.onDelete.Some? {
        return Some(Faulted(availability.onDelete.value));
      }
      var key := MemoryKey(service, user);
      if key !in entries {
        assert entries == entries - {key};
        return Some(NotFound);
      }
      entries := entries - {key};
      err := None;
    }
  }
}
