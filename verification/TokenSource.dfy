/** lockingTokenSource as an object, run by one process alone, and the path its Token takes through Protocol. */
module TokenSource {
  import opened Basics
  import opened Tokens
  import opened Provider
  import opened Protocol
  import opened Safety
  import opened Keyring
  import opened FileStore
  import opened TokenStore

  /** What the surroundings do to one call, and how long its waits take. */
  datatype Weather = Weather(
    locked: bool, discovers: bool, reaches: bool, returns_: bool, waiting: nat, asking: nat)

  /** What a caller gets back: a token, an error, or both. */
  function OutcomeOf(token: Option<OAuthToken>, failed: bool): Outcome {
    if token.None? then Failed
    else if failed then Unsaved(FromOAuth2(token.value))
    else Got(FromOAuth2(token.value))
  }

  /** The stored token of a client as Protocol's register. */
  function RegisterOf(h: Host, clientID: string): Option<StoredToken> {
    var r := Lookup(h, clientID);
    if r.Ok? then Some(FromOAuth2(r.value.0)) else None
  }

  predicate Usable(t: OAuthToken, now: Time) { Valid(FromOAuth2(t), now) }

  /** One process with one goroutine, at pc. */
  function Solo(m: Machine, p: Process, pc: Pc): State { State(m, [p], [Goroutine(0, pc)]) }

  /** The goroutine's own act, or the clock: what one call alone is made of. */
  predicate Alone(step: Step) { step.Tick? || (step.Go? && step.g == 0) }

  ghost predicate AllAlone(steps: seq<Step>) { forall i :: 0 <= i < |steps| ==> Alone(steps[i]) }

  /** The run so far, of the goroutine alone, covered throughout when fair says so. */
  ghost predicate Path(s: State, steps: seq<Step>, t: State, fair: bool) {
    Run(s, steps) && Final(s, steps) == t && AllAlone(steps) && (fair ==> CoveredRun(s, steps))
  }

  lemma {:induction false} Extend(s: State, steps: seq<Step>, t: State, fair: bool, step: Step)
    requires Path(s, steps, t, fair) && Alone(step) && Enabled(t, step) && (fair ==> Covered(t, step))
    ensures Path(s, steps + [step], Apply(t, step), fair)
    decreases |steps|
  {
    if steps == [] {
      assert steps + [step] == [step];
    } else {
      assert (steps + [step])[0] == steps[0] && (steps + [step])[1..] == steps[1..] + [step];
      Extend(Apply(s, steps[0]), steps[1..], t, fair, step);
    }
  }

  /** The goroutine's next act takes the path one step on. */
  lemma Acts(s: State, steps: seq<Step>, fair: bool, m: Machine, p: Process, pc: Pc, act: Act) returns (steps': seq<Step>)
    requires Path(s, steps, Solo(m, p, pc), fair) && Can(m, p, pc, act) && (fair ==> CoveredAct(m, pc, act))
    ensures var (m', p', pc') := Do(m, p, 0, pc, act); Path(s, steps', Solo(m', p', pc'), fair)
  {
    var (m', p', pc') := Do(m, p, 0, pc, act);
    Extend(s, steps, Solo(m, p, pc), fair, Go(0, act));
    assert Apply(Solo(m, p, pc), Go(0, act)) == Solo(m', p', pc');
    steps' := steps + [Go(0, act)];
  }

  /** The clock runs on while the goroutine waits. */
  lemma Waits(s: State, steps: seq<Step>, fair: bool, m: Machine, p: Process, pc: Pc, d: nat) returns (steps': seq<Step>)
    requires Path(s, steps, Solo(m, p, pc), fair)
    ensures Path(s, steps', Solo(m.(now := m.now + d), p, pc), fair)
  {
    Extend(s, steps, Solo(m, p, pc), fair, Tick(d));
    steps' := steps + [Tick(d)];
  }

  /** A call starts, takes mu and looks at the token in memory. */
  lemma Begins(m: Machine, p: Process, fair: bool) returns (steps: seq<Step>)
    requires p.mu.None?
    ensures Path(Solo(m, p, Idle), steps,
                 Solo(m, p.(mu := Some(0)), if Valid(p.tok, m.now) then Unlocking(Got(p.tok)) else Polling(MAX_POLLS)), fair)
  {
    var s := Solo(m, p, Idle);
    steps := Acts(s, [], fair, m, p, Idle, Call);
    steps := Acts(s, steps, fair, m, p, WantMu, LockMu);
    steps := Acts(s, steps, fair, m, p.(mu := Some(0)), InMemory, CheckMemory);
  }

  /** The deferred releases end the call. */
  lemma Returns(s: State, steps: seq<Step>, fair: bool, m: Machine, p: Process, locked: bool, out: Outcome) returns (steps': seq<Step>)
    requires Path(s, steps, Solo(m, p, Releasing(locked, out)), fair) && m.flock == FlockWhen(locked)
    ensures Path(s, steps', Solo(m.(flock := None), p.(mu := None), Done(out)), fair)
  {
    steps' := Acts(s, steps, fair, m, p, Releasing(locked, out), Release);
    steps' := Acts(s, steps', fair, m.(flock := None), p, Unlocking(out), UnlockMu);
  }

  function FlockWhen(locked: bool): Option<nat> { if locked then Some(0) else None }

  /**
   A store whose Save succeeds and is what the next Load gives: a keyring that takes
   the token and gives it back, or one that takes none, holds none for the client
   that it would give, and leaves it to a working file.
   */
  predicate Takes(h: Host, clientID: string) {
    if h.availability.onSet.None? then h.availability.onGet.None?
    else h.goos != DARWIN && Working(h.disk) && Seen(h, clientID).None?
  }

  /** How the store's answer to a save reads in Protocol. */
  function SaveAct(h: Host, clientID: string, tok: OAuthToken): Act {
    if Saved(h, clientID, tok).1.Err? then SaveFails
    else if Takes(h, clientID) then Save
    else SaveHidden
  }

  /** A Save is one of Protocol's three exactly as the store takes it, hides it or refuses it, and only the first changes what Load gives. */
  lemma SaveActIsRight(h: Host, clientID: string, tok: OAuthToken)
    ensures RegisterOf(Saved(h, clientID, tok).0, clientID) ==
            if Takes(h, clientID) then Some(FromOAuth2(tok)) else RegisterOf(h, clientID)
    ensures SaveAct(h, clientID, tok).Save? <==> Takes(h, clientID)
    ensures SaveAct(h, clientID, tok).SaveFails? <==> Saved(h, clientID, tok).1.Err?
  {
    PutChangesOne(h.disk, clientID, FromOAuth2(tok));
    if Saved(h, clientID, tok).1.Ok? {
      SaveThenLoad(h, clientID, tok);
    }
  }

  /** A covered call that starts on a sound grant with its current token stored leaves both so. */
  lemma FairCallKeepsTheGrant(m: Machine, p: Process, path: seq<Step>, m': Machine, p': Process, out: Outcome)
    requires m.now > 0 && m.flock.None? && p.mu.None? && Sound(m.grant) && m.refreshedAt == []
    requires m.store.Some? && m.store.value.refreshToken == m.grant.current
    requires Path(Solo(m, p, Idle), path, Solo(m', p', Done(out)), true) && m'.flock.None?
    ensures !m'.grant.revoked && m'.grant.replays == 0
    ensures m'.store.Some? && m'.store.value.refreshToken == m'.grant.current
  {
    InitInv(Solo(m, p, Idle));
    NoReplay(Solo(m, p, Idle), path);
  }

  class LockingTokenSource {
    const clientID: string
    const store: Store
    const idp: RotatingIDP
    const lifetime: nat
    var tok: OAuthToken
    var discovered: bool

    constructor (clientID: string, store: Store, idp: RotatingIDP, lifetime: nat, tok: OAuthToken)
      ensures this.clientID == clientID && this.store == store && this.idp == idp && this.lifetime == lifetime
      ensures this.tok == tok && !discovered
    {
      this.clientID, this.store, this.idp, this.lifetime := clientID, store, idp, lifetime;
      this.tok, discovered := tok, false;
    }

    function Around(now: Time, refreshedAt: seq<Time>, flock: Option<nat>): Machine
      reads store, store.backend, store.file, idp
    {
      Machine(idp.State(), lifetime, refreshedAt, RegisterOf(store.State(), clientID), flock, now)
    }

    function Inside(mu: Option<nat>): Process reads this { Process(FromOAuth2(tok), mu, discovered) }

    /** The lock is obtained, no answer is lost, a token is stored, and the store takes another. */
    ghost predicate Fair(w: Weather) reads store, store.backend, store.file {
      w.locked && w.returns_ && RegisterOf(store.State(), clientID).Some? && Takes(store.State(), clientID)
    }

    /** What the store holds for the client, if it can be read. */
    function Found(): Option<OAuthToken> reads store, store.backend, store.file {
      var r := Lookup(store.State(), clientID);
      if r.Ok? then Some(r.value.0) else None
    }

    /**
     One call, alone on the machine. A usable token in memory is returned, and nothing
     is touched; otherwise a usable one in the store, which is kept in memory. Failing
     both, what the provider issues is all there is to return: no token unless it
     counts one refresh more and its answer arrives, and then that very token, kept in
     memory and saved, with an error beside it exactly if the save failed.

     Under any weather, what it does to this source, the provider and the two-tier
     store is a path of Protocol's steps from the state it found to the state it
     leaves, ending in what it returned. In fair weather the path is covered, which is
     what FairCallKeepsTheGrant asks for.
     */
    method Token(now: Time, w: Weather)
      returns (token: Option<OAuthToken>, failed: bool, ghost path: seq<Step>, ghost m: Machine)
      requires now > 0
      modifies this`tok, this`discovered, idp, store.backend`entries, store.file`content
      ensures m == Around(m.now, m.refreshedAt, None)
      ensures Path(old(Solo(Around(now, [], None), Inside(None), Idle)), path,
                   Solo(m, Inside(None), Done(OutcomeOf(token, failed))), old(Fair(w)))
      ensures Usable(old(tok), now) ==> token == Some(old(tok)) && !failed && Untouched(old(idp.State()), old(store.State()), old(tok))
      ensures var later, found := now + w.waiting, old(Found());
              !Usable(old(tok), now) && found.Some? && Usable(found.value, later) ==>
                token == found && !failed && Untouched(old(idp.State()), old(store.State()), found.value)
      ensures var later, found := now + w.waiting, old(Found());
              !Usable(old(tok), now) && !(found.Some? && Usable(found.value, later)) ==>
                var presented := (if found.Some? then found.value else old(tok)).refreshToken;
                var asked := (old(discovered) || w.discovers) && w.reaches && presented != "";
                && Asked(old(idp.State()), presented, asked, w, later, token)
                && Kept(old(store.State()), token, failed)
                && (token.None? ==> tok == if found.Some? then found.value else old(tok))
                && discovered == (old(discovered) || w.discovers)
    {
      m := Around(now, [], None);
      ghost var start, fair := Solo(m, Inside(None), Idle), Fair(w);
      path := Begins(m, Inside(None), fair);
      if Valid(FromOAuth2(tok), now) {
        path := Acts(start, path, fair, m, Inside(Some(0)), Unlocking(Got(FromOAuth2(tok))), UnlockMu);
        return Some(tok), false, path, m;
      }
      path := Waits(start, path, fair, m, Inside(Some(0)), Polling(MAX_POLLS), w.waiting);
      m := Around(now + w.waiting, [], None);
      path := Acts(start, path, fair, m, Inside(Some(0)), Polling(MAX_POLLS), if w.locked then Poll else SkipLock);
      token, failed, path, m := Locked(now + w.waiting, w, start, path, fair);
    }

    /** The provider and the store are as they were, and the token in memory is kept. */
    predicate Untouched(grant: Grant, host: Host, kept: OAuthToken) reads this, idp, store, store.backend, store.file {
      idp.State() == grant && store.State() == host && tok == kept
    }

    /** The provider handled one request, or none, and a token is there exactly if it refreshed and its answer arrived. */
    predicate Asked(grant: Grant, presented: string, asked: bool, w: Weather, later: Time, token: Option<OAuthToken>)
      reads this, idp
    {
      && idp.State() == (if asked then Provider.Present(grant, presented).0 else grant)
      && (token.Some? <==> idp.refreshes > grant.refreshes && w.returns_)
      && (token.Some? ==>
            && asked && idp.refreshes == grant.refreshes + 1
            && Issued(token.value, AccessName(idp.refreshes), idp.current, later + w.asking))
    }

    /** A token made of what the provider issued, received at now. */
    predicate Issued(token: OAuthToken, access: string, refresh: string, now: Time) {
      token == OAuthToken(access, refresh, "bearer", if lifetime == 0 then 0 else now + lifetime, map[])
    }

    /** A token obtained is in memory and was handed to the store, whose refusal alone is an error beside it. */
    predicate Kept(host: Host, token: Option<OAuthToken>, failed: bool) reads this, store, store.backend, store.file {
      match token
      case None => failed && store.State() == host
      case Some(t) => tok == t && store.State() == Saved(host, clientID, t).0 && (failed <==> Saved(host, clientID, t).1.Err?)
    }

    /** Between the lock attempt and the deferred releases: the store first, the provider if it must. */
    method Locked(now: Time, w: Weather, ghost start: State, ghost before: seq<Step>, ghost fair: bool)
      returns (token: Option<OAuthToken>, failed: bool, ghost path: seq<Step>, ghost m: Machine)
      requires now > 0 && (fair ==> Fair(w))
      requires Path(start, before, Solo(Around(now, [], FlockWhen(w.locked)), Inside(Some(0)), Loading(w.locked)), fair)
      modifies this`tok, this`discovered, idp, store.backend`entries, store.file`content
      ensures m == Around(m.now, m.refreshedAt, None)
      ensures Path(start, path, Solo(m, Inside(None), Done(OutcomeOf(token, failed))), fair)
      ensures var found := old(Found());
              found.Some? && Usable(found.value, now) ==>
                token == found && !failed && Untouched(old(idp.State()), old(store.State()), found.value)
      ensures var found := old(Found());
              !(found.Some? && Usable(found.value, now)) ==>
                var presented := (if found.Some? then found.value else old(tok)).refreshToken;
                var asked := (old(discovered) || w.discovers) && w.reaches && presented != "";
                && Asked(old(idp.State()), presented, asked, w, now, token)
                && Kept(old(store.State()), token, failed)
                && (token.None? ==> tok == if found.Some? then found.value else old(tok))
                && discovered == (old(discovered) || w.discovers)
    {
      m := Around(now, [], FlockWhen(w.locked));
      var stored := store.Load(clientID);
      path := Acts(start, before, fair, m, Inside(Some(0)), Loading(w.locked), if stored.Ok? then Load else LoadFails);
      if stored.Ok? {
        tok := stored.value.0;
        if Valid(FromOAuth2(tok), now) {
          path := Returns(start, path, fair, m, Inside(Some(0)), w.locked, Got(FromOAuth2(tok)));
          return Some(tok), false, path, m.(flock := None);
        }
      }
      token, failed, path, m := Renew(now, w, start, path, fair);
    }

    /** Discovery, unless it has been done, and the refresh request. */
    method Renew(now: Time, w: Weather, ghost start: State, ghost before: seq<Step>, ghost fair: bool)
      returns (token: Option<OAuthToken>, failed: bool, ghost path: seq<Step>, ghost m: Machine)
      requires now > 0 && (fair ==> w.returns_ && Takes(store.State(), clientID))
      requires Path(start, before, Solo(Around(now, [], FlockWhen(w.locked)), Inside(Some(0)), Discovering(w.locked)), fair)
      modifies this`tok, this`discovered, idp, store.backend`entries, store.file`content
      ensures m == Around(m.now, m.refreshedAt, None)
      ensures Path(start, path, Solo(m, Inside(None), Done(OutcomeOf(token, failed))), fair)
      ensures var presented := old(tok).refreshToken;
              Asked(old(idp.State()), presented, (old(discovered) || w.discovers) && w.reaches && presented != "", w, now, token)
      ensures Kept(old(store.State()), token, failed) && (token.None? ==> tok == old(tok))
      ensures discovered == (old(discovered) || w.discovers)
    {
      m := Around(now, [], FlockWhen(w.locked));
      if !discovered {
        if !w.discovers {
          path := Acts(start, before, fair, m, Inside(Some(0)), Discovering(w.locked), DiscoverFails);
          path := Returns(start, path, fair, m, Inside(Some(0)), w.locked, Failed);
          return None, true, path, m.(flock := None);
        }
      }
      path := Acts(start, before, fair, m, Inside(Some(0)), Discovering(w.locked), Discover);
      discovered := true;
      token, failed, path, m := Refresh(now, w, start, path, fair);
    }

    /** The refresh request. */
    method Refresh(now: Time, w: Weather, ghost start: State, ghost before: seq<Step>, ghost fair: bool)
      returns (token: Option<OAuthToken>, failed: bool, ghost path: seq<Step>, ghost m: Machine)
      requires now > 0 && (fair ==> w.returns_ && Takes(store.State(), clientID))
      requires Path(start, before, Solo(Around(now, [], FlockWhen(w.locked)), Inside(Some(0)), Requesting(w.locked)), fair)
      modifies this`tok, idp, store.backend`entries, store.file`content
      ensures m == Around(m.now, m.refreshedAt, None)
      ensures Path(start, path, Solo(m, Inside(None), Done(OutcomeOf(token, failed))), fair)
      ensures Asked(old(idp.State()), old(tok).refreshToken, w.reaches && old(tok).refreshToken != "", w, now, token)
      ensures Kept(old(store.State()), token, failed) && (token.None? ==> tok == old(tok))
    {
      m := Around(now, [], FlockWhen(w.locked));
      if tok.refreshToken == "" || !w.reaches {
        path := Acts(start, before, fair, m, Inside(Some(0)), Requesting(w.locked), if w.reaches then Send else RequestLost);
        path := Returns(start, path, fair, m, Inside(Some(0)), w.locked, Failed);
        return None, true, path, m.(flock := None);
      }
      path := Acts(start, before, fair, m, Inside(Some(0)), Requesting(w.locked), if w.returns_ then Send else ResponseLost);
      var answer := idp.Token(tok.refreshToken);
      m := Around(now, if answer.Granted? then [now] else [], FlockWhen(w.locked));
      if answer.Denied? || !w.returns_ {
        path := Returns(start, path, fair, m, Inside(Some(0)), w.locked, Failed);
        return None, true, path, m.(flock := None);
      }
      token, failed, path, m := Keep(now, w, answer, start, path, fair);
    }

    /** Keeping what the provider granted: in memory, and then in the store, which may not take it. */
    method Keep(now: Time, w: Weather, answer: Answer, ghost start: State, ghost before: seq<Step>, ghost fair: bool)
      returns (token: Option<OAuthToken>, failed: bool, ghost path: seq<Step>, ghost m: Machine)
      requires answer.Granted? && (fair ==> Takes(store.State(), clientID))
      requires Path(start, before, Solo(Around(now, [now], FlockWhen(w.locked)), Inside(Some(0)),
                                        Answered(w.locked, answer.access, answer.refresh)), fair)
      modifies this`tok, store.backend`entries, store.file`content
      ensures m == Around(m.now, m.refreshedAt, None)
      ensures Path(start, path, Solo(m, Inside(None), Done(OutcomeOf(token, failed))), fair)
      ensures token.Some? && Issued(token.value, answer.access, answer.refresh, now + w.asking)
      ensures Kept(old(store.State()), token, failed)
    {
      m := Around(now, [now], FlockWhen(w.locked));
      var pc := Answered(w.locked, answer.access, answer.refresh);
      path := Waits(start, before, fair, m, Inside(Some(0)), pc, w.asking);
      m := Around(now + w.asking, [now], FlockWhen(w.locked));
      path := Acts(start, path, fair, m, Inside(Some(0)), pc, Receive);
      tok := OAuthToken(answer.access, answer.refresh, "bearer",
                        if lifetime == 0 then 0 else now + w.asking + lifetime, map[]);
      token, failed, path, m := Persist(now + w.asking, [now], w, start, path, fair);
    }

    method Persist(now: Time, ghost refreshedAt: seq<Time>, w: Weather, ghost start: State, ghost before: seq<Step>, ghost fair: bool)
      returns (token: Option<OAuthToken>, failed: bool, ghost path: seq<Step>, ghost m: Machine)
      requires fair ==> Takes(store.State(), clientID)
      requires Path(start, before, Solo(Around(now, refreshedAt, FlockWhen(w.locked)), Inside(Some(0)), Saving(w.locked)), fair)
      modifies store.backend`entries, store.file`content
      ensures m == Around(m.now, m.refreshedAt, None)
      ensures Path(start, path, Solo(m, Inside(None), Done(OutcomeOf(token, failed))), fair)
      ensures token == Some(tok) && Kept(old(store.State()), token, failed)
    {
      m := Around(now, refreshedAt, FlockWhen(w.locked));
      ghost var act := SaveAct(store.State(), clientID, tok);
      SaveActIsRight(store.State(), clientID, tok);
      path := Acts(start, before, fair, m, Inside(Some(0)), Saving(w.locked), act);
      var saved := store.Save(clientID, tok);
      m := Around(now, refreshedAt, FlockWhen(w.locked));
      path := Returns(start, path, fair, m, Inside(Some(0)), w.locked, OutcomeOf(Some(tok), saved.Err?));
      return Some(tok), saved.Err?, path, m.(flock := None);
    }
  }
}
