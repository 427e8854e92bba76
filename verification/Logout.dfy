/**
 A logout among running processes. TokenStore.Delete takes no lock and waits for
 nobody, and a refresh whose Load then finds nothing goes on with the token it has in
 memory. So a process still running can put a token back. This says exactly when.
 */
module Logout {
  import opened Basics
  import opened Tokens
  import opened Provider
  import opened Protocol
  import opened Safety
  import opened Progress

  /** The state once Delete has succeeded: nothing is stored, and everything else is as it was. */
  function LoggedOut(s: State): State { s.(m := s.m.(store := None)) }

  /** No process opens a source: TokenSource answers ErrNotLoggedIn while nothing is stored. */
  predicate NoOpen(steps: seq<Step>) { forall i :: 0 <= i < |steps| ==> !steps[i].Open? }

  /** The provider would refresh this token. */
  predicate Live(g: Grant, tok: StoredToken) {
    tok.refreshToken == g.current != "" && g.current !in g.consumed && !g.revoked
  }

  /** A token that is not usable for ever. */
  predicate GoesStale(tok: StoredToken) { tok.accessToken == "" || tok.expiry != 0 }

  /** Past the check in memory, and before the provider's answer. */
  predicate Underway(pc: Pc) { pc.Polling? || pc.Loading? || pc.Discovering? || pc.Requesting? }

  /** Goroutine g has a refreshed token to save, or has one the provider would refresh, and is refreshing it or will in time. */
  predicate Threatens(s: State, g: nat) {
    && g < |s.gs| && s.gs[g].proc < |s.procs|
    && (Rotated(s.gs[g].pc) || (Live(s.m.grant, ProcOf(s, g).tok) && (GoesStale(ProcOf(s, g).tok) || Underway(s.gs[g].pc))))
  }

  ghost predicate Quiet(s: State) { s.m.store.None? && forall g: nat :: !Threatens(s, g) }

  // --- while nobody threatens, nothing comes back ---

  /** One goroutine's act, in a quiet machine, changes no token and leaves the goroutine no threat. */
  lemma ActStaysQuiet(m: Machine, p: Process, g: nat, pc: Pc, act: Act)
    requires Can(m, p, pc, act) && m.store.None?
    requires !Rotated(pc) && !(Live(m.grant, p.tok) && (GoesStale(p.tok) || Underway(pc)))
    ensures var (m', p', pc') := Do(m, p, g, pc, act);
            && m'.store.None? && p'.tok == p.tok && !Rotated(pc')
            && !(Live(m'.grant, p'.tok) && (GoesStale(p'.tok) || Underway(pc')))
            && (m'.grant == m.grant || m'.grant.revoked)
  {
  }

  lemma StepStaysQuiet(s: State, step: Step)
    requires Locks(s) && Quiet(s) && Enabled(s, step) && !step.Open?
    ensures Quiet(Apply(s, step))
  {
    var t := Apply(s, step);
    if step.Go? {
      assert !Threatens(s, step.g);
      ActStaysQuiet(s.m, ProcOf(s, step.g), step.g, s.gs[step.g].pc, step.act);
    }
    forall h: nat ensures !Threatens(t, h) {
      assert !Threatens(s, h);
    }
  }

  lemma {:induction false} RunStaysQuiet(s: State, steps: seq<Step>)
    requires Locks(s) && Quiet(s) && Run(s, steps) && NoOpen(steps)
    ensures Quiet(Final(s, steps))
    decreases |steps|
  {
    if steps != [] {
      StepStaysQuiet(s, steps[0]);
      LocksStep(s, steps[0]);
      assert forall i :: 0 <= i < |steps[1..]| ==> steps[1..][i] == steps[i + 1];
      RunStaysQuiet(Apply(s, steps[0]), steps[1..]);
    }
  }

  // --- and a threat can be carried out ---

  /** A run that opens no source ends with a token stored. */
  ghost predicate Returns(s: State, steps: seq<Step>) {
    Run(s, steps) && NoOpen(steps) && Final(s, steps).m.store.Some?
  }

  lemma OneStepOn(s: State, step: Step, rest: seq<Step>)
    requires Enabled(s, step) && !step.Open? && Returns(Apply(s, step), rest)
    ensures Returns(s, [step] + rest)
  {
    assert ([step] + rest)[1..] == rest;
  }

  /** g goes on by itself: the lock skipped, the load failed, the request granted, the answer saved. */
  lemma {:induction false} GoesOn(s: State, g: nat) returns (steps: seq<Step>)
    requires s.m.store.None? && g < |s.gs| && s.gs[g].proc < |s.procs|
    requires Rotated(s.gs[g].pc) || (Live(s.m.grant, ProcOf(s, g).tok) && Underway(s.gs[g].pc))
    ensures Returns(s, steps)
    decreases Rank(s.gs[g].pc)
  {
    var pc := s.gs[g].pc;
    var act :=
      match pc
      case Saving(_) => Save
      case Answered(_, _, _) => Receive
      case Requesting(_) => Send
      case Discovering(_) => Discover
      case Loading(_) => LoadFails
      case _ => SkipLock;
    var step := Go(g, act);
    var t := Apply(s, step);
    var rest: seq<Step> := [];
    if pc.Saving? {
      assert Run(t, rest) && Final(t, rest) == t;
    } else {
      rest := GoesOn(t, g);
    }
    OneStepOn(s, step, rest);
    steps := [step] + rest;
  }

  /** How far a goroutine is from a fresh look at its token, once nobody else of its process is in the way. */
  function Distance(pc: Pc): nat {
    match pc
    case Releasing(_, _) => 5
    case Unlocking(_) => 4
    case Idle => 3
    case Done(_) => 3
    case WantMu => 2
    case InMemory => 1
    case _ => 0
  }

  /** h, with its process's mutex or with nobody having it, gets round to refreshing a stale token. */
  lemma {:induction false} GetsRound(s: State, h: nat) returns (steps: seq<Step>)
    requires Locks(s) && s.m.store.None? && h < |s.gs|
    requires Live(s.m.grant, ProcOf(s, h).tok) && !Valid(ProcOf(s, h).tok, s.m.now)
    requires ProcOf(s, h).mu.None? || ProcOf(s, h).mu == Some(h)
    ensures Returns(s, steps)
    decreases Distance(s.gs[h].pc)
  {
    var pc := s.gs[h].pc;
    assert LockedRight(s.m, ProcOf(s, h), h, pc);
    if Rotated(pc) || Underway(pc) {
      steps := GoesOn(s, h);
    } else {
      var step := Go(h, NextAct(s.m, pc));
      LocksStep(s, step);
      var rest := GetsRound(Apply(s, step), h);
      OneStepOn(s, step, rest);
      steps := [step] + rest;
    }
  }

  /** Once its token is stale, g or whoever holds its process's mutex refreshes it. */
  lemma CarriesOut(s: State, g: nat) returns (steps: seq<Step>)
    requires Locks(s) && s.m.store.None? && Threatens(s, g)
    ensures Returns(s, steps)
  {
    if Rotated(s.gs[g].pc) || Underway(s.gs[g].pc) {
      steps := GoesOn(s, g);
    } else {
      var tok := ProcOf(s, g).tok;
      var wait := Tick(if tok.expiry > s.m.now then tok.expiry - s.m.now else 0);
      var t := Apply(s, wait);
      LocksStep(s, wait);
      var mu := ProcOf(t, g).mu;
      var rest := GetsRound(t, if mu.Some? then mu.value else g);
      OneStepOn(s, wait, rest);
      steps := [wait] + rest;
    }
  }

  ghost predicate StaysEmpty(s: State, steps: seq<Step>) {
    Run(s, steps) && NoOpen(steps) ==> Final(s, steps).m.store.None?
  }

  /**
   A logout holds, over every run that follows it, exactly when at that moment no
   goroutine has a refreshed token yet to save, none is refreshing a token the provider
   would still take, and no running process has such a token that can go stale.
   */
  lemma LogoutHoldsExactlyWhen(s: State)
    requires Locks(s)
    ensures (forall steps :: StaysEmpty(LoggedOut(s), steps)) <==> forall g: nat :: !Threatens(s, g)
  {
    var t := LoggedOut(s);
    StillLocked(s);
    assert forall g: nat :: Threatens(t, g) <==> Threatens(s, g);
    if forall g: nat :: !Threatens(s, g) {
      forall steps ensures StaysEmpty(t, steps) {
        if Run(t, steps) && NoOpen(steps) {
          RunStaysQuiet(t, steps);
        }
      }
    }
    if g: nat :| Threatens(s, g) {
      var steps := CarriesOut(t, g);
      assert !StaysEmpty(t, steps);
    }
  }

  lemma StillLocked(s: State)
    requires Locks(s)
    ensures Locks(LoggedOut(s))
  {
    var t := LoggedOut(s);
    forall g | 0 <= g < |t.gs| ensures LockedRight(t.m, ProcOf(t, g), g, t.gs[g].pc) {
      assert LockedRight(s.m, ProcOf(s, g), g, s.gs[g].pc);
    }
  }

  /** The everyday case: a process at rest with the stored token, if that ever expires and has a refresh token, undoes a logout. */
  lemma RunningProcessUndoesIt(s: State, g: nat) returns (steps: seq<Step>)
    requires Init(s) && g < |s.gs| && Some(ProcOf(s, g).tok) == s.m.store
    requires s.m.store.value.refreshToken != "" && s.m.store.value.expiry != 0
    ensures Returns(LoggedOut(s), steps)
  {
    InitLocks(s);
    StillLocked(s);
    steps := CarriesOut(LoggedOut(s), g);
  }
}
