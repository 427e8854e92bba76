/** From an expired stored token, however many processes ask, the provider refreshes once and all of them get that token. */
module ExactlyOne {
  import opened Basics
  import opened Tokens
  import opened Provider
  import opened Protocol
  import opened Safety

  /** The new token's lifetime, less the early margin, has passed since the provider granted it. */
  predicate Stale(m: Machine) {
    m.refreshedAt != [] && m.lifetime > 0 && m.now > m.refreshedAt[0] + m.lifetime - EARLY
  }

  predicate IsNew(m: Machine, tok: StoredToken, first: nat)
    requires m.refreshedAt != []
  {
    && tok.accessToken == AccessName(first)
    && if m.lifetime == 0 then tok.expiry == 0 else tok.expiry >= m.refreshedAt[0] + m.lifetime
  }

  /** Nothing refreshed yet: the expired token is stored. */
  predicate Before(m: Machine, seed: StoredToken, first: nat) {
    m.refreshedAt == [] && m.grant.refreshes + 1 == first && m.store == Some(seed)
  }

  /** The provider has rotated and the store does not know it yet. */
  predicate During(m: Machine, seed: StoredToken, first: nat) {
    |m.refreshedAt| == 1 && m.grant.refreshes == first && m.store == Some(seed)
  }

  /** The new token is stored. */
  predicate After(m: Machine, first: nat) {
    |m.refreshedAt| == 1 && m.grant.refreshes == first && m.store.Some? && IsNew(m, m.store.value, first)
  }

  /** An in-memory token is unusable or the new one. */
  predicate TokenFits(m: Machine, tok: StoredToken, first: nat) {
    !Valid(tok, m.now) || (After(m, first) && tok == m.store.value)
  }

  /** Whatever a call returns is the new token. */
  predicate OutcomeFits(m: Machine, pc: Pc, first: nat) {
    pc.Releasing? || pc.Unlocking? || pc.Done? ==> After(m, first) && pc.out == Got(m.store.value)
  }

  predicate HolderFits(m: Machine, tok: StoredToken, pc: Pc, seed: StoredToken, first: nat) {
    && (Rotated(pc) ==> During(m, seed, first))
    && (pc.Answered? ==> pc.access == AccessName(first))
    && (pc.Saving? ==> IsNew(m, tok, first))
    && (!Rotated(pc) ==> Before(m, seed, first) || After(m, first))
    && (pc.Discovering? || pc.Requesting? ==> Before(m, seed, first))
  }

  predicate Clock(m: Machine, seed: StoredToken) {
    && m.now > 0 && !Stale(m) && !Valid(seed, m.now) && m.grant.current != ""
    && (m.refreshedAt != [] ==> 0 < m.refreshedAt[0] <= m.now)
  }

  ghost predicate One(s: State, seed: StoredToken, first: nat) {
    && Inv(s) && Clock(s.m, seed)
    && (if s.m.flock.None? then Before(s.m, seed, first) || After(s.m, first)
        else HolderFits(s.m, ProcOf(s, s.m.flock.value).tok, s.gs[s.m.flock.value].pc, seed, first))
    && (forall g :: 0 <= g < |s.gs| ==> OutcomeFits(s.m, s.gs[g].pc, first))
    && (forall p :: 0 <= p < |s.procs| ==> TokenFits(s.m, s.procs[p].tok, first) || SavingIn(s, p))
  }

  /** Process p holds the lock and is about to save the new token. */
  predicate SavingIn(s: State, p: nat) {
    s.m.flock.Some? && s.m.flock.value < |s.gs| &&
    s.gs[s.m.flock.value].proc == p && s.gs[s.m.flock.value].pc.Saving?
  }

  /** A covered step in which no request fails, no process dies, and no process opens with a usable token other than the stored one. */
  ghost predicate Clean(s: State, step: Step)
    requires Enabled(s, step)
  {
    && Covered(s, step) && !step.Crash?
    && (step.Go? ==> !step.act.DiscoverFails? && !step.act.RequestLost?)
    && (step.Open? ==> !Valid(step.tok, s.m.now) || Some(step.tok) == s.m.store)
  }

  ghost predicate CleanRun(s: State, steps: seq<Step>)
    decreases |steps|
  {
    steps != [] ==> Enabled(s, steps[0]) && Clean(s, steps[0]) && CleanRun(Apply(s, steps[0]), steps[1..])
  }

  /** The lock holder's act keeps the run within the three phases, unless the new token lives shorter than the margin. */
  lemma DoHolder(m: Machine, p: Process, g: nat, pc: Pc, act: Act, seed: StoredToken, first: nat)
    requires Can(m, p, pc, act) && CoveredAct(m, pc, act) && !act.DiscoverFails? && !act.RequestLost?
    requires HoldsFlock(pc) && Sound(m.grant) && m.flock == Some(g) && HolderKnows(m, p.tok, pc)
    requires Clock(m, seed) && HolderFits(m, p.tok, pc, seed, first) && OutcomeFits(m, pc, first)
    requires TokenFits(m, p.tok, first) || pc.Saving?
    ensures var (m', p', pc') := Do(m, p, g, pc, act);
            Stale(m') ||
            (&& Clock(m', seed) && HolderFits(m', p'.tok, pc', seed, first)
             && OutcomeFits(m', pc', first)
             && (TokenFits(m', p'.tok, first) || pc'.Saving?)
             && (!InsideLock(pc') ==> Before(m', seed, first) || After(m', first)))
  {
    if act.Send? {
      assert p.tok.refreshToken == m.grant.current;
      PresentingCurrentIsGranted(m.grant);
    }
  }

  /** Once the new token is stored it stays, and until then nobody relies on it. */
  lemma DoKeepsNew(m: Machine, p: Process, g: nat, pc: Pc, act: Act, seed: StoredToken, first: nat)
    requires Can(m, p, pc, act) && CoveredAct(m, pc, act) && Clock(m, seed)
    requires InsideLock(pc) ==> HolderFits(m, p.tok, pc, seed, first)
    ensures var m' := Do(m, p, g, pc, act).0;
            && m'.now == m.now
            && (After(m, first) ==> After(m', first) && m'.store == m.store)
  {
  }

  /** A goroutine's act disturbs no other goroutine's outcome and no other process's token. */
  lemma OthersFit(s: State, g: nat, act: Act, seed: StoredToken, first: nat)
    requires One(s, seed, first) && Enabled(s, Go(g, act)) && Clean(s, Go(g, act))
    ensures var t := Apply(s, Go(g, act));
            && (forall h :: 0 <= h < |t.gs| && h != g ==> OutcomeFits(t.m, t.gs[h].pc, first))
            && (forall p :: 0 <= p < |t.procs| && p != s.gs[g].proc ==>
                  TokenFits(t.m, t.procs[p].tok, first) || SavingIn(s, p))
  {
    var t := Apply(s, Go(g, act));
    assert LockedRight(s.m, ProcOf(s, g), g, s.gs[g].pc);
    DoKeepsNew(s.m, ProcOf(s, g), g, s.gs[g].pc, act, seed, first);
    forall h | 0 <= h < |t.gs| && h != g ensures OutcomeFits(t.m, t.gs[h].pc, first) {
      assert OutcomeFits(s.m, s.gs[h].pc, first);
    }
    forall p | 0 <= p < |t.procs| && p != s.gs[g].proc
      ensures TokenFits(t.m, t.procs[p].tok, first) || SavingIn(s, p)
    {
      assert TokenFits(s.m, s.procs[p].tok, first) || SavingIn(s, p);
    }
  }

  lemma OneGo(s: State, g: nat, act: Act, seed: StoredToken, first: nat)
    requires One(s, seed, first) && Enabled(s, Go(g, act)) && Clean(s, Go(g, act))
    ensures One(Apply(s, Go(g, act)), seed, first) || Stale(Apply(s, Go(g, act)).m)
  {
    InvStep(s, Go(g, act));
    OthersFit(s, g, act, seed, first);
    if InsideLock(s.gs[g].pc) {
      OneGoInside(s, g, act, seed, first);
    } else {
      OneGoOutside(s, g, act, seed, first);
    }
  }

  lemma OneGoInside(s: State, g: nat, act: Act, seed: StoredToken, first: nat)
    requires One(s, seed, first) && Enabled(s, Go(g, act)) && Clean(s, Go(g, act)) && InsideLock(s.gs[g].pc)
    ensures var t := Apply(s, Go(g, act));
            && s.m.flock == Some(g)
            && (Stale(t.m) ||
                (&& Clock(t.m, seed) && HolderFits(t.m, ProcOf(t, g).tok, t.gs[g].pc, seed, first)
                 && OutcomeFits(t.m, t.gs[g].pc, first)
                 && (TokenFits(t.m, ProcOf(t, g).tok, first) || t.gs[g].pc.Saving?)
                 && (t.m.flock == Some(g) || (t.m.flock.None? && (Before(t.m, seed, first) || After(t.m, first))))))
  {
    assert LockedRight(s.m, ProcOf(s, g), g, s.gs[g].pc);
    assert OutcomeFits(s.m, s.gs[g].pc, first);
    assert TokenFits(s.m, ProcOf(s, g).tok, first) || SavingIn(s, s.gs[g].proc);
    DoHolder(s.m, ProcOf(s, g), g, s.gs[g].pc, act, seed, first);
    DoInside(s.m, ProcOf(s, g), g, s.gs[g].pc, act);
  }

  /** Outside the lock, a call returns its process's token only if it is the new one. */
  lemma OneGoOutside(s: State, g: nat, act: Act, seed: StoredToken, first: nat)
    requires One(s, seed, first) && Enabled(s, Go(g, act)) && Clean(s, Go(g, act)) && !InsideLock(s.gs[g].pc)
    ensures var t := Apply(s, Go(g, act));
            && Clock(t.m, seed) && t.m.(flock := s.m.flock) == s.m
            && (if t.m.flock.None? then Before(t.m, seed, first) || After(t.m, first)
                else t.m.flock.value < |t.gs| && t.gs[t.m.flock.value].proc < |t.procs| &&
                     HolderFits(t.m, ProcOf(t, t.m.flock.value).tok, t.gs[t.m.flock.value].pc, seed, first))
            && OutcomeFits(t.m, t.gs[g].pc, first)
            && (forall p :: SavingIn(s, p) ==> SavingIn(t, p))
            && ProcOf(t, g).tok == ProcOf(s, g).tok
  {
    var t := Apply(s, Go(g, act));
    assert LockedRight(s.m, ProcOf(s, g), g, s.gs[g].pc);
    assert OutcomeFits(s.m, s.gs[g].pc, first);
    assert TokenFits(s.m, ProcOf(s, g).tok, first) || SavingIn(s, s.gs[g].proc);
    DoOutside(s.m, ProcOf(s, g), g, s.gs[g].pc, act);
    if s.m.flock.Some? {
      var h := s.m.flock.value;
      assert LockedRight(s.m, ProcOf(s, h), h, s.gs[h].pc);
      assert h != g && t.gs[h] == s.gs[h] && ProcOf(t, h).tok == ProcOf(s, h).tok;
    }
  }

  lemma OneStep(s: State, step: Step, seed: StoredToken, first: nat)
    requires One(s, seed, first) && Enabled(s, step) && Clean(s, step)
    ensures One(Apply(s, step), seed, first) || Stale(Apply(s, step).m)
  {
    match step
    case Go(g, act) => OneGo(s, g, act, seed, first);
    case Tick(_) =>
      InvStep(s, step);
      OneWorld(s, step, seed, first);
    case Open(_, _) =>
      InvStep(s, step);
      OneWorld(s, step, seed, first);
    case Crash(_) =>
  }

  lemma OneWorld(s: State, step: Step, seed: StoredToken, first: nat)
    requires One(s, seed, first) && Enabled(s, step) && Clean(s, step) && !step.Go?
    requires Inv(Apply(s, step))
    ensures One(Apply(s, step), seed, first) || Stale(Apply(s, step).m)
  {
    var t := Apply(s, step);
    if s.m.flock.Some? {
      var h := s.m.flock.value;
      assert LockedRight(s.m, ProcOf(s, h), h, s.gs[h].pc);
    }
    forall p | 0 <= p < |t.procs| ensures TokenFits(t.m, t.procs[p].tok, first) || SavingIn(t, p) {
      assert TokenFits(s.m, s.procs[p].tok, first) || SavingIn(s, p);
    }
    forall h | 0 <= h < |t.gs| ensures OutcomeFits(t.m, t.gs[h].pc, first) {
      assert OutcomeFits(s.m, s.gs[h].pc, first);
    }
  }

  lemma {:induction false} OneRun(s: State, steps: seq<Step>, seed: StoredToken, first: nat)
    requires One(s, seed, first) && CleanRun(s, steps)
    ensures Run(s, steps)
    ensures One(Final(s, steps), seed, first) || Stale(Final(s, steps).m)
    decreases |steps|
  {
    if steps != [] {
      OneStep(s, steps[0], seed, first);
      var t := Apply(s, steps[0]);
      CleanRunIsRun(t, steps[1..]);
      if Stale(t.m) {
        RunIsLater(t, steps[1..]);
      } else {
        OneRun(t, steps[1..], seed, first);
      }
    }
  }

  lemma {:induction false} CleanRunIsRun(s: State, steps: seq<Step>)
    requires CleanRun(s, steps)
    ensures Run(s, steps)
    decreases |steps|
  {
    if steps != [] {
      CleanRunIsRun(Apply(s, steps[0]), steps[1..]);
    }
  }

  /** Every goroutine idle, in processes that hold nothing usable, over an expired stored token. */
  ghost predicate ExpiredStart(s: State) {
    && Init(s)
    && (forall g :: 0 <= g < |s.gs| ==> s.gs[g].pc.Idle?)
    && (forall p :: 0 <= p < |s.procs| ==> !Valid(s.procs[p].tok, s.m.now))
    && !Valid(s.m.store.value, s.m.now) && s.m.grant.current != ""
  }

  /**
   Exactly one refresh: from an expired stored token, over every interleaving of N >= 1
   calls that ends before the new token goes stale, the provider refreshes at most
   once, and once any call has returned, it has refreshed exactly once and every
   call returned that refresh's token, which is the one stored.
   */
  lemma ExactlyOneRefresh(s: State, steps: seq<Step>)
    requires ExpiredStart(s) && CleanRun(s, steps)
    ensures Run(s, steps)
    ensures var t := Final(s, steps);
            !Stale(t.m) ==>
              && s.m.grant.refreshes <= t.m.grant.refreshes <= s.m.grant.refreshes + 1
              && forall g :: 0 <= g < |t.gs| && t.gs[g].pc.Done? ==>
                   && t.m.grant.refreshes == s.m.grant.refreshes + 1
                   && t.m.store.Some?
                   && t.gs[g].pc.out == Got(t.m.store.value)
                   && t.m.store.value.accessToken == AccessName(s.m.grant.refreshes + 1)
  {
    InitInv(s);
    var seed, first := s.m.store.value, s.m.grant.refreshes + 1;
    OneRun(s, steps, seed, first);
    var t := Final(s, steps);
    if !Stale(t.m) {
      if t.m.flock.Some? {
        assert HolderFits(t.m, ProcOf(t, t.m.flock.value).tok, t.gs[t.m.flock.value].pc, seed, first);
      }
      forall g | 0 <= g < |t.gs| && t.gs[g].pc.Done?
        ensures After(t.m, first) && t.gs[g].pc.out == Got(t.m.store.value)
      {
        assert OutcomeFits(t.m, t.gs[g].pc, first);
      }
    }
  }
}
