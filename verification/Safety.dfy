/** Mutual exclusion over every run, and no replay over every run the lock, the store and the network cover. */
module Safety {
  import opened Basics
  import opened Tokens
  import opened Provider
  import opened Protocol

  /** mu and the refresh lock name goroutine g exactly while its pc is inside them. */
  predicate LockedRight(m: Machine, p: Process, g: nat, pc: Pc) {
    && (InsideMu(pc) <==> p.mu == Some(g))
    && (HoldsFlock(pc) <==> m.flock == Some(g))
  }

  /** mu is held by exactly the goroutine inside it, and the refresh lock by exactly the goroutine that took it. */
  ghost predicate Locks(s: State) {
    && Shape(s)
    && (forall g :: 0 <= g < |s.gs| ==> LockedRight(s.m, ProcOf(s, g), g, s.gs[g].pc))
    && (forall p :: 0 <= p < |s.procs| && s.procs[p].mu.Some? ==>
          s.procs[p].mu.value < |s.gs| && s.gs[s.procs[p].mu.value].proc == p)
    && (s.m.flock.Some? ==> s.m.flock.value < |s.gs|)
  }

  /** An act takes or drops a lock only for its own goroutine. */
  lemma DoLocks(m: Machine, p: Process, g: nat, pc: Pc, act: Act)
    requires Can(m, p, pc, act) && LockedRight(m, p, g, pc)
    ensures var (m', p', pc') := Do(m, p, g, pc, act);
            && LockedRight(m', p', g, pc')
            && m'.now == m.now
            && (p'.mu == p.mu || p.mu == Some(g) || (p.mu == None && p'.mu == Some(g)))
            && (m'.flock == m.flock || m.flock == Some(g) || (m.flock == None && m'.flock == Some(g)))
            && (p'.mu != p.mu ==> p'.mu == None || p'.mu == Some(g))
            && (m'.flock != m.flock ==> m'.flock == None || m'.flock == Some(g))
  {
  }

  lemma LocksGo(s: State, g: nat, act: Act)
    requires Locks(s) && Enabled(s, Go(g, act))
    ensures Locks(Apply(s, Go(g, act)))
  {
    var t := Apply(s, Go(g, act));
    DoLocks(s.m, ProcOf(s, g), g, s.gs[g].pc, act);
    forall h | 0 <= h < |t.gs| ensures LockedRight(t.m, ProcOf(t, h), h, t.gs[h].pc) {
      assert LockedRight(s.m, ProcOf(s, h), h, s.gs[h].pc);
    }
  }

  lemma LocksCrash(s: State, p: nat)
    requires Locks(s) && Enabled(s, Crash(p))
    ensures Locks(Apply(s, Crash(p)))
  {
    var t := Apply(s, Crash(p));
    forall h | 0 <= h < |t.gs| ensures LockedRight(t.m, ProcOf(t, h), h, t.gs[h].pc) {
      assert LockedRight(s.m, ProcOf(s, h), h, s.gs[h].pc);
    }
  }

  lemma LocksStep(s: State, step: Step)
    requires Locks(s) && Enabled(s, step)
    ensures Locks(Apply(s, step))
  {
    match step
    case Go(g, act) => LocksGo(s, g, act);
    case Crash(p) => LocksCrash(s, p);
    case _ =>
      var t := Apply(s, step);
      forall h | 0 <= h < |t.gs| ensures LockedRight(t.m, ProcOf(t, h), h, t.gs[h].pc) {
        assert LockedRight(s.m, ProcOf(s, h), h, s.gs[h].pc);
      }
  }

  lemma InitLocks(s: State)
    requires Init(s)
    ensures Locks(s)
  {
  }

  /**
   Two locks over every run, hazards and crashes included: no two goroutines of one
   process are past mu together, and no two goroutines of the machine hold the refresh lock together.
   */
  lemma {:induction false} MutualExclusion(s: State, steps: seq<Step>)
    requires Locks(s) && Run(s, steps)
    ensures Locks(Final(s, steps))
    ensures var t := Final(s, steps);
            forall g, h :: 0 <= g < h < |t.gs| ==>
              && !(t.gs[g].proc == t.gs[h].proc && InsideMu(t.gs[g].pc) && InsideMu(t.gs[h].pc))
              && !(HoldsFlock(t.gs[g].pc) && HoldsFlock(t.gs[h].pc))
    decreases |steps|
  {
    if steps != [] {
      LocksStep(s, steps[0]);
      MutualExclusion(Apply(s, steps[0]), steps[1..]);
    } else {
      forall g, h | 0 <= g < h < |s.gs|
        ensures !(s.gs[g].proc == s.gs[h].proc && InsideMu(s.gs[g].pc) && InsideMu(s.gs[h].pc))
        ensures !(HoldsFlock(s.gs[g].pc) && HoldsFlock(s.gs[h].pc))
      {
        assert LockedRight(s.m, ProcOf(s, g), g, s.gs[g].pc);
        assert LockedRight(s.m, ProcOf(s, h), h, s.gs[h].pc);
      }
    }
  }

  /** The statement above from the state every process starts in. */
  lemma MutualExclusionFromInit(s: State, steps: seq<Step>)
    requires Init(s) && Run(s, steps)
    ensures Locks(Final(s, steps))
    ensures var t := Final(s, steps);
            forall g, h :: 0 <= g < h < |t.gs| ==>
              && !(t.gs[g].proc == t.gs[h].proc && InsideMu(t.gs[g].pc) && InsideMu(t.gs[h].pc))
              && !(HoldsFlock(t.gs[g].pc) && HoldsFlock(t.gs[h].pc))
  {
    InitLocks(s);
    MutualExclusion(s, steps);
  }

  /**
   The acts the protocol covers. It does not cover refreshing without the lock, a
   Load that fails under it, a Save that does not take, or a response lost after the
   provider issued it.
   */
  predicate CoveredAct(m: Machine, pc: Pc, act: Act) {
    && (act.Poll? && pc.Polling? ==> m.flock.None? || pc.left > 1)
    && !act.SkipLock? && !act.LoadFails? && !act.SaveFails? && !act.SaveHidden? && !act.ResponseLost?
  }

  /** Nor does it cover a crash between the provider's rotation and Save. */
  ghost predicate Covered(s: State, step: Step)
    requires Enabled(s, step)
  {
    match step
    case Go(g, act) => CoveredAct(s.m, s.gs[g].pc, act)
    case Crash(p) => forall g :: 0 <= g < |s.gs| && s.gs[g].proc == p ==> !Rotated(s.gs[g].pc)
    case Tick(_) => true
    case Open(_, _) => true
  }

  ghost predicate CoveredRun(s: State, steps: seq<Step>)
    decreases |steps|
  {
    steps != [] ==>
      Enabled(s, steps[0]) && Covered(s, steps[0]) && CoveredRun(Apply(s, steps[0]), steps[1..])
  }

  lemma {:induction false} CoveredRunIsRun(s: State, steps: seq<Step>)
    requires CoveredRun(s, steps)
    ensures Run(s, steps)
    decreases |steps|
  {
    if steps != [] {
      CoveredRunIsRun(Apply(s, steps[0]), steps[1..]);
    }
  }

  /** Nobody is past the lock attempt without the lock. */
  ghost predicate Guarded(s: State) {
    forall g :: 0 <= g < |s.gs| && InsideLock(s.gs[g].pc) ==> s.gs[g].pc.locked
  }

  /** What the lock holder, at pc with tok in memory, knows of the store and the provider. */
  predicate HolderKnows(m: Machine, tok: StoredToken, pc: Pc) {
    && m.store.Some?
    && (!Rotated(pc) ==> m.store.value.refreshToken == m.grant.current)
    && (pc.Discovering? || pc.Requesting? ==> tok == m.store.value)
    && (pc.Answered? ==> pc.refresh == m.grant.current)
    && (pc.Saving? ==> tok.refreshToken == m.grant.current)
  }

  /**
   While the lock is free, the stored refresh token is the provider's current one.
   Between rotation and Save, only the lock holder has it.
   */
  ghost predicate Synced(s: State)
    requires Locks(s)
  {
    if s.m.flock.None? then s.m.store.Some? && s.m.store.value.refreshToken == s.m.grant.current
    else HolderKnows(s.m, ProcOf(s, s.m.flock.value).tok, s.gs[s.m.flock.value].pc)
  }

  ghost predicate Inv(s: State) {
    Locks(s) && Guarded(s) && Sound(s.m.grant) && Synced(s)
  }

  lemma InitInv(s: State)
    requires Init(s)
    ensures Inv(s)
  {
  }

  /** A covered act of a goroutine outside the lock leaves the provider and the store alone, and takes only a free lock. */
  lemma DoOutside(m: Machine, p: Process, g: nat, pc: Pc, act: Act)
    requires Can(m, p, pc, act) && CoveredAct(m, pc, act) && !InsideLock(pc)
    ensures var (m', p', pc') := Do(m, p, g, pc, act);
            && m'.(flock := m.flock) == m && p'.tok == p.tok
            && (InsideLock(pc') ==> pc' == Loading(true) && m.flock.None? && m'.flock == Some(g))
            && (!InsideLock(pc') ==> m' == m)
  {
  }

  /** A covered act of the lock holder keeps what it knows, and hands a synced store on when it releases. */
  lemma DoInside(m: Machine, p: Process, g: nat, pc: Pc, act: Act)
    requires Can(m, p, pc, act) && CoveredAct(m, pc, act) && HoldsFlock(pc)
    requires Sound(m.grant) && m.flock == Some(g) && HolderKnows(m, p.tok, pc)
    ensures var (m', p', pc') := Do(m, p, g, pc, act);
            && Sound(m'.grant)
            && HolderKnows(m', p'.tok, pc')
            && (InsideLock(pc') ==> pc'.locked && m'.flock == m.flock)
            && (!InsideLock(pc') ==> m'.flock == None && !Rotated(pc'))
  {
    if act.Send? && p.tok.refreshToken != "" {
      PresentingCurrentIsGranted(m.grant);
    }
  }

  lemma InvGo(s: State, g: nat, act: Act)
    requires Inv(s) && Enabled(s, Go(g, act)) && Covered(s, Go(g, act))
    ensures Inv(Apply(s, Go(g, act)))
  {
    var t := Apply(s, Go(g, act));
    LocksStep(s, Go(g, act));
    assert LockedRight(s.m, ProcOf(s, g), g, s.gs[g].pc);
    if InsideLock(s.gs[g].pc) {
      DoInside(s.m, ProcOf(s, g), g, s.gs[g].pc, act);
    } else {
      DoOutside(s.m, ProcOf(s, g), g, s.gs[g].pc, act);
      if s.m.flock.Some? {
        var h := s.m.flock.value;
        assert LockedRight(s.m, ProcOf(s, h), h, s.gs[h].pc);
        assert h != g && t.gs[h] == s.gs[h] && ProcOf(t, h).tok == ProcOf(s, h).tok;
      }
    }
  }

  lemma InvStep(s: State, step: Step)
    requires Inv(s) && Enabled(s, step) && Covered(s, step)
    ensures Inv(Apply(s, step))
  {
    LocksStep(s, step);
    if s.m.flock.Some? {
      var h := s.m.flock.value;
      assert LockedRight(s.m, ProcOf(s, h), h, s.gs[h].pc);
    }
    match step
    case Go(g, act) => InvGo(s, g, act);
    case Tick(_) =>
    case Open(_, _) =>
    case Crash(_) =>
  }

  /** The refresh token a step shows the provider, if it shows one. */
  ghost function Presented(s: State, step: Step): Option<string>
    requires Enabled(s, step)
  {
    if step.Go? && (step.act.Send? || step.act.ResponseLost?) && ProcOf(s, step.g).tok.refreshToken != ""
    then Some(ProcOf(s, step.g).tok.refreshToken) else None
  }

  /** What a covered step shows the provider is always its current token. */
  lemma PresentsCurrent(s: State, step: Step)
    requires Inv(s) && Enabled(s, step) && Covered(s, step) && Presented(s, step).Some?
    ensures Presented(s, step).value == s.m.grant.current
    ensures Presented(s, step).value !in s.m.grant.consumed
  {
    assert LockedRight(s.m, ProcOf(s, step.g), step.g, s.gs[step.g].pc);
  }

  /** No step of the run shows the provider a token it has consumed. */
  ghost predicate NeverReplays(s: State, steps: seq<Step>)
    requires Run(s, steps)
    decreases |steps|
  {
    steps != [] ==>
      && (Presented(s, steps[0]).Some? ==> Presented(s, steps[0]).value !in s.m.grant.consumed)
      && NeverReplays(Apply(s, steps[0]), steps[1..])
  }

  /**
   No replay: over every covered run, of any number of processes and goroutines, no
   consumed refresh token is ever presented and the grant is never revoked. A free
   lock finds the provider's current token stored.
   */
  lemma {:induction false} NoReplay(s: State, steps: seq<Step>)
    requires Inv(s) && CoveredRun(s, steps)
    ensures Run(s, steps) && NeverReplays(s, steps)
    ensures var t := Final(s, steps);
            && Inv(t) && !t.m.grant.revoked && t.m.grant.replays == 0
            && (t.m.flock.None? ==> t.m.store.Some? && t.m.store.value.refreshToken == t.m.grant.current)
    decreases |steps|
  {
    if steps != [] {
      InvStep(s, steps[0]);
      NoReplay(Apply(s, steps[0]), steps[1..]);
      if Presented(s, steps[0]).Some? {
        PresentsCurrent(s, steps[0]);
      }
    }
  }

  /** The statement above from the state every process starts in. */
  lemma NoReplayFromInit(s: State, steps: seq<Step>)
    requires Init(s) && CoveredRun(s, steps)
    ensures Run(s, steps) && NeverReplays(s, steps) && !Final(s, steps).m.grant.revoked
  {
    InitInv(s);
    NoReplay(s, steps);
  }
}
