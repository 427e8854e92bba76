/**
 The refresh protocol over real time. Each goroutine polls on its own schedule, gives
 up only at its deadline, and holds the lock at most H for a refresh and h otherwise,
 as TimedLock has it; what it does with the lock is Protocol's. If H and h are small
 enough, every such run is one that Safety covers: the hypothesis that the lock is
 obtained is then a consequence.
 */
module TimedProtocol {
  import opened Basics
  import opened Tokens
  import opened Provider
  import opened Protocol
  import opened Safety
  import opened ExactlyOne
  import Lock
  import T = TimedLock

  /** A state of the protocol, and the contest its goroutines play for the lock, contender g being goroutine g. */
  datatype Timed = Timed(s: State, c: T.Contest)

  /** What a step is in the contest, if it is anything there. */
  function EventOf(s: State, step: Step): Option<T.Event>
    requires Enabled(s, step)
  {
    match step
    case Tick(d) => Some(T.Pass(d))
    case Go(g, act) =>
      if act.CheckMemory? && !Valid(ProcOf(s, g).tok, s.m.now) then Some(T.Arrive(g))
      else if act.Poll? then Some(T.Try(g))
      else if act.SkipLock? then Some(T.GiveUp(g))
      else if act.Release? && s.gs[g].pc.locked then Some(T.LetGo(g))
      else None
    case _ => None
  }

  /** A step of the protocol at a time the contest allows. Each goroutine calls once. */
  ghost predicate TEnabled(t: Timed, step: Step) {
    && Enabled(t.s, step)
    && (step.Go? && step.act.Call? ==> t.s.gs[step.g].pc.Idle?)
    && (EventOf(t.s, step).Some? ==> T.Can(t.c, EventOf(t.s, step).value))
  }

  ghost function TApply(t: Timed, step: Step): Timed
    requires TEnabled(t, step)
  {
    var e := EventOf(t.s, step);
    Timed(Apply(t.s, step), if e.Some? then T.Next(t.c, e.value) else t.c)
  }

  /** A step in which nothing goes wrong, as ExactlyOne's Clean has it, but for what it says of the lock. */
  ghost predicate Works(s: State, step: Step)
    requires Enabled(s, step)
  {
    && !step.Crash?
    && (step.Go? ==>
          && !step.act.LoadFails? && !step.act.SaveFails? && !step.act.SaveHidden? && !step.act.ResponseLost?
          && !step.act.DiscoverFails? && !step.act.RequestLost?)
    && (step.Open? ==> !Valid(step.tok, s.m.now) || Some(step.tok) == s.m.store)
  }

  ghost predicate TRun(t: Timed, steps: seq<Step>)
    decreases |steps|
  {
    steps != [] ==> TEnabled(t, steps[0]) && Works(t.s, steps[0]) && TRun(TApply(t, steps[0]), steps[1..])
  }

  ghost function TFinal(t: Timed, steps: seq<Step>): Timed
    requires TRun(t, steps)
    decreases |steps|
  {
    if steps == [] then t else TFinal(TApply(t, steps[0]), steps[1..])
  }

  lemma {:induction false} TimedIsRun(t: Timed, steps: seq<Step>)
    requires TRun(t, steps)
    ensures Run(t.s, steps) && Final(t.s, steps) == TFinal(t, steps).s
    decreases |steps|
  {
    if steps != [] {
      TimedIsRun(TApply(t, steps[0]), steps[1..]);
    }
  }

  // --- the contest follows the protocol ---

  /** Where a goroutine is, and where its contender is. */
  predicate LinkedAt(pc: Pc, x: T.Contender) {
    match pc
    case Idle => x.Away?
    case WantMu => x.Away?
    case InMemory => x.Away?
    case Polling(left) => x.Waiting? && left == MAX_POLLS - x.failed && left > 0
    case Unlocking(_) => x.Away? || x.Finished?
    case Done(_) => x.Away? || x.Finished?
    case _ => x.Holding?
  }

  /** The contest's renewed says that the new token is stored, and while it does not, a free lock finds the old one. */
  ghost predicate Linked(t: Timed, seed: StoredToken, first: nat) {
    && |t.c.all| == |t.s.gs| && t.c.now == t.s.m.now
    && (forall g :: 0 <= g < |t.s.gs| ==> LinkedAt(t.s.gs[g].pc, t.c.all[g]))
    && (t.c.renewed ==> After(t.s.m, first))
    && (!t.c.renewed && t.s.m.flock.None? ==> Before(t.s.m, seed, first))
  }

  ghost predicate TInv(t: Timed, seed: StoredToken, first: nat) {
    One(t.s, seed, first) && T.Right(t.c) && T.Fits(t.c) && Linked(t, seed, first)
  }

  /** The contest finds the lock free exactly when it is. */
  lemma FreeTogether(t: Timed, seed: StoredToken, first: nat)
    requires TInv(t, seed, first)
    ensures T.LockFree(t.c) <==> t.s.m.flock.None?
  {
    if t.s.m.flock.Some? {
      var h := t.s.m.flock.value;
      assert LockedRight(t.s.m, ProcOf(t.s, h), h, t.s.gs[h].pc);
      assert t.c.all[h].Holding?;
    } else {
      forall g | 0 <= g < |t.c.all| ensures !t.c.all[g].Holding? {
        assert LockedRight(t.s.m, ProcOf(t.s, g), g, t.s.gs[g].pc);
        assert LinkedAt(t.s.gs[g].pc, t.c.all[g]);
      }
    }
  }

  /** A waiter is never at its last poll, nor at its deadline. */
  lemma NeverDue(t: Timed, g: nat, seed: StoredToken, first: nat)
    requires TInv(t, seed, first) && g < |t.s.gs| && t.s.gs[g].pc.Polling?
    ensures t.s.gs[g].pc.left > 1
    ensures t.c.now < t.c.all[g].since + LOCK_WAIT
  {
    assert LinkedAt(t.s.gs[g].pc, t.c.all[g]);
    T.NoDeadline(t.c, g);
    Lock.PollsAreRight(t.c.all[g].failed);
    assert T.WaitRight(t.c, g);
  }

  /** So a step in which nothing else goes wrong is clean: the lock is obtained, and nobody goes on without it. */
  lemma WorkingIsClean(t: Timed, step: Step, seed: StoredToken, first: nat)
    requires TInv(t, seed, first) && TEnabled(t, step) && Works(t.s, step)
    ensures Clean(t.s, step)
  {
    if step.Go? && (step.act.Poll? || step.act.SkipLock?) {
      NeverDue(t, step.g, seed, first);
    }
  }

  /** An act moves no other goroutine and no other contender. */
  lemma OthersStay(t: Timed, g: nat, act: Act)
    requires TEnabled(t, Go(g, act)) && |t.c.all| == |t.s.gs| && t.c.now == t.s.m.now
    ensures var t' := TApply(t, Go(g, act));
            && |t'.c.all| == |t'.s.gs| == |t.s.gs| && t'.c.now == t'.s.m.now
            && forall h :: 0 <= h < |t.s.gs| && h != g ==> t'.s.gs[h] == t.s.gs[h] && t'.c.all[h] == t.c.all[h]
  {
  }

  /** A contender after its goroutine's act, given whether the lock is free. */
  function Moved(x: T.Contender, m: Machine, p: Process, pc: Pc, act: Act, now: Time, renewed: bool): T.Contender {
    if act.CheckMemory? && !Valid(p.tok, m.now) then T.Waiting(now, 0)
    else if act.Poll? && x.Waiting? then
      if m.flock.None? then T.Holding(now, !renewed) else x.(failed := x.failed + 1)
    else if act.Release? && pc.Releasing? && pc.locked && x.Holding? then T.Finished(x.from, now, x.refreshing)
    else x
  }

  lemma MovesAlike(x: T.Contender, m: Machine, p: Process, g: nat, pc: Pc, act: Act, now: Time, renewed: bool)
    requires Can(m, p, pc, act) && LinkedAt(pc, x) && !act.SkipLock?
    requires (act.Call? ==> pc.Idle?) && (pc.Polling? ==> pc.left > 1) && (InsideLock(pc) ==> pc.locked)
    ensures LinkedAt(Do(m, p, g, pc, act).2, Moved(x, m, p, pc, act, now, renewed))
  {
  }

  lemma MovedIsNext(t: Timed, g: nat, act: Act)
    requires TEnabled(t, Go(g, act)) && |t.c.all| == |t.s.gs| && !act.SkipLock?
    requires T.LockFree(t.c) <==> t.s.m.flock.None?
    ensures TApply(t, Go(g, act)).c.all[g] ==
            Moved(t.c.all[g], t.s.m, ProcOf(t.s, g), t.s.gs[g].pc, act, t.c.now, t.c.renewed)
  {
  }

  /** An act moves its goroutine and its contender alike. */
  lemma OwnMoves(t: Timed, g: nat, act: Act, seed: StoredToken, first: nat)
    requires TInv(t, seed, first) && TEnabled(t, Go(g, act)) && Works(t.s, Go(g, act))
    ensures var t' := TApply(t, Go(g, act));
            g < |t'.s.gs| && g < |t'.c.all| && LinkedAt(t'.s.gs[g].pc, t'.c.all[g])
  {
    FreeTogether(t, seed, first);
    WorkingIsClean(t, Go(g, act), seed, first);
    assert LinkedAt(t.s.gs[g].pc, t.c.all[g]);
    if t.s.gs[g].pc.Polling? {
      NeverDue(t, g, seed, first);
    }
    MovedIsNext(t, g, act);
    MovesAlike(t.c.all[g], t.s.m, ProcOf(t.s, g), g, t.s.gs[g].pc, act, t.c.now, t.c.renewed);
  }

  lemma ActLinks(t: Timed, g: nat, act: Act, seed: StoredToken, first: nat)
    requires TInv(t, seed, first) && TEnabled(t, Go(g, act)) && Works(t.s, Go(g, act))
    ensures var t' := TApply(t, Go(g, act));
            && |t'.c.all| == |t'.s.gs| && t'.c.now == t'.s.m.now
            && forall h :: 0 <= h < |t'.s.gs| ==> LinkedAt(t'.s.gs[h].pc, t'.c.all[h])
  {
    var t' := TApply(t, Go(g, act));
    OthersStay(t, g, act);
    OwnMoves(t, g, act, seed, first);
    forall h | 0 <= h < |t'.s.gs| ensures LinkedAt(t'.s.gs[h].pc, t'.c.all[h]) {
      if h != g {
        assert LinkedAt(t.s.gs[h].pc, t.c.all[h]);
      }
    }
  }

  /** The store goes with the contest's flag: it is set by the release of a hold that was a refresh. */
  lemma ActRenews(t: Timed, g: nat, act: Act, seed: StoredToken, first: nat)
    requires TInv(t, seed, first) && TEnabled(t, Go(g, act)) && Works(t.s, Go(g, act))
    ensures var t' := TApply(t, Go(g, act));
            && (t'.c.renewed ==> After(t'.s.m, first))
            && (!t'.c.renewed && t'.s.m.flock.None? ==> Before(t'.s.m, seed, first))
  {
    WorkingIsClean(t, Go(g, act), seed, first);
    var pc := t.s.gs[g].pc;
    assert LinkedAt(pc, t.c.all[g]);
    assert LockedRight(t.s.m, ProcOf(t.s, g), g, pc);
    assert OutcomeFits(t.s.m, pc, first);
    if InsideLock(pc) {
      assert t.s.m.flock == Some(g);
      assert T.HoldRight(t.c, g);
      DoKeepsNew(t.s.m, ProcOf(t.s, g), g, pc, act, seed, first);
    } else {
      DoOutside(t.s.m, ProcOf(t.s, g), g, pc, act);
    }
  }

  /** Neither the clock nor a source opened moves a goroutine or the store. */
  lemma WorldLinks(t: Timed, step: Step, seed: StoredToken, first: nat)
    requires Linked(t, seed, first) && TEnabled(t, step) && !step.Go? && !step.Crash?
    ensures Linked(TApply(t, step), seed, first)
  {
    var t' := TApply(t, step);
    forall g | 0 <= g < |t'.s.gs| ensures LinkedAt(t'.s.gs[g].pc, t'.c.all[g]) {
      assert LinkedAt(t.s.gs[g].pc, t.c.all[g]);
    }
  }

  lemma StepLinks(t: Timed, step: Step, seed: StoredToken, first: nat)
    requires TInv(t, seed, first) && TEnabled(t, step) && Works(t.s, step)
    ensures Linked(TApply(t, step), seed, first)
  {
    if step.Go? {
      ActLinks(t, step.g, step.act, seed, first);
      ActRenews(t, step.g, step.act, seed, first);
    } else {
      WorldLinks(t, step, seed, first);
    }
  }

  lemma StepKeeps(t: Timed, step: Step, seed: StoredToken, first: nat)
    requires TInv(t, seed, first) && TEnabled(t, step) && Works(t.s, step)
    ensures Clean(t.s, step)
    ensures TInv(TApply(t, step), seed, first) || Stale(TApply(t, step).s.m)
  {
    WorkingIsClean(t, step, seed, first);
    OneStep(t.s, step, seed, first);
    StepLinks(t, step, seed, first);
    var e := EventOf(t.s, step);
    if e.Some? {
      T.StaysRight(t.c, e.value);
    }
  }

  lemma {:induction false} TimedIsClean(t: Timed, steps: seq<Step>, seed: StoredToken, first: nat)
    requires TInv(t, seed, first) && TRun(t, steps) && !Stale(TFinal(t, steps).s.m)
    ensures CleanRun(t.s, steps)
    decreases |steps|
  {
    if steps != [] {
      StepKeeps(t, steps[0], seed, first);
      var t' := TApply(t, steps[0]);
      TimedIsRun(t', steps[1..]);
      RunIsLater(t'.s, steps[1..]);
      TimedIsClean(t', steps[1..], seed, first);
    }
  }

  lemma {:induction false} CleanIsCovered(s: State, steps: seq<Step>)
    requires CleanRun(s, steps)
    ensures CoveredRun(s, steps)
    decreases |steps|
  {
    if steps != [] {
      CleanIsCovered(Apply(s, steps[0]), steps[1..]);
    }
  }

  /** Everyone away from the lock, over an expired stored token. */
  ghost predicate TStart(t: Timed) {
    && ExpiredStart(t.s)
    && |t.c.all| == |t.s.gs| && t.c.now == t.s.m.now && !t.c.renewed
    && forall g :: 0 <= g < |t.c.all| ==> t.c.all[g].Away?
  }

  lemma StartKeeps(t: Timed)
    requires TStart(t) && T.Fits(t.c)
    ensures TInv(t, t.s.m.store.value, t.s.m.grant.refreshes + 1)
  {
    InitInv(t.s);
  }

  /**
   The lock hypothesis discharged: N goroutines call Token over an expired stored
   token, poll on schedule, and hold the lock at most H for the refresh and h to
   re-read. If H + (N-1) * (h + poll) < wait, every such run that ends before the new
   token goes stale is clean, so covered: no request is made without the lock, none
   replays, there is exactly one refresh once any call has returned, and every call
   returned its token.
   */
  lemma TimedRunsAreSafe(t: Timed, steps: seq<Step>)
    requires TStart(t) && T.Fits(t.c) && TRun(t, steps) && !Stale(TFinal(t, steps).s.m)
    ensures CleanRun(t.s, steps) && CoveredRun(t.s, steps)
    ensures Run(t.s, steps) && NeverReplays(t.s, steps)
    ensures var e := TFinal(t, steps).s;
            && !e.m.grant.revoked && e.m.grant.replays == 0
            && e.m.grant.refreshes <= t.s.m.grant.refreshes + 1
            && forall g :: 0 <= g < |e.gs| && e.gs[g].pc.Done? ==>
                 && e.m.grant.refreshes == t.s.m.grant.refreshes + 1
                 && e.m.store.Some? && e.gs[g].pc.out == Got(e.m.store.value)
                 && e.m.store.value.accessToken == AccessName(t.s.m.grant.refreshes + 1)
  {
    StartKeeps(t);
    TimedIsClean(t, steps, t.s.m.store.value, t.s.m.grant.refreshes + 1);
    CleanIsCovered(t.s, steps);
    TimedIsRun(t, steps);
    NoReplayFromInit(t.s, steps);
    InitInv(t.s);
    NoReplay(t.s, steps);
    ExactlyOneRefresh(t.s, steps);
  }

  /** What the contest calls a refresh is one: only such a hold goes past reading the store, and h bounds holds that re-read alone. */
  lemma HoldsAreWhatTheyAre(t: Timed, g: nat, seed: StoredToken, first: nat)
    requires TInv(t, seed, first) && g < |t.s.gs| && t.c.all[g].Holding? && !t.c.all[g].refreshing
    ensures t.s.gs[g].pc.Loading? || t.s.gs[g].pc.Releasing?
    ensures After(t.s.m, first)
  {
    assert LinkedAt(t.s.gs[g].pc, t.c.all[g]);
    assert LockedRight(t.s.m, ProcOf(t.s, g), g, t.s.gs[g].pc);
    assert T.HoldRight(t.c, g);
  }
}
