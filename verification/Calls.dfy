/**
 What a call of Token returns, over every run, failures and crashes included, told by
 what could be seen from outside while the call went on: the tokens in memory and in the
 store, the provider's count of refreshes, and which of the call's own steps failed.
 */
module Calls {
  import opened Basics
  import opened Tokens
  import opened Provider
  import opened Protocol
  import opened Safety

  /** A run with the states it goes through. */
  ghost predicate Trace(states: seq<State>, steps: seq<Step>) {
    && |states| == |steps| + 1
    && forall i :: 0 <= i < |steps| ==> Enabled(states[i], steps[i]) && states[i + 1] == Apply(states[i], steps[i])
  }

  lemma {:induction false} TraceOfRun(s: State, steps: seq<Step>) returns (states: seq<State>)
    requires Run(s, steps)
    ensures Trace(states, steps) && states[0] == s && states[|steps|] == Final(s, steps)
    decreases |steps|
  {
    if steps == [] {
      states := [s];
    } else {
      var rest := TraceOfRun(Apply(s, steps[0]), steps[1..]);
      states := [s] + rest;
      forall i | 0 <= i < |steps| ensures Enabled(states[i], steps[i]) && states[i + 1] == Apply(states[i], steps[i]) {
        if i > 0 {
          assert states[i] == rest[i - 1] && states[i + 1] == rest[i] && steps[i] == steps[1..][i - 1];
        }
      }
    }
  }

  /** Step i is goroutine g's, and this act. */
  predicate Did(steps: seq<Step>, g: nat, i: nat, act: Act) { i < |steps| && steps[i] == Go(g, act) }

  /** The call g begins at step a has seen n steps of the run, and none of them begins another. */
  ghost predicate Calling(steps: seq<Step>, g: nat, a: nat, n: nat) {
    a < n <= |steps| && Did(steps, g, a, Call) && forall i :: a < i < n ==> steps[i] != Go(g, Call)
  }

  // --- what can be seen ---

  /** t is usable, in the memory of g's process or in the store. */
  predicate UsableIn(s: State, g: nat, t: StoredToken) {
    && g < |s.gs| && s.gs[g].proc < |s.procs|
    && (s.procs[s.gs[g].proc].tok == t || s.m.store == Some(t))
    && Valid(t, s.m.now)
  }

  ghost predicate SeenUsable(states: seq<State>, g: nat, a: nat, n: nat, t: StoredToken) {
    exists i :: a < i < n && i < |states| && UsableIn(states[i], g, t)
  }

  /** The provider counts one refresh more after step i, which is g's request, and it issued these tokens. */
  predicate Granted(states: seq<State>, steps: seq<Step>, g: nat, i: nat, access: string, refresh: string) {
    && Did(steps, g, i, Send) && i + 1 < |states|
    && var before, after := states[i].m.grant, states[i + 1].m.grant;
    && after.refreshes == before.refreshes + 1
    && access == AccessName(after.refreshes) && refresh == after.current
  }

  /** g's request at step i, or what should have been its answer, gained nothing. */
  predicate Refused(states: seq<State>, steps: seq<Step>, g: nat, i: nat) {
    Did(steps, g, i, Send) && i + 1 < |states| && states[i + 1].m.grant.refreshes == states[i].m.grant.refreshes
  }

  /** Discovery failed, the request or its answer was lost, or the provider refused. */
  predicate Broke(states: seq<State>, steps: seq<Step>, g: nat, i: nat) {
    || Did(steps, g, i, DiscoverFails) || Did(steps, g, i, RequestLost) || Did(steps, g, i, ResponseLost)
    || Refused(states, steps, g, i)
  }

  /** The token made of a granted answer, received at step j. */
  predicate Received(states: seq<State>, steps: seq<Step>, g: nat, i: nat, j: nat, t: StoredToken) {
    && Granted(states, steps, g, i, t.accessToken, t.refreshToken)
    && i < j && Did(steps, g, j, Receive) && j < |states|
    && t.tokenType == "bearer" && t.idToken == ""
    && t.expiry == if states[j].m.lifetime == 0 then 0 else states[j].m.now + states[j].m.lifetime
  }

  ghost predicate WasGranted(states: seq<State>, steps: seq<Step>, g: nat, a: nat, n: nat, t: StoredToken) {
    exists i, j :: a < i < j < n && Received(states, steps, g, i, j, t)
  }

  /** The refreshed token was saved, and if the save took, was stored then. */
  predicate SavedAt(states: seq<State>, steps: seq<Step>, g: nat, i: nat, t: StoredToken) {
    i + 1 < |states| && ((Did(steps, g, i, Save) && states[i + 1].m.store == Some(t)) || Did(steps, g, i, SaveHidden))
  }

  ghost predicate AnyBroke(states: seq<State>, steps: seq<Step>, g: nat, a: nat, n: nat) {
    exists i :: a < i < n && Broke(states, steps, g, i)
  }

  ghost predicate AnySaveFailed(steps: seq<Step>, g: nat, a: nat, n: nat) {
    exists i :: a < i < n && Did(steps, g, i, SaveFails)
  }

  ghost predicate AnySaved(states: seq<State>, steps: seq<Step>, g: nat, a: nat, n: nat, t: StoredToken) {
    exists i :: a < i < n && SavedAt(states, steps, g, i, t)
  }

  /**
   What an outcome stands for. An error alone: something broke. A token beside an
   error: it was granted to this call and its save failed. A token alone: it was seen
   usable during the call, or was granted to it and saved.
   */
  ghost predicate Tells(states: seq<State>, steps: seq<Step>, g: nat, a: nat, n: nat, out: Outcome) {
    && (AnyBroke(states, steps, g, a, n) <==> out == Failed)
    && (AnySaveFailed(steps, g, a, n) <==> out.Unsaved?)
    && (out.Unsaved? ==> WasGranted(states, steps, g, a, n, out.token))
    && (out.Got? ==>
          || SeenUsable(states, g, a, n, out.token)
          || (WasGranted(states, steps, g, a, n, out.token) && AnySaved(states, steps, g, a, n, out.token)))
  }

  // --- as far as the call has come ---

  ghost predicate NothingYet(states: seq<State>, steps: seq<Step>, g: nat, a: nat, n: nat) {
    !AnyBroke(states, steps, g, a, n) && !AnySaveFailed(steps, g, a, n)
  }

  ghost predicate SoFar(states: seq<State>, steps: seq<Step>, g: nat, a: nat, n: nat)
    requires n < |states| && g < |states[n].gs| && states[n].gs[g].proc < |states[n].procs|
  {
    match states[n].gs[g].pc
    case Idle => true
    case Answered(_, access, refresh) =>
      NothingYet(states, steps, g, a, n) && exists i :: a < i < n && Granted(states, steps, g, i, access, refresh)
    case Saving(_) =>
      NothingYet(states, steps, g, a, n) && WasGranted(states, steps, g, a, n, ProcOf(states[n], g).tok)
    case Releasing(_, out) => Tells(states, steps, g, a, n, out)
    case Unlocking(out) => Tells(states, steps, g, a, n, out)
    case Done(out) => Tells(states, steps, g, a, n, out)
    case _ => NothingYet(states, steps, g, a, n)
  }

  /** The step of another goroutine, the clock or another process leaves g where it is, with its token when it matters. */
  lemma OthersLeave(s: State, step: Step, g: nat)
    requires Locks(s) && Enabled(s, step) && g < |s.gs| && !(step.Go? && step.g == g)
    ensures var t := Apply(s, step);
            && g < |t.gs| && t.gs[g].proc == s.gs[g].proc < |t.procs|
            && (t.gs[g].pc == s.gs[g].pc || t.gs[g].pc == Idle)
            && (InsideMu(s.gs[g].pc) ==> ProcOf(t, g).tok == ProcOf(s, g).tok)
  {
    assert LockedRight(s.m, ProcOf(s, g), g, s.gs[g].pc);
    if step.Go? {
      assert LockedRight(s.m, ProcOf(s, step.g), step.g, s.gs[step.g].pc);
    }
  }

  lemma {:induction false} TraceLocks(states: seq<State>, steps: seq<Step>, n: nat)
    requires Trace(states, steps) && n < |states| && Locks(states[0])
    ensures Locks(states[n])
  {
    if n > 0 {
      TraceLocks(states, steps, n - 1);
      LocksStep(states[n - 1], steps[n - 1]);
    }
  }

  /** One step that is not g's adds nothing to what g's call has done. */
  lemma NothingAdded(states: seq<State>, steps: seq<Step>, g: nat, a: nat, n: nat)
    requires Trace(states, steps) && a < n < |steps| && !(steps[n].Go? && steps[n].g == g)
    ensures AnyBroke(states, steps, g, a, n + 1) == AnyBroke(states, steps, g, a, n)
    ensures AnySaveFailed(steps, g, a, n + 1) == AnySaveFailed(steps, g, a, n)
    ensures forall out :: Tells(states, steps, g, a, n, out) ==> Tells(states, steps, g, a, n + 1, out)
    ensures forall t :: WasGranted(states, steps, g, a, n, t) ==> WasGranted(states, steps, g, a, n + 1, t)
  {
  }

  /** What one step of g adds to what its call has done. */
  lemma Adds(states: seq<State>, steps: seq<Step>, g: nat, a: nat, n: nat)
    requires a < n
    ensures AnyBroke(states, steps, g, a, n + 1) <==> AnyBroke(states, steps, g, a, n) || Broke(states, steps, g, n)
    ensures AnySaveFailed(steps, g, a, n + 1) <==> AnySaveFailed(steps, g, a, n) || Did(steps, g, n, SaveFails)
  {
  }

  /** g does act at step n, inside its call. */
  ghost predicate Doing(states: seq<State>, steps: seq<Step>, g: nat, a: nat, n: nat, act: Act) {
    && Trace(states, steps) && a < n < |steps| && steps[n] == Go(g, act) && act != Call
    && Enabled(states[n], steps[n]) && states[n + 1] == Apply(states[n], steps[n])
    && SoFar(states, steps, g, a, n)
  }

  /** The acts that break nothing, obtain nothing and return nothing. */
  lemma Plainly(states: seq<State>, steps: seq<Step>, g: nat, a: nat, n: nat, act: Act)
    requires Doing(states, steps, g, a, n, act)
    requires act in [LockMu, Poll, SkipLock, LoadFails, Discover]
    ensures SoFar(states, steps, g, a, n + 1)
  {
    Adds(states, steps, g, a, n);
  }

  /** Looking in memory or in the store: a token is returned only if it is usable there and then. */
  lemma Looks(states: seq<State>, steps: seq<Step>, g: nat, a: nat, n: nat, act: Act)
    requires Doing(states, steps, g, a, n, act) && (act == CheckMemory || act == Load)
    ensures SoFar(states, steps, g, a, n + 1)
  {
    Adds(states, steps, g, a, n);
    var s := states[n];
    var t := if act == CheckMemory then ProcOf(s, g).tok else s.m.store.value;
    if Valid(t, s.m.now) {
      assert UsableIn(s, g, t);
      assert SeenUsable(states, g, a, n + 1, t);
    }
  }

  /** A request: an answer is on its way only if the provider refreshed, and otherwise the call has failed. */
  lemma Asks(states: seq<State>, steps: seq<Step>, g: nat, a: nat, n: nat, act: Act)
    requires Doing(states, steps, g, a, n, act) && act in [DiscoverFails, Send, RequestLost, ResponseLost]
    ensures SoFar(states, steps, g, a, n + 1)
  {
    Adds(states, steps, g, a, n);
    var pc := states[n + 1].gs[g].pc;
    if pc.Answered? {
      assert Granted(states, steps, g, n, pc.access, pc.refresh);
    } else {
      assert Broke(states, steps, g, n);
    }
  }

  /** The answer becomes the token in memory. */
  lemma Receives(states: seq<State>, steps: seq<Step>, g: nat, a: nat, n: nat)
    requires Doing(states, steps, g, a, n, Receive)
    ensures SoFar(states, steps, g, a, n + 1)
  {
    Adds(states, steps, g, a, n);
    var pc := states[n].gs[g].pc;
    var i :| a < i < n && Granted(states, steps, g, i, pc.access, pc.refresh);
    var t := ProcOf(states[n + 1], g).tok;
    assert Received(states, steps, g, i, n, t);
    assert WasGranted(states, steps, g, a, n + 1, t);
  }

  /** A save that took, where the next Load looks or elsewhere. */
  lemma Saves(states: seq<State>, steps: seq<Step>, g: nat, a: nat, n: nat, act: Act)
    requires Doing(states, steps, g, a, n, act) && (act == Save || act == SaveHidden)
    ensures SoFar(states, steps, g, a, n + 1)
  {
    var t := ProcOf(states[n], g).tok;
    assert states[n + 1].gs[g].pc == Releasing(states[n].gs[g].pc.locked, Got(t));
    SavedTells(states, steps, g, a, n, t);
  }

  lemma SavedTells(states: seq<State>, steps: seq<Step>, g: nat, a: nat, n: nat, t: StoredToken)
    requires a < n && NothingYet(states, steps, g, a, n) && WasGranted(states, steps, g, a, n, t)
    requires SavedAt(states, steps, g, n, t)
    ensures Tells(states, steps, g, a, n + 1, Got(t))
  {
    Adds(states, steps, g, a, n);
    StillGranted(states, steps, g, a, n, t);
    assert AnySaved(states, steps, g, a, n + 1, t);
  }

  lemma SaveThatFails(states: seq<State>, steps: seq<Step>, g: nat, a: nat, n: nat)
    requires Doing(states, steps, g, a, n, SaveFails)
    ensures SoFar(states, steps, g, a, n + 1)
  {
    var t := ProcOf(states[n], g).tok;
    assert states[n + 1].gs[g].pc == Releasing(states[n].gs[g].pc.locked, Unsaved(t));
    UnsavedTells(states, steps, g, a, n, t);
  }

  lemma UnsavedTells(states: seq<State>, steps: seq<Step>, g: nat, a: nat, n: nat, t: StoredToken)
    requires a < n && NothingYet(states, steps, g, a, n) && WasGranted(states, steps, g, a, n, t)
    requires Did(steps, g, n, SaveFails)
    ensures Tells(states, steps, g, a, n + 1, Unsaved(t))
  {
    Adds(states, steps, g, a, n);
    StillGranted(states, steps, g, a, n, t);
  }

  lemma StillGranted(states: seq<State>, steps: seq<Step>, g: nat, a: nat, n: nat, t: StoredToken)
    requires WasGranted(states, steps, g, a, n, t)
    ensures WasGranted(states, steps, g, a, n + 1, t)
  {
    var i, j :| a < i < j < n && Received(states, steps, g, i, j, t);
  }

  lemma Leaves(states: seq<State>, steps: seq<Step>, g: nat, a: nat, n: nat, act: Act)
    requires Doing(states, steps, g, a, n, act) && (act == Release || act == UnlockMu)
    ensures SoFar(states, steps, g, a, n + 1)
  {
    var out := states[n].gs[g].pc.out;
    assert !Broke(states, steps, g, n) && !Did(steps, g, n, SaveFails);
    TellsStill(states, steps, g, a, n, out);
  }

  /** What is told of a call stays told while nothing fails. */
  lemma TellsStill(states: seq<State>, steps: seq<Step>, g: nat, a: nat, n: nat, out: Outcome)
    requires a < n && Tells(states, steps, g, a, n, out)
    requires !Broke(states, steps, g, n) && !Did(steps, g, n, SaveFails)
    ensures Tells(states, steps, g, a, n + 1, out)
  {
    Adds(states, steps, g, a, n);
  }

  lemma OwnStep(states: seq<State>, steps: seq<Step>, g: nat, a: nat, n: nat, act: Act)
    requires Doing(states, steps, g, a, n, act)
    ensures SoFar(states, steps, g, a, n + 1)
  {
    match act
    case CheckMemory => Looks(states, steps, g, a, n, act);
    case Load => Looks(states, steps, g, a, n, act);
    case DiscoverFails => Asks(states, steps, g, a, n, act);
    case Send => Asks(states, steps, g, a, n, act);
    case RequestLost => Asks(states, steps, g, a, n, act);
    case ResponseLost => Asks(states, steps, g, a, n, act);
    case Receive => Receives(states, steps, g, a, n);
    case Save => Saves(states, steps, g, a, n, act);
    case SaveFails => SaveThatFails(states, steps, g, a, n);
    case SaveHidden => Saves(states, steps, g, a, n, act);
    case Release => Leaves(states, steps, g, a, n, act);
    case UnlockMu => Leaves(states, steps, g, a, n, act);
    case _ => Plainly(states, steps, g, a, n, act);
  }

  /** Somebody else's step. */
  lemma OthersStep(states: seq<State>, steps: seq<Step>, g: nat, a: nat, n: nat)
    requires Trace(states, steps) && a < n < |steps| && !(steps[n].Go? && steps[n].g == g)
    requires Locks(states[n]) && g < |states[n].gs|
    requires states[n].gs[g].proc < |states[n].procs| && SoFar(states, steps, g, a, n)
    ensures g < |states[n + 1].gs| && states[n + 1].gs[g].proc < |states[n + 1].procs|
    ensures SoFar(states, steps, g, a, n + 1)
  {
    OthersLeave(states[n], steps[n], g);
    NothingAdded(states, steps, g, a, n);
  }

  predicate There(s: State, g: nat) { g < |s.gs| && s.gs[g].proc < |s.procs| }

  lemma Begins(states: seq<State>, steps: seq<Step>, g: nat, a: nat)
    requires Trace(states, steps) && Did(steps, g, a, Call)
    ensures There(states[a + 1], g) && SoFar(states, steps, g, a, a + 1)
  {
    assert Enabled(states[a], steps[a]) && states[a + 1] == Apply(states[a], steps[a]);
  }

  /** Any step at all. */
  lemma AnyStep(states: seq<State>, steps: seq<Step>, g: nat, a: nat, n: nat)
    requires Trace(states, steps) && Locks(states[0]) && Calling(steps, g, a, n + 1) && a < n
    requires There(states[n], g) && SoFar(states, steps, g, a, n)
    ensures There(states[n + 1], g) && SoFar(states, steps, g, a, n + 1)
  {
    TraceLocks(states, steps, n);
    if steps[n].Go? && steps[n].g == g {
      assert Doing(states, steps, g, a, n, steps[n].act);
      OwnStep(states, steps, g, a, n, steps[n].act);
      GoStays(states[n], g, steps[n].act);
    } else {
      OthersStep(states, steps, g, a, n);
    }
  }

  lemma GoStays(s: State, g: nat, act: Act)
    requires Enabled(s, Go(g, act))
    ensures There(Apply(s, Go(g, act)), g)
  {
  }

  lemma {:induction false} CallSoFar(states: seq<State>, steps: seq<Step>, g: nat, a: nat, n: nat)
    requires Trace(states, steps) && Locks(states[0]) && Calling(steps, g, a, n)
    ensures There(states[n], g) && SoFar(states, steps, g, a, n)
    decreases n
  {
    if n == a + 1 {
      Begins(states, steps, g, a);
    } else {
      assert Calling(steps, g, a, n - 1);
      CallSoFar(states, steps, g, a, n - 1);
      AnyStep(states, steps, g, a, n - 1);
    }
  }

  /**
   Every call that has ended, in every run from rest, whatever fails, crashes or
   interleaves: it returned an error alone exactly if something broke, of which a
   request that gained no refresh is one; a token beside an error exactly if its save
   failed; and otherwise a token that was usable in memory or in the store at a moment
   inside the call, or the very token the provider issued to this call, saved.
   */
  lemma CallsReturnWhatTheyFound(s: State, states: seq<State>, steps: seq<Step>, g: nat, a: nat, n: nat)
    requires Init(s) && Trace(states, steps) && states[0] == s && Calling(steps, g, a, n)
    requires g < |states[n].gs| && states[n].gs[g].pc.Done?
    ensures Tells(states, steps, g, a, n, states[n].gs[g].pc.out)
  {
    InitLocks(s);
    CallSoFar(states, steps, g, a, n);
  }

  // --- when the provider is asked at all ---

  /** Nobody asks for a token before its process has the issuer's discovery document. */
  ghost predicate Informed(s: State) {
    forall g :: 0 <= g < |s.gs| && s.gs[g].proc < |s.procs| && s.gs[g].pc.Requesting? ==> ProcOf(s, g).discovered
  }

  lemma InformedStep(s: State, step: Step)
    requires Shape(s) && Informed(s) && Enabled(s, step)
    ensures Shape(Apply(s, step)) && Informed(Apply(s, step))
  {
  }

  lemma {:induction false} InformedSoFar(states: seq<State>, steps: seq<Step>, n: nat)
    requires Trace(states, steps) && n < |states| && Init(states[0])
    ensures Shape(states[n]) && Informed(states[n])
  {
    if n > 0 {
      InformedSoFar(states, steps, n - 1);
      InformedStep(states[n - 1], steps[n - 1]);
    }
  }

  /** Process p has the discovery document once one of its goroutines fetched it, until its source is opened again. */
  lemma {:induction false} StaysDiscovered(states: seq<State>, steps: seq<Step>, g: nat, i: nat, n: nat, p: nat)
    requires Trace(states, steps) && i < n < |states| && Did(steps, g, i, Discover)
    requires There(states[i], g) && states[i].gs[g].proc == p
    requires forall k :: i < k < n ==> !(steps[k].Open? && steps[k].p == p)
    ensures p < |states[n].procs| && states[n].procs[p].discovered
    decreases n
  {
    assert Enabled(states[n - 1], steps[n - 1]) && states[n] == Apply(states[n - 1], steps[n - 1]);
    if n > i + 1 {
      StaysDiscovered(states, steps, g, i, n - 1, p);
    }
  }

  /**
   Discovery is behind every request, and done once: over every run from rest, a
   request is made only by a process that has the document, and once it has, no
   goroutine of it fails in discovery until its source is opened again.
   */
  lemma DiscoversOnce(states: seq<State>, steps: seq<Step>, g: nat, i: nat, h: nat, n: nat, act: Act)
    requires Trace(states, steps) && Init(states[0]) && Did(steps, h, n, act)
    ensures There(states[n], h)
    ensures act in [Send, RequestLost, ResponseLost] ==> ProcOf(states[n], h).discovered
    ensures i < n && Did(steps, g, i, Discover) && There(states[i], g) && states[i].gs[g].proc == states[n].gs[h].proc && act == DiscoverFails ==>
              exists k :: i < k < n && steps[k].Open? && steps[k].p == states[n].gs[h].proc
  {
    assert Enabled(states[n], steps[n]);
    InformedSoFar(states, steps, n);
    if act == DiscoverFails && i < n && Did(steps, g, i, Discover) && There(states[i], g) && states[i].gs[g].proc == states[n].gs[h].proc {
      var p := states[n].gs[h].proc;
      if forall k :: i < k < n ==> !(steps[k].Open? && steps[k].p == p) {
        StaysDiscovered(states, steps, g, i, n, p);
      }
    }
  }

  /** g looked at the token in memory and it was not usable. */
  predicate StaleInMemory(states: seq<State>, steps: seq<Step>, g: nat, i: nat) {
    && Did(steps, g, i, CheckMemory) && i < |states| && There(states[i], g)
    && !Valid(ProcOf(states[i], g).tok, states[i].m.now)
  }

  /** g looked in the store and got no usable token. */
  predicate NoneInStore(states: seq<State>, steps: seq<Step>, g: nat, i: nat) {
    || Did(steps, g, i, LoadFails)
    || (Did(steps, g, i, Load) && i < |states| && states[i].m.store.Some? && !Valid(states[i].m.store.value, states[i].m.now))
  }

  ghost predicate WasStale(states: seq<State>, steps: seq<Step>, g: nat, a: nat, n: nat) {
    exists i :: a < i < n && StaleInMemory(states, steps, g, i)
  }

  ghost predicate FoundNone(states: seq<State>, steps: seq<Step>, g: nat, a: nat, n: nat) {
    exists i :: a < i < n && NoneInStore(states, steps, g, i)
  }

  ghost predicate Looked(states: seq<State>, steps: seq<Step>, g: nat, a: nat, n: nat)
    requires n < |states| && There(states[n], g)
  {
    var pc := states[n].gs[g].pc;
    && (pc.Polling? || pc.Loading? || pc.Discovering? || pc.Requesting? ==> WasStale(states, steps, g, a, n))
    && (pc.Discovering? || pc.Requesting? ==> FoundNone(states, steps, g, a, n))
  }

  lemma LookedStep(states: seq<State>, steps: seq<Step>, g: nat, a: nat, n: nat)
    requires Trace(states, steps) && a < n < |steps| && There(states[n], g) && Looked(states, steps, g, a, n)
    ensures There(states[n + 1], g) && Looked(states, steps, g, a, n + 1)
  {
    assert Enabled(states[n], steps[n]) && states[n + 1] == Apply(states[n], steps[n]);
    if steps[n] == Go(g, CheckMemory) && !Valid(ProcOf(states[n], g).tok, states[n].m.now) {
      assert StaleInMemory(states, steps, g, n);
    }
    if steps[n] == Go(g, LoadFails) || (steps[n] == Go(g, Load) && !Valid(states[n].m.store.value, states[n].m.now)) {
      assert NoneInStore(states, steps, g, n);
    }
  }

  lemma {:induction false} LookedSoFar(states: seq<State>, steps: seq<Step>, g: nat, a: nat, n: nat)
    requires Trace(states, steps) && Calling(steps, g, a, n)
    ensures There(states[n], g) && Looked(states, steps, g, a, n)
    decreases n
  {
    if n == a + 1 {
      Begins(states, steps, g, a);
    } else {
      assert Calling(steps, g, a, n - 1);
      LookedSoFar(states, steps, g, a, n - 1);
      LookedStep(states, steps, g, a, n - 1);
    }
  }

  /** Discovery and the provider are tried only by a call that has found no usable token in memory and then none in the store. */
  lemma AsksOnlyWhenNoneIsUsable(states: seq<State>, steps: seq<Step>, g: nat, a: nat, n: nat, act: Act)
    requires Trace(states, steps) && Calling(steps, g, a, n) && Did(steps, g, n, act)
    requires act in [Discover, DiscoverFails, Send, RequestLost, ResponseLost]
    ensures WasStale(states, steps, g, a, n) && FoundNone(states, steps, g, a, n)
  {
    LookedSoFar(states, steps, g, a, n);
    assert Enabled(states[n], steps[n]);
  }
}
