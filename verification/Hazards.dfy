/**
 Each hypothesis of NoReplay is needed. From every pair of processes holding the
 same expired token there is a run, covered but for one step of one kind, that
 replays a consumed refresh token and loses the grant.
 */
module Hazards {
  import opened Basics
  import opened Tokens
  import opened Provider
  import opened Protocol
  import opened Safety
  import opened ExactlyOne

  /** Two processes, one goroutine in each, opened on the same expired token. */
  ghost predicate Pair(s: State) {
    && ExpiredStart(s)
    && |s.procs| == 2 && |s.gs| == 2 && s.gs[0].proc == 0 && s.gs[1].proc == 1
    && s.procs[0].tok == s.procs[1].tok == s.m.store.value
  }

  /** The steps of a run that its guarantee does not cover, in order. */
  ghost function Uncovered(s: State, steps: seq<Step>): seq<Step>
    requires Run(s, steps)
    decreases |steps|
  {
    if steps == [] then []
    else (if Covered(s, steps[0]) then [] else [steps[0]]) + Uncovered(Apply(s, steps[0]), steps[1..])
  }

  lemma {:induction false} Extend(s: State, steps: seq<Step>, step: Step)
    requires Run(s, steps) && Enabled(Final(s, steps), step)
    ensures Run(s, steps + [step]) && Final(s, steps + [step]) == Apply(Final(s, steps), step)
    ensures Uncovered(s, steps + [step]) ==
            Uncovered(s, steps) + if Covered(Final(s, steps), step) then [] else [step]
    decreases |steps|
  {
    if steps == [] {
      assert steps + [step] == [step];
      assert [step][1..] == [];
    } else {
      assert (steps + [step])[0] == steps[0] && (steps + [step])[1..] == steps[1..] + [step];
      Extend(Apply(s, steps[0]), steps[1..], step);
    }
  }

  /** The run so far, and the state it reached. */
  ghost predicate Reached(s: State, steps: seq<Step>, t: State, uncovered: seq<Step>) {
    Run(s, steps) && Final(s, steps) == t && Uncovered(s, steps) == uncovered
  }

  lemma Take(s: State, steps: seq<Step>, t: State, u: seq<Step>, step: Step) returns (steps': seq<Step>, t': State, u': seq<Step>)
    requires Reached(s, steps, t, u) && Enabled(t, step)
    ensures Reached(s, steps', t', u')
    ensures t' == Apply(t, step) && u' == if Covered(t, step) then u else u + [step]
  {
    Extend(s, steps, step);
    steps', t', u' := steps + [step], Apply(t, step), if Covered(t, step) then u else u + [step];
    assert u + [] == u;
  }

  /** Goroutine g of process g, with the locks right and everything else as it was. */
  predicate MovedTo(t: State, t': State, g: nat, pc: Pc, p: Process, m: Machine) {
    && |t.gs| == |t'.gs| == 2 && |t.procs| == |t'.procs| == 2 && g < 2
    && t.gs[0].proc == t'.gs[0].proc == 0 && t.gs[1].proc == t'.gs[1].proc == 1
    && t'.gs[g].pc == pc && t'.gs[1 - g].pc == t.gs[1 - g].pc
    && t'.procs[g] == p && t'.procs[1 - g] == t.procs[1 - g] && t'.m == m
  }

  predicate Two(t: State) {
    |t.gs| == 2 && |t.procs| == 2 && t.gs[0].proc == 0 && t.gs[1].proc == 1
  }

  /** g calls Token, takes mu, finds its token expired and starts polling for the lock. */
  lemma Enter(s: State, steps: seq<Step>, t: State, u: seq<Step>, g: nat) returns (steps': seq<Step>, t': State, u': seq<Step>)
    requires Reached(s, steps, t, u) && Two(t) && g < 2
    requires t.gs[g].pc.Idle? && t.procs[g].mu.None? && !Valid(t.procs[g].tok, t.m.now)
    ensures Reached(s, steps', t', u) && u' == u
    ensures MovedTo(t, t', g, Polling(MAX_POLLS), t.procs[g].(mu := Some(g)), t.m)
  {
    steps', t', u' := Take(s, steps, t, u, Go(g, Call));
    steps', t', u' := Take(s, steps', t', u', Go(g, LockMu));
    steps', t', u' := Take(s, steps', t', u', Go(g, CheckMemory));
  }

  /** g, past the lock attempt, reads the expired token and is ready to send its refresh token. */
  lemma ReadStale(s: State, steps: seq<Step>, t: State, u: seq<Step>, g: nat) returns (steps': seq<Step>, t': State, u': seq<Step>)
    requires Reached(s, steps, t, u) && Two(t) && g < 2
    requires t.gs[g].pc.Loading? && t.m.store.Some? && !Valid(t.m.store.value, t.m.now)
    ensures Reached(s, steps', t', u) && u' == u
    ensures MovedTo(t, t', g, Requesting(t.gs[g].pc.locked), t.procs[g].(tok := t.m.store.value, discovered := true), t.m)
  {
    steps', t', u' := Take(s, steps, t, u, Go(g, Load));
    steps', t', u' := Take(s, steps', t', u', Go(g, Discover));
  }

  /** g polls a free lock and takes it. */
  lemma TakeLock(s: State, steps: seq<Step>, t: State, u: seq<Step>, g: nat) returns (steps': seq<Step>, t': State, u': seq<Step>)
    requires Reached(s, steps, t, u) && Two(t) && g < 2 && t.gs[g].pc.Polling? && t.m.flock.None?
    ensures Reached(s, steps', t', u) && u' == u
    ensures MovedTo(t, t', g, Loading(true), t.procs[g], t.m.(flock := Some(g)))
  {
    steps', t', u' := Take(s, steps, t, u, Go(g, Poll));
  }

  /** Everything process 0 does up to holding the lock with its request ready. */
  lemma FirstReady(s: State) returns (steps: seq<Step>, t: State, u: seq<Step>)
    requires Pair(s)
    ensures Reached(s, steps, t, u) && u == []
    ensures MovedTo(s, t, 0, Requesting(true), s.procs[0].(mu := Some(0), discovered := true), s.m.(flock := Some(0)))
  {
    steps, t, u := [], s, [];
    steps, t, u := Enter(s, steps, t, u, 0);
    steps, t, u := TakeLock(s, steps, t, u, 0);
    steps, t, u := ReadStale(s, steps, t, u, 0);
  }

  /** The provider rotates g's token, and g, holding the new one, is about to save it. */
  lemma Rotate(s: State, steps: seq<Step>, t: State, u: seq<Step>, g: nat) returns (steps': seq<Step>, t': State, u': seq<Step>)
    requires Reached(s, steps, t, u) && Two(t) && g < 2 && t.gs[g].pc.Requesting?
    requires Sound(t.m.grant) && t.procs[g].tok.refreshToken == t.m.grant.current != ""
    ensures Reached(s, steps', t', u) && u' == u
    ensures Two(t') && MovedTo(t, t', g, Saving(t.gs[g].pc.locked), t'.procs[g], t'.m)
    ensures t'.m.store == t.m.store && t'.m.flock == t.m.flock && t'.m.now == t.m.now
    ensures Consumed(t.m.grant, t'.m.grant)
  {
    PresentingCurrentIsGranted(t.m.grant);
    steps', t', u' := Take(s, steps, t, u, Go(g, Send));
    steps', t', u' := Take(s, steps', t', u', Go(g, Receive));
  }

  /** The grant has consumed its old current token, once. */
  predicate Consumed(a: Grant, b: Grant) {
    a.current in b.consumed && !b.revoked && b.replays == a.replays && b.refreshes == a.refreshes + 1
  }

  /** A consumed token presented once more: the replay that revokes. */
  predicate Lost(a: Grant, b: Grant) { b.revoked && b.replays == a.replays + 1 && b.refreshes == a.refreshes + 1 }

  /** Process 1, with the lock free and the consumed token still stored, replays it. */
  lemma SecondReplays(s: State, steps: seq<Step>, t: State, u: seq<Step>) returns (steps': seq<Step>, t': State, u': seq<Step>)
    requires Reached(s, steps, t, u) && Two(t)
    requires t.gs[1].pc.Idle? && t.procs[1].mu.None? && !Valid(t.procs[1].tok, t.m.now) && t.m.flock.None?
    requires t.m.store.Some? && !Valid(t.m.store.value, t.m.now) && t.m.store.value.refreshToken != ""
    requires !t.m.grant.revoked && t.m.store.value.refreshToken in t.m.grant.consumed
    ensures Reached(s, steps', t', u) && u' == u
    ensures t'.m.grant.revoked && t'.m.grant.replays == t.m.grant.replays + 1 && t'.m.grant.refreshes == t.m.grant.refreshes
  {
    steps', t', u' := Enter(s, steps, t, u, 1);
    steps', t', u' := TakeLock(s, steps', t', u', 1);
    steps', t', u' := ReadStale(s, steps', t', u', 1);
    steps', t', u' := Take(s, steps', t', u', Go(1, Send));
  }

  /** Refreshing without the lock: no state directory, an unwritable one, or a wait that ran out. */
  lemma WithoutTheLock(s: State) returns (steps: seq<Step>)
    requires Pair(s)
    ensures Run(s, steps) && Uncovered(s, steps) == [Go(1, SkipLock)]
    ensures Lost(s.m.grant, Final(s, steps).m.grant)
  {
    var t, u;
    steps, t, u := FirstReady(s);
    steps, t, u := Enter(s, steps, t, u, 1);
    steps, t, u := Take(s, steps, t, u, Go(1, SkipLock));
    steps, t, u := ReadStale(s, steps, t, u, 1);
    PresentingCurrentIsGranted(t.m.grant);
    steps, t, u := Take(s, steps, t, u, Go(0, Send));
    steps, t, u := Take(s, steps, t, u, Go(1, Send));
  }

  /** Process 0 refreshes and saves as it should while process 1 polls for the lock. */
  lemma FirstRefreshes(s: State) returns (steps: seq<Step>, t: State, u: seq<Step>)
    requires Pair(s)
    ensures Reached(s, steps, t, u) && u == [] && Two(t)
    ensures t.gs[1].pc.Polling? && t.m.flock.None? && t.procs[1].tok == s.procs[1].tok
    ensures Consumed(s.m.grant, t.m.grant)
  {
    steps, t, u := FirstReady(s);
    steps, t, u := Enter(s, steps, t, u, 1);
    steps, t, u := Rotate(s, steps, t, u, 0);
    steps, t, u := Take(s, steps, t, u, Go(0, Save));
    steps, t, u := Take(s, steps, t, u, Go(0, Release));
  }

  /** A Load that fails under the lock: the process refreshes the token it had in memory. */
  lemma LoadFailing(s: State) returns (steps: seq<Step>)
    requires Pair(s)
    ensures Run(s, steps) && Uncovered(s, steps) == [Go(1, LoadFails)]
    ensures Lost(s.m.grant, Final(s, steps).m.grant)
  {
    var t, u;
    steps, t, u := FirstRefreshes(s);
    steps, t, u := SecondForgets(s, steps, t, u);
  }

  /** Process 1, polling a lock now free, fails to load and presents the token it still has in memory. */
  lemma SecondForgets(s: State, steps: seq<Step>, t: State, u: seq<Step>) returns (steps': seq<Step>, t': State, u': seq<Step>)
    requires Reached(s, steps, t, u) && Two(t)
    requires t.gs[1].pc.Polling? && t.m.flock.None? && t.procs[1].tok.refreshToken != ""
    requires !t.m.grant.revoked && t.procs[1].tok.refreshToken in t.m.grant.consumed
    ensures Reached(s, steps', t', u') && u' == u + [Go(1, LoadFails)]
    ensures t'.m.grant.revoked && t'.m.grant.replays == t.m.grant.replays + 1 && t'.m.grant.refreshes == t.m.grant.refreshes
  {
    steps', t', u' := TakeLock(s, steps, t, u, 1);
    steps', t', u' := Take(s, steps', t', u', Go(1, LoadFails));
    steps', t', u' := Take(s, steps', t', u', Go(1, Discover));
    steps', t', u' := Take(s, steps', t', u', Go(1, Send));
  }

  /** A Save that fails, or that an old keyring entry hides: the consumed token is still what the next process loads. */
  lemma SaveNotTaking(s: State, how: Act) returns (steps: seq<Step>)
    requires Pair(s) && (how == SaveFails || how == SaveHidden)
    ensures Run(s, steps) && Uncovered(s, steps) == [Go(0, how)]
    ensures Lost(s.m.grant, Final(s, steps).m.grant)
  {
    var t, u;
    steps, t, u := FirstReady(s);
    steps, t, u := Rotate(s, steps, t, u, 0);
    steps, t, u := Take(s, steps, t, u, Go(0, how));
    steps, t, u := Take(s, steps, t, u, Go(0, Release));
    steps, t, u := SecondReplays(s, steps, t, u);
  }

  /** A response lost on its way back: the provider rotated and nobody knows the new token. */
  lemma LosingTheResponse(s: State) returns (steps: seq<Step>)
    requires Pair(s)
    ensures Run(s, steps) && Uncovered(s, steps) == [Go(0, ResponseLost)]
    ensures Lost(s.m.grant, Final(s, steps).m.grant)
  {
    var t, u;
    steps, t, u := FirstReady(s);
    PresentingCurrentIsGranted(t.m.grant);
    steps, t, u := Take(s, steps, t, u, Go(0, ResponseLost));
    steps, t, u := Take(s, steps, t, u, Go(0, Release));
    steps, t, u := SecondReplays(s, steps, t, u);
  }

  /** A crash between the rotation and Save: the kernel frees the lock, and the consumed token stays stored. */
  lemma CrashingBeforeSave(s: State) returns (steps: seq<Step>)
    requires Pair(s)
    ensures Run(s, steps) && Uncovered(s, steps) == [Crash(0)]
    ensures Lost(s.m.grant, Final(s, steps).m.grant)
  {
    var t, u;
    steps, t, u := FirstReady(s);
    PresentingCurrentIsGranted(t.m.grant);
    steps, t, u := Take(s, steps, t, u, Go(0, Send));
    steps, t, u := Take(s, steps, t, u, Crash(0));
    steps, t, u := SecondReplays(s, steps, t, u);
  }
}
