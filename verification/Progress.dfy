/** Every call of Token ends: bounded steps whatever else runs, no deadlock, and no dependence on any other process. */
module Progress {
  import opened Basics
  import opened Tokens
  import opened Protocol
  import opened Safety

  /** How many steps a goroutine is from returning, at most. */
  function Rank(pc: Pc): nat {
    match pc
    case Idle => 0
    case Done(_) => 0
    case Unlocking(_) => 1
    case Releasing(_, _) => 2
    case Saving(_) => 3
    case Answered(_, _, _) => 4
    case Requesting(_) => 5
    case Discovering(_) => 6
    case Loading(_) => 7
    case Polling(left) => 8 + left
    case InMemory => 9 + MAX_POLLS
    case WantMu => 10 + MAX_POLLS
  }

  lemma ActsDescend(m: Machine, p: Process, g: nat, pc: Pc, act: Act)
    requires Can(m, p, pc, act) && !act.Call?
    ensures Rank(Do(m, p, g, pc, act).2) < Rank(pc)
  {
  }

  /** How often goroutine g moves in a run. */
  function StepsOf(steps: seq<Step>, g: nat): nat {
    if steps == [] then 0
    else (if steps[0].Go? && steps[0].g == g then 1 else 0) + StepsOf(steps[1..], g)
  }

  /** The run never starts goroutine g on another call. */
  predicate NoNewCall(steps: seq<Step>, g: nat) {
    forall i :: 0 <= i < |steps| ==> steps[i] != Go(g, Call)
  }

  /**
   One call is a bounded number of its own steps, whatever other goroutines, other
   processes, the clock, crashes and failures do in between.
   */
  lemma {:induction false} CallsAreBounded(s: State, steps: seq<Step>, g: nat)
    requires Run(s, steps) && g < |s.gs| && NoNewCall(steps, g)
    ensures g < |Final(s, steps).gs|
    ensures StepsOf(steps, g) + Rank(Final(s, steps).gs[g].pc) <= Rank(s.gs[g].pc)
    decreases |steps|
  {
    if steps != [] {
      var step, t := steps[0], Apply(s, steps[0]);
      assert NoNewCall(steps[1..], g) by {
        forall i | 0 <= i < |steps[1..]| ensures steps[1..][i] != Go(g, Call) {
          assert steps[1..][i] == steps[i + 1];
        }
      }
      if step.Go? && step.g == g {
        assert steps[0] != Go(g, Call);
        ActsDescend(s.m, ProcOf(s, g), g, s.gs[g].pc, step.act);
      }
      CallsAreBounded(t, steps[1..], g);
    }
  }

  /** The act a goroutine inside a call is ready for; a goroutine wanting mu waits for its holder. */
  function NextAct(m: Machine, pc: Pc): Act {
    match pc
    case Idle => Call
    case Done(_) => Call
    case WantMu => LockMu
    case InMemory => CheckMemory
    case Polling(_) => Poll
    case Loading(_) => if m.store.Some? then Load else LoadFails
    case Discovering(_) => Discover
    case Requesting(_) => Send
    case Answered(_, _, _) => Receive
    case Saving(_) => Save
    case Releasing(_, _) => Release
    case Unlocking(_) => UnlockMu
  }

  /** The goroutine of g's process that can move now on g's behalf. */
  function Mover(s: State, g: nat): nat
    requires g < |s.gs| && s.gs[g].proc < |s.procs|
  {
    if s.gs[g].pc.WantMu? && ProcOf(s, g).mu.Some? then ProcOf(s, g).mu.value else g
  }

  /**
   No deadlock: while a call is unfinished, some goroutine of the same process can
   move. It never waits on another process, not even one that holds the refresh lock for good.
   */
  lemma NoDeadlock(s: State, g: nat)
    requires Locks(s) && g < |s.gs| && !Resting(s.gs[g].pc)
    ensures var h := Mover(s, g);
            && h < |s.gs| && s.gs[h].proc == s.gs[g].proc && !Resting(s.gs[h].pc)
            && Enabled(s, Go(h, NextAct(s.m, s.gs[h].pc))) && !NextAct(s.m, s.gs[h].pc).Call?
  {
    var h := Mover(s, g);
    assert LockedRight(s.m, ProcOf(s, h), h, s.gs[h].pc);
  }

  /** The steps the unfinished calls of process p still have before them, at most. */
  function Work(gs: seq<Goroutine>, p: nat): nat {
    if gs == [] then 0 else (if gs[0].proc == p then Rank(gs[0].pc) else 0) + Work(gs[1..], p)
  }

  lemma {:induction false} WorkUpdate(gs: seq<Goroutine>, p: nat, g: nat, pc: Pc)
    requires g < |gs| && gs[g].proc == p
    ensures Work(gs[g := gs[g].(pc := pc)], p) == Work(gs, p) - Rank(gs[g].pc) + Rank(pc)
  {
    var after := gs[g := gs[g].(pc := pc)];
    if g == 0 {
      assert after[1..] == gs[1..];
    } else {
      assert after[1..] == gs[1..][g - 1 := gs[1..][g - 1].(pc := pc)];
      WorkUpdate(gs[1..], p, g - 1, pc);
    }
  }

  /** Steps by goroutines of p alone, none of them starting a call. */
  ghost predicate Alone(s: State, steps: seq<Step>, p: nat) {
    forall i :: 0 <= i < |steps| ==>
      steps[i].Go? && steps[i].g < |s.gs| && s.gs[steps[i].g].proc == p && !steps[i].act.Call?
  }

  /** With every other process and the clock frozen, p's calls use up their work one step at a time. */
  lemma {:induction false} AloneDescends(s: State, steps: seq<Step>, p: nat)
    requires Run(s, steps) && Alone(s, steps, p)
    ensures |steps| + Work(Final(s, steps).gs, p) <= Work(s.gs, p)
    decreases |steps|
  {
    if steps != [] {
      var step, t := steps[0], Apply(s, steps[0]);
      ActsDescend(s.m, ProcOf(s, step.g), step.g, s.gs[step.g].pc, step.act);
      WorkUpdate(s.gs, p, step.g, t.gs[step.g].pc);
      assert Alone(t, steps[1..], p) by {
        forall i | 0 <= i < |steps[1..]|
          ensures steps[1..][i].Go? && steps[1..][i].g < |t.gs| && t.gs[steps[1..][i].g].proc == p && !steps[1..][i].act.Call?
        {
          assert steps[1..][i] == steps[i + 1];
        }
      }
      AloneDescends(t, steps[1..], p);
    }
  }

  /**
   Every call ends: from any reachable state, the goroutines of process p finish all
   their calls by themselves, in at most Work steps, with every other process frozen
   wherever it stands, including inside the refresh lock.
   */
  lemma {:induction false} EveryCallEnds(s: State, p: nat) returns (steps: seq<Step>)
    requires Locks(s)
    ensures Run(s, steps) && Alone(s, steps, p) && |steps| <= Work(s.gs, p)
    ensures forall g :: 0 <= g < |Final(s, steps).gs| && Final(s, steps).gs[g].proc == p ==>
              Resting(Final(s, steps).gs[g].pc)
    decreases Work(s.gs, p)
  {
    if g :| 0 <= g < |s.gs| && s.gs[g].proc == p && !Resting(s.gs[g].pc) {
      NoDeadlock(s, g);
      var h := Mover(s, g);
      var step := Go(h, NextAct(s.m, s.gs[h].pc));
      var t := Apply(s, step);
      LocksStep(s, step);
      ActsDescend(s.m, ProcOf(s, h), h, s.gs[h].pc, step.act);
      WorkUpdate(s.gs, p, h, t.gs[h].pc);
      var rest := EveryCallEnds(t, p);
      steps := [step] + rest;
      assert steps[1..] == rest;
      forall i | 0 <= i < |steps|
        ensures steps[i].Go? && steps[i].g < |s.gs| && s.gs[steps[i].g].proc == p && !steps[i].act.Call?
      {
        if i > 0 {
          assert steps[i] == rest[i - 1];
        }
      }
    } else {
      steps := [];
    }
  }

  /** And no schedule of p's goroutines can avoid it: a run of theirs that cannot be extended has finished every call. */
  lemma StuckMeansFinished(s: State, steps: seq<Step>, p: nat)
    requires Locks(s) && Run(s, steps) && Alone(s, steps, p)
    requires forall h: nat, act: Act :: act != Call && h < |Final(s, steps).gs| && Final(s, steps).gs[h].proc == p ==>
               !Enabled(Final(s, steps), Go(h, act))
    ensures |steps| <= Work(s.gs, p)
    ensures forall g :: 0 <= g < |Final(s, steps).gs| && Final(s, steps).gs[g].proc == p ==>
              Resting(Final(s, steps).gs[g].pc)
  {
    AloneDescends(s, steps, p);
    MutualExclusion(s, steps);
    var t := Final(s, steps);
    forall g | 0 <= g < |t.gs| && t.gs[g].proc == p ensures Resting(t.gs[g].pc) {
      if !Resting(t.gs[g].pc) {
        NoDeadlock(t, g);
      }
    }
  }
}
