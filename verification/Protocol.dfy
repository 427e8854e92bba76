/**
 The cross-process refresh protocol as a transition system. Any number of
 processes, each running any number of goroutines through
 lockingTokenSource.Token, share one stored token, one refresh lock and one
 rotating provider. Every step of Token is a separate transition, so other
 processes, the clock and failures interleave anywhere between two of them.
 */
module Protocol {
  import opened Basics
  import opened Tokens
  import opened Provider

  /** What one call of Token returned. Unsaved is a refreshed token beside a persist error. */
  datatype Outcome = Got(token: StoredToken) | Unsaved(token: StoredToken) | Failed

  /** Where a goroutine is inside Token. locked says whether it holds the refresh lock. */
  datatype Pc =
    | Idle
    | WantMu
    | InMemory
    | Polling(left: nat)
    | Loading(locked: bool)
    | Discovering(locked: bool)
    | Requesting(locked: bool)
    | Answered(locked: bool, access: string, refresh: string)
    | Saving(locked: bool)
    | Releasing(locked: bool, out: Outcome)
    | Unlocking(out: Outcome)
    | Done(out: Outcome)

  datatype Goroutine = Goroutine(proc: nat, pc: Pc)

  /** One token source: its in-memory token, its mutex, and whether discovery has succeeded. */
  datatype Process = Process(tok: StoredToken, mu: Option<nat>, discovered: bool)

  /**
   What the processes of the machine share. refreshedAt records when the provider
   granted each refresh of the run, oldest first.
   */
  datatype Machine = Machine(
    grant: Grant, lifetime: nat, refreshedAt: seq<Time>,
    store: Option<StoredToken>, flock: Option<nat>, now: Time)

  datatype State = State(m: Machine, procs: seq<Process>, gs: seq<Goroutine>)

  /**
   What a goroutine inside Token does next, and how it may go wrong. SaveHidden is a
   Save that succeeded where the next Load does not look: in the file behind a keyring
   entry it could not replace, or in a keyring that does not give it back.
   */
  datatype Act =
    | Call
    | LockMu
    | CheckMemory
    | Poll
    | SkipLock
    | Load
    | LoadFails
    | Discover
    | DiscoverFails
    | Send
    | RequestLost
    | ResponseLost
    | Receive
    | Save
    | SaveFails
    | SaveHidden
    | Release
    | UnlockMu

  datatype Step = Go(g: nat, act: Act) | Tick(d: nat) | Open(p: nat, tok: StoredToken) | Crash(p: nat)

  const LOCK_WAIT: Time := 10 * SECOND
  const LOCK_POLL: Time := 20_000_000

  /** A poll at once, one every LOCK_POLL after it, and a last one racing the deadline. */
  const MAX_POLLS: nat := LOCK_WAIT / LOCK_POLL + 1

  /** The pcs between acquiring mu and releasing it. */
  predicate InsideMu(pc: Pc) { !pc.Idle? && !pc.WantMu? && !pc.Done? }

  /** The pcs between the lock attempt and the deferred release, however the attempt ended. */
  predicate InsideLock(pc: Pc) {
    pc.Loading? || pc.Discovering? || pc.Requesting? || pc.Answered? || pc.Saving? || pc.Releasing?
  }

  predicate HoldsFlock(pc: Pc) { InsideLock(pc) && pc.locked }

  /** The pcs between the provider consuming a token and Save recording its successor. */
  predicate Rotated(pc: Pc) { pc.Answered? || pc.Saving? }

  /** The pcs of a goroutine that is not inside a call. */
  predicate Resting(pc: Pc) { pc.Idle? || pc.Done? }

  /** Whether goroutine g, at pc inside process p, can do act. */
  predicate Can(m: Machine, p: Process, pc: Pc, act: Act) {
    match act
    case Call => Resting(pc)
    case LockMu => pc.WantMu? && p.mu.None?
    case CheckMemory => pc.InMemory?
    case Poll => pc.Polling?
    case SkipLock => pc.Polling?
    case Load => pc.Loading? && m.store.Some?
    case LoadFails => pc.Loading?
    case Discover => pc.Discovering?
    case DiscoverFails => pc.Discovering? && !p.discovered
    case Send => pc.Requesting?
    case RequestLost => pc.Requesting?
    case ResponseLost => pc.Requesting? && p.tok.refreshToken != ""
    case Receive => pc.Answered?
    case Save => pc.Saving?
    case SaveFails => pc.Saving?
    case SaveHidden => pc.Saving?
    case Release => pc.Releasing?
    case UnlockMu => pc.Unlocking?
  }

  /** The machine after the provider handles a request, and its answer. */
  function Handled(m: Machine, presented: string): (Machine, Answer) {
    var (grant, answer) := Present(m.grant, presented);
    (m.(grant := grant, refreshedAt := if answer.Granted? then m.refreshedAt + [m.now] else m.refreshedAt), answer)
  }

  /** The token x/oauth2 builds from a granted answer received now. */
  function Refreshed(m: Machine, access: string, refresh: string): StoredToken {
    StoredToken(access, refresh, "bearer", if m.lifetime == 0 then 0 else m.now + m.lifetime, "")
  }

  /** What act leaves of the machine, the process and the goroutine's pc. Nothing else changes. */
  function Do(m: Machine, p: Process, g: nat, pc: Pc, act: Act): (Machine, Process, Pc)
    requires Can(m, p, pc, act)
  {
    match act
    case Call => (m, p, WantMu)
    case LockMu => (m, p.(mu := Some(g)), InMemory)
    case CheckMemory => (m, p, if Valid(p.tok, m.now) then Unlocking(Got(p.tok)) else Polling(MAX_POLLS))
    case Poll =>
      if m.flock.None? then (m.(flock := Some(g)), p, Loading(true))
      else if pc.left > 1 then (m, p, Polling(pc.left - 1))
      else (m, p, Loading(false))
    case SkipLock => (m, p, Loading(false))
    case Load =>
      var stored := m.store.value;
      (m, p.(tok := stored), if Valid(stored, m.now) then Releasing(pc.locked, Got(stored)) else Discovering(pc.locked))
    case LoadFails => (m, p, Discovering(pc.locked))
    case Discover => (m, p.(discovered := true), Requesting(pc.locked))
    case DiscoverFails => (m, p, Releasing(pc.locked, Failed))
    case Send =>
      if p.tok.refreshToken == "" then (m, p, Releasing(pc.locked, Failed))
      else
        var (m', answer) := Handled(m, p.tok.refreshToken);
        (m', p, if answer.Granted? then Answered(pc.locked, answer.access, answer.refresh)
                else Releasing(pc.locked, Failed))
    case RequestLost => (m, p, Releasing(pc.locked, Failed))
    case ResponseLost => (Handled(m, p.tok.refreshToken).0, p, Releasing(pc.locked, Failed))
    case Receive => (m, p.(tok := Refreshed(m, pc.access, pc.refresh)), Saving(pc.locked))
    case Save => (m.(store := Some(p.tok)), p, Releasing(pc.locked, Got(p.tok)))
    case SaveFails => (m, p, Releasing(pc.locked, Unsaved(p.tok)))
    case SaveHidden => (m, p, Releasing(pc.locked, Got(p.tok)))
    case Release => (if pc.locked then m.(flock := None) else m, p, Unlocking(pc.out))
    case UnlockMu => (m, p.(mu := None), Done(pc.out))
  }

  ghost predicate Shape(s: State) {
    && (forall g :: 0 <= g < |s.gs| ==> s.gs[g].proc < |s.procs|)
    && s.m.now > 0
  }

  /** The process goroutine g runs in. */
  function ProcOf(s: State, g: nat): Process
    requires g < |s.gs| && s.gs[g].proc < |s.procs|
  {
    s.procs[s.gs[g].proc]
  }

  /** The goroutines once process p has ended and may start again. */
  function Restarted(gs: seq<Goroutine>, p: nat): seq<Goroutine> {
    seq(|gs|, i requires 0 <= i < |gs| => if gs[i].proc == p then gs[i].(pc := Idle) else gs[i])
  }

  ghost predicate Enabled(s: State, step: Step) {
    match step
    case Go(g, act) => g < |s.gs| && s.gs[g].proc < |s.procs| && Can(s.m, ProcOf(s, g), s.gs[g].pc, act)
    case Tick(_) => true
    case Open(p, _) => p < |s.procs| && forall g :: 0 <= g < |s.gs| && s.gs[g].proc == p ==> Resting(s.gs[g].pc)
    case Crash(p) => p < |s.procs|
  }

  function Apply(s: State, step: Step): State
    requires Enabled(s, step)
  {
    match step
    case Go(g, act) =>
      var (m, p, pc) := Do(s.m, ProcOf(s, g), g, s.gs[g].pc, act);
      State(m, s.procs[s.gs[g].proc := p], s.gs[g := s.gs[g].(pc := pc)])
    case Tick(d) => s.(m := s.m.(now := s.m.now + d))
    case Open(p, tok) => s.(procs := s.procs[p := s.procs[p].(tok := tok, discovered := false)])
    case Crash(p) =>
      var heldHere := s.m.flock.Some? && s.m.flock.value < |s.gs| && s.gs[s.m.flock.value].proc == p;
      State(if heldHere then s.m.(flock := None) else s.m,
            s.procs[p := s.procs[p].(mu := None)], Restarted(s.gs, p))
  }

  /** A run is the sequence of steps taken from a state. */
  ghost predicate Run(s: State, steps: seq<Step>)
    decreases |steps|
  {
    steps != [] ==> Enabled(s, steps[0]) && Run(Apply(s, steps[0]), steps[1..])
  }

  ghost function Final(s: State, steps: seq<Step>): State
    requires Run(s, steps)
    decreases |steps|
  {
    if steps == [] then s else Final(Apply(s, steps[0]), steps[1..])
  }

  lemma {:induction false} RunConcat(s: State, a: seq<Step>, b: seq<Step>)
    requires Run(s, a) && Run(Final(s, a), b)
    ensures Run(s, a + b) && Final(s, a + b) == Final(Final(s, a), b)
    decreases |a|
  {
    if a == [] {
      assert a + b == b;
    } else {
      assert (a + b)[0] == a[0] && (a + b)[1..] == a[1..] + b;
      RunConcat(Apply(s, a[0]), a[1..], b);
    }
  }

  /** No step shortens the record of refreshes, turns the clock back or changes the lifetime. */
  ghost predicate Later(a: Machine, b: Machine) {
    && a.lifetime == b.lifetime && a.now <= b.now
    && a.refreshedAt <= b.refreshedAt
    && forall i :: |a.refreshedAt| <= i < |b.refreshedAt| ==> b.refreshedAt[i] >= a.now
  }

  lemma StepIsLater(s: State, step: Step)
    requires Enabled(s, step)
    ensures Later(s.m, Apply(s, step).m)
  {
  }

  lemma LaterTransitive(a: Machine, b: Machine, c: Machine)
    requires Later(a, b) && Later(b, c)
    ensures Later(a, c)
  {
    forall i | |a.refreshedAt| <= i < |c.refreshedAt| ensures c.refreshedAt[i] >= a.now {
      if i < |b.refreshedAt| {
        assert c.refreshedAt[i] == b.refreshedAt[i];
      }
    }
  }

  lemma {:induction false} RunIsLater(s: State, steps: seq<Step>)
    requires Run(s, steps)
    ensures Later(s.m, Final(s, steps).m)
    decreases |steps|
  {
    if steps != [] {
      StepIsLater(s, steps[0]);
      RunIsLater(Apply(s, steps[0]), steps[1..]);
      LaterTransitive(s.m, Apply(s, steps[0]).m, Final(s, steps).m);
    }
  }

  /** Every process at rest with some token in memory, no lock held, and the live refresh token stored. */
  ghost predicate Init(s: State) {
    && Shape(s)
    && (forall g :: 0 <= g < |s.gs| ==> Resting(s.gs[g].pc))
    && (forall p :: 0 <= p < |s.procs| ==> s.procs[p].mu.None?)
    && s.m.flock.None?
    && Sound(s.m.grant)
    && s.m.refreshedAt == []
    && s.m.store.Some? && s.m.store.value.refreshToken == s.m.grant.current
  }
}
