/**
 The refresh protocol over the real store. The register of Protocol is replaced by
 a keyring and a file, read and written one at a time, and a dead, empty keyring may
 come alive at any point, including between the two halves of a Load or a Save.
 Every run simulates a run of Protocol, so its guarantees carry over.
 */
module Composition {
  import opened Basics
  import opened Tokens
  import opened Provider
  import opened Protocol
  import opened Safety
  import opened RefreshRate
  import ExactlyOne
  import FileStore
  import StoreRefinement
  import TokenStore

  /** What the two backends hold for the client, off the Mac and with working file I/O. */
  datatype Tiers = Tiers(alive: bool, keyring: Option<StoredToken>, file: Option<StoredToken>)

  datatype CMachine = CMachine(
    grant: Grant, lifetime: nat, refreshedAt: seq<Time>, tiers: Tiers, flock: Option<nat>, now: Time)

  /** A goroutine is at a pc of Token, or has found the keyring no help and turns to the file. */
  datatype CPc = At(pc: Pc) | LoadingFile(locked: bool) | SavingFile(locked: bool)

  datatype CGoroutine = CGoroutine(proc: nat, cpc: CPc)

  datatype CState = CState(m: CMachine, procs: seq<Process>, gs: seq<CGoroutine>)

  /** Plain is an act that leaves the store alone. */
  datatype CAct = Plain(act: Act) | KeyringGet | FileGet | KeyringSet | FileSet

  datatype CStep = CGo(g: nat, act: CAct) | CTick(d: nat) | COpen(p: nat, tok: StoredToken) | CCrash(p: nat) | Revive

  /** What the store gives a reader that is not interrupted. */
  function Register(t: Tiers): Option<StoredToken> {
    if t.keyring.Some? then t.keyring else t.file
  }

  function AbsMachine(m: CMachine): Machine {
    Machine(m.grant, m.lifetime, m.refreshedAt, Register(m.tiers), m.flock, m.now)
  }

  function AbsPc(c: CPc): Pc {
    match c
    case At(pc) => pc
    case LoadingFile(locked) => Loading(locked)
    case SavingFile(locked) => Saving(locked)
  }

  function AbsGoroutines(gs: seq<CGoroutine>): (r: seq<Goroutine>)
    ensures |r| == |gs| && forall i :: 0 <= i < |gs| ==> r[i] == Goroutine(gs[i].proc, AbsPc(gs[i].cpc))
  {
    seq(|gs|, i requires 0 <= i < |gs| => Goroutine(gs[i].proc, AbsPc(gs[i].cpc)))
  }

  function Abs(c: CState): State {
    State(AbsMachine(c.m), c.procs, AbsGoroutines(c.gs))
  }

  predicate TouchesStore(act: Act) { act.Load? || act.LoadFails? || act.Save? || act.SaveFails? || act.SaveHidden? }

  predicate CCan(m: CMachine, p: Process, c: CPc, act: CAct) {
    match act
    case Plain(a) => c.At? && !TouchesStore(a) && Can(AbsMachine(m), p, c.pc, a)
    case KeyringGet => c.At? && c.pc.Loading?
    case FileGet => c.LoadingFile?
    case KeyringSet => c.At? && c.pc.Saving?
    case FileSet => c.SavingFile?
  }

  /** Where a Load that found stored goes on. */
  function AfterLoad(m: CMachine, p: Process, locked: bool, stored: StoredToken): (CMachine, Process, CPc) {
    (m, p.(tok := stored),
     At(if Valid(stored, m.now) then Releasing(locked, Got(stored)) else Discovering(locked)))
  }

  function CDo(m: CMachine, p: Process, g: nat, c: CPc, act: CAct): (CMachine, Process, CPc)
    requires CCan(m, p, c, act)
  {
    match act
    case Plain(a) =>
      var (m', p', pc') := Do(AbsMachine(m), p, g, c.pc, a);
      (m.(grant := m'.grant, refreshedAt := m'.refreshedAt, flock := m'.flock), p', At(pc'))
    case KeyringGet =>
      if m.tiers.alive && m.tiers.keyring.Some? then AfterLoad(m, p, c.pc.locked, m.tiers.keyring.value)
      else (m, p, LoadingFile(c.pc.locked))
    case FileGet =>
      if m.tiers.file.Some? then AfterLoad(m, p, c.locked, m.tiers.file.value)
      else (m, p, At(Discovering(c.locked)))
    case KeyringSet =>
      if m.tiers.alive then
        (m.(tiers := m.tiers.(keyring := Some(p.tok))), p, At(Releasing(c.pc.locked, Got(p.tok))))
      else (m, p, SavingFile(c.pc.locked))
    case FileSet =>
      (m.(tiers := m.tiers.(file := Some(p.tok))), p, At(Releasing(c.locked, Got(p.tok))))
  }

  /** The two backends of a store off the Mac, for one client. */
  ghost function TiersOf(h: TokenStore.Host, id: string): Tiers
    requires StoreRefinement.Tidy(h)
  {
    var key, held := TokenStore.Key(h, id), FileStore.Held(h.disk);
    Tiers(h.availability.IsAlive(),
          if key in h.entries then Some(h.entries[key].token) else None,
          if id in held then Some(held[id]) else None)
  }

  /** Uninterrupted, the two halves of a load find what the store's Load finds. */
  lemma LoadInTwoHalves(h: TokenStore.Host, id: string, m: CMachine, p: Process, g: nat, locked: bool)
    requires StoreRefinement.Tidy(h) && m.tiers == TiersOf(h, id)
    ensures var half := CDo(m, p, g, At(Loading(locked)), KeyringGet);
            var whole := if half.2.LoadingFile? then CDo(half.0, half.1, g, half.2, FileGet) else half;
            var found := TokenStore.Lookup(h, id);
            whole == if found.Ok? then AfterLoad(m, p, locked, FromOAuth2(found.value.0)) else (m, p, At(Discovering(locked)))
  {
  }

  /** Uninterrupted, the two halves of a save leave what the store's Save leaves, which succeeds. */
  lemma SaveInTwoHalves(h: TokenStore.Host, id: string, m: CMachine, p: Process, g: nat, locked: bool)
    requires StoreRefinement.Tidy(h) && m.tiers == TiersOf(h, id)
    ensures var half := CDo(m, p, g, At(Saving(locked)), KeyringSet);
            var whole := if half.2.SavingFile? then CDo(half.0, half.1, g, half.2, FileSet) else half;
            var (h', r) := TokenStore.Saved(h, id, ToOAuth2(p.tok));
            && r.Ok? && StoreRefinement.Tidy(h')
            && whole == (m.(tiers := TiersOf(h', id)), p, At(Releasing(locked, Got(p.tok))))
  {
    PersistedFormRoundTrips(p.tok);
    StoreRefinement.StaysTidy(h, StoreRefinement.SaveEvent(id, ToOAuth2(p.tok)));
  }

  ghost predicate CEnabled(s: CState, step: CStep) {
    match step
    case CGo(g, act) => g < |s.gs| && s.gs[g].proc < |s.procs| && CCan(s.m, s.procs[s.gs[g].proc], s.gs[g].cpc, act)
    case CTick(_) => true
    case COpen(p, _) => p < |s.procs| && forall g :: 0 <= g < |s.gs| && s.gs[g].proc == p ==> Resting(AbsPc(s.gs[g].cpc))
    case CCrash(p) => p < |s.procs|
    case Revive => !s.m.tiers.alive
  }

  function CRestarted(gs: seq<CGoroutine>, p: nat): seq<CGoroutine> {
    seq(|gs|, i requires 0 <= i < |gs| => if gs[i].proc == p then gs[i].(cpc := At(Idle)) else gs[i])
  }

  function CApply(s: CState, step: CStep): CState
    requires CEnabled(s, step)
  {
    match step
    case CGo(g, act) =>
      var (m, p, c) := CDo(s.m, s.procs[s.gs[g].proc], g, s.gs[g].cpc, act);
      CState(m, s.procs[s.gs[g].proc := p], s.gs[g := s.gs[g].(cpc := c)])
    case CTick(d) => s.(m := s.m.(now := s.m.now + d))
    case COpen(p, tok) => s.(procs := s.procs[p := s.procs[p].(tok := tok, discovered := false)])
    case CCrash(p) =>
      var heldHere := s.m.flock.Some? && s.m.flock.value < |s.gs| && s.gs[s.m.flock.value].proc == p;
      CState(if heldHere then s.m.(flock := None) else s.m,
             s.procs[p := s.procs[p].(mu := None)], CRestarted(s.gs, p))
    case Revive => s.(m := s.m.(tiers := s.m.tiers.(alive := true)))
  }

  /** The steps Protocol covers, said of the real store: the lock obtained, no lost response, no crash between rotation and Save. */
  ghost predicate CCovered(s: CState, step: CStep)
    requires CEnabled(s, step)
  {
    match step
    case CGo(g, act) => act.Plain? ==> CoveredAct(AbsMachine(s.m), s.gs[g].cpc.pc, act.act)
    case CCrash(p) => forall g :: 0 <= g < |s.gs| && s.gs[g].proc == p ==> !Rotated(AbsPc(s.gs[g].cpc))
    case _ => true
  }

  /** A dead keyring is empty, and whoever has turned to the file turned from an empty keyring that is still empty. */
  ghost predicate CInv(s: CState) {
    && Inv(Abs(s))
    && (!s.m.tiers.alive ==> s.m.tiers.keyring.None?)
    && (forall g :: 0 <= g < |s.gs| && !s.gs[g].cpc.At? ==> s.m.tiers.keyring.None?)
  }

  /** The steps of Protocol a step over the real store amounts to: one, or none for half a Load or Save and for a revival. */
  ghost function Simulated(s: CState, step: CStep): seq<Step>
    requires CEnabled(s, step)
  {
    match step
    case CGo(g, Plain(a)) => [Go(g, a)]
    case CGo(g, KeyringGet) => if s.m.tiers.alive && s.m.tiers.keyring.Some? then [Go(g, Load)] else []
    case CGo(g, FileGet) => if s.m.tiers.file.Some? then [Go(g, Load)] else [Go(g, LoadFails)]
    case CGo(g, KeyringSet) => if s.m.tiers.alive then [Go(g, Save)] else []
    case CGo(g, FileSet) => [Go(g, Save)]
    case CTick(d) => [Tick(d)]
    case COpen(p, tok) => [Open(p, tok)]
    case CCrash(p) => [Crash(p)]
    case Revive => []
  }

  /** Locally, an act over the real store is the simulated act over the register, or changes nothing the register shows. */
  lemma DoSimulates(m: CMachine, p: Process, g: nat, c: CPc, act: CAct)
    requires CCan(m, p, c, act)
    requires act.FileGet? || act.FileSet? ==> m.tiers.keyring.None?
    requires act.FileGet? ==> Register(m.tiers).Some?
    ensures var (m', p', c') := CDo(m, p, g, c, act);
            var stutter := (act.KeyringGet? && !(m.tiers.alive && m.tiers.keyring.Some?)) || (act.KeyringSet? && !m.tiers.alive);
            var a := if act.Plain? then act.act else if act.KeyringGet? || act.FileGet? then Load else Save;
            if stutter then AbsMachine(m') == AbsMachine(m) && p' == p && AbsPc(c') == AbsPc(c) && m' == m
            else Can(AbsMachine(m), p, AbsPc(c), a) && (AbsMachine(m'), p', AbsPc(c')) == Do(AbsMachine(m), p, g, AbsPc(c), a)
  {
  }

  /** Only the lock holder writes the keyring, and it does so from At, so nobody is left halfway past it. */
  lemma GoSimulates(s: CState, g: nat, act: CAct)
    requires CInv(s) && CEnabled(s, CGo(g, act)) && CCovered(s, CGo(g, act))
    ensures var steps := Simulated(s, CGo(g, act));
            && CoveredRun(Abs(s), steps) && Run(Abs(s), steps)
            && Final(Abs(s), steps) == Abs(CApply(s, CGo(g, act)))
  {
    var t := CApply(s, CGo(g, act));
    var p, c := s.procs[s.gs[g].proc], s.gs[g].cpc;
    assert LockedRight(AbsMachine(s.m), p, g, AbsPc(c));
    assert act.FileGet? ==> InsideLock(AbsPc(c));
    DoSimulates(s.m, p, g, c, act);
    var (m', p', c') := CDo(s.m, p, g, c, act);
    assert AbsGoroutines(t.gs) == AbsGoroutines(s.gs)[g := Goroutine(s.gs[g].proc, AbsPc(c'))];
    assert s.procs[s.gs[g].proc := p] == s.procs;
    var steps := Simulated(s, CGo(g, act));
    if steps == [] {
      assert AbsGoroutines(t.gs) == AbsGoroutines(s.gs);
    } else {
      assert steps[1..] == [];
      assert Apply(Abs(s), steps[0]) == Abs(t);
    }
  }

  lemma WorldSimulates(s: CState, step: CStep)
    requires CInv(s) && CEnabled(s, step) && CCovered(s, step) && !step.CGo?
    ensures var steps := Simulated(s, step);
            && CoveredRun(Abs(s), steps) && Run(Abs(s), steps) && Final(Abs(s), steps) == Abs(CApply(s, step))
  {
    var t, steps := CApply(s, step), Simulated(s, step);
    if step.Revive? {
      assert Abs(t) == Abs(s);
    } else {
      if step.CCrash? {
        assert AbsGoroutines(t.gs) == Restarted(AbsGoroutines(s.gs), step.p);
      }
      assert steps[1..] == [];
      assert Apply(Abs(s), steps[0]) == Abs(t);
    }
  }

  lemma CInvStep(s: CState, step: CStep)
    requires CInv(s) && CEnabled(s, step) && CCovered(s, step)
    ensures var steps := Simulated(s, step);
            && CoveredRun(Abs(s), steps) && Run(Abs(s), steps) && Final(Abs(s), steps) == Abs(CApply(s, step))
    ensures CInv(CApply(s, step))
  {
    if step.CGo? { GoSimulates(s, step.g, step.act); } else { WorldSimulates(s, step); }
    NoReplay(Abs(s), Simulated(s, step));
    HalfwayStaysRight(s, step);
  }

  lemma HalfwayStaysRight(s: CState, step: CStep)
    requires CInv(s) && CEnabled(s, step) && CCovered(s, step)
    ensures var t := CApply(s, step);
            && (!t.m.tiers.alive ==> t.m.tiers.keyring.None?)
            && (forall g :: 0 <= g < |t.gs| && !t.gs[g].cpc.At? ==> t.m.tiers.keyring.None?)
  {
    var t := CApply(s, step);
    if step.CGo? && step.act.KeyringSet? && s.m.tiers.alive {
      var g := step.g;
      assert LockedRight(AbsMachine(s.m), s.procs[s.gs[g].proc], g, AbsPc(s.gs[g].cpc));
      assert InsideLock(Abs(s).gs[g].pc) && Abs(s).gs[g].pc.locked;
      forall h | 0 <= h < |t.gs| ensures t.gs[h].cpc.At? {
        assert LockedRight(AbsMachine(s.m), s.procs[s.gs[h].proc], h, AbsPc(s.gs[h].cpc));
        assert InsideLock(Abs(s).gs[h].pc) ==> Abs(s).gs[h].pc.locked;
      }
    }
  }

  ghost predicate CCoveredRun(s: CState, steps: seq<CStep>)
    decreases |steps|
  {
    steps != [] ==>
      CEnabled(s, steps[0]) && CCovered(s, steps[0]) && CCoveredRun(CApply(s, steps[0]), steps[1..])
  }

  ghost function CFinal(s: CState, steps: seq<CStep>): CState
    requires CCoveredRun(s, steps)
    decreases |steps|
  {
    if steps == [] then s else CFinal(CApply(s, steps[0]), steps[1..])
  }

  lemma {:induction false} CoveredConcat(s: State, a: seq<Step>, b: seq<Step>)
    requires CoveredRun(s, a) && Run(s, a) && CoveredRun(Final(s, a), b)
    ensures CoveredRun(s, a + b)
    decreases |a|
  {
    if a == [] {
      assert a + b == b;
    } else {
      assert (a + b)[0] == a[0] && (a + b)[1..] == a[1..] + b;
      CoveredConcat(Apply(s, a[0]), a[1..], b);
    }
  }

  /** ExactlyOne's clean steps, said of the real store. */
  ghost predicate CClean(s: CState, step: CStep)
    requires CEnabled(s, step)
  {
    && CCovered(s, step) && !step.CCrash?
    && (step.CGo? && step.act.Plain? ==> !step.act.act.DiscoverFails? && !step.act.act.RequestLost?)
    && (step.COpen? ==> !Valid(step.tok, s.m.now) || Some(step.tok) == Register(s.m.tiers))
  }

  ghost predicate CCleanRun(s: CState, steps: seq<CStep>)
    decreases |steps|
  {
    steps != [] ==> CEnabled(s, steps[0]) && CClean(s, steps[0]) && CCleanRun(CApply(s, steps[0]), steps[1..])
  }

  lemma {:induction false} CleanIsCovered(s: CState, steps: seq<CStep>)
    requires CCleanRun(s, steps)
    ensures CCoveredRun(s, steps)
    decreases |steps|
  {
    if steps != [] {
      CleanIsCovered(CApply(s, steps[0]), steps[1..]);
    }
  }

  lemma CleanSimulates(s: CState, step: CStep)
    requires CInv(s) && CEnabled(s, step) && CClean(s, step)
    ensures ExactlyOne.CleanRun(Abs(s), Simulated(s, step))
  {
    CInvStep(s, step);
    var steps := Simulated(s, step);
    if steps != [] {
      assert steps[1..] == [];
      assert ExactlyOne.Clean(Abs(s), steps[0]);
    }
  }

  lemma {:induction false} CleanConcat(s: State, a: seq<Step>, b: seq<Step>)
    requires ExactlyOne.CleanRun(s, a) && Run(s, a) && ExactlyOne.CleanRun(Final(s, a), b)
    ensures ExactlyOne.CleanRun(s, a + b)
    decreases |a|
  {
    if a == [] {
      assert a + b == b;
    } else {
      assert (a + b)[0] == a[0] && (a + b)[1..] == a[1..] + b;
      CleanConcat(Apply(s, a[0]), a[1..], b);
    }
  }

  /** Every covered run over the real store is a covered run of Protocol, step for step or stutter, and a clean one a clean one. */
  lemma {:induction false} RunSimulates(s: CState, steps: seq<CStep>) returns (shadow: seq<Step>)
    requires CInv(s) && CCoveredRun(s, steps)
    ensures CoveredRun(Abs(s), shadow) && Run(Abs(s), shadow)
    ensures Final(Abs(s), shadow) == Abs(CFinal(s, steps))
    ensures CInv(CFinal(s, steps))
    ensures CCleanRun(s, steps) ==> ExactlyOne.CleanRun(Abs(s), shadow)
    decreases |steps|
  {
    if steps == [] {
      shadow := [];
    } else {
      CInvStep(s, steps[0]);
      var head := Simulated(s, steps[0]);
      var rest := RunSimulates(CApply(s, steps[0]), steps[1..]);
      RunConcat(Abs(s), head, rest);
      CoveredConcat(Abs(s), head, rest);
      shadow := head + rest;
      if CCleanRun(s, steps) {
        CleanSimulates(s, steps[0]);
        CleanConcat(Abs(s), head, rest);
      }
    }
  }

  /** At rest, over a dead and empty keyring or a live one, with the provider's current token stored. */
  ghost predicate CInit(s: CState) {
    && Init(Abs(s)) && (forall g :: 0 <= g < |s.gs| ==> s.gs[g].cpc.At?)
    && (!s.m.tiers.alive ==> s.m.tiers.keyring.None?)
  }

  /** A request over the real store shows the provider this token. */
  ghost function CPresented(s: CState, step: CStep): Option<string>
    requires CEnabled(s, step)
  {
    if step.CGo? && step.act == Plain(Send) && s.procs[s.gs[step.g].proc].tok.refreshToken != ""
    then Some(s.procs[s.gs[step.g].proc].tok.refreshToken) else None
  }

  /**
   No replay over the real store: the run never revokes the grant, whatever step comes
   next shows the provider no consumed token, and a Load under the lock never misses.
   */
  lemma NoReplayOverTheRealStore(s: CState, steps: seq<CStep>)
    requires CInit(s) && CCoveredRun(s, steps)
    ensures var t := CFinal(s, steps);
            && !t.m.grant.revoked && t.m.grant.replays == 0
            && (t.m.flock.None? ==> Register(t.m.tiers).Some? && Register(t.m.tiers).value.refreshToken == t.m.grant.current)
    ensures forall next :: CEnabled(CFinal(s, steps), next) && CCovered(CFinal(s, steps), next) ==>
              NextIsSafe(CFinal(s, steps), next)
  {
    InitInv(Abs(s));
    var shadow := RunSimulates(s, steps);
    NoReplay(Abs(s), shadow);
    var t := CFinal(s, steps);
    forall next | CEnabled(t, next) && CCovered(t, next) ensures NextIsSafe(t, next) {
      NextStepIsSafe(t, next);
    }
  }

  /** next shows the provider no consumed token, and if it reads the file it finds a token there. */
  ghost predicate NextIsSafe(s: CState, next: CStep)
    requires CEnabled(s, next)
  {
    && (next.CGo? && CPresented(s, next).Some? ==> CPresented(s, next).value !in s.m.grant.consumed)
    && (next.CGo? && next.act.FileGet? ==> s.m.tiers.file.Some?)
  }

  lemma NextStepIsSafe(s: CState, next: CStep)
    requires CInv(s) && CEnabled(s, next) && CCovered(s, next)
    ensures NextIsSafe(s, next)
  {
    if next.CGo? {
      CInvStep(s, next);
      if CPresented(s, next).Some? {
        PresentsCurrent(Abs(s), Go(next.g, Send));
      }
    }
  }

  /** The rate bound over the real store, on the count and on every gap. */
  lemma RateBoundOverTheRealStore(s: CState, steps: seq<CStep>)
    requires CInit(s) && CCoveredRun(s, steps) && s.m.lifetime > EARLY
    ensures var t := CFinal(s, steps);
            && t.m.now >= s.m.now
            && |t.m.refreshedAt| <= 1 + (t.m.now - s.m.now) / (s.m.lifetime - EARLY)
            && forall i, j :: 0 <= i < j < |t.m.refreshedAt| ==>
                 t.m.refreshedAt[j] - t.m.refreshedAt[i] > s.m.lifetime - EARLY
  {
    InitInv(Abs(s));
    var shadow := RunSimulates(s, steps);
    RefreshRateBound(Abs(s), shadow);
  }

  /**
   Exactly one refresh over the real store: from an expired stored token, over every
   clean interleaving that ends before the new token goes stale and with the keyring
   reviving anywhere, at most one refresh, and exactly one once any call has
   returned, whose token every call returned and both halves of a load would find.
   */
  lemma ExactlyOneOverTheRealStore(s: CState, steps: seq<CStep>)
    requires CInit(s) && ExactlyOne.ExpiredStart(Abs(s)) && CCleanRun(s, steps)
    ensures CCoveredRun(s, steps)
    ensures var t := CFinal(s, steps);
            !ExactlyOne.Stale(AbsMachine(t.m)) ==>
              && s.m.grant.refreshes <= t.m.grant.refreshes <= s.m.grant.refreshes + 1
              && forall g :: 0 <= g < |t.gs| && t.gs[g].cpc.At? && t.gs[g].cpc.pc.Done? ==>
                   && t.m.grant.refreshes == s.m.grant.refreshes + 1
                   && Register(t.m.tiers).Some?
                   && t.gs[g].cpc.pc.out == Got(Register(t.m.tiers).value)
                   && Register(t.m.tiers).value.accessToken == AccessName(s.m.grant.refreshes + 1)
  {
    InitInv(Abs(s));
    CleanIsCovered(s, steps);
    var shadow := RunSimulates(s, steps);
    ExactlyOne.ExactlyOneRefresh(Abs(s), shadow);
    var t := CFinal(s, steps);
    assert forall g :: 0 <= g < |t.gs| ==> Abs(t).gs[g].pc == AbsPc(t.gs[g].cpc);
  }
}
