/** How often the whole machine refreshes: any two refreshes of a covered run are more than L - e apart. */
module RefreshRate {
  import opened Basics
  import opened Tokens
  import opened Provider
  import opened Protocol
  import opened Safety

  /** tok is usable until at least L - e after the last refresh. */
  predicate Covers(m: Machine, tok: StoredToken) {
    m.refreshedAt != [] ==>
      tok.accessToken != "" && tok.expiry >= m.refreshedAt[|m.refreshedAt| - 1] + m.lifetime
  }

  /** Consecutive refreshes are more than L - e apart, and none lies in the future. */
  ghost predicate Spaced(m: Machine) {
    && (forall i :: 0 <= i < |m.refreshedAt| - 1 ==>
          m.refreshedAt[i + 1] - m.refreshedAt[i] > m.lifetime - EARLY)
    && (m.refreshedAt != [] ==> m.refreshedAt[|m.refreshedAt| - 1] <= m.now)
    && m.lifetime > 0 && m.now > 0
  }

  /** What the lock holder's position says of the newest token. */
  predicate Paced(m: Machine, tok: StoredToken, pc: Pc) {
    && m.store.Some?
    && (!Rotated(pc) ==> Covers(m, m.store.value))
    && (pc.Answered? ==> pc.access != "")
    && (pc.Saving? ==> Covers(m, tok))
    && (pc.Discovering? || pc.Requesting? ==> !Valid(m.store.value, m.now))
  }

  ghost predicate RateInv(s: State) {
    && Inv(s) && Spaced(s.m)
    && if s.m.flock.None? then Covers(s.m, s.m.store.value)
       else Paced(s.m, ProcOf(s, s.m.flock.value).tok, s.gs[s.m.flock.value].pc)
  }

  /** The lock holder's acts keep refreshes spaced: it asks only after seeing the newest token stale. */
  lemma DoPaced(m: Machine, p: Process, g: nat, pc: Pc, act: Act)
    requires Can(m, p, pc, act) && CoveredAct(m, pc, act) && HoldsFlock(pc)
    requires Sound(m.grant) && m.flock == Some(g) && HolderKnows(m, p.tok, pc)
    requires Spaced(m) && Paced(m, p.tok, pc)
    ensures var (m', p', pc') := Do(m, p, g, pc, act);
            && Spaced(m') && m'.lifetime == m.lifetime
            && Paced(m', p'.tok, pc')
            && (!InsideLock(pc') ==> Covers(m', m'.store.value))
  {
    if act.Send? && p.tok.refreshToken != "" {
      PresentingCurrentIsGranted(m.grant);
      var m' := Do(m, p, g, pc, act).0;
      assert forall i :: 0 <= i < |m.refreshedAt| ==> m'.refreshedAt[i] == m.refreshedAt[i];
    }
  }

  lemma RateGo(s: State, g: nat, act: Act)
    requires RateInv(s) && Enabled(s, Go(g, act)) && Covered(s, Go(g, act))
    ensures RateInv(Apply(s, Go(g, act)))
  {
    InvStep(s, Go(g, act));
    assert LockedRight(s.m, ProcOf(s, g), g, s.gs[g].pc);
    if InsideLock(s.gs[g].pc) {
      DoPaced(s.m, ProcOf(s, g), g, s.gs[g].pc, act);
    } else {
      DoOutside(s.m, ProcOf(s, g), g, s.gs[g].pc, act);
      if s.m.flock.Some? {
        var h := s.m.flock.value;
        assert LockedRight(s.m, ProcOf(s, h), h, s.gs[h].pc);
        assert h != g && ProcOf(Apply(s, Go(g, act)), h).tok == ProcOf(s, h).tok;
      }
    }
  }

  lemma RateStep(s: State, step: Step)
    requires RateInv(s) && Enabled(s, step) && Covered(s, step)
    ensures RateInv(Apply(s, step))
  {
    match step
    case Go(g, act) => RateGo(s, g, act);
    case _ =>
      InvStep(s, step);
      if s.m.flock.Some? {
        assert LockedRight(s.m, ProcOf(s, s.m.flock.value), s.m.flock.value, s.gs[s.m.flock.value].pc);
      }
  }

  lemma {:induction false} RateRun(s: State, steps: seq<Step>)
    requires RateInv(s) && CoveredRun(s, steps)
    ensures Run(s, steps) && RateInv(Final(s, steps))
    decreases |steps|
  {
    if steps != [] {
      RateStep(s, steps[0]);
      RateRun(Apply(s, steps[0]), steps[1..]);
    }
  }

  ghost predicate Apart(times: seq<Time>, gap: int) {
    forall k :: 0 <= k < |times| - 1 ==> times[k + 1] - times[k] > gap
  }

  lemma {:induction false} SpacingAddsUp(times: seq<Time>, gap: int)
    requires times != [] && Apart(times, gap)
    ensures times[|times| - 1] - times[0] >= (|times| - 1) * gap
  {
    if |times| > 1 {
      var init := times[..|times| - 1];
      SpacingAddsUp(init, gap);
      assert times[|times| - 2 + 1] - times[|times| - 2] > gap;
      assert (|times| - 1) * gap == (|init| - 1) * gap + gap;
    }
  }

  lemma {:induction false} AnyTwoApart(times: seq<Time>, gap: int, i: nat, j: nat)
    requires i < j < |times| && gap > 0 && Apart(times, gap)
    ensures times[j] - times[i] > gap
    decreases j
  {
    assert times[j - 1 + 1] - times[j - 1] > gap;
    if i < j - 1 {
      AnyTwoApart(times, gap, i, j - 1);
    }
  }

  lemma ProductGrows(a: int, b: int, d: int)
    requires a <= b && d > 0
    ensures a * d <= b * d
  {
  }

  lemma QuotientBounds(n: int, d: int, span: int)
    requires d > 0 && n * d <= span
    ensures n <= span / d
  {
    if span / d + 1 <= n {
      ProductGrows(span / d + 1, n, d);
    }
  }

  /**
   The rate bound: from a machine at rest, with tokens that live L > e, a covered run
   of length T holds at most 1 + T / (L - e) refreshes, however many processes take
   part and however many of their calls fail, and any two are more than L - e apart.
   */
  lemma RefreshRateBound(s: State, steps: seq<Step>)
    requires Init(s) && CoveredRun(s, steps) && s.m.lifetime > EARLY
    ensures Run(s, steps)
    ensures var t := Final(s, steps);
            && t.m.now >= s.m.now
            && |t.m.refreshedAt| <= 1 + (t.m.now - s.m.now) / (s.m.lifetime - EARLY)
            && forall i, j :: 0 <= i < j < |t.m.refreshedAt| ==>
                 t.m.refreshedAt[j] - t.m.refreshedAt[i] > s.m.lifetime - EARLY
  {
    InitInv(s);
    RateRun(s, steps);
    RunIsLater(s, steps);
    BoundFromInv(s.m, Final(s, steps).m);
  }

  lemma BoundFromInv(a: Machine, b: Machine)
    requires a.refreshedAt == [] && Later(a, b) && Spaced(b) && a.lifetime > EARLY
    ensures |b.refreshedAt| <= 1 + (b.now - a.now) / (a.lifetime - EARLY)
    ensures forall i, j :: 0 <= i < j < |b.refreshedAt| ==>
              b.refreshedAt[j] - b.refreshedAt[i] > a.lifetime - EARLY
  {
    var gap, r := a.lifetime - EARLY, b.refreshedAt;
    assert Apart(r, gap);
    if r != [] {
      SpacingAddsUp(r, gap);
      QuotientBounds(|r| - 1, gap, b.now - a.now);
    }
    forall i, j | 0 <= i < j < |r| ensures r[j] - r[i] > gap {
      AnyTwoApart(r, gap, i, j);
    }
  }
}
