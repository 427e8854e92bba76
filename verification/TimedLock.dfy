/**
 N processes contend for the refresh lock over real time, each polling on its own
 schedule. The first to get the lock refreshes and holds it at most H; whoever gets
 it later only re-reads the store and holds it at most h. If H and h are small enough
 no wait reaches its deadline, so nobody refreshes unlocked and there is one refresh.
 */
module TimedLock {
  import opened Basics
  import opened Tokens
  import opened Protocol
  import opened Lock

  datatype Contender =
    | Away
    | Waiting(since: Time, failed: nat)
    | Holding(from: Time, refreshing: bool)
    | Finished(from: Time, to: Time, refreshing: bool)
    | TimedOut

  /** refresh and reread are the bounds H and h; renewed says the new token is stored. */
  datatype Contest = Contest(now: Time, refresh: nat, reread: nat, renewed: bool, all: seq<Contender>)

  datatype Event = Arrive(i: nat) | Try(i: nat) | GiveUp(i: nat) | LetGo(i: nat) | Pass(d: nat)

  function Bound(c: Contest, refreshing: bool): nat { if refreshing then c.refresh else c.reread }

  ghost predicate LockFree(c: Contest) {
    forall i :: 0 <= i < |c.all| ==> !c.all[i].Holding?
  }

  /** Time passes no poll that falls due and no hold's bound. */
  ghost predicate MayPass(c: Contest, d: nat) {
    forall i :: 0 <= i < |c.all| ==>
      && (c.all[i].Waiting? ==> c.now + d <= PollTime(c.all[i].since, c.all[i].failed))
      && (c.all[i].Holding? ==> c.now + d <= c.all[i].from + Bound(c, c.all[i].refreshing))
  }

  ghost predicate Can(c: Contest, e: Event) {
    match e
    case Arrive(i) => i < |c.all| && c.all[i].Away?
    case Try(i) => i < |c.all| && c.all[i].Waiting? && c.now == PollTime(c.all[i].since, c.all[i].failed)
    case GiveUp(i) => i < |c.all| && c.all[i].Waiting? && c.now >= c.all[i].since + LOCK_WAIT
    case LetGo(i) => i < |c.all| && c.all[i].Holding?
    case Pass(d) => MayPass(c, d)
  }

  ghost function Next(c: Contest, e: Event): Contest
    requires Can(c, e)
  {
    match e
    case Arrive(i) => c.(all := c.all[i := Waiting(c.now, 0)])
    case Try(i) =>
      if LockFree(c) then c.(all := c.all[i := Holding(c.now, !c.renewed)])
      else c.(all := c.all[i := c.all[i].(failed := c.all[i].failed + 1)])
    case GiveUp(i) => c.(all := c.all[i := TimedOut])
    case LetGo(i) =>
      c.(all := c.all[i := Finished(c.all[i].from, c.now, c.all[i].refreshing)], renewed := c.renewed || c.all[i].refreshing)
    case Pass(d) => c.(now := c.now + d)
  }

  predicate HasHeld(x: Contender) { x.Holding? || x.Finished? }

  /** The hold of a contender up to now. */
  function HoldOf(x: Contender, now: Time): Hold
    requires HasHeld(x)
  {
    Hold(x.from, if x.Holding? then now else x.to)
  }

  /** Poll k of waiter w fell within the hold of contender i. */
  predicate FellIn(c: Contest, w: nat, k: nat, i: nat) {
    && w < |c.all| && c.all[w].Waiting?
    && i < |c.all| && HasHeld(c.all[i])
    && Within(HoldOf(c.all[i], c.now), PollTime(c.all[w].since, k))
  }

  ghost predicate PollFell(c: Contest, w: nat, k: nat) { exists i: nat :: FellIn(c, w, k, i) }

  /** Every failed poll of w fell in some hold, and the next one is at most an interval away. */
  ghost predicate WaitRight(c: Contest, w: nat)
    requires w < |c.all| && c.all[w].Waiting?
  {
    && c.all[w].since <= c.now <= PollTime(c.all[w].since, c.all[w].failed)
    && forall k: nat :: k < c.all[w].failed ==> PollFell(c, w, k)
  }

  ghost predicate HoldRight(c: Contest, i: nat)
    requires i < |c.all| && HasHeld(c.all[i])
  {
    var x := c.all[i];
    && x.from <= HoldOf(x, c.now).to <= c.now
    && HoldOf(x, c.now).to <= x.from + Bound(c, x.refreshing)
    && (x.Holding? ==> x.refreshing == !c.renewed)
    && (x.Finished? && x.refreshing ==> c.renewed)
  }

  predicate Refreshes(x: Contender) { HasHeld(x) && x.refreshing }

  /** The first to get the lock was there to refresh: once anyone has held it, or the store is renewed, some hold was a refresh. */
  ghost predicate Begun(c: Contest) {
    c.renewed || (exists i :: 0 <= i < |c.all| && HasHeld(c.all[i])) ==> exists i :: 0 <= i < |c.all| && Refreshes(c.all[i])
  }

  /** At most one contender has the lock, at most one ever refreshes, and a renewed store has had its refresh. */
  ghost predicate Right(c: Contest) {
    && (forall i :: 0 <= i < |c.all| ==> !c.all[i].TimedOut?)
    && (forall w :: 0 <= w < |c.all| && c.all[w].Waiting? ==> WaitRight(c, w))
    && (forall i :: 0 <= i < |c.all| && HasHeld(c.all[i]) ==> HoldRight(c, i))
    && (forall i, j :: 0 <= i < j < |c.all| ==> !(c.all[i].Holding? && c.all[j].Holding?))
    && (forall i, j :: 0 <= i < j < |c.all| && HasHeld(c.all[i]) && HasHeld(c.all[j]) ==>
          !(c.all[i].refreshing && c.all[j].refreshing))
    && Begun(c)
  }

  /** The holds so far among the first n contenders. */
  function HoldsOf(all: seq<Contender>, now: Time): seq<Hold> {
    if all == [] then []
    else
      var last := all[|all| - 1];
      HoldsOf(all[..|all| - 1], now) + if HasHeld(last) then [HoldOf(last, now)] else []
  }

  /** How many of the holds were for a refresh. */
  function RefreshCount(all: seq<Contender>): nat {
    if all == [] then 0
    else RefreshCount(all[..|all| - 1]) + if Refreshes(all[|all| - 1]) then 1 else 0
  }

  lemma {:induction false} NoneRefreshes(all: seq<Contender>)
    requires forall i :: 0 <= i < |all| ==> !Refreshes(all[i])
    ensures RefreshCount(all) == 0
  {
    if all != [] {
      NoneRefreshes(all[..|all| - 1]);
    }
  }

  lemma {:induction false} AtMostOneRefreshes(all: seq<Contender>)
    requires forall i, j :: 0 <= i < j < |all| ==> !(Refreshes(all[i]) && Refreshes(all[j]))
    ensures RefreshCount(all) <= 1
  {
    if all != [] {
      if Refreshes(all[|all| - 1]) {
        NoneRefreshes(all[..|all| - 1]);
      } else {
        AtMostOneRefreshes(all[..|all| - 1]);
      }
    }
  }

  lemma {:induction false} SomeRefreshes(all: seq<Contender>, i: nat)
    requires i < |all| && Refreshes(all[i])
    ensures RefreshCount(all) >= 1
  {
    if i < |all| - 1 {
      SomeRefreshes(all[..|all| - 1], i);
    }
  }

  /** The most a contender may have held the lock. */
  function Share(x: Contender, refresh: nat, reread: nat): nat {
    if !HasHeld(x) then 0 else if x.refreshing then refresh else reread
  }

  /** The longest the holds may have lasted together. */
  function Allowance(all: seq<Contender>, refresh: nat, reread: nat): nat {
    if all == [] then 0
    else
      Allowance(all[..|all| - 1], refresh, reread) + Share(all[|all| - 1], refresh, reread)
  }

  lemma AppendHold(holds: seq<Hold>, h: Hold)
    requires Ordered(holds) && h.from <= h.to
    ensures Ordered(holds + [h]) && Total(holds + [h]) == Total(holds) + (h.to - h.from)
  {
    assert (holds + [h])[..|holds|] == holds;
  }

  lemma {:induction false} HoldsAddUp(all: seq<Contender>, now: Time, refresh: nat, reread: nat)
    requires forall i :: 0 <= i < |all| && HasHeld(all[i]) ==>
               all[i].from <= HoldOf(all[i], now).to <= all[i].from + Share(all[i], refresh, reread)
    ensures Ordered(HoldsOf(all, now))
    ensures Total(HoldsOf(all, now)) <= Allowance(all, refresh, reread)
    decreases |all|
  {
    if all != [] {
      var init, last := all[..|all| - 1], all[|all| - 1];
      HoldsAddUp(init, now, refresh, reread);
      var holds := HoldsOf(init, now);
      if HasHeld(last) {
        AppendHold(holds, HoldOf(last, now));
      } else {
        assert holds + [] == holds;
      }
    }
  }

  lemma OneMore(n: nat, d: int)
    ensures (n + 1) * d == n * d + d
  {
  }

  /** One h for each hold, and H - h more for each refresh. */
  lemma {:induction false} AllowanceIs(all: seq<Contender>, now: Time, refresh: nat, reread: nat)
    ensures Allowance(all, refresh, reread) ==
            |HoldsOf(all, now)| * reread + RefreshCount(all) * (refresh - reread)
    decreases |all|
  {
    if all != [] {
      var init := all[..|all| - 1];
      AllowanceIs(init, now, refresh, reread);
      OneMore(|HoldsOf(init, now)|, reread);
      OneMore(RefreshCount(init), refresh - reread);
    }
  }

  lemma {:induction false} HoldsCover(all: seq<Contender>, now: Time, i: nat, t: Time)
    requires i < |all| && HasHeld(all[i]) && Within(HoldOf(all[i], now), t)
    ensures Held(HoldsOf(all, now), t)
    decreases |all|
  {
    var n := |all| - 1;
    var holds := HoldsOf(all[..n], now);
    if i == n {
      assert HoldsOf(all, now)[|holds|] == HoldOf(all[n], now);
    } else {
      HoldsCover(all[..n], now, i, t);
      var j :| 0 <= j < |holds| && Within(holds[j], t);
      assert HoldsOf(all, now)[j] == holds[j];
    }
  }

  lemma {:induction false} WaiterHasNoHold(all: seq<Contender>, now: Time, w: nat)
    requires w < |all| && !HasHeld(all[w])
    ensures |HoldsOf(all, now)| <= |all| - 1
    decreases |all|
  {
    var n := |all| - 1;
    if w < n {
      WaiterHasNoHold(all[..n], now, w);
    } else {
      HoldsAtMost(all[..n], now);
    }
  }

  lemma {:induction false} HoldsAtMost(all: seq<Contender>, now: Time)
    ensures |HoldsOf(all, now)| <= |all|
    decreases |all|
  {
    if all != [] {
      HoldsAtMost(all[..|all| - 1], now);
    }
  }

  /** H and N - 1 further holds and polls fit in the wait. */
  predicate Fits(c: Contest) {
    c.refresh + (|c.all| - 1) * (c.reread + Polls(1)) < LOCK_WAIT
  }

  lemma ProductGrows(a: int, b: int, d: nat)
    requires a <= b
    ensures a * d <= b * d
  {
  }

  lemma {:induction false} NoHolds(all: seq<Contender>, now: Time)
    requires forall i :: 0 <= i < |all| ==> !HasHeld(all[i])
    ensures HoldsOf(all, now) == []
    decreases |all|
  {
    if all != [] {
      NoHolds(all[..|all| - 1], now);
    }
  }

  /** With n >= 1 holds so far, one of them the refresh, they come to at most (n - 1) * h + H. */
  lemma HoldsTotal(c: Contest)
    requires Right(c)
    ensures Ordered(HoldsOf(c.all, c.now))
    ensures var holds := HoldsOf(c.all, c.now);
            if holds == [] then Total(holds) == 0 else Total(holds) <= |holds| * c.reread + c.refresh - c.reread
  {
    forall i | 0 <= i < |c.all| && HasHeld(c.all[i])
      ensures c.all[i].from <= HoldOf(c.all[i], c.now).to <= c.all[i].from + Share(c.all[i], c.refresh, c.reread)
    {
      assert HoldRight(c, i);
    }
    HoldsAddUp(c.all, c.now, c.refresh, c.reread);
    AllowanceIs(c.all, c.now, c.refresh, c.reread);
    AtMostOneRefreshes(c.all);
    if i :| 0 <= i < |c.all| && HasHeld(c.all[i]) {
      assert Begun(c);
      var r :| 0 <= r < |c.all| && Refreshes(c.all[r]);
      SomeRefreshes(c.all, r);
      assert RefreshCount(c.all) * (c.refresh - c.reread) == c.refresh - c.reread;
    } else {
      NoHolds(c.all, c.now);
    }
  }

  /** A waiter's failed polls never add up to the deadline. */
  lemma NoDeadline(c: Contest, w: nat)
    requires Right(c) && Fits(c) && w < |c.all| && c.all[w].Waiting?
    ensures Polls(c.all[w].failed) < LOCK_WAIT
  {
    var holds := HoldsOf(c.all, c.now);
    HoldsTotal(c);
    WaiterHasNoHold(c.all, c.now, w);
    assert WaitRight(c, w);
    forall k: nat | k < c.all[w].failed ensures Held(holds, PollTime(c.all[w].since, k)) {
      assert PollFell(c, w, k);
      var i: nat :| FellIn(c, w, k, i);
      HoldsCover(c.all, c.now, i, PollTime(c.all[w].since, k));
    }
    FailuresAreBounded(holds, c.all[w].since, c.all[w].failed);
    if holds != [] {
      SumFits(c, |holds|);
    }
  }

  lemma SumFits(c: Contest, n: nat)
    requires Fits(c) && n <= |c.all| - 1
    ensures n * c.reread + c.refresh - c.reread + Polls(n) < LOCK_WAIT
  {
    ProductGrows(n, |c.all| - 1, c.reread);
    assert (|c.all| - 1) * (c.reread + Polls(1)) == (|c.all| - 1) * c.reread + Polls(|c.all| - 1) by {
      Distribute(|c.all| - 1, c.reread);
    }
  }

  lemma Distribute(n: int, r: int)
    ensures n * (r + Polls(1)) == n * r + Polls(n)
  {
  }

  lemma StaysRight(c: Contest, e: Event)
    requires Right(c) && Fits(c) && Can(c, e)
    ensures Right(Next(c, e)) && Fits(Next(c, e))
  {
    var d := Next(c, e);
    if e.GiveUp? {
      NoDeadline(c, e.i);
    } else {
      forall w | 0 <= w < |d.all| && d.all[w].Waiting? ensures WaitRight(d, w) {
        WaitsStayRight(c, e, w);
      }
      forall i | 0 <= i < |d.all| && HasHeld(d.all[i]) ensures HoldRight(d, i) {
        if HasHeld(c.all[i]) {
          assert HoldRight(c, i);
        }
      }
      OneHolder(c, e);
      StaysBegun(c, e);
    }
  }

  /** A wait stays right: holds only grow, and a poll that fails now falls in the holder's. */
  lemma WaitsStayRight(c: Contest, e: Event, w: nat)
    requires Right(c) && Can(c, e) && !e.GiveUp? && w < |c.all| && Next(c, e).all[w].Waiting?
    ensures WaitRight(Next(c, e), w)
  {
    var d := Next(c, e);
    if c.all[w].Waiting? {
      assert WaitRight(c, w);
      forall k: nat | k < d.all[w].failed ensures PollFell(d, w, k) {
        if k < c.all[w].failed {
          assert PollFell(c, w, k);
          var i: nat :| FellIn(c, w, k, i);
          assert HoldRight(c, i);
          assert FellIn(d, w, k, i);
        } else {
          var i :| 0 <= i < |c.all| && c.all[i].Holding?;
          assert HoldRight(c, i);
          assert FellIn(d, w, k, i);
        }
      }
    }
  }

  lemma OneHolder(c: Contest, e: Event)
    requires Right(c) && Can(c, e) && !e.GiveUp?
    ensures var d := Next(c, e);
            && (forall i, j :: 0 <= i < j < |d.all| ==> !(d.all[i].Holding? && d.all[j].Holding?))
            && (forall i, j :: 0 <= i < j < |d.all| && HasHeld(d.all[i]) && HasHeld(d.all[j]) ==>
                  !(d.all[i].refreshing && d.all[j].refreshing))
            && (forall i :: 0 <= i < |d.all| && d.all[i].Holding? ==> d.all[i].refreshing == !d.renewed)
  {
    forall i | 0 <= i < |c.all| && HasHeld(c.all[i]) ensures HoldRight(c, i) {
    }
  }

  /** A hold stays what it was, and the first one is a refresh. */
  lemma StaysBegun(c: Contest, e: Event)
    requires Right(c) && Can(c, e) && !e.GiveUp?
    ensures Begun(Next(c, e))
  {
    var d := Next(c, e);
    assert forall i :: 0 <= i < |c.all| && Refreshes(c.all[i]) ==> Refreshes(d.all[i]);
    if i :| 0 <= i < |d.all| && HasHeld(d.all[i]) && !HasHeld(c.all[i]) {
      assert c.renewed || Refreshes(d.all[i]);
    }
  }

  ghost predicate Plays(c: Contest, events: seq<Event>)
    decreases |events|
  {
    events != [] ==> Can(c, events[0]) && Plays(Next(c, events[0]), events[1..])
  }

  ghost function End(c: Contest, events: seq<Event>): Contest
    requires Plays(c, events)
    decreases |events|
  {
    if events == [] then c else End(Next(c, events[0]), events[1..])
  }

  lemma {:induction false} PlaysStayRight(c: Contest, events: seq<Event>)
    requires Right(c) && Fits(c) && Plays(c, events)
    ensures Right(End(c, events))
    decreases |events|
  {
    if events != [] {
      StaysRight(c, events[0]);
      PlaysStayRight(Next(c, events[0]), events[1..]);
    }
  }

  /**
   Timed locking: N processes, none of them at the lock yet, over a stale store. If
   H + (N-1) * (h + LOCK_POLL) < LOCK_WAIT, then over every interleaving of arrivals,
   polls, releases and the clock, no process times out into an unlocked refresh, and
   as soon as one has got the lock exactly one of them refreshes.
   */
  lemma NobodyTimesOut(c: Contest, events: seq<Event>)
    requires Fits(c) && !c.renewed && (forall i :: 0 <= i < |c.all| ==> c.all[i].Away?) && Plays(c, events)
    ensures var end := End(c, events);
            && (forall i :: 0 <= i < |end.all| ==> !end.all[i].TimedOut?)
            && (forall i, j :: 0 <= i < j < |end.all| && HasHeld(end.all[i]) && HasHeld(end.all[j]) ==>
                  !(end.all[i].refreshing && end.all[j].refreshing))
            && ((exists i :: 0 <= i < |end.all| && HasHeld(end.all[i])) ==>
                  exists i :: 0 <= i < |end.all| && Refreshes(end.all[i]))
  {
    PlaysStayRight(c, events);
  }
}
