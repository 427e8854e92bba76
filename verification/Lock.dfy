/** Taking the refresh lock by polling it, and when the wait is long enough. */
module Lock {
  import opened Basics
  import opened Tokens
  import opened Protocol

  /** Some other process holding the lock, both ends included. */
  datatype Hold = Hold(from: Time, to: Time)

  predicate Within(h: Hold, t: Time) { h.from <= t <= h.to }

  ghost predicate Held(holds: seq<Hold>, t: Time) {
    exists i :: 0 <= i < |holds| && Within(holds[i], t)
  }

  /** n poll intervals, with LOCK_POLL written out to keep the arithmetic linear. */
  function Polls(n: int): Time { n * 20_000_000 }

  /** The polls before a wait reaches its deadline. */
  const POLLS_IN_WAIT: nat := 500

  lemma PollsAreRight(n: int)
    ensures Polls(n) == n * LOCK_POLL && Polls(POLLS_IN_WAIT) == LOCK_WAIT
  {
  }

  /** The k-th poll of a wait that starts at start. */
  function PollTime(start: Time, k: nat): Time { start + Polls(k) }

  /** The first n polls of the wait all find the lock held. */
  ghost predicate FirstFail(holds: seq<Hold>, start: Time, n: nat) {
    forall k: nat :: k < n ==> Held(holds, PollTime(start, k))
  }

  /** How the attempt ended: with the lock, or degraded to no lock, and when. */
  datatype Attempt = Locked(at: Time, polls: nat) | Degraded(at: Time)

  method HeldNow(holds: seq<Hold>, t: Time) returns (held: bool)
    ensures held <==> Held(holds, t)
  {
    for i := 0 to |holds|
      invariant forall j :: 0 <= j < i ==> !Within(holds[j], t)
    {
      if Within(holds[i], t) {
        return true;
      }
    }
    held := false;
  }

  /**
   lockRefresh against the holds of the other processes. dir says whether there is a
   state directory the lock file can be made in, and lastPoll whether a poll falling
   due exactly at the deadline still happens.
   */
  method LockRefresh(dir: bool, start: Time, holds: seq<Hold>, lastPoll: bool) returns (r: Attempt)
    ensures r.Locked? ==>
              && dir && r.at == PollTime(start, r.polls) == start + r.polls * LOCK_POLL && r.at <= start + LOCK_WAIT
              && !Held(holds, r.at) && FirstFail(holds, start, r.polls)
    ensures r.Degraded? && !dir ==> r.at == start
    ensures r.Degraded? && dir ==>
              r.at == start + LOCK_WAIT && FirstFail(holds, start, POLLS_IN_WAIT)
  {
    if !dir {
      return Degraded(start);
    }
    PollsAreRight(POLLS_IN_WAIT);
    var polls := 0;
    while true
      invariant FirstFail(holds, start, polls)
      invariant PollTime(start, polls) <= start + LOCK_WAIT
      decreases start + LOCK_WAIT - PollTime(start, polls)
    {
      var held := HeldNow(holds, PollTime(start, polls));
      if !held {
        PollsAreRight(polls);
        return Locked(PollTime(start, polls), polls);
      }
      var next := PollTime(start, polls + 1);
      if next > start + LOCK_WAIT || (next == start + LOCK_WAIT && !lastPoll) {
        return Degraded(start + LOCK_WAIT);
      }
      polls := polls + 1;
    }
  }

  function Total(holds: seq<Hold>): int {
    if holds == [] then 0 else Total(holds[..|holds| - 1]) + holds[|holds| - 1].to - holds[|holds| - 1].from
  }

  ghost predicate Ordered(holds: seq<Hold>) {
    forall i :: 0 <= i < |holds| ==> holds[i].from <= holds[i].to
  }

  lemma {:induction false} IntervalSize(s: set<nat>, lo: int, hi: int)
    requires forall k :: k in s ==> lo <= k <= hi
    requires lo <= hi + 1
    ensures |s| <= hi - lo + 1
    decreases hi - lo + 1
  {
    if s != {} {
      var x :| x in s;
      if hi in s {
        IntervalSize(s - {hi}, lo, hi - 1);
      } else {
        IntervalSize(s, lo, hi - 1);
      }
    }
  }

  /** One hold of length d sees at most d / LOCK_POLL + 1 polls of one waiter. */
  lemma PollsInOneHold(polls: set<nat>, start: Time, h: Hold)
    requires h.from <= h.to
    requires forall k :: k in polls ==> Within(h, PollTime(start, k))
    ensures Polls(|polls|) <= h.to - h.from + Polls(1)
  {
    var lo := (h.from - start + 19_999_999) / 20_000_000;
    var hi := (h.to - start) / 20_000_000;
    forall k | k in polls ensures lo <= k <= hi {
      assert Within(h, PollTime(start, k));
    }
    if polls != {} {
      var x :| x in polls;
      IntervalSize(polls, lo, hi);
    }
  }

  /** Failed polls are paid for by the holds they fall in, one poll interval each on top of the hold's length. */
  lemma {:induction false} PollsInHolds(polls: set<nat>, start: Time, holds: seq<Hold>)
    requires Ordered(holds)
    requires forall k :: k in polls ==> Held(holds, PollTime(start, k))
    ensures Polls(|polls|) <= Total(holds) + Polls(|holds|)
    decreases |holds|
  {
    if holds == [] {
      assert forall k :: k in polls ==> !Held(holds, PollTime(start, k));
      assert polls == {};
    } else {
      var n := |holds| - 1;
      var here := set k | k in polls && Within(holds[n], PollTime(start, k));
      var rest := polls - here;
      forall k | k in rest ensures Held(holds[..n], PollTime(start, k)) {
        var i :| 0 <= i < |holds| && Within(holds[i], PollTime(start, k));
        assert holds[..n][i] == holds[i];
      }
      PollsInHolds(rest, start, holds[..n]);
      PollsInOneHold(here, start, holds[n]);
      assert polls == here + rest;
      assert |polls| == |here| + |rest|;
    }
  }

  function Upto(n: nat): (s: set<nat>)
    ensures |s| == n && forall k: nat :: k in s <==> k < n
  {
    if n == 0 then {} else Upto(n - 1) + {n - 1}
  }

  /** A wait all of whose first n polls failed has lasted no longer than the others' holds, plus one poll interval per hold. */
  lemma FailuresAreBounded(holds: seq<Hold>, start: Time, n: nat)
    requires Ordered(holds) && FirstFail(holds, start, n)
    ensures Polls(n) <= Total(holds) + Polls(|holds|)
  {
    PollsInHolds(Upto(n), start, holds);
  }

  /**
   The wait is long enough: if what the other processes hold the lock for, plus one
   poll interval for each of them, is under LOCK_WAIT, then the attempt gets the lock
   and within that time, in whatever order and with whatever gaps they hold it.
   */
  method LockRefreshSucceeds(start: Time, holds: seq<Hold>, lastPoll: bool) returns (r: Attempt)
    requires Ordered(holds) && Total(holds) + Polls(|holds|) < LOCK_WAIT
    ensures r.Locked? && r.at - start <= Total(holds) + Polls(|holds|)
  {
    r := LockRefresh(true, start, holds, lastPoll);
    if r.Locked? {
      FailuresAreBounded(holds, start, r.polls);
    } else {
      FailuresAreBounded(holds, start, POLLS_IN_WAIT);
    }
  }
}
