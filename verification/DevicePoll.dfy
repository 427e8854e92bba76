/**
 Polling for a device grant's approval (RFC 8628): x/oauth2's loop, fed by a
 transport that rewrites any answer asking the client to wait into slow_down.
 Answers take no time; times are whole seconds since polling began.
 */
module DevicePoll {
  import opened Basics

  /** What x/oauth2 reads in a body. An absent error is "", an absent token is none. */
  datatype Read = Read(error: string, token: Option<string>)

  /**
   A body that can be read has two readings, which nothing ties together. errorMember is
   what decoding it as JSON finds under "error", whatever its content type, or none
   where that fails. read is what x/oauth2 makes of it, as a form or as JSON by its
   content type, or none.
   */
  datatype Body = Unreadable | Body(errorMember: Option<string>, read: Option<Read>)

  /** What comes back for one request. A redirect is followed, and next is what its request comes to. */
  datatype Reply = TransportError | Reply(status: int, body: Body) | Redirected(body: Body, next: Reply)

  const PENDING := "authorization_pending"
  const SLOW_DOWN := "slow_down"
  const TEMPORARILY_UNAVAILABLE := "temporarily_unavailable"

  const SlowDown := Reply(400, Body(Some(SLOW_DOWN), Some(Read(SLOW_DOWN, None))))

  // --- one answer ---

  /** backOffAsSlowDown's rewriting of one answer. It sees a redirect, whose status is past 2xx, before the client follows it. */
  function RoundTrip(r: Reply): Reply {
    if r.TransportError? || (r.Reply? && r.status < 300) then r
    else if r.Reply? && r.status == 429 then SlowDown
    else if r.body.Unreadable? then TransportError
    else if r.body.errorMember == Some(TEMPORARILY_UNAVAILABLE) then SlowDown
    else r
  }

  /** The answer the client ends with, through the rewriting. */
  function Answered(r: Reply): Reply {
    var r' := RoundTrip(r);
    if r'.Redirected? && r.Redirected? then Answered(r.next) else r'
  }

  /** The answer it would end with otherwise. */
  function Plain(r: Reply): Reply { if r.Redirected? then Plain(r.next) else r }

  datatype Verdict = Approved(token: string) | Again | Slower | Ended

  /** What the loop makes of an answer. An error code counts whatever the status. */
  function Judge(r: Reply): Verdict {
    if !r.Reply? || r.body.Unreadable? || r.body.read.None? then Ended
    else
      var read := r.body.read.value;
      if r.status < 200 || r.status > 299 || read.error != "" then
        if read.error == SLOW_DOWN then Slower else if read.error == PENDING then Again else Ended
      else if read.token.Some? && read.token.value != "" then Approved(read.token.value)
      else Ended
  }

  /** x/oauth2 reads this error code in the answer. */
  predicate Says(r: Reply, code: string) {
    r.Reply? && r.body.Body? && r.body.read.Some? && r.body.read.value.error == code
  }

  /** Decoded as JSON, the body gives this error code, whatever x/oauth2 reads in it. */
  predicate SaysInJson(r: Reply, code: string) { r.Reply? && r.body.Body? && r.body.errorMember == Some(code) }

  /** A 429, slow_down as x/oauth2 reads it, or temporarily_unavailable in JSON with a status past 2xx, at the end or on the way. */
  predicate AsksToWait(r: Reply) {
    match r
    case TransportError => false
    case Reply(status, body) =>
      status == 429 || (status >= 300 && SaysInJson(r, TEMPORARILY_UNAVAILABLE)) || Says(r, SLOW_DOWN)
    case Redirected(body, next) =>
      body.Body? && (body.errorMember == Some(TEMPORARILY_UNAVAILABLE) || AsksToWait(next))
  }

  /** Every redirect on the way has a body that can be read and asks for no wait. */
  predicate PassesThrough(r: Reply) {
    r.Redirected? ==> r.body.Body? && r.body.errorMember != Some(TEMPORARILY_UNAVAILABLE) && PassesThrough(r.next)
  }

  /** Every redirect has a body that can be read, up to one that asks for a wait. */
  predicate Readable(r: Reply) {
    r.Redirected? ==> r.body.Body? && (r.body.errorMember == Some(TEMPORARILY_UNAVAILABLE) || Readable(r.next))
  }

  /** An answer at the end of the redirects that approves: a status in the 200s, a body x/oauth2 can read, no error code, and this token. */
  predicate Gives(r: Reply, token: string) {
    && r.Reply? && 200 <= r.status <= 299 && r.body.Body? && r.body.read.Some?
    && r.body.read.value.error == "" && r.body.read.value.token == Some(token) && token != ""
  }

  /** The answer it comes to gives this token, and no redirect on the way is mistaken for a wait. */
  predicate Approves(r: Reply, token: string) { PassesThrough(r) && Gives(Plain(r), token) }

  /** The answer lets polling go on. */
  predicate Continues(r: Reply) { AsksToWait(r) || (PassesThrough(r) && Says(Plain(r), PENDING)) }

  lemma CodesDiffer()
    ensures PENDING != SLOW_DOWN && PENDING != TEMPORARILY_UNAVAILABLE && SLOW_DOWN != TEMPORARILY_UNAVAILABLE
    ensures PENDING != "" && SLOW_DOWN != ""
  {
    assert PENDING[0] == 'a' && SLOW_DOWN[0] == 's' && TEMPORARILY_UNAVAILABLE[0] == 't';
  }

  /** x/oauth2 slows down or polls again on those two codes, whatever the status, and takes only an answer that gives a token. */
  lemma JudgesExactly(r: Reply, token: string)
    ensures Judge(r).Slower? <==> Says(r, SLOW_DOWN)
    ensures Judge(r).Again? <==> Says(r, PENDING)
    ensures Judge(r) == Approved(token) <==> Gives(r, token)
  {
    CodesDiffer();
  }

  /** Polling slows exactly on an answer that asks to wait, and is pending or approved exactly as it would be without the rewriting where no redirect stands in the way. */
  lemma {:induction false} ContinuesExactly(r: Reply, token: string)
    ensures Judge(Answered(r)).Slower? <==> AsksToWait(r)
    ensures Judge(Answered(r)).Again? <==> PassesThrough(r) && Says(Plain(r), PENDING) && !AsksToWait(r)
    ensures Judge(Answered(r)) == Approved(token) <==> Approves(r, token)
  {
    CodesDiffer();
    if r.Redirected? {
      ContinuesExactly(r.next, token);
    }
  }

  /**
   The rewriting ends a poll that would have gone on exactly where a redirect's body
   cannot be read, and keeps going exactly the ended ones that ask to wait some other way.
   */
  lemma {:induction false} RewritingSaves(r: Reply)
    ensures Says(Plain(r), PENDING) || Says(Plain(r), SLOW_DOWN) ==> (Continues(r) <==> Readable(r))
    ensures !Says(Plain(r), PENDING) && !Says(Plain(r), SLOW_DOWN) ==> (Continues(r) <==> AsksToWait(r))
  {
    CodesDiffer();
    if r.Redirected? {
      RewritingSaves(r.next);
    }
  }

  // --- a whole poll ---

  datatype Outcome = Granted(token: string) | Refused | Expired | Waiting

  /** The interval x/oauth2 starts from: the provider's, or five seconds where it names none. */
  function Base(interval: nat): nat { if interval == 0 then 5 else interval }

  predicate Passed(deadline: Option<nat>, t: nat) { deadline.Some? && deadline.value <= t }

  /** These polls, then the rest of a poll. */
  function Then(times: seq<nat>, rest: (seq<nat>, Outcome)): (seq<nat>, Outcome) { (times + rest.0, rest.1) }

  /** When each poll is made, and what becomes of them, over the answers that would be given. */
  function Polling(interval: nat, now: nat, deadline: Option<nat>, replies: seq<Reply>): (seq<nat>, Outcome)
    decreases |replies|
  {
    var t := now + interval;
    if Passed(deadline, t) then ([], Expired)
    else if replies == [] then ([], Waiting)
    else
      match Judge(Answered(replies[0]))
      case Approved(token) => ([t], Granted(token))
      case Ended => ([t], Refused)
      case Slower => Then([t], Polling(interval + 5, t, deadline, replies[1..]))
      case Again => Then([t], Polling(interval, t, deadline, replies[1..]))
  }

  lemma ThenThen(times: seq<nat>, t: nat, rest: (seq<nat>, Outcome))
    ensures Then(times, Then([t], rest)) == Then(times + [t], rest)
    ensures Then(times, ([], rest.1)) == (times, rest.1)
    ensures Then([], rest) == rest
  {
    assert times + ([t] + rest.0) == times + [t] + rest.0;
    assert times + [] == times && [] + rest.0 == rest.0;
  }

  /** Polling on from answer i. */
  lemma PollingFrom(interval: nat, now: nat, deadline: Option<nat>, replies: seq<Reply>, i: nat)
    requires i < |replies| && !Passed(deadline, now + interval)
    ensures var t, rest := now + interval, replies[i + 1..];
            Polling(interval, now, deadline, replies[i..]) ==
            match Judge(Answered(replies[i]))
            case Approved(token) => ([t], Granted(token))
            case Ended => ([t], Refused)
            case Slower => Then([t], Polling(interval + 5, t, deadline, rest))
            case Again => Then([t], Polling(interval, t, deadline, rest))
  {
    assert replies[i..][0] == replies[i] && replies[i..][1..] == replies[i + 1..];
  }

  method PollForApproval(given: nat, deadline: Option<nat>, replies: seq<Reply>) returns (times: seq<nat>, outcome: Outcome)
    ensures (times, outcome) == Polling(Base(given), 0, deadline, replies)
  {
    var interval := given;
    if interval == 0 {
      interval := 5;
    }
    var now, i := 0, 0;
    times := [];
    ghost var whole := Polling(interval, 0, deadline, replies);
    ThenThen([], now, whole);
    assert replies[i..] == replies;
    while i < |replies|
      invariant i <= |replies|
      invariant whole == Then(times, Polling(interval, now, deadline, replies[i..]))
    {
      if Passed(deadline, now + interval) {
        ThenThen(times, now, ([], Expired));
        return times, Expired;
      }
      PollingFrom(interval, now, deadline, replies, i);
      now := now + interval;
      match Judge(Answered(replies[i])) {
        case Approved(token) => return times + [now], Granted(token);
        case Ended => return times + [now], Refused;
        case Slower =>
          ThenThen(times, now, Polling(interval + 5, now, deadline, replies[i + 1..]));
          interval := interval + 5;
        case Again =>
          ThenThen(times, now, Polling(interval, now, deadline, replies[i + 1..]));
      }
      times, i := times + [now], i + 1;
    }
    outcome := if Passed(deadline, now + interval) then Expired else Waiting;
    ThenThen(times, now, ([], outcome));
  }

  /** How many of these answers asked to wait. */
  function Waits(replies: seq<Reply>): (n: nat)
    ensures n <= |replies|
  {
    if replies == [] then 0 else (if AsksToWait(replies[0]) then 1 else 0) + Waits(replies[1..])
  }

  /** The time of poll n, counted from 0, if every answer before it lets polling continue. */
  function TimeOf(interval: nat, now: nat, replies: seq<Reply>, n: nat): nat
    requires n <= |replies|
  {
    if n == 0 then now + interval
    else TimeOf(interval, now, replies, n - 1) + interval + 5 * Waits(replies[..n])
  }

  predicate AllContinue(replies: seq<Reply>) { forall k :: 0 <= k < |replies| ==> Continues(replies[k]) }

  /** The interval after one answer that continues. */
  function Next(interval: nat, r: Reply): nat { if AsksToWait(r) then interval + 5 else interval }

  lemma {:induction false} TimeOfTail(interval: nat, now: nat, replies: seq<Reply>, n: nat)
    requires 0 < n <= |replies|
    ensures TimeOf(interval, now, replies, n) == TimeOf(Next(interval, replies[0]), now + interval, replies[1..], n - 1)
  {
    assert replies[..n][1..] == replies[1..][..n - 1];
    if n > 1 {
      TimeOfTail(interval, now, replies, n - 1);
    } else {
      assert replies[1..][..0] == [];
    }
  }

  lemma OneMore(interval: nat, now: nat, deadline: Option<nat>, replies: seq<Reply>)
    requires replies != [] && !Passed(deadline, now + interval) && Continues(replies[0])
    ensures Polling(interval, now, deadline, replies)
         == Then([now + interval], Polling(Next(interval, replies[0]), now + interval, deadline, replies[1..]))
  {
    ContinuesExactly(replies[0], "");
  }

  /** Every poll is made when TimeOf says, before the deadline, and after answers that all continue. */
  lemma {:induction false} PollTimes(interval: nat, now: nat, deadline: Option<nat>, replies: seq<Reply>, n: nat)
    requires n < |Polling(interval, now, deadline, replies).0|
    ensures n < |replies| && AllContinue(replies[..n])
    ensures Polling(interval, now, deadline, replies).0[n] == TimeOf(interval, now, replies, n)
    ensures !Passed(deadline, TimeOf(interval, now, replies, n))
    decreases |replies|
  {
    if n > 0 {
      ContinuesExactly(replies[0], "");
      OneMore(interval, now, deadline, replies);
      PollTimes(Next(interval, replies[0]), now + interval, deadline, replies[1..], n - 1);
      TimeOfTail(interval, now, replies, n);
      assert replies[..n] == [replies[0]] + replies[1..][..n - 1];
    }
  }

  /** Any answer reached by answers that continue, before the deadline, is asked for, and the poll goes on as from there. */
  lemma {:induction false} PollReaches(interval: nat, now: nat, deadline: Option<nat>, replies: seq<Reply>, n: nat)
    requires n < |replies| && AllContinue(replies[..n]) && !Passed(deadline, TimeOf(interval, now, replies, n))
    ensures n < |Polling(interval, now, deadline, replies).0|
    ensures forall token :: Approves(replies[n], token) ==> Polling(interval, now, deadline, replies).1 == Granted(token)
    decreases |replies|
  {
    if n > 0 {
      assert replies[..n][0] == replies[0];
      TimesGrow(interval, now, replies, n);
      OneMore(interval, now, deadline, replies);
      TimeOfTail(interval, now, replies, n);
      assert replies[1..][..n - 1] == replies[..n][1..];
      PollReaches(Next(interval, replies[0]), now + interval, deadline, replies[1..], n - 1);
    } else {
      forall token | Approves(replies[0], token) ensures Polling(interval, now, deadline, replies).1 == Granted(token) {
        ContinuesExactly(replies[0], token);
      }
    }
  }

  lemma {:induction false} TimesGrow(interval: nat, now: nat, replies: seq<Reply>, n: nat)
    requires n <= |replies|
    ensures TimeOf(interval, now, replies, n) >= now + interval
  {
    if n > 0 {
      TimesGrow(interval, now, replies, n - 1);
    }
  }

  /** An answer that neither lets polling go on nor gives a token. */
  ghost predicate Refuses(r: Reply) { !Continues(r) && forall token :: !Approves(r, token) }

  /** What n polls come to: the last answer, or the deadline, or nothing more to answer. */
  ghost predicate EndsFor(interval: nat, now: nat, deadline: Option<nat>, replies: seq<Reply>, n: nat, outcome: Outcome) {
    && n <= |replies|
    && match outcome
       case Granted(token) => n > 0 && AllContinue(replies[..n - 1]) && Approves(replies[n - 1], token)
       case Refused => n > 0 && AllContinue(replies[..n - 1]) && Refuses(replies[n - 1])
       case Expired => AllContinue(replies[..n]) && Passed(deadline, TimeOf(interval, now, replies, n))
       case Waiting => n == |replies| && AllContinue(replies) && !Passed(deadline, TimeOf(interval, now, replies, n))
  }

  lemma JudgedLast(r: Reply)
    ensures Judge(Answered(r)).Ended? ==> Refuses(r)
    ensures Judge(Answered(r)).Approved? ==> Approves(r, Judge(Answered(r)).token)
    ensures Continues(r) <==> Judge(Answered(r)).Again? || Judge(Answered(r)).Slower?
  {
    ContinuesExactly(r, "");
    forall token ensures Approves(r, token) <==> Judge(Answered(r)) == Approved(token) {
      ContinuesExactly(r, token);
    }
  }

  lemma OneMoreEnds(interval: nat, now: nat, deadline: Option<nat>, replies: seq<Reply>, n: nat, outcome: Outcome)
    requires replies != [] && Continues(replies[0])
    requires EndsFor(Next(interval, replies[0]), now + interval, deadline, replies[1..], n, outcome)
    ensures EndsFor(interval, now, deadline, replies, n + 1, outcome)
  {
    TimeOfTail(interval, now, replies, n + 1);
    assert replies[..n + 1] == [replies[0]] + replies[1..][..n];
    assert n > 0 ==> replies[..n] == [replies[0]] + replies[1..][..n - 1];
    assert replies == [replies[0]] + replies[1..];
  }

  /**
   Every poll ends for one reason. Granted and refused answers are the last ones asked
   for, after answers that all let it go on; an expired poll's next one would be due at
   the deadline or later, and a poll still waiting has had every answer there is.
   */
  lemma {:induction false} PollEndsFor(interval: nat, now: nat, deadline: Option<nat>, replies: seq<Reply>)
    ensures var (times, outcome) := Polling(interval, now, deadline, replies);
            EndsFor(interval, now, deadline, replies, |times|, outcome)
    decreases |replies|
  {
    if !Passed(deadline, now + interval) && replies != [] {
      JudgedLast(replies[0]);
      if Continues(replies[0]) {
        OneMore(interval, now, deadline, replies);
        PollEndsFor(Next(interval, replies[0]), now + interval, deadline, replies[1..]);
        var (times, outcome) := Polling(Next(interval, replies[0]), now + interval, deadline, replies[1..]);
        OneMoreEnds(interval, now, deadline, replies, |times|, outcome);
      }
    }
  }

  /** Answer n approves, is due before the deadline, and every answer before it continues. */
  predicate ApprovesInTime(given: nat, deadline: Option<nat>, replies: seq<Reply>, n: nat, token: string) {
    && n < |replies| && AllContinue(replies[..n])
    && !Passed(deadline, TimeOf(Base(given), 0, replies, n))
    && Approves(replies[n], token)
  }

  /** A login is granted a token exactly when some answer approves it in time and only answers that let it wait come before. */
  lemma GrantedExactlyWhen(given: nat, deadline: Option<nat>, replies: seq<Reply>, token: string)
    ensures Polling(Base(given), 0, deadline, replies).1 == Granted(token)
       <==> exists n: nat :: ApprovesInTime(given, deadline, replies, n, token)
  {
    if Polling(Base(given), 0, deadline, replies).1 == Granted(token) {
      PollEndsFor(Base(given), 0, deadline, replies);
      var n := |Polling(Base(given), 0, deadline, replies).0| - 1;
      PollTimes(Base(given), 0, deadline, replies, n);
      assert ApprovesInTime(given, deadline, replies, n, token);
    }
    if n: nat :| ApprovesInTime(given, deadline, replies, n, token) {
      PollReaches(Base(given), 0, deadline, replies, n);
    }
  }

  /** Each gap is the base interval and five seconds for every answer so far that asked to wait. */
  lemma GapsGrow(given: nat, deadline: Option<nat>, replies: seq<Reply>, n: nat)
    requires 0 < n < |Polling(Base(given), 0, deadline, replies).0|
    ensures n < |replies|
    ensures var times := Polling(Base(given), 0, deadline, replies).0;
            times[n] == times[n - 1] + Base(given) + 5 * Waits(replies[..n])
  {
    PollTimes(Base(given), 0, deadline, replies, n);
    PollTimes(Base(given), 0, deadline, replies, n - 1);
  }

  lemma {:induction false} AllWait(replies: seq<Reply>)
    requires forall k :: 0 <= k < |replies| ==> AsksToWait(replies[k])
    ensures Waits(replies) == |replies|
  {
    if replies != [] {
      AllWait(replies[1..]);
    }
  }

  lemma NextTriangle(b: nat, n: nat)
    requires n > 0
    ensures 2 * n * b + 5 * (n - 1) * n + 2 * b + 10 * n == 2 * (n + 1) * b + 5 * n * (n + 1)
  {
    assert 5 * (n - 1) * n + 10 * n == 5 * n * (n + 1);
    assert 2 * n * b + 2 * b == 2 * (n + 1) * b;
  }

  lemma {:induction false} TimeAfterWaits(interval: nat, replies: seq<Reply>, n: nat)
    requires n <= |replies| && forall k :: 0 <= k < n ==> AsksToWait(replies[k])
    ensures 2 * TimeOf(interval, 0, replies, n) == 2 * (n + 1) * interval + 5 * n * (n + 1)
  {
    if n > 0 {
      TimeAfterWaits(interval, replies, n - 1);
      AllWait(replies[..n]);
      assert TimeOf(interval, 0, replies, n) == TimeOf(interval, 0, replies, n - 1) + interval + 5 * n;
      NextTriangle(interval, n);
    }
  }

  /** After n answers in a row that ask to wait, poll n + 1 is made at (n + 1) * base + 5 * n * (n + 1) / 2 seconds. */
  lemma ConsecutiveWaits(given: nat, deadline: Option<nat>, replies: seq<Reply>, n: nat)
    requires n < |Polling(Base(given), 0, deadline, replies).0|
    requires forall k :: 0 <= k < n && k < |replies| ==> AsksToWait(replies[k])
    ensures 2 * Polling(Base(given), 0, deadline, replies).0[n] == 2 * (n + 1) * Base(given) + 5 * n * (n + 1)
  {
    PollTimes(Base(given), 0, deadline, replies, n);
    TimeAfterWaits(Base(given), replies, n);
  }
}
