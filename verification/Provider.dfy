/**
 The rotating provider of RFC 9700, section 4.14.2: a refresh consumes the token
 presented and issues a new one, and presenting a consumed token revokes the grant.
 */
module Provider {
  import opened Basics

  datatype Grant = Grant(
    current: string, consumed: set<string>, revoked: bool, refreshes: nat, replays: nat)

  datatype Answer = Granted(access: string, refresh: string) | Denied

  function RefreshName(n: nat): string { "rt-" + Decimal(n) }
  function AccessName(n: nat): string { "at-" + Decimal(n) }

  lemma RefreshNamesDiffer(m: nat, n: nat)
    requires m != n
    ensures RefreshName(m) != RefreshName(n)
  {
    if RefreshName(m) == RefreshName(n) {
      assert RefreshName(m)[3..] == Decimal(m) && RefreshName(n)[3..] == Decimal(n);
      DecimalInjective(m, n);
    }
  }

  /** The grant after one refresh request, and the answer to it. */
  function Present(g: Grant, presented: string): (Grant, Answer) {
    if g.revoked then (g, Denied)
    else if presented in g.consumed then (g.(replays := g.replays + 1, revoked := true), Denied)
    else if presented != g.current then (g, Denied)
    else
      var n := g.refreshes + 1;
      (g.(refreshes := n, consumed := g.consumed + {presented}, current := RefreshName(n)),
       Granted(AccessName(n), RefreshName(n)))
  }

  /** A request is granted exactly for the current token of a grant that stands, and a token that was never issued changes nothing. */
  lemma GrantedExactlyWhen(g: Grant, presented: string)
    ensures Present(g, presented).1.Granted? <==> !g.revoked && presented !in g.consumed && presented == g.current
    ensures presented != g.current && presented !in g.consumed ==> Present(g, presented) == (g, Denied)
    ensures Present(g, presented).1.Granted? <==> Present(g, presented).0.refreshes == g.refreshes + 1
    ensures Present(g, presented).0.refreshes <= g.refreshes + 1
  {
  }

  /** A refresh token the provider has yet to issue. */
  ghost predicate Unissued(g: Grant, t: string) {
    exists k: nat :: k > g.refreshes && t == RefreshName(k)
  }

  /** A grant no replay has touched, whose next tokens are all new. */
  ghost predicate Sound(g: Grant) {
    && !g.revoked && g.replays == 0
    && g.current !in g.consumed
    && !Unissued(g, g.current)
    && (forall t :: t in g.consumed ==> !Unissued(g, t))
  }

  /** The current token is granted, and the grant stays sound with one more refresh. */
  lemma PresentingCurrentIsGranted(g: Grant)
    requires Sound(g)
    ensures var (g', a) := Present(g, g.current);
            && Sound(g') && a.Granted?
            && a.refresh == g'.current == RefreshName(g.refreshes + 1)
            && a.access == AccessName(g.refreshes + 1)
            && g'.refreshes == g.refreshes + 1
            && g'.consumed == g.consumed + {g.current}
  {
    var (g', a) := Present(g, g.current);
    var next := RefreshName(g.refreshes + 1);
    assert Unissued(g, next);
    assert next !in g'.consumed;
    forall t | t in g'.consumed ensures !Unissued(g', t) {
      if Unissued(g', t) {
        var k: nat :| k > g'.refreshes && t == RefreshName(k);
        assert Unissued(g, t);
      }
    }
    if Unissued(g', next) {
      var k: nat :| k > g'.refreshes && next == RefreshName(k);
      RefreshNamesDiffer(g.refreshes + 1, k);
    }
  }

  /** The provider's answers to a sequence of requests, in the order it handles them. */
  function PresentAll(g: Grant, requests: seq<string>): (Grant, seq<Answer>)
    decreases |requests|
  {
    if requests == [] then (g, [])
    else
      var (g', a) := Present(g, requests[0]);
      var (end, rest) := PresentAll(g', requests[1..]);
      (end, [a] + rest)
  }

  lemma {:induction false} RevokedDeniesAll(g: Grant, requests: seq<string>)
    requires g.revoked
    ensures var (end, answers) := PresentAll(g, requests);
            end == g && |answers| == |requests| && forall i :: 0 <= i < |answers| ==> answers[i].Denied?
  {
    if requests != [] {
      RevokedDeniesAll(g, requests[1..]);
    }
  }

  /**
   The unlocked race: N >= 2 requests present the same live token. Whichever the
   provider handles first wins, exactly one of the others is recorded as a replay,
   the grant ends revoked, and even the winner's new token is then refused.
   */
  lemma UnlockedRaceRevokes(g: Grant, requests: seq<string>)
    requires Sound(g) && |requests| >= 2
    requires forall i :: 0 <= i < |requests| ==> requests[i] == g.current
    ensures var (end, answers) := PresentAll(g, requests);
            && |answers| == |requests|
            && answers[0] == Granted(AccessName(g.refreshes + 1), RefreshName(g.refreshes + 1))
            && (forall i :: 1 <= i < |answers| ==> answers[i].Denied?)
            && end.refreshes == g.refreshes + 1 && end.replays == 1 && end.revoked
            && Present(end, answers[0].refresh) == (end, Denied)
  {
    PresentingCurrentIsGranted(g);
    var (won, first) := Present(g, requests[0]);
    var (lost, second) := Present(won, requests[1..][0]);
    RevokedDeniesAll(lost, requests[1..][1..]);
    var (end, rest) := PresentAll(lost, requests[1..][1..]);
    assert PresentAll(won, requests[1..]) == (end, [second] + rest);
    assert PresentAll(g, requests) == (end, [first] + ([second] + rest));
  }

  /** Some request presents a token that an earlier one consumed. */
  ghost predicate Replays(g: Grant, requests: seq<string>)
    decreases |requests|
  {
    requests != [] && (requests[0] in g.consumed || Replays(Present(g, requests[0]).0, requests[1..]))
  }

  /** Revocation has one cause: over any requests at all, the grant ends revoked exactly when a consumed token was presented. */
  lemma {:induction false} RevokedIffReplayed(g: Grant, requests: seq<string>)
    requires !g.revoked
    ensures PresentAll(g, requests).0.revoked <==> Replays(g, requests)
    ensures PresentAll(g, requests).0.replays == g.replays + if Replays(g, requests) then 1 else 0
    decreases |requests|
  {
    if requests != [] {
      var g' := Present(g, requests[0]).0;
      if requests[0] in g.consumed {
        RevokedDeniesAll(g', requests[1..]);
      } else {
        RevokedIffReplayed(g', requests[1..]);
      }
    }
  }

  /** The provider as the server that runs it: one object updated on every request. */
  class RotatingIDP {
    var current: string
    var consumed: set<string>
    var revoked: bool
    var refreshes: nat
    var replays: nat

    function State(): Grant reads this { Grant(current, consumed, revoked, refreshes, replays) }

    constructor (initial: string)
      ensures State() == Grant(initial, {}, false, 0, 0)
    {
      current, consumed, revoked, refreshes, replays := initial, {}, false, 0, 0;
    }

    method Token(presented: string) returns (answer: Answer)
      modifies this
      ensures (State(), answer) == Present(old(State()), presented)
    {
      if revoked {
        return Denied;
      }
      if presented in consumed {
        replays := replays + 1;
        revoked := true;
        return Denied;
      }
      if presented != current {
        return Denied;
      }
      refreshes := refreshes + 1;
      consumed := consumed + {presented};
      current := RefreshName(refreshes);
      answer := Granted(AccessName(refreshes), current);
    }
  }
}
