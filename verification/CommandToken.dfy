/**
 Tokens handed over by a command: what is accepted from it, when its token is reused,
 and the int64 nanosecond arithmetic its lifetime goes through.
 */
module CommandToken {
  import opened Basics
  import opened Tokens

  const TWO63 := 0x8000_0000_0000_0000

  type Int64 = x: int | -0x8000_0000_0000_0000 <= x < 0x8000_0000_0000_0000

  /** x as two's complement keeps it in 64 bits. */
  function Wrap(x: int): Int64 { (x + 0x8000_0000_0000_0000) % 0x1_0000_0000_0000_0000 - 0x8000_0000_0000_0000 }

  /** What a run of the command comes to. A field it does not print is "" or 0. */
  datatype Output = Failed | Undecodable | Printed(accessToken: string, tokenType: string, expiresIn: Int64)

  datatype Refusal = CommandFailed | NotATokenResponse | NoAccessToken | NotBearer(tokenType: string) | NegativeLifetime(expiresIn: Int64)

  /** The lifetime as a Duration: seconds times a billion, in 64 bits. */
  function Lifetime(expiresIn: Int64): Int64 { Wrap(expiresIn * 1_000_000_000) }

  function Issue(started: Time, out: Output): Result<OAuthToken, Refusal> {
    match out
    case Failed => Err(CommandFailed)
    case Undecodable => Err(NotATokenResponse)
    case Printed(accessToken, tokenType, expiresIn) =>
      if accessToken == "" then Err(NoAccessToken)
      else if tokenType != "" && Lower(tokenType) != "bearer" then Err(NotBearer(tokenType))
      else if expiresIn < 0 then Err(NegativeLifetime(expiresIn))
      else Ok(OAuthToken(accessToken, "", "Bearer", if expiresIn > 0 then started + Lifetime(expiresIn) else 0, map[]))
  }

  /** A run that handed a token: an access token, a type that is bearer in any case or not named, and no negative lifetime. */
  predicate Acceptable(out: Output) {
    out.Printed? && out.accessToken != "" && (out.tokenType == "" || Lower(out.tokenType) == "bearer") && out.expiresIn >= 0
  }

  /** What is the matter with a run. The first of these counts where several hold. */
  predicate RefusedAs(e: Refusal, out: Output) {
    match e
    case CommandFailed => out.Failed?
    case NotATokenResponse => out.Undecodable?
    case NoAccessToken => out.Printed? && out.accessToken == ""
    case NotBearer(named) =>
      out.Printed? && out.accessToken != "" && named == out.tokenType != "" && Lower(named) != "bearer"
    case NegativeLifetime(expiresIn) =>
      && out.Printed? && out.accessToken != "" && (out.tokenType == "" || Lower(out.tokenType) == "bearer")
      && expiresIn == out.expiresIn < 0
  }

  /** What was printed, as a bearer token that no refresh renews and that expires only if a lifetime was printed. */
  predicate AsPrinted(t: OAuthToken, out: Output) {
    && out.Printed? && t.accessToken == out.accessToken && t.refreshToken == "" && t.tokenType == "Bearer"
    && t.extra == map[] && (t.expiry == 0 <==> out.expiresIn == 0)
  }

  /** A run is accepted exactly when it printed what it must, and refused for what it did not. */
  lemma AcceptsExactly(started: Time, out: Output)
    ensures Issue(started, out).Ok? <==> Acceptable(out)
    ensures Issue(started, out).Err? ==> RefusedAs(Issue(started, out).error, out)
    ensures Issue(started, out).Ok? && started > TWO63 ==> AsPrinted(Issue(started, out).value, out)
  {
  }

  predicate Usable(t: OAuthToken, now: Time) { Valid(FromOAuth2(t), now) }

  // --- the arithmetic of one lifetime ---

  /** 64 bits keep x but for whole multiples of two to the 64. */
  lemma WrapIsCongruent(x: int) returns (k: int)
    ensures Wrap(x) == x + k * 0x1_0000_0000_0000_0000
  {
    k := -((x + TWO63) / 0x1_0000_0000_0000_0000);
  }

  lemma WrapsDown(x: int)
    requires x >= 0
    ensures Wrap(x) <= x
    ensures Wrap(x) == x <==> x < TWO63
  {
    if x < TWO63 {
      assert (x + TWO63) % 0x1_0000_0000_0000_0000 == x + TWO63;
    }
  }

  /** An expiry is never later than the command promised, and is the promised one exactly up to 9223372036 seconds. */
  lemma ExpiryExactlyWhen(started: Time, out: Output)
    requires Issue(started, out).Ok? && out.expiresIn > 0
    ensures var expiry := Issue(started, out).value.expiry;
            && started - TWO63 <= expiry <= started + out.expiresIn * SECOND
            && (expiry == started + out.expiresIn * SECOND <==> out.expiresIn <= 9223372036)
  {
    WrapsDown(out.expiresIn * 1_000_000_000);
  }

  /** One second more than fits wraps to an expiry long past, so such a token is never reused. */
  lemma OneSecondTooMany(started: Time, later: Time, out: Output)
    requires Issue(started, out).Ok? && out.expiresIn == 9223372037 && TWO63 < started <= later
    ensures !Usable(Issue(started, out).value, later)
  {
    assert Lifetime(9223372037) < 0;
  }

  // --- any sequence of calls ---

  /** A call for a token: when it is made, and what the command would print if run. */
  datatype Call = Call(now: Time, output: Output)

  /** A token held for reuse. */
  type Held = Option<OAuthToken>

  predicate Reuses(held: Held, now: Time) { held.Some? && Usable(held.value, now) }

  /** One call: what is held after it, what it returns, and whether it ran the command. */
  function Serve(held: Held, c: Call): (Held, Result<OAuthToken, Refusal>, bool) {
    if Reuses(held, c.now) then (held, Ok(held.value), false)
    else
      match Issue(c.now, c.output)
      case Err(e) => (held, Err(e), true)
      case Ok(t) => (Some(t), Ok(t), true)
  }

  function HeldAfter(calls: seq<Call>, n: nat): Held
    requires n <= |calls|
  {
    if n == 0 then None else Serve(HeldAfter(calls, n - 1), calls[n - 1]).0
  }

  function Answer(calls: seq<Call>, i: nat): Result<OAuthToken, Refusal>
    requires i < |calls|
  {
    Serve(HeldAfter(calls, i), calls[i]).1
  }

  predicate Ran(calls: seq<Call>, i: nat)
    requires i < |calls|
  {
    Serve(HeldAfter(calls, i), calls[i]).2
  }

  /** A clock that never runs back, far enough from the zero time that no lifetime reaches it. */
  predicate Clock(calls: seq<Call>) {
    && (forall i :: 0 <= i < |calls| ==> calls[i].now > TWO63)
    && (forall i, j :: 0 <= i <= j < |calls| ==> calls[i].now <= calls[j].now)
  }

  /** The token held after n calls came from run j, and no later run handed another. */
  predicate CameFrom(calls: seq<Call>, n: nat, j: nat) {
    && j < n <= |calls| && Ran(calls, j)
    && HeldAfter(calls, n).Some?
    && Issue(calls[j].now, calls[j].output) == Ok(HeldAfter(calls, n).value)
    && forall k :: j < k < n && Ran(calls, k) ==> Issue(calls[k].now, calls[k].output).Err?
  }

  /** Whatever is held was handed by one of the runs so far. */
  lemma {:induction false} SomeRunHandedIt(calls: seq<Call>, n: nat) returns (j: nat)
    requires n <= |calls| && HeldAfter(calls, n).Some?
    ensures CameFrom(calls, n, j)
  {
    j := n - 1;
    if !Ran(calls, n - 1) || Issue(calls[n - 1].now, calls[n - 1].output).Err? {
      j := SomeRunHandedIt(calls, n - 1);
    }
  }

  /**
   Reuse. Every token returned was handed by a run of the command at that call or an
   earlier one, and with a positive expires_in it is returned again only while ten
   seconds are left of it, counted from when that run started, whatever 64 bits make
   of its lifetime.
   */
  lemma NeverReusedPastItsTime(calls: seq<Call>, i: nat) returns (j: nat)
    requires Clock(calls) && i < |calls| && Answer(calls, i).Ok?
    ensures j <= i && CameFrom(calls, i + 1, j) && Answer(calls, i) == Issue(calls[j].now, calls[j].output)
    ensures j < i && calls[j].output.expiresIn > 0 ==>
              calls[i].now + EARLY <= calls[j].now + calls[j].output.expiresIn * SECOND
  {
    j := SomeRunHandedIt(calls, i + 1);
    if j < i && calls[j].output.expiresIn > 0 {
      ExpiryExactlyWhen(calls[j].now, calls[j].output);
      assert !Ran(calls, i);
    }
  }

  /**
   Every token returned, reused ones too, is what the last accepted run printed, and
   every refusal is for what this call's own run printed.
   */
  lemma AnswersAreAsPrinted(calls: seq<Call>, i: nat)
    requires Clock(calls) && i < |calls|
    ensures Answer(calls, i).Ok? <==> !Ran(calls, i) || Acceptable(calls[i].output)
    ensures Answer(calls, i).Err? ==> Ran(calls, i) && RefusedAs(Answer(calls, i).error, calls[i].output)
    ensures Answer(calls, i).Ok? ==> exists j :: 0 <= j <= i && LastAccepted(calls, j, i) && AsPrinted(Answer(calls, i).value, calls[j].output)
  {
    AcceptsExactly(calls[i].now, calls[i].output);
    if Answer(calls, i).Ok? {
      var j := SomeRunHandedIt(calls, i + 1);
      AcceptsExactly(calls[j].now, calls[j].output);
      forall k | j < k <= i && Ran(calls, k) ensures !Acceptable(calls[k].output) {
        AcceptsExactly(calls[k].now, calls[k].output);
      }
      assert LastAccepted(calls, j, i);
    }
  }

  /** Call j ran the command and was accepted, and no call after it up to i was. */
  predicate LastAccepted(calls: seq<Call>, j: nat, i: nat)
    requires j <= i < |calls|
  {
    Ran(calls, j) && Acceptable(calls[j].output) && forall k :: j < k <= i && Ran(calls, k) ==> !Acceptable(calls[k].output)
  }

  /** A call runs the command exactly when nothing handed so far has ten seconds left by its computed expiry. */
  lemma RunsExactlyWhen(calls: seq<Call>, i: nat)
    requires Clock(calls) && i < |calls|
    ensures !Ran(calls, i) <==>
            exists j: nat :: CameFrom(calls, i, j) &&
              (calls[j].output.expiresIn == 0 || calls[i].now + EARLY <= calls[j].now + Lifetime(calls[j].output.expiresIn))
  {
    if HeldAfter(calls, i).Some? {
      var j := SomeRunHandedIt(calls, i);
      forall j' | CameFrom(calls, i, j') ensures j' == j {
        OneHanded(calls, i, j, j');
      }
      if calls[j].output.expiresIn > 0 {
        ExpiryExactlyWhen(calls[j].now, calls[j].output);
      }
    }
  }

  lemma OneHanded(calls: seq<Call>, n: nat, j: nat, j': nat)
    requires CameFrom(calls, n, j) && CameFrom(calls, n, j')
    ensures j == j'
  {
  }

  /** Once a token without expires_in is handed, every later call returns it and none runs the command. */
  lemma {:induction false} WithoutLifetimeRunsOnce(calls: seq<Call>, i: nat, k: nat)
    requires i < k < |calls| && Ran(calls, i) && Issue(calls[i].now, calls[i].output).Ok? && calls[i].output.expiresIn == 0
    ensures !Ran(calls, k) && Answer(calls, k) == Answer(calls, i) && HeldAfter(calls, k) == HeldAfter(calls, i + 1)
  {
    if k > i + 1 {
      WithoutLifetimeRunsOnce(calls, i, k - 1);
    }
  }

  // --- the source itself ---

  class CommandSource {
    const argv: seq<string>
    var held: Held

    constructor (argv: seq<string>)
      ensures this.argv == argv && held == None
    {
      this.argv, this.held := argv, None;
    }

    /** output is what running argv would print, read only if it is run. */
    method Token(now: Time, output: Output) returns (r: Result<OAuthToken, Refusal>, ran: bool)
      modifies this`held
      ensures (held, r, ran) == Serve(old(held), Call(now, output))
    {
      if held.Some? && Usable(held.value, now) {
        return Ok(held.value), false;
      }
      ran := true;
      if output.Failed? {
        return Err(CommandFailed), true;
      }
      if output.Undecodable? {
        return Err(NotATokenResponse), true;
      }
      if output.accessToken == "" {
        return Err(NoAccessToken), true;
      }
      if output.tokenType != "" && Lower(output.tokenType) != "bearer" {
        return Err(NotBearer(output.tokenType)), true;
      }
      if output.expiresIn < 0 {
        return Err(NegativeLifetime(output.expiresIn)), true;
      }
      var token := OAuthToken(output.accessToken, "", "Bearer", 0, map[]);
      if output.expiresIn > 0 {
        token := token.(expiry := now + Lifetime(output.expiresIn));
      }
      held := Some(token);
      r := Ok(token);
    }
  }

  method CommandTokenSource(command: seq<string>) returns (source: Option<CommandSource>)
    ensures source.None? <==> command == [] || command[0] == ""
    ensures source.Some? ==> fresh(source.value) && source.value.argv == command && source.value.held == None
  {
    if command == [] || command[0] == "" {
      return None;
    }
    var s := new CommandSource(command);
    source := Some(s);
  }
}
