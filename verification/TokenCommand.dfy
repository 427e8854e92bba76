/** The command that hands a CLI its tokens: an argv held as one string, joined by NULs. */
module TokenCommand {
  import opened Basics

  const NUL := 0 as char

  datatype TokenCommand = TokenCommand(joined: string) {
    predicate IsZero() { joined == "" }

    /** The program and its arguments; none for the zero command. */
    function Argv(): seq<string> { if joined == "" then [] else Split(joined, NUL) }
  }

  function Join(argv: seq<string>): string {
    if argv == [] then ""
    else if |argv| == 1 then argv[0]
    else argv[0] + [NUL] + Join(argv[1..])
  }

  function New(argv: seq<string>): TokenCommand { TokenCommand(Join(argv)) }

  predicate NoNul(argv: seq<string>) { forall i :: 0 <= i < |argv| ==> NUL !in argv[i] }

  /** The argvs a config file may set: none at all, or a program with arguments no NUL splits. */
  predicate Accepted(argv: seq<string>) { (argv != [] ==> argv[0] != "") && NoNul(argv) }

  lemma {:induction false} JoinThenSplit(argv: seq<string>)
    requires argv != [] && NoNul(argv)
    ensures Split(Join(argv), NUL) == argv
    decreases |argv|
  {
    if |argv| == 1 {
      OnlyPiece(argv[0], NUL);
    } else {
      JoinThenSplit(argv[1..]);
      FirstPiece(argv[0], NUL, Join(argv[1..]));
    }
  }

  lemma {:induction false} PiecesHoldNoSeparator(s: string, sep: char)
    ensures forall i :: 0 <= i < |Split(s, sep)| ==> sep !in Split(s, sep)[i]
    decreases |s|
  {
    var n := Index(s, sep);
    assert sep !in s[..n];
    if n < |s| {
      PiecesHoldNoSeparator(s[n + 1..], sep);
    }
  }

  lemma {:induction false} SplitThenJoin(s: string)
    ensures Join(Split(s, NUL)) == s
    decreases |s|
  {
    var n := Index(s, NUL);
    if n < |s| {
      SplitThenJoin(s[n + 1..]);
      assert Split(s, NUL)[1..] == Split(s[n + 1..], NUL);
      assert s == s[..n] + [NUL] + s[n + 1..];
    }
  }

  lemma JoinIsEmpty(argv: seq<string>)
    ensures Join(argv) == "" <==> argv == [] || argv == [""]
  {
  }

  /** An argv comes back as it was exactly when no argument holds a NUL and it is not one empty word. */
  lemma ArgvRoundTrip(argv: seq<string>)
    ensures New(argv).Argv() == argv <==> NoNul(argv) && argv != [""]
  {
    JoinIsEmpty(argv);
    PiecesHoldNoSeparator(Join(argv), NUL);
    if argv != [] && NoNul(argv) {
      JoinThenSplit(argv);
    }
  }

  /** Commands are equal exactly when their argvs are. */
  lemma EqualWhenArgvsAre(c: TokenCommand, c': TokenCommand)
    ensures c == c' <==> c.Argv() == c'.Argv()
  {
    SplitThenJoin(c.joined);
    SplitThenJoin(c'.joined);
  }

  /** Among argvs a config file may set, holding one joined loses nothing, and the zero command is the one never set. */
  lemma AcceptedArgvs(a: seq<string>, b: seq<string>)
    requires Accepted(a) && Accepted(b)
    ensures New(a).Argv() == a
    ensures New(a) == New(b) <==> a == b
    ensures New(a).IsZero() <==> a == []
  {
    ArgvRoundTrip(a);
    ArgvRoundTrip(b);
    JoinIsEmpty(a);
  }
}
