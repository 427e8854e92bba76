/**
 An API's address, as it is compared and sent to: an absolute http or https URL
 without a trailing slash. What the URL parser takes is spelled out part by part,
 since what survives the trimming depends on where in the URL the slash stands.
 */
module ApiUrl {
  import opened Basics

  // --- cutting ---

  function Before(s: string, c: char): string { s[..Index(s, c)] }

  function After(s: string, c: char): string { if Index(s, c) < |s| then s[Index(s, c) + 1..] else "" }

  /** One past the last c in s, or 0. */
  function PastLast(s: string, c: char): (n: nat)
    ensures n <= |s| && (n > 0 ==> s[n - 1] == c) && forall i :: n <= i < |s| ==> s[i] != c
  {
    if s == "" then 0
    else if s[|s| - 1] == c then |s|
    else PastLast(s[..|s| - 1], c)
  }

  // --- the parts of a URL ---

  predicate Alphanumeric(c: char) { 'a' <= c <= 'z' || 'A' <= c <= 'Z' || '0' <= c <= '9' }

  predicate HexDigit(c: char) { '0' <= c <= '9' || 'a' <= c <= 'f' || 'A' <= c <= 'F' }

  /** Every percent sign starts a two-digit escape. */
  predicate EscapesOk(s: string) {
    forall i :: 0 <= i < |s| && s[i] == '%' ==> i + 2 < |s| && HexDigit(s[i + 1]) && HexDigit(s[i + 2])
  }

  predicate UserOk(s: string) {
    EscapesOk(s) && forall i :: 0 <= i < |s| ==> Alphanumeric(s[i]) || s[i] in "-._:~!$&'()*+,;=%@"
  }

  /** The ASCII characters a host may hold as they are. */
  predicate HostChar(c: char) { Alphanumeric(c) || c in "!$&'()*+,;=:[]<>\"-_.~" }

  /** In a host an escape stands for a byte outside ASCII or for a percent sign. */
  predicate HostCharsOk(s: string) {
    && EscapesOk(s)
    && (forall i :: 0 <= i < |s| && s[i] == '%' ==> s[i + 1] in "89abcdefABCDEF" || s[i..i + 3] == "%25")
    && (forall i :: 0 <= i < |s| && s[i] < 128 as char ==> HostChar(s[i]) || s[i] == '%')
  }

  predicate PortOk(s: string) {
    s == "" || (s[0] == ':' && forall i :: 1 <= i < |s| ==> '0' <= s[i] <= '9')
  }

  // --- bracketed IPv6 addresses ---

  /** The length of the longest prefix of hex digits. */
  function HexSpan(s: string): (n: nat)
    ensures n <= |s|
  {
    if s != "" && HexDigit(s[0]) then 1 + HexSpan(s[1..]) else 0
  }

  /** A decimal number up to 255, without leading zeros. */
  predicate OctetOk(s: string) {
    && 1 <= |s| <= 3 && (forall i :: 0 <= i < |s| ==> '0' <= s[i] <= '9')
    && (|s| > 1 ==> s[0] != '0')
    && (|s| == 3 ==> s[0] == '1' || (s[0] == '2' && (s[1] < '5' || (s[1] == '5' && s[2] <= '5'))))
  }

  predicate IPv4Ok(s: string) {
    var octets := Split(s, '.');
    |octets| == 4 && forall i :: 0 <= i < 4 ==> OctetOk(octets[i])
  }

  /** Eight groups, or fewer with a gap. */
  predicate EightGroups(n: nat, gap: bool) { if gap then n < 8 else n == 8 }

  /** From the start of a group on, n groups in; gap says whether the double colon has been. */
  predicate GroupsOk(s: string, n: nat, gap: bool)
    decreases |s|
  {
    var digits := HexSpan(s);
    var rest := s[digits..];
    && n < 8 && 1 <= digits <= 4
    && if rest == "" then EightGroups(n + 1, gap)
       else if rest[0] == '.' then IPv4Ok(s) && (gap || n == 6) && EightGroups(n + 2, gap)
       else
         && rest[0] == ':' && |rest| > 1
         && if rest[1] != ':' then GroupsOk(rest[1..], n + 1, gap)
            else !gap && if |rest| == 2 then EightGroups(n + 1, true) else GroupsOk(rest[2..], n + 1, true)
  }

  predicate IPv6Ok(s: string) {
    if |s| >= 2 && s[..2] == "::" then s == "::" || GroupsOk(s[2..], 0, true) else GroupsOk(s, 0, false)
  }

  /** Where an escaped percent sign starts a zone, or the end. */
  function ZoneIndex(s: string): (n: nat)
    ensures n <= |s|
    ensures n < |s| ==> n + 3 <= |s|
  {
    if |s| < 3 then |s|
    else if s[..3] == "%25" then 0
    else
      var n := ZoneIndex(s[1..]);
      n + 1
  }

  function HexDigitValue(c: char): int
    requires HexDigit(c)
  {
    if c <= '9' then c as int - '0' as int else if c <= 'F' then c as int - 'A' as int + 10 else c as int - 'a' as int + 10
  }

  /** A zone is not empty, and may escape a percent sign, a space, or what a host may hold anyway. */
  predicate ZoneOk(s: string) {
    && s != "" && EscapesOk(s)
    && (forall i :: 0 <= i < |s| && s[i] == '%' ==>
          var v := 16 * HexDigitValue(s[i + 1]) + HexDigitValue(s[i + 2]);
          v == 37 || v == 32 || (0 <= v < 128 && HostChar(v as char)))
    && (forall i :: 0 <= i < |s| && s[i] < 128 as char ==> HostChar(s[i]) || s[i] == '%')
  }

  /** What stands between the brackets: an IPv6 address, and a zone or none. */
  predicate LiteralOk(s: string) {
    var zone := ZoneIndex(s);
    IPv6Ok(s[..zone]) && (zone < |s| ==> ZoneOk(s[zone + 3..]))
  }

  /**
   A name with at most one colon, before a port, or a bracketed IPv6 address and an
   optional port. A bracket anywhere but at the start is refused.
   */
  predicate HostOk(s: string) {
    var open, close := PastLast(s, '['), PastLast(s, ']');
    if open == 0 then HostCharsOk(s) && PortOk(s[Index(s, ':')..])
    else open == 1 && close > 1 && PortOk(s[close..]) && LiteralOk(s[1..close - 1])
  }

  predicate AuthorityOk(s: string) {
    var at := PastLast(s, '@');
    s[at..] != "" && HostOk(s[at..]) && (at > 0 ==> UserOk(s[..at - 1]))
  }

  /** The length of the scheme and the two slashes after it, when they are http's or https's. */
  function Prefix(s: string): (n: nat)
    ensures n <= |s|
  {
    if |s| >= 7 && Lower(s[..7]) == "http://" then 7
    else if |s| >= 8 && Lower(s[..8]) == "https://" then 8
    else 0
  }

  predicate NoControl(s: string) { forall i :: 0 <= i < |s| ==> s[i] >= ' ' && s[i] != 127 as char }

  /** An authority and the path after it. */
  predicate PlaceOk(s: string) {
    AuthorityOk(Before(s, '/')) && EscapesOk(s[Index(s, '/')..])
  }

  /** A URL with neither query nor fragment. */
  predicate BaseOk(s: string) { Prefix(s) > 0 && PlaceOk(s[Prefix(s)..]) }

  /** A URL without a fragment. Nothing is asked of its query but that it hold no control character. */
  predicate RequestOk(s: string) { NoControl(s) && BaseOk(Before(s, '?')) }

  /** What normalizeAPI accepts. */
  predicate IsAPI(s: string) { RequestOk(Before(s, '#')) && EscapesOk(After(s, '#')) }

  function TrimSlashes(s: string): string {
    if s != "" && s[|s| - 1] == '/' then TrimSlashes(s[..|s| - 1]) else s
  }

  function NormalizeAPI(raw: string): Option<string> {
    if IsAPI(raw) then Some(TrimSlashes(raw)) else None
  }

  // --- normalizing twice ---

  lemma {:induction false} IndexTrimmed(s: string, c: char)
    requires s != "" && s[|s| - 1] != c
    ensures Index(s[..|s| - 1], c) == if Index(s, c) < |s| then Index(s, c) else |s| - 1
  {
    var t := s[..|s| - 1];
    assert forall i :: 0 <= i < |t| ==> t[i] == s[i];
  }

  lemma BeforeTrimmed(s: string, c: char)
    requires s != "" && s[|s| - 1] != c
    ensures Before(s[..|s| - 1], c) == if Index(s, c) < |s| then Before(s, c) else s[..|s| - 1]
    ensures Index(s, c) == |s| ==> Before(s, c) == s
  {
    IndexTrimmed(s, c);
  }

  lemma NothingAfter(s: string, c: char)
    requires s != "" && s[|s| - 1] != c && Index(s, c) == |s|
    ensures After(s[..|s| - 1], c) == ""
  {
    IndexTrimmed(s, c);
  }

  lemma AfterAt(s: string, c: char, n: nat)
    requires n == Index(s, c) < |s|
    ensures After(s, c) == s[n + 1..]
  {
  }

  lemma AfterTrimmed(s: string, c: char)
    requires s != "" && s[|s| - 1] != c && Index(s, c) < |s|
    ensures After(s, c) != "" && After(s, c)[|After(s, c)| - 1] == s[|s| - 1]
    ensures After(s[..|s| - 1], c) == After(s, c)[..|After(s, c)| - 1]
  {
    var n := Index(s, c);
    assert n + 1 < |s|;
    IndexTrimmed(s, c);
    AfterAt(s, c, n);
    AfterAt(s[..|s| - 1], c, n);
    CutAfter(s, n + 1);
  }

  lemma EscapesTrimmed(s: string)
    requires s != "" && s[|s| - 1] == '/' && EscapesOk(s)
    ensures EscapesOk(s[..|s| - 1])
  {
    var t := s[..|s| - 1];
    assert forall i :: 0 <= i < |t| ==> t[i] == s[i];
  }

  lemma PrefixTrimmed(s: string)
    requires Prefix(s) > 0 && Prefix(s) < |s|
    ensures Prefix(s[..|s| - 1]) == Prefix(s)
  {
    var t := s[..|s| - 1];
    assert t[..7] == s[..7];
    if Prefix(s) == 8 {
      assert t[..8] == s[..8];
    }
  }

  lemma AuthorityIsNotEmpty(s: string)
    requires AuthorityOk(s)
    ensures s != ""
  {
  }

  /** Cutting the last slash off an authority with a path leaves the same authority, and a shorter path. */
  lemma CutPath(s: string)
    requires s != "" && s[|s| - 1] == '/' && Before(s, '/') != ""
    ensures var t, n := s[..|s| - 1], Index(s, '/');
            && n < |s| && Index(t, '/') == n && Before(t, '/') == Before(s, '/')
            && t[n..] == s[n..][..|s[n..]| - 1]
  {
    var t, n := s[..|s| - 1], Index(s, '/');
    assert n < |s|;
    assert forall i :: 0 <= i < |t| ==> t[i] == s[i];
  }

  lemma PlaceTrimmed(s: string)
    requires PlaceOk(s) && s != "" && s[|s| - 1] == '/'
    ensures PlaceOk(s[..|s| - 1])
  {
    AuthorityIsNotEmpty(Before(s, '/'));
    CutPath(s);
    EscapesTrimmed(s[Index(s, '/')..]);
  }

  /** Cutting the end off what follows a prefix. */
  lemma CutAfter(s: string, n: nat)
    requires n < |s|
    ensures s[n..] != "" && s[n..][|s[n..]| - 1] == s[|s| - 1]
    ensures s[..|s| - 1][n..] == s[n..][..|s[n..]| - 1]
  {
  }

  lemma PlaceIsNotEmpty(s: string)
    requires PlaceOk(s)
    ensures s != ""
  {
    AuthorityIsNotEmpty(Before(s, '/'));
  }

  /** A slash that ends the base is in its path: no authority is empty. */
  lemma BaseTrimmed(s: string)
    requires BaseOk(s) && s != "" && s[|s| - 1] == '/'
    ensures BaseOk(s[..|s| - 1])
  {
    var n := Prefix(s);
    PlaceIsNotEmpty(s[n..]);
    CutAfter(s, n);
    PrefixTrimmed(s);
    PlaceTrimmed(s[n..]);
  }

  lemma NoControlTrimmed(s: string)
    requires NoControl(s) && s != ""
    ensures NoControl(s[..|s| - 1])
  {
  }

  lemma RequestTrimmed(s: string)
    requires RequestOk(s) && s != "" && s[|s| - 1] == '/'
    ensures RequestOk(s[..|s| - 1])
  {
    NoControlTrimmed(s);
    BeforeTrimmed(s, '?');
    if Index(s, '?') == |s| {
      assert Before(s, '?') == s;
      BaseTrimmed(s);
    }
  }

  lemma OneSlashTrimmed(s: string)
    requires IsAPI(s) && s != "" && s[|s| - 1] == '/'
    ensures IsAPI(s[..|s| - 1])
  {
    BeforeTrimmed(s, '#');
    if Index(s, '#') < |s| {
      AfterTrimmed(s, '#');
      EscapesTrimmed(After(s, '#'));
    } else {
      NothingAfter(s, '#');
      RequestTrimmed(s);
    }
  }

  lemma {:induction false} TrimmedIsAPI(s: string)
    requires IsAPI(s)
    ensures IsAPI(TrimSlashes(s))
    decreases |s|
  {
    if s != "" && s[|s| - 1] == '/' {
      OneSlashTrimmed(s);
      TrimmedIsAPI(s[..|s| - 1]);
    }
  }

  lemma {:induction false} TrimmedEnds(s: string)
    ensures TrimSlashes(s) == "" || TrimSlashes(s)[|TrimSlashes(s)| - 1] != '/'
    ensures TrimSlashes(TrimSlashes(s)) == TrimSlashes(s)
    decreases |s|
  {
    if s != "" && s[|s| - 1] == '/' {
      TrimmedEnds(s[..|s| - 1]);
    }
  }

  lemma APIIsNotEmpty(s: string)
    requires IsAPI(s)
    ensures s != ""
  {
  }

  /** What normalizeAPI returns is an API it accepts and returns unchanged, and never empty. */
  lemma NormalizeIsIdempotent(raw: string)
    requires NormalizeAPI(raw).Some?
    ensures NormalizeAPI(NormalizeAPI(raw).value) == NormalizeAPI(raw)
    ensures NormalizeAPI(raw).value != ""
  {
    TrimmedIsAPI(raw);
    TrimmedEnds(raw);
    APIIsNotEmpty(TrimSlashes(raw));
  }

  /** A prefix that only slashes follow and no slash ends is the only one of its kind. */
  lemma OneTrimming(s: string, v: string, t: string)
    requires v <= s && t <= s && |v| <= |t|
    requires forall i :: |v| <= i < |s| ==> s[i] == '/'
    requires t != "" ==> t[|t| - 1] != '/'
    ensures v == t
  {
    if t != "" {
      assert s[|t| - 1] == t[|t| - 1];
    }
  }

  /** v is s without the slashes that end it, all of them and nothing more. */
  predicate Trims(s: string, v: string) {
    v <= s && (forall i :: |v| <= i < |s| ==> s[i] == '/') && (v != "" ==> v[|v| - 1] != '/')
  }

  /** The normal form of an API is what is left of it without the slashes that end it. */
  lemma NormalForm(raw: string, v: string)
    ensures NormalizeAPI(raw) == Some(v) <==> IsAPI(raw) && Trims(raw, v)
  {
    TrimmedIsPrefix(raw);
    TrimmedEnds(raw);
    var t := TrimSlashes(raw);
    assert Trims(raw, t);
    if Trims(raw, v) {
      if |v| <= |t| {
        OneTrimming(raw, v, t);
      } else {
        OneTrimming(raw, t, v);
      }
    }
  }

  lemma {:induction false} TrimmedIsPrefix(s: string)
    ensures TrimSlashes(s) <= s && forall i :: |TrimSlashes(s)| <= i < |s| ==> s[i] == '/'
    decreases |s|
  {
    if s != "" && s[|s| - 1] == '/' {
      TrimmedIsPrefix(s[..|s| - 1]);
    }
  }

  // --- an address, and one that is none ---

  lemma OneLetterHost()
    ensures AuthorityOk("h")
  {
    assert PastLast("h", '@') == 0 && PastLast("h", '[') == 0 && Index("h", ':') == 1;
    assert "h"[0..] == "h";
  }

  lemma HostAndSlash()
    ensures PlaceOk("h/")
  {
    OneLetterHost();
    assert "h/"[0] == 'h' && "h/"[1] == '/';
    assert Index("h/", '/') == 1;
    assert Before("h/", '/') == "h" && "h/"[1..] == "/";
  }

  lemma {:induction false} NowhereIn(s: string, c: char)
    requires c !in s
    ensures Before(s, c) == s && After(s, c) == ""
  {
  }

  const HTTP := "http://"

  const HTTPS := "https://"

  /** A scheme and two slashes, in any mixture of cases. */
  predicate Scheme(s: string) { Lower(s) == HTTP || Lower(s) == HTTPS }

  lemma BothAreSchemes()
    ensures Scheme(HTTP) && Scheme(HTTPS)
  {
    assert forall i :: 0 <= i < |HTTP| ==> Lower(HTTP)[i] == HTTP[i];
    assert forall i :: 0 <= i < |HTTPS| ==> Lower(HTTPS)[i] == HTTPS[i];
  }

  /** Lowering letters makes no other character, and loses none. */
  lemma LowerKeeps(s: string, c: char)
    requires !Alphanumeric(c)
    ensures c in s <==> c in Lower(s)
  {
    assert forall i :: 0 <= i < |s| ==> (s[i] == c <==> Lower(s)[i] == c);
  }

  lemma LowerIsPrintable(s: string)
    requires NoControl(Lower(s))
    ensures NoControl(s)
  {
    forall i | 0 <= i < |s| ensures s[i] >= ' ' && s[i] != 127 as char {
      assert Lower(s)[i] >= ' ' && Lower(s)[i] != 127 as char;
    }
  }

  lemma SchemeIsPlain(scheme: string)
    requires Scheme(scheme)
    ensures '#' !in scheme && '?' !in scheme && NoControl(scheme)
  {
    LowerKeeps(scheme, '#');
    LowerKeeps(scheme, '?');
    LowerIsPrintable(scheme);
  }

  /** What stands after a scheme starts where the scheme ends. */
  lemma PrefixOf(scheme: string, rest: string)
    requires Scheme(scheme)
    ensures Prefix(scheme + rest) == |scheme| && (scheme + rest)[|scheme|..] == rest
  {
    var s := scheme + rest;
    assert s[..|scheme|] == scheme;
    if |scheme| == 8 {
      assert Lower(s[..7])[4] == Lower(scheme)[4];
      assert HTTP[4] == ':' && HTTPS[4] == 's';
    }
  }

  lemma PrintablePair(a: string, b: string)
    ensures NoControl(a + b) <==> NoControl(a) && NoControl(b)
  {
    var s := a + b;
    assert forall i :: 0 <= i < |a| ==> a[i] == s[i];
    assert forall i :: 0 <= i < |b| ==> b[i] == s[|a| + i];
  }

  lemma CutAt(a: string, c: char, b: string)
    requires c !in a
    ensures Before(a + [c] + b, c) == a && After(a + [c] + b, c) == b
  {
    var s := a + [c] + b;
    assert s[|a|] == c && forall i :: 0 <= i < |a| ==> s[i] == a[i];
    assert Index(s, c) == |a|;
  }

  /** A scheme in any case and an authority with a path make an API, and nothing else after a scheme does. */
  lemma PlaceIsAPI(scheme: string, place: string)
    requires Scheme(scheme) && '#' !in place && '?' !in place
    ensures IsAPI(scheme + place) <==> PlaceOk(place) && NoControl(place)
  {
    var s := scheme + place;
    SchemeIsPlain(scheme);
    PrefixOf(scheme, place);
    PrintablePair(scheme, place);
    NowhereIn(s, '#');
    NowhereIn(s, '?');
  }

  /** A query may hold anything that prints. */
  lemma QueryIsFree(scheme: string, place: string, query: string)
    requires Scheme(scheme) && '#' !in place && '?' !in place && '#' !in query
    ensures IsAPI(scheme + place + "?" + query) <==> IsAPI(scheme + place) && NoControl(query)
  {
    var base := scheme + place;
    var s := base + "?" + query;
    SchemeIsPlain(scheme);
    PrefixOf(scheme, place);
    PlaceIsAPI(scheme, place);
    CutAt(base, '?', query);
    NowhereIn(s, '#');
    PrintablePair(scheme, place);
    PrintablePair(base + "?", query);
    PrintablePair(base, "?");
  }

  /** A fragment's escapes are looked at, and nothing else about it. */
  lemma FragmentEscapes(s: string, fragment: string)
    requires '#' !in s
    ensures IsAPI(s + "#" + fragment) <==> IsAPI(s) && EscapesOk(fragment)
  {
    CutAt(s, '#', fragment);
    NowhereIn(s, '#');
  }

  /** An API starts with one of the two schemes. */
  lemma SchemeIsNeeded(s: string)
    requires IsAPI(s)
    ensures exists n :: 0 < n <= |s| && Scheme(s[..n])
  {
    var base := Before(Before(s, '#'), '?');
    var n := Prefix(base);
    assert s[..n] == base[..n];
  }

  lemma HostIsAPI(scheme: string, place: string)
    requires Scheme(scheme) && place == "h/" && PlaceOk(place)
    ensures IsAPI(scheme + place)
  {
    PlaceIsAPI(scheme, place);
  }

  lemma OneSlash(t: string)
    requires t != "" && t[|t| - 1] != '/'
    ensures TrimSlashes(t + "/") == t
  {
    assert (t + "/")[..|t|] == t;
  }

  /** An address with a host and a slash is an API, spelled without the slash. */
  lemma ExampleIsAPI()
    ensures NormalizeAPI(HTTP + "h/") == Some(HTTP + "h")
  {
    HostAndSlash();
    BothAreSchemes();
    HostIsAPI(HTTP, "h/");
    OneSlash(HTTP + "h");
    assert HTTP + "h/" == HTTP + "h" + "/";
  }

  /** A host without brackets holds one colon at most. */
  lemma SecondColonRefused(s: string, i: nat, j: nat)
    requires '[' !in s && i < j < |s| && s[i] == s[j] == ':'
    ensures !HostOk(s)
  {
    var n := Index(s, ':');
    assert n <= i;
    assert s[n..][j - n] == ':';
  }

  lemma AddressesHaveColons(s: string)
    requires ':' !in s
    ensures !IPv6Ok(s)
  {
    assert ':' !in s[HexSpan(s)..];
    if |s| >= 2 {
      assert s[..2][0] == s[0] && s[0] != ':';
    }
  }

  /** Brackets hold an address: nothing without a colon. */
  lemma BracketsNeedAnAddress(t: string)
    requires ':' !in t
    ensures !HostOk("[" + t + "]")
  {
    var s := "[" + t + "]";
    var open, close := PastLast(s, '['), PastLast(s, ']');
    assert s[0] == '[' && s[|s| - 1] == ']';
    if open == 1 && close == |s| {
      assert s[1..close - 1] == t;
      assert ':' !in t[..ZoneIndex(t)];
      AddressesHaveColons(t[..ZoneIndex(t)]);
    }
  }

  lemma LastAt(s: string, c: char, n: nat)
    requires 0 < n <= |s| && s[n - 1] == c && c !in s[n..]
    ensures PastLast(s, c) == n
  {
    assert forall i :: n <= i < |s| ==> s[i] == s[n..][i - n];
  }

  /** Any address in brackets is a host, before a port or not. */
  lemma BracketedAddressIsHost(t: string, port: string)
    requires LiteralOk(t) && '[' !in t && ']' !in t
    requires PortOk(port) && '[' !in port && ']' !in port
    ensures HostOk("[" + t + "]" + port)
  {
    var s, n := "[" + t + "]" + port, |t| + 2;
    assert s[1..] == t + "]" + port && s[n..] == port && s[1..n - 1] == t;
    LastAt(s, '[', 1);
    LastAt(s, ']', n);
  }

  // --- what stands where ---

  /** A path starts at the first slash. */
  lemma PlaceSplits(authority: string, path: string)
    requires '/' !in authority && (path == "" || path[0] == '/')
    ensures PlaceOk(authority + path) <==> AuthorityOk(authority) && EscapesOk(path)
  {
    var s := authority + path;
    if path == "" {
      assert s == authority;
      NowhereIn(s, '/');
      assert s[Index(s, '/')..] == path;
    } else {
      assert s == authority + ['/'] + path[1..];
      CutAt(authority, '/', path[1..]);
      assert s[|authority|..] == path;
    }
  }

  /** A user stands before the last at sign, and the host after it. */
  lemma UserAndHost(user: string, host: string)
    requires '@' !in host
    ensures AuthorityOk(user + "@" + host) <==> host != "" && HostOk(host) && UserOk(user)
    ensures AuthorityOk(host) <==> host != "" && HostOk(host)
  {
    var s := user + "@" + host;
    assert s[|user| + 1..] == host && s[..|user|] == user;
    LastAt(s, '@', |user| + 1);
    assert host[0..] == host;
    assert PastLast(host, '@') == 0;
  }

  /** The letters, digits and marks a name is made of. */
  predicate IsName(s: string) { forall i :: 0 <= i < |s| ==> Alphanumeric(s[i]) || s[i] in "-._~" }

  predicate Digits(s: string) { forall i :: 0 <= i < |s| ==> '0' <= s[i] <= '9' }

  lemma NamesAreHostChars(s: string)
    requires forall i :: 0 <= i < |s| ==> Alphanumeric(s[i]) || s[i] in "-._~:"
    ensures HostCharsOk(s)
  {
  }

  lemma PortIsDigits(port: string)
    ensures PortOk(":" + port) <==> Digits(port)
  {
    var s := ":" + port;
    assert forall i :: 0 <= i < |port| ==> s[i + 1] == port[i];
    assert forall i :: 1 <= i < |s| ==> s[i] == port[i - 1];
  }

  lemma PortStarts(name: string, port: string)
    requires ':' !in name && '[' !in name && '[' !in port
    ensures var s := name + ":" + port; PastLast(s, '[') == 0 && s[Index(s, ':')..] == ":" + port
  {
    var s := name + ":" + port;
    assert s == name + [':'] + port;
    CutAt(name, ':', port);
    assert Index(s, ':') == |name|;
  }

  /** A name is a host, alone or before a port of digits, or before a colon and no port. */
  lemma NameAndPort(name: string, port: string)
    requires IsName(name) && '[' !in port
    ensures HostOk(name)
    ensures HostOk(name + ":" + port) <==> Digits(port)
  {
    var s := name + ":" + port;
    assert '[' !in name && ':' !in name;
    NamesAreHostChars(name);
    NowhereIn(name, ':');
    PortStarts(name, port);
    PortIsDigits(port);
    if Digits(port) {
      assert forall i :: 0 <= i < |s| ==> s[i] == ':' || s[i] in name || s[i] in port;
      NamesAreHostChars(s);
    }
  }

  /** Of an escape, both digits count and nothing else does. */
  lemma EscapesAre(before: string, x: char, y: char, after: string)
    requires '%' !in before
    ensures EscapesOk(before)
    ensures EscapesOk(before + ['%', x, y] + after) <==> HexDigit(x) && HexDigit(y) && EscapesOk(after)
    ensures !EscapesOk(before + "%") && !EscapesOk(before + ['%', x])
  {
    var s, n := before + ['%', x, y] + after, |before|;
    assert s[n] == '%' && s[n + 1] == x && s[n + 2] == y;
    assert forall i :: 0 <= i < |after| ==> s[n + 3 + i] == after[i];
    if EscapesOk(s) {
      forall i | 0 <= i < |after| && after[i] == '%' ensures i + 2 < |after| && HexDigit(after[i + 1]) && HexDigit(after[i + 2]) {
        assert s[n + 3 + i] == '%' && s[n + 3 + i + 1] == after[i + 1];
      }
    }
    if HexDigit(x) && HexDigit(y) && EscapesOk(after) {
      forall i | 0 <= i < |s| && s[i] == '%' ensures i + 2 < |s| && HexDigit(s[i + 1]) && HexDigit(s[i + 2]) {
        if i > n {
          assert after[i - n - 3] == '%';
        }
      }
    }
    assert (before + "%")[n] == '%' && (before + ['%', x])[n] == '%';
  }

  // --- which addresses brackets hold ---

  predicate IsGroup(g: string) { 1 <= |g| <= 4 && forall i :: 0 <= i < |g| ==> HexDigit(g[i]) }

  predicate AllGroups(gs: seq<string>) { forall i :: 0 <= i < |gs| ==> IsGroup(gs[i]) }

  /** Groups with colons between them. */
  function Colons(gs: seq<string>): string {
    if gs == [] then "" else if |gs| == 1 then gs[0] else gs[0] + ":" + Colons(gs[1..])
  }

  lemma {:induction false} SpanOf(g: string, rest: string)
    requires (forall i :: 0 <= i < |g| ==> HexDigit(g[i])) && (rest != "" ==> !HexDigit(rest[0]))
    ensures HexSpan(g + rest) == |g| && (g + rest)[|g|..] == rest
  {
    if g == "" {
      assert g + rest == rest;
    } else {
      SpanOf(g[1..], rest);
      assert (g + rest)[0] == g[0] && (g + rest)[1..] == g[1..] + rest;
    }
  }

  /** A group and a colon, and then more. */
  lemma GroupThen(g: string, rest: string, n: nat, gap: bool)
    requires IsGroup(g) && rest != "" && rest[0] != ':'
    ensures GroupsOk(g + ":" + rest, n, gap) <==> n < 8 && GroupsOk(rest, n + 1, gap)
  {
    var tail := ":" + rest;
    SpanOf(g, tail);
    assert g + ":" + rest == g + tail && tail[1] == rest[0] && tail[1..] == rest;
  }

  lemma ColonsStart(gs: seq<string>, more: string)
    requires AllGroups(gs) && gs != []
    ensures Colons(gs) != "" && Colons(gs)[0] != ':' && (Colons(gs) + more)[0] != ':'
  {
    assert IsGroup(gs[0]) && HexDigit(gs[0][0]);
    assert Colons(gs)[0] == gs[0][0] && (Colons(gs) + more)[0] == Colons(gs)[0];
  }

  lemma {:induction false} GroupsCount(gs: seq<string>, n: nat, gap: bool)
    requires AllGroups(gs) && gs != []
    ensures GroupsOk(Colons(gs), n, gap) <==> EightGroups(n + |gs|, gap)
    decreases |gs|
  {
    if |gs| == 1 {
      SpanOf(gs[0], "");
      assert gs[0] + "" == gs[0] && IsGroup(gs[0]);
    } else {
      ColonsStart(gs[1..], "");
      GroupThen(gs[0], Colons(gs[1..]), n, gap);
      GroupsCount(gs[1..], n + 1, gap);
    }
  }

  /** A double colon behind a group. */
  lemma GapBehind(g: string, rest: string, n: nat)
    requires IsGroup(g)
    ensures GroupsOk(g + ("::" + rest), n, false) <==>
            n < 8 && if rest == "" then EightGroups(n + 1, true) else GroupsOk(rest, n + 1, true)
  {
    var tail := "::" + rest;
    SpanOf(g, tail);
    assert tail[0] == ':' && tail[1] == ':' && tail[2..] == rest;
  }

  /** The last group before the double colon, and the groups after it. */
  lemma GroupThenGap(g: string, right: seq<string>, n: nat)
    requires IsGroup(g) && AllGroups(right)
    ensures GroupsOk(g + ("::" + Colons(right)), n, false) <==> n + 1 + |right| < 8
  {
    GapBehind(g, Colons(right), n);
    if right != [] {
      ColonsStart(right, "");
      GroupsCount(right, n + 1, true);
    }
  }

  lemma ColonsThen(left: seq<string>, more: string)
    requires |left| > 1
    ensures Colons(left) + more == left[0] + ":" + (Colons(left[1..]) + more)
  {
  }

  lemma {:induction false} GapCount(left: seq<string>, right: seq<string>, n: nat)
    requires AllGroups(left) && AllGroups(right) && left != []
    ensures GroupsOk(Colons(left) + ("::" + Colons(right)), n, false) <==> n + |left| + |right| < 8
    decreases |left|
  {
    if |left| == 1 {
      GroupThenGap(left[0], right, n);
    } else {
      var more := "::" + Colons(right);
      ColonsStart(left[1..], more);
      ColonsThen(left, more);
      GroupThen(left[0], Colons(left[1..]) + more, n, false);
      GapCount(left[1..], right, n + 1);
    }
  }

  /** No double colon opens the text, so it is read group by group. */
  lemma StartsWithGroup(s: string)
    requires s != "" && s[0] != ':'
    ensures IPv6Ok(s) <==> GroupsOk(s, 0, false)
  {
    if |s| >= 2 {
      assert s[..2][0] == s[0];
    }
  }

  lemma GapFirst(right: seq<string>)
    requires AllGroups(right)
    ensures IPv6Ok("::" + Colons(right)) <==> |right| < 8
  {
    var s := "::" + Colons(right);
    assert s[..2] == "::" && s[2..] == Colons(right);
    if right == [] {
      assert s == "::";
    } else {
      ColonsStart(right, "");
      GroupsCount(right, 0, true);
    }
  }

  /** Groups make an address exactly when there are eight, or fewer with a double colon somewhere. */
  lemma AddressesCountGroups(left: seq<string>, right: seq<string>)
    requires AllGroups(left) && AllGroups(right)
    ensures left != [] ==> (IPv6Ok(Colons(left)) <==> |left| == 8)
    ensures IPv6Ok(Colons(left) + ("::" + Colons(right))) <==> |left| + |right| < 8
  {
    var more := "::" + Colons(right);
    if left == [] {
      assert Colons(left) + more == more;
      GapFirst(right);
    } else {
      ColonsStart(left, more);
      StartsWithGroup(Colons(left));
      StartsWithGroup(Colons(left) + more);
      GroupsCount(left, 0, false);
      GapCount(left, right, 0);
    }
  }
}
