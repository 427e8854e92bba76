/**
 A line-based subset of TOML, as text: blank lines, comments, headers of tables with
 bare names, bare keys, basic strings with escapes, literal strings, one-line arrays of
 basic strings, multi-line basic strings, and booleans and decimal numbers kept as text,
 after a byte order mark or none. A text outside the subset, or one that defines a name
 twice, does not parse.
 */
module Toml {
  import opened Basics

  datatype Value = Str(s: string) | Strs(items: seq<string>) | Scalar(raw: string)

  type Table = map<string, Value>

  /** What a text defines: its top-level keys and its tables. */
  datatype Document = Document(top: Table, tables: map<string, Table>)

  /** One line on its own. */
  datatype Line = Blank | Header(name: string) | Pair(key: string, value: Value) | Opens(key: string, text: string) | Bad

  // --- characters and spans ---

  predicate Space(c: char) { c == ' ' || c == '\t' || c == '\r' }

  predicate Bare(c: char) {
    'a' <= c <= 'z' || 'A' <= c <= 'Z' || '0' <= c <= '9' || c == '_' || c == '-'
  }

  function TrimLeft(s: string): string {
    if s != "" && Space(s[0]) then TrimLeft(s[1..]) else s
  }

  function TrimRight(s: string): string {
    if s != "" && Space(s[|s| - 1]) then TrimRight(s[..|s| - 1]) else s
  }

  /** The length of the longest prefix of bare-key characters. */
  function BareSpan(s: string): (n: nat)
    ensures n <= |s|
  {
    if s != "" && Bare(s[0]) then 1 + BareSpan(s[1..]) else 0
  }

  /** Nothing but space, or a comment. */
  predicate EndsLine(s: string) {
    var t := TrimLeft(s);
    t == "" || t[0] == '#'
  }

  // --- basic strings ---

  predicate Control(c: char) { c < ' ' || c == 127 as char }

  function Hex(n: nat): char
    requires n < 16
  {
    "0123456789abcdef"[n]
  }

  function HexValue(c: char): Option<nat> {
    if '0' <= c <= '9' then Some(c as int - '0' as int)
    else if 'a' <= c <= 'f' then Some(c as int - 'a' as int + 10)
    else if 'A' <= c <= 'F' then Some(c as int - 'A' as int + 10)
    else None
  }

  function EscapeChar(c: char): (e: string)
    ensures |e| > 0
  {
    if c == '\"' then "\\\""
    else if c == '\\' then "\\\\"
    else if c == '\n' then "\\n"
    else if c == '\r' then "\\r"
    else if c == '\t' then "\\t"
    else if c == 8 as char then "\\b"
    else if c == 12 as char then "\\f"
    else if Control(c) then "\\u00" + [Hex(c as int / 16), Hex(c as int % 16)]
    else [c]
  }

  function Escape(s: string): string {
    if s == "" then "" else EscapeChar(s[0]) + Escape(s[1..])
  }

  /** Reads one character of a basic string, and how many characters of text it took. */
  function ScanChar(s: string): Option<(char, nat)> {
    if s == "" || (Control(s[0]) && s[0] != '\t') || s[0] == '\"' then None
    else if s[0] != '\\' then Some((s[0], 1))
    else if |s| < 2 then None
    else if s[1] == '\"' || s[1] == '\\' then Some((s[1], 2))
    else if s[1] == 'n' then Some(('\n', 2))
    else if s[1] == 'r' then Some(('\r', 2))
    else if s[1] == 't' then Some(('\t', 2))
    else if s[1] == 'b' then Some((8 as char, 2))
    else if s[1] == 'f' then Some((12 as char, 2))
    else if s[1] == 'u' && |s| >= 6 then
      match (HexValue(s[2]), HexValue(s[3]), HexValue(s[4]), HexValue(s[5]))
      case (Some(a), Some(b), Some(c), Some(d)) =>
        var n := ((a * 16 + b) * 16 + c) * 16 + d;
        if n < 0xD800 then Some((n as char, 6)) else None
      case _ => None
    else None
  }

  /** Reads a basic string whose opening quote is behind, up to its closing quote, and what follows that. */
  function ScanString(s: string): Option<(string, string)>
    decreases |s|
  {
    if s != "" && s[0] == '\"' then Some(("", s[1..]))
    else
      match ScanChar(s)
      case None => None
      case Some((c, n)) =>
        if n == 0 || n > |s| then None
        else
          match ScanString(s[n..])
          case None => None
          case Some((rest, after)) => Some(([c] + rest, after))
  }

  lemma EscapedCharScans(c: char, rest: string)
    ensures ScanChar(EscapeChar(c) + rest) == Some((c, |EscapeChar(c)|))
    ensures EscapeChar(c)[0] != '\"'
  {
    var e := EscapeChar(c);
    var s := e + rest;
    if |e| == 6 {
      assert s[..6] == e;
      assert s[1] == 'u' && s[2] == '0' && s[3] == '0';
      assert HexValue(s[4]) == Some(c as int / 16) && HexValue(s[5]) == Some(c as int % 16);
    }
  }

  /** Reading past one scanned character. */
  lemma ScanStep(s: string, c: char, n: nat, rest: string, after: string)
    requires s != "" && s[0] != '\"' && ScanChar(s) == Some((c, n)) && 0 < n <= |s|
    requires ScanString(s[n..]) == Some((rest, after))
    ensures ScanString(s) == Some(([c] + rest, after))
  {
  }

  /** Escaping then scanning gives the string back, whatever follows the closing quote. */
  lemma {:induction false} EscapeScans(v: string, after: string)
    ensures ScanString(Escape(v) + "\"" + after) == Some((v, after))
    decreases |v|
  {
    if v == "" {
      assert Escape(v) + "\"" + after == "\"" + after;
      assert ("\"" + after)[1..] == after;
    } else {
      var head, tail := EscapeChar(v[0]), Escape(v[1..]) + "\"" + after;
      assert Escape(v) + "\"" + after == head + tail;
      EscapedCharScans(v[0], tail);
      EscapeScans(v[1..], after);
      assert (head + tail)[|head|..] == tail;
      ScanStep(head + tail, v[0], |head|, v[1..], after);
      assert [v[0]] + v[1..] == v;
    }
  }

  lemma {:induction false} EscapeIsOneLine(v: string)
    ensures '\n' !in Escape(v)
    ensures v != "" ==> Escape(v) != "" && Escape(v)[0] != '\"'
  {
    if v != "" {
      EscapeIsOneLine(v[1..]);
      EscapedCharScans(v[0], "");
    }
  }

  // --- lines ---

  /** Reads a one-line array of basic strings whose opening bracket is behind. */
  function ScanItems(s: string): Option<seq<string>>
    decreases |s|
  {
    var t := TrimLeft(s);
    if t == "" then None
    else if t[0] == ']' then (if EndsLine(t[1..]) then Some([]) else None)
    else if t[0] != '\"' then None
    else
      match ScanString(t[1..])
      case None => None
      case Some((item, after)) =>
        var u := TrimLeft(after);
        if u == "" then None
        else if u[0] == ']' then (if EndsLine(u[1..]) then Some([item]) else None)
        else if u[0] != ',' || |u| > |s| then None
        else
          match ScanItems(u[1..])
          case None => None
          case Some(items) => Some([item] + items)
  }

  predicate Digits(s: string) { s != "" && forall i :: 0 <= i < |s| ==> '0' <= s[i] <= '9' }

  /** Digits, with no zero before others. */
  predicate Whole(s: string) { Digits(s) && (|s| > 1 ==> s[0] != '0') }

  /** A boolean, or a decimal number with a sign or none and a fraction or none. */
  predicate IsScalar(raw: string) {
    var unsigned := if raw != "" && raw[0] in "+-" then raw[1..] else raw;
    var point := Index(unsigned, '.');
    || raw == "true" || raw == "false"
    || (Whole(unsigned[..point]) && (point < |unsigned| ==> Digits(unsigned[point + 1..])))
  }

  function ParseValue(key: string, s: string): Line {
    if |s| >= 3 && s[..3] == "\"\"\"" then Opens(key, s[3..])
    else if s != "" && s[0] == '\"' then
      match ScanString(s[1..])
      case None => Bad
      case Some((v, after)) => if EndsLine(after) then Pair(key, Str(v)) else Bad
    else if s != "" && s[0] == '\'' then
      var close := Index(s[1..], '\'') + 1;
      if close == |s| || !EndsLine(s[close + 1..]) || exists i :: 1 <= i < close && Control(s[i]) && s[i] != '\t' then Bad
      else Pair(key, Str(s[1..close]))
    else if s != "" && s[0] == '[' then
      match ScanItems(s[1..])
      case None => Bad
      case Some(items) => Pair(key, Strs(items))
    else
      var raw := TrimRight(s[..Index(s, '#')]);
      if IsScalar(raw) then Pair(key, Scalar(raw)) else Bad
  }

  function ParseLine(line: string): Line {
    var t := TrimLeft(line);
    if t == "" || t[0] == '#' then Blank
    else if t[0] == '[' then
      var close := Index(t, ']');
      var name := TrimRight(TrimLeft(t[1..Max(1, close)]));
      if close == |t| || name == "" || BareSpan(name) < |name| || !EndsLine(t[close + 1..]) then Bad else Header(name)
    else
      var n := BareSpan(t);
      var after := TrimLeft(t[n..]);
      if n == 0 || after == "" || after[0] != '=' then Bad else ParseValue(t[..n], TrimLeft(after[1..]))
  }

  // --- texts ---

  /** The lines of a text; a text without a newline is one line. */
  function Lines(s: string): seq<string> { Split(s, '\n') }

  /** Where reading has got to: what is defined so far, the table being filled, and the key of an open multi-line string. */
  datatype Reader = Reader(doc: Document, here: Option<string>, open: Option<string>, text: string)

  const Fresh := Reader(Document(map[], map[]), None, None, "")

  /** The index at which a closing triple quote starts, if the text holds one. */
  function Closing(s: string): Option<nat> {
    if |s| < 3 then None
    else if s[..3] == "\"\"\"" then Some(0)
    else match Closing(s[1..]) case None => None case Some(n) => Some(n + 1)
  }

  /** The tables a key would be defined in. */
  predicate Defined(r: Reader, key: string) {
    match r.here
    case None => key in r.doc.top || key in r.doc.tables
    case Some(t) => t in r.doc.tables && key in r.doc.tables[t]
  }

  function Define(r: Reader, key: string, v: Value): Option<Reader> {
    if Defined(r, key) then None
    else
      match r.here
      case None => Some(r.(doc := r.doc.(top := r.doc.top[key := v])))
      case Some(t) =>
        if t !in r.doc.tables then None
        else Some(r.(doc := r.doc.(tables := r.doc.tables[t := r.doc.tables[t][key := v]])))
  }

  /** Part of a multi-line string as it stands: no escape, so that a triple quote closes it, and no control character. */
  predicate Unescaped(s: string) { '\\' !in s && forall i :: 0 <= i < |s| ==> !Control(s[i]) || s[i] == '\t' }

  /** The string between triple quotes: a line break right after the opening ones is not part of it. */
  function Multiline(text: string): Value { Str(if text != "" && text[0] == '\n' then text[1..] else text) }

  function ReadLine(r: Reader, line: string): Option<Reader> {
    if r.open.Some? then
      match Closing(line)
      case None => if Unescaped(line) then Some(r.(text := r.text + "\n" + line)) else None
      case Some(n) =>
        if n + 3 > |line| || !Unescaped(line[..n]) || !EndsLine(line[n + 3..]) then None
        else Define(r.(open := None, text := ""), r.open.value, Multiline(r.text + "\n" + line[..n]))
    else
      match ParseLine(line)
      case Bad => None
      case Blank => Some(r)
      case Header(name) =>
        if name in r.doc.tables || name in r.doc.top then None
        else Some(r.(doc := r.doc.(tables := r.doc.tables[name := map[]]), here := Some(name)))
      case Pair(key, v) => Define(r, key, v)
      case Opens(key, text) =>
        match Closing(text)
        case None => if Unescaped(text) then Some(r.(open := Some(key), text := text)) else None
        case Some(n) => if n + 3 > |text| || !Unescaped(text[..n]) || !EndsLine(text[n + 3..]) then None else Define(r, key, Multiline(text[..n]))
  }

  function ReadLines(r: Reader, lines: seq<string>): Option<Reader>
    decreases |lines|
  {
    if lines == [] then Some(r)
    else
      match ReadLine(r, lines[0])
      case None => None
      case Some(r') => ReadLines(r', lines[1..])
  }

  /** A byte order mark, which the decoder passes over at the start of a file and nowhere else. */
  const MARK: char := '\U{FEFF}'

  predicate Marked(s: string) { s != "" && s[0] == MARK }

  function Unmarked(s: string): string { if Marked(s) then s[1..] else s }

  function Parse(s: string): Option<Document> {
    match ReadLines(Fresh, Lines(Unmarked(s)))
    case None => None
    case Some(r) => if r.open.Some? then None else Some(r.doc)
  }
}
