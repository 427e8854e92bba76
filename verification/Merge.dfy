/** What Save writes into a config file: the missing keys as text, put before whatever the file already holds. */
module Merge {
  import opened Basics
  import opened Toml

  /** The keys a login fills in. An empty string is a key left out. */
  datatype LoginKeys = LoginKeys(api: string, issuer: string, clientID: string)

  const API := "api"
  const ISSUER := "issuer"
  const CLIENT_ID := "client_id"

  const NoKeys := LoginKeys("", "", "")

  function Quoted(value: string): string { "\"" + Escape(value) + "\"" }

  function KeyLine(key: string, value: string): string { key + " = " + Quoted(value) }

  /** A key with an empty value is left out. */
  function OptionalLine(k: string, v: string): seq<string> { if v != "" then [KeyLine(k, v)] else [] }

  function OptionalBinding(k: string, v: string): Table { if v != "" then map[k := Str(v)] else map[] }

  /** One line for each key that has a value. */
  function KeyLines(m: LoginKeys): seq<string> {
    OptionalLine(API, m.api) + OptionalLine(ISSUER, m.issuer) + OptionalLine(CLIENT_ID, m.clientID)
  }

  function Terminated(lines: seq<string>): string {
    if lines == [] then "" else lines[0] + "\n" + Terminated(lines[1..])
  }

  function Marshal(m: LoginKeys): string { Terminated(KeyLines(m)) }

  /** The file after Save adds keys to existing. */
  function Merged(m: LoginKeys, existing: string): string {
    if |existing| > 0 then Marshal(m) + "\n" + existing else Marshal(m)
  }

  /** What the keys define. */
  function Bindings(m: LoginKeys): Table {
    OptionalBinding(API, m.api) + OptionalBinding(ISSUER, m.issuer) + OptionalBinding(CLIENT_ID, m.clientID)
  }

  // --- one key as text ---

  predicate BareKey(k: string) { k != "" && forall i :: 0 <= i < |k| ==> Bare(k[i]) }

  lemma {:induction false} BareSpanStops(k: string, rest: string)
    requires (forall i :: 0 <= i < |k| ==> Bare(k[i])) && rest != "" && !Bare(rest[0])
    ensures BareSpan(k + rest) == |k|
  {
    if k == "" {
      assert k + rest == rest;
    } else {
      assert (k + rest)[0] == k[0] && (k + rest)[1..] == k[1..] + rest;
      BareSpanStops(k[1..], rest);
    }
  }

  lemma TrimOneSpace(s: string)
    requires s != "" && !Space(s[0])
    ensures TrimLeft(" " + s) == s && TrimLeft(s) == s
  {
    assert (" " + s)[1..] == s;
  }

  /** Past the key, an equals sign and the value. */
  lemma AfterKey(w: string)
    requires w != "" && !Space(w[0])
    ensures var after := TrimLeft(" = " + w);
            after != "" && after[0] == '=' && TrimLeft(after[1..]) == w
  {
    var e := "= " + w;
    assert " = " + w == " " + e;
    TrimOneSpace(e);
    assert e[1..] == " " + w;
    TrimOneSpace(w);
  }

  lemma QuotedParses(k: string, v: string)
    ensures ParseValue(k, Quoted(v)) == Pair(k, Str(v))
  {
    var s := Quoted(v);
    EscapeIsOneLine(v);
    if v == "" {
      assert |s| == 2;
    } else {
      assert s[1] == Escape(v)[0];
      assert s[..3][1] == s[1];
    }
    assert s[1..] == Escape(v) + "\"" + "";
    EscapeScans(v, "");
  }

  lemma PairLine(line: string, n: nat, after: string)
    requires line != "" && Bare(line[0]) && BareSpan(line) == n && n > 0
    requires after == TrimLeft(line[n..]) && after != "" && after[0] == '='
    ensures ParseLine(line) == ParseValue(line[..n], TrimLeft(after[1..]))
  {
  }

  /** A line of a bare key, an equals sign and a value reads as that value under that key. */
  lemma ValueLineParses(k: string, w: string)
    requires BareKey(k) && w != "" && !Space(w[0])
    ensures ParseLine(k + " = " + w) == ParseValue(k, w)
  {
    var line, tail := k + " = " + w, " = " + w;
    assert line == k + tail by { Regroup("", k, " = ", w); }
    assert line[0] == k[0] && Bare(line[0]);
    BareSpanStops(k, tail);
    assert line[|k|..] == tail && line[..|k|] == k;
    AfterKey(w);
    PairLine(line, |k|, TrimLeft(tail));
  }

  /** A key's line reads back as that key with that value, whatever characters the value holds. */
  lemma KeyLineParses(k: string, v: string)
    requires BareKey(k)
    ensures ParseLine(KeyLine(k, v)) == Pair(k, Str(v))
  {
    ValueLineParses(k, Quoted(v));
    QuotedParses(k, v);
  }

  lemma KeyLineIsOneLine(k: string, v: string)
    requires BareKey(k)
    ensures '\n' !in KeyLine(k, v)
  {
    EscapeIsOneLine(v);
  }

  // --- lines ---

  lemma Regroup(a: string, b: string, c: string, d: string)
    ensures a + b + c + d == a + b + (c + d)
  {
  }

  lemma Uncons<T>(xs: seq<T>, ys: seq<T>)
    requires xs != []
    ensures [xs[0]] + (xs[1..] + ys) == xs + ys
  {
  }

  lemma {:induction false} TerminatedLines(lines: seq<string>, rest: string)
    requires forall i :: 0 <= i < |lines| ==> '\n' !in lines[i]
    ensures Lines(Terminated(lines) + rest) == lines + Lines(rest)
    decreases |lines|
  {
    if lines == [] {
      assert Terminated(lines) + rest == rest;
      assert lines + Lines(rest) == Lines(rest);
    } else {
      var more := Terminated(lines[1..]) + rest;
      calc {
        Lines(Terminated(lines) + rest);
        { Regroup(lines[0], "\n", Terminated(lines[1..]), rest); }
        Lines(lines[0] + "\n" + more);
        { FirstPiece(lines[0], '\n', more); }
        [lines[0]] + Lines(more);
        { TerminatedLines(lines[1..], rest); }
        [lines[0]] + (lines[1..] + Lines(rest));
        { Uncons(lines, Lines(rest)); }
        lines + Lines(rest);
      }
    }
  }

  // --- reading on with more keys already defined ---

  /** r with the bindings of m at top level as well. */
  function WithTop(r: Reader, m: Table): Reader { r.(doc := r.doc.(top := m + r.doc.top)) }

  /** No name of m is a top-level key or a table of d. */
  predicate Clear(m: Table, d: Document) { m.Keys !! d.top.Keys && m.Keys !! d.tables.Keys }

  /** Reading only ever defines more. */
  lemma ReadLineGrows(r: Reader, line: string)
    requires ReadLine(r, line).Some?
    ensures r.doc.top.Keys <= ReadLine(r, line).value.doc.top.Keys
    ensures r.doc.tables.Keys <= ReadLine(r, line).value.doc.tables.Keys
  {
  }

  lemma {:induction false} ReadLinesGrow(r: Reader, lines: seq<string>)
    requires ReadLines(r, lines).Some?
    ensures r.doc.top.Keys <= ReadLines(r, lines).value.doc.top.Keys
    ensures r.doc.tables.Keys <= ReadLines(r, lines).value.doc.tables.Keys
    decreases |lines|
  {
    if lines != [] {
      ReadLineGrows(r, lines[0]);
      ReadLinesGrow(ReadLine(r, lines[0]).value, lines[1..]);
    }
  }

  lemma DefineWithTop(r: Reader, m: Table, key: string, v: Value)
    requires Clear(m, r.doc) && Define(r, key, v).Some?
    ensures Define(WithTop(r, m), key, v) ==
            if Clear(m, Define(r, key, v).value.doc) then Some(WithTop(Define(r, key, v).value, m)) else None
  {
    var r' := Define(r, key, v).value;
    if r.here.None? {
      assert r'.doc.top == r.doc.top[key := v];
      assert (m + r.doc.top)[key := v] == m + r.doc.top[key := v];
      assert Clear(m, r'.doc) <==> key !in m;
    }
  }

  /** One line reads the same with m already defined, unless it is the line that defines a name of m. */
  lemma ReadLineWithTop(r: Reader, m: Table, line: string)
    requires Clear(m, r.doc) && ReadLine(r, line).Some?
    ensures ReadLine(WithTop(r, m), line) ==
            if Clear(m, ReadLine(r, line).value.doc) then Some(WithTop(ReadLine(r, line).value, m)) else None
  {
    if r.open.Some? {
      if Closing(line).Some? {
        DefineWithTop(r.(open := None, text := ""), m, r.open.value, Multiline(r.text + "\n" + line[..Closing(line).value]));
      }
    } else {
      match ParseLine(line)
      case Pair(key, v) => DefineWithTop(r, m, key, v);
      case Opens(key, text) =>
        if Closing(text).Some? && ReadLine(r, line).value.open.None? {
          DefineWithTop(r, m, key, Multiline(text[..Closing(text).value]));
        }
      case Header(name) =>
        assert Clear(m, ReadLine(r, line).value.doc) <==> name !in m;
      case _ =>
    }
  }

  /** A whole text reads the same with m already defined when it defines no name of m, and otherwise does not read. */
  lemma {:induction false} ReadLinesWithTop(r: Reader, m: Table, lines: seq<string>)
    requires Clear(m, r.doc) && ReadLines(r, lines).Some?
    ensures ReadLines(WithTop(r, m), lines) ==
            if Clear(m, ReadLines(r, lines).value.doc) then Some(WithTop(ReadLines(r, lines).value, m)) else None
    decreases |lines|
  {
    if lines != [] {
      ReadLineWithTop(r, m, lines[0]);
      var r' := ReadLine(r, lines[0]).value;
      if Clear(m, r'.doc) {
        ReadLinesWithTop(r', m, lines[1..]);
      } else {
        ReadLinesGrow(r', lines[1..]);
      }
    }
  }

  lemma {:induction false} ReadLinesConcat(r: Reader, a: seq<string>, b: seq<string>)
    ensures ReadLines(r, a + b) == match ReadLines(r, a) case None => None case Some(e) => ReadLines(e, b)
    decreases |a|
  {
    if a == [] {
      assert a + b == b;
    } else {
      assert (a + b)[0] == a[0] && (a + b)[1..] == a[1..] + b;
      match ReadLine(r, a[0])
      case None =>
      case Some(e) => ReadLinesConcat(e, a[1..], b);
    }
  }

  // --- the merge ---

  /** Reading one more key at top level. */
  lemma ReadKeyLine(m: Table, k: string, v: string)
    requires BareKey(k) && v != "" && k !in m
    ensures ReadLine(WithTop(Fresh, m), KeyLine(k, v)) == Some(WithTop(Fresh, m + map[k := Str(v)]))
  {
    KeyLineParses(k, v);
    assert (m + map[])[k := Str(v)] == m + map[k := Str(v)] + map[];
  }

  /** Adding a key when it has a value, to the lines and to what they define alike. */
  lemma ReadOptionalKey(m: Table, k: string, v: string)
    requires BareKey(k) && k !in m
    ensures ReadLines(WithTop(Fresh, m), OptionalLine(k, v)) == Some(WithTop(Fresh, m + OptionalBinding(k, v)))
  {
    if v != "" {
      ReadKeyLine(m, k, v);
      var r := WithTop(Fresh, m + map[k := Str(v)]);
      assert ReadLines(r, []) == Some(r);
      assert [KeyLine(k, v)][1..] == [];
    } else {
      assert m + map[] == m;
    }
  }

  /** Reading one more optional key after lines that have defined m. */
  lemma ReadAnotherKey(lines: seq<string>, m: Table, k: string, v: string)
    requires ReadLines(Fresh, lines) == Some(WithTop(Fresh, m))
    requires BareKey(k) && k !in m
    ensures ReadLines(Fresh, lines + OptionalLine(k, v)) == Some(WithTop(Fresh, m + OptionalBinding(k, v)))
  {
    ReadLinesConcat(Fresh, lines, OptionalLine(k, v));
    ReadOptionalKey(m, k, v);
  }

  lemma KeysAreBare()
    ensures BareKey(API) && BareKey(ISSUER) && BareKey(CLIENT_ID)
    ensures API != ISSUER && API != CLIENT_ID && ISSUER != CLIENT_ID
  {
    assert API[0] != ISSUER[0] && API[0] != CLIENT_ID[0] && ISSUER[0] != CLIENT_ID[0];
  }

  /** Three optional keys in turn. */
  lemma ReadThreeKeys(k: string, v: string, k': string, v': string, k'': string, v'': string)
    requires BareKey(k) && BareKey(k') && BareKey(k'') && k != k' && k != k'' && k' != k''
    ensures ReadLines(Fresh, OptionalLine(k, v) + OptionalLine(k', v') + OptionalLine(k'', v''))
         == Some(WithTop(Fresh, OptionalBinding(k, v) + OptionalBinding(k', v') + OptionalBinding(k'', v'')))
  {
    var m := OptionalBinding(k, v);
    assert WithTop(Fresh, map[]) == Fresh && map[] + m == m;
    ReadOptionalKey(map[], k, v);
    ReadAnotherKey(OptionalLine(k, v), m, k', v');
    ReadAnotherKey(OptionalLine(k, v) + OptionalLine(k', v'), m + OptionalBinding(k', v'), k'', v'');
  }

  lemma ReadKeyLines(m: LoginKeys)
    ensures ReadLines(Fresh, KeyLines(m)) == Some(WithTop(Fresh, Bindings(m)))
  {
    KeysAreBare();
    ReadThreeKeys(API, m.api, ISSUER, m.issuer, CLIENT_ID, m.clientID);
  }

  lemma KeyLinesAreLines(m: LoginKeys)
    ensures forall i :: 0 <= i < |KeyLines(m)| ==> '\n' !in KeyLines(m)[i]
  {
    KeysAreBare();
    KeyLineIsOneLine(API, m.api);
    KeyLineIsOneLine(ISSUER, m.issuer);
    KeyLineIsOneLine(CLIENT_ID, m.clientID);
  }

  lemma EmptyLines()
    ensures Lines("") == [""]
  {
  }

  lemma BlankThenLines(s: string)
    ensures Lines("\n" + s) == [""] + Lines(s)
  {
    assert "" + "\n" + s == "\n" + s;
    FirstPiece("", '\n', s);
  }

  /** The keys' lines, then those of whatever the file holds after a blank line. */
  lemma MarshalledLines(m: LoginKeys, rest: string)
    ensures Lines(Marshal(m) + rest) == KeyLines(m) + Lines(rest)
  {
    KeyLinesAreLines(m);
    TerminatedLines(KeyLines(m), rest);
  }

  /** The lines that follow the keys' in the merged file. */
  function RestLines(existing: string): seq<string> {
    [""] + if |existing| > 0 then Lines(existing) else []
  }

  lemma MergedLines(m: LoginKeys, existing: string)
    ensures Lines(Merged(m, existing)) == KeyLines(m) + RestLines(existing)
  {
    if |existing| > 0 {
      calc {
        Lines(Merged(m, existing));
        { Regroup("", Marshal(m), "\n", existing); assert "" + Marshal(m) == Marshal(m); }
        Lines(Marshal(m) + ("\n" + existing));
        { MarshalledLines(m, "\n" + existing); }
        KeyLines(m) + Lines("\n" + existing);
        { BlankThenLines(existing); }
        KeyLines(m) + RestLines(existing);
      }
    } else {
      calc {
        Lines(Merged(m, existing));
        { assert Marshal(m) + "" == Marshal(m); }
        Lines(Marshal(m) + "");
        { MarshalledLines(m, ""); EmptyLines(); }
        KeyLines(m) + [""];
        { assert [""] + [] == [""]; }
        KeyLines(m) + RestLines(existing);
      }
    }
  }

  /** What the file's own lines add once the keys and a blank line are read, when no mark stands before them. */
  lemma ReadRest(m: Table, existing: string)
    requires !Marked(existing) && ReadLines(Fresh, Lines(existing)).Some?
    ensures var e := ReadLines(Fresh, Lines(existing)).value;
            ReadLines(WithTop(Fresh, m), RestLines(existing)) == if Clear(m, e.doc) then Some(WithTop(e, m)) else None
  {
    var start := WithTop(Fresh, m);
    var tail := if |existing| > 0 then Lines(existing) else [];
    assert ReadLine(start, "") == Some(start);
    assert ([""] + tail)[0] == "" && ([""] + tail)[1..] == tail;
    if |existing| > 0 {
      ReadLinesWithTop(Fresh, m, Lines(existing));
    } else {
      assert Lines(existing) == [""] && [""][1..] == [];
      assert ReadLine(Fresh, "") == Some(Fresh);
    }
  }

  /** A mark opens the first line it stands in. */
  lemma MarkedLine(s: string)
    requires Marked(s)
    ensures Marked(Lines(s)[0])
  {
    assert Index(s, '\n') > 0;
  }

  lemma MarkedLineIsBad(line: string)
    requires Marked(line)
    ensures ParseLine(line).Bad?
  {
    assert TrimLeft(line) == line && BareSpan(line) == 0;
  }

  /** Below anything at all a mark is no longer passed over, and no line starts with it. */
  lemma MarkedRest(m: Table, existing: string)
    requires Marked(existing)
    ensures ReadLines(WithTop(Fresh, m), RestLines(existing)) == None
  {
    var start, tail := WithTop(Fresh, m), Lines(existing);
    assert ReadLine(start, "") == Some(start);
    assert ([""] + tail)[0] == "" && ([""] + tail)[1..] == tail;
    MarkedLine(existing);
    MarkedLineIsBad(tail[0]);
  }

  /** The merged file never starts with a mark. */
  lemma MergedIsUnmarked(m: LoginKeys, existing: string)
    ensures !Marked(Merged(m, existing))
  {
    KeysAreBare();
    var lines := KeyLines(m);
    if lines != [] {
      assert Marshal(m) == lines[0] + "\n" + Terminated(lines[1..]);
      assert lines[0] == KeyLine(API, m.api) || lines[0] == KeyLine(ISSUER, m.issuer) || lines[0] == KeyLine(CLIENT_ID, m.clientID);
      assert Merged(m, existing)[0] == lines[0][0];
    }
  }

  lemma SuffixOf(a: string, b: string)
    ensures (a + b)[|a + b| - |b|..] == b
  {
  }

  /**
   The merge: Save's file parses exactly when the file before it defined none of the
   names being added and did not start with a byte order mark. It then holds the old
   bindings plus exactly the missing keys at top level, and every table as it was. The
   old text is its end in any case.
   */
  lemma MergeKeepsMeaning(m: LoginKeys, existing: string)
    requires Parse(existing).Some?
    ensures var before, merged := Parse(existing).value, Parse(Merged(m, existing));
            && (merged.Some? <==> Clear(Bindings(m), before) && !Marked(existing))
            && (merged.Some? ==>
                  && merged.value.top == Bindings(m) + before.top
                  && merged.value.top.Keys == Bindings(m).Keys + before.top.Keys
                  && merged.value.tables == before.tables)
    ensures |existing| <= |Merged(m, existing)|
    ensures Merged(m, existing)[|Merged(m, existing)| - |existing|..] == existing
  {
    MergedIsUnmarked(m, existing);
    calc {
      ReadLines(Fresh, Lines(Merged(m, existing)));
      { MergedLines(m, existing);
        ReadLinesConcat(Fresh, KeyLines(m), RestLines(existing));
        ReadKeyLines(m); }
      ReadLines(WithTop(Fresh, Bindings(m)), RestLines(existing));
    }
    if Marked(existing) {
      MarkedRest(Bindings(m), existing);
    } else {
      ReadRest(Bindings(m), existing);
    }
    SuffixOf(Marshal(m) + "\n", existing);
  }
}
