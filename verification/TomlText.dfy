/**
 Config files as they are written: what a document looks like as text, and that reading
 it gives the same document back, key by key, table by table and item by item.
 */
module TomlText {
  import opened Basics
  import opened Toml
  import opened Merge

  /** A line of a section: nothing, a comment, or a key and its value, indented or not, before a note or none. */
  datatype Row = Empty | Comment(text: string) | Set(pad: string, key: string, value: Value, note: string)

  datatype Section = Section(name: string, rows: seq<Row>)

  // --- values as text ---

  function ItemsText(items: seq<string>): string {
    if items == [] then ""
    else if |items| == 1 then Quoted(items[0])
    else Quoted(items[0]) + ", " + ItemsText(items[1..])
  }

  function ValueText(v: Value): string {
    match v
    case Str(s) => Quoted(s)
    case Strs(items) => "[" + (ItemsText(items) + "]")
    case Scalar(raw) => raw
  }

  /** A note is a comment behind the value. */
  function NoteText(note: string): string { if note == "" then "" else " #" + note }

  function RowText(r: Row): string {
    match r
    case Empty => ""
    case Comment(text) => "#" + text
    case Set(pad, key, value, note) => pad + (key + " = " + (ValueText(value) + NoteText(note)))
  }

  predicate Blanks(s: string) { forall i :: 0 <= i < |s| ==> Space(s[i]) }

  predicate RowOk(r: Row) {
    match r
    case Empty => true
    case Comment(text) => '\n' !in text
    case Set(pad, key, value, note) =>
      Blanks(pad) && BareKey(key) && (value.Scalar? ==> IsScalar(value.raw)) && '\n' !in note
  }

  /** What may stand behind a value. */
  lemma NoteEnds(note: string)
    ensures EndsLine(NoteText(note)) && (note != "" ==> NoteText(note)[0] == ' ')
  {
    if note != "" {
      TrimOneSpace("#" + note);
      assert " #" + note == " " + ("#" + note);
    }
  }

  /** A quoted item, read off the front of what follows it. */
  lemma ItemScans(v: string, after: string)
    ensures var s := Quoted(v) + after;
            s[0] == '\"' && TrimLeft(s) == s && TrimLeft(" " + s) == s && ScanString(s[1..]) == Some((v, after))
  {
    var s := Quoted(v) + after;
    assert s[1..] == Escape(v) + "\"" + after;
    EscapeScans(v, after);
    TrimOneSpace(s);
  }

  lemma ClosedItems(pad: string, tail: string)
    requires (pad == "" || pad == " ") && EndsLine(tail)
    ensures ScanItems(pad + ("]" + tail)) == Some([])
  {
    var s := "]" + tail;
    assert TrimLeft(s) == s && s[1..] == tail;
    if pad == " " {
      TrimOneSpace(s);
    } else {
      assert pad + s == s;
    }
  }

  lemma OneItem(s: string, v: string, tail: string)
    requires TrimLeft(s) == Quoted(v) + ("]" + tail) && EndsLine(tail)
    ensures ScanItems(s) == Some([v])
  {
    var after := "]" + tail;
    ItemScans(v, after);
    assert TrimLeft(after) == after && after[1..] == tail;
  }

  lemma MoreItems(s: string, v: string, rest: string, items: seq<string>)
    requires TrimLeft(s) == Quoted(v) + ("," + rest) && |rest| < |s| && ScanItems(rest) == Some(items)
    ensures ScanItems(s) == Some([v] + items)
  {
    var after := "," + rest;
    ItemScans(v, after);
    assert TrimLeft(after) == after && after[1..] == rest;
  }

  /** What follows the first item: the closing bracket, or a comma and the other items. */
  function AfterFirst(items: seq<string>, tail: string): string
    requires items != []
  {
    if |items| == 1 then "]" + tail else "," + (" " + (ItemsText(items[1..]) + ("]" + tail)))
  }

  lemma ItemsShape(items: seq<string>, tail: string)
    requires items != []
    ensures ItemsText(items) + ("]" + tail) == Quoted(items[0]) + AfterFirst(items, tail)
  {
  }

  lemma Padded(pad: string, v: string, after: string)
    requires pad == "" || pad == " "
    ensures TrimLeft(pad + (Quoted(v) + after)) == Quoted(v) + after
  {
    ItemScans(v, after);
    assert "" + (Quoted(v) + after) == Quoted(v) + after;
  }

  lemma ItemsScanOne(pad: string, items: seq<string>, tail: string)
    requires (pad == "" || pad == " ") && |items| == 1 && EndsLine(tail)
    ensures ScanItems(pad + (ItemsText(items) + ("]" + tail))) == Some(items)
  {
    ItemsShape(items, tail);
    Padded(pad, items[0], "]" + tail);
    OneItem(pad + (ItemsText(items) + ("]" + tail)), items[0], tail);
    assert items == [items[0]];
  }

  lemma ItemsScanMore(pad: string, items: seq<string>, tail: string, rest: string)
    requires (pad == "" || pad == " ") && |items| > 1
    requires rest == " " + (ItemsText(items[1..]) + ("]" + tail)) && ScanItems(rest) == Some(items[1..])
    ensures ScanItems(pad + (ItemsText(items) + ("]" + tail))) == Some(items)
  {
    ItemsShape(items, tail);
    Padded(pad, items[0], "," + rest);
    MoreItems(pad + (ItemsText(items) + ("]" + tail)), items[0], rest, items[1..]);
    assert items == [items[0]] + items[1..];
  }

  /** An array's items come back in their order, whatever characters they hold. */
  lemma {:induction false} ItemsScan(pad: string, items: seq<string>, tail: string)
    requires (pad == "" || pad == " ") && EndsLine(tail)
    ensures ScanItems(pad + (ItemsText(items) + ("]" + tail))) == Some(items)
    decreases |items|
  {
    if items == [] {
      assert ItemsText(items) + ("]" + tail) == "]" + tail;
      ClosedItems(pad, tail);
    } else if |items| == 1 {
      ItemsScanOne(pad, items, tail);
    } else {
      ItemsScan(" ", items[1..], tail);
      ItemsScanMore(pad, items, tail, " " + (ItemsText(items[1..]) + ("]" + tail)));
    }
  }

  /** No character that a value could start or end with for another reason. */
  predicate ScalarChar(c: char) { ' ' < c < 127 as char && c != '#' && c != '\"' && c != '\'' && c != '[' }

  lemma ScalarsArePlain(raw: string)
    requires IsScalar(raw)
    ensures raw != "" && forall i :: 0 <= i < |raw| ==> ScalarChar(raw[i])
  {
    if raw != "true" && raw != "false" {
      var signed := raw != "" && raw[0] in "+-";
      var unsigned := if signed then raw[1..] else raw;
      var point := Index(unsigned, '.');
      assert Whole(unsigned[..point]) && unsigned[..point] != "";
      forall i | 0 <= i < |unsigned| ensures ScalarChar(unsigned[i]) {
        if i < point {
          assert unsigned[i] == unsigned[..point][i];
        } else if i > point {
          assert unsigned[i] == unsigned[point + 1..][i - point - 1];
        }
      }
      if signed {
        assert forall i :: 1 <= i < |raw| ==> raw[i] == unsigned[i - 1];
      }
    }
  }

  lemma {:induction false} OnlyNotesAreTrimmed(raw: string, note: string)
    requires raw != "" && forall i :: 0 <= i < |raw| ==> !Space(raw[i]) && raw[i] != '#'
    ensures var s := raw + NoteText(note); TrimRight(s[..Index(s, '#')]) == raw
  {
    var s := raw + NoteText(note);
    if note == "" {
      assert s == raw && s[..|s|] == s;
    } else {
      assert s[|raw| + 1] == '#' && forall i :: 0 <= i < |raw| + 1 ==> s[i] != '#';
      assert Index(s, '#') == |raw| + 1;
      assert s[..|raw| + 1] == raw + " " && (raw + " ")[..|raw|] == raw;
    }
    assert TrimRight(raw) == raw;
  }

  lemma ParseUnquoted(key: string, s: string, raw: string)
    requires s != "" && s[0] != '\"' && s[0] != '\'' && s[0] != '['
    requires TrimRight(s[..Index(s, '#')]) == raw && IsScalar(raw)
    ensures ParseValue(key, s) == Pair(key, Scalar(raw))
  {
    if |s| >= 3 {
      assert s[..3][0] == s[0];
    }
  }

  lemma ScalarParses(key: string, raw: string, note: string)
    requires IsScalar(raw)
    ensures ParseValue(key, raw + NoteText(note)) == Pair(key, Scalar(raw))
  {
    ScalarsArePlain(raw);
    OnlyNotesAreTrimmed(raw, note);
    assert (raw + NoteText(note))[0] == raw[0];
    ParseUnquoted(key, raw + NoteText(note), raw);
  }

  lemma ParseArray(key: string, inner: string, items: seq<string>)
    requires ScanItems(inner) == Some(items)
    ensures ParseValue(key, "[" + inner) == Pair(key, Strs(items))
  {
    var s := "[" + inner;
    assert s[0] == '[' && s[1..] == inner;
    if |s| >= 3 {
      assert s[..3][0] == s[0];
    }
  }

  lemma ArrayParses(key: string, items: seq<string>, note: string)
    ensures ParseValue(key, ValueText(Strs(items)) + NoteText(note)) == Pair(key, Strs(items))
  {
    var tail := NoteText(note);
    var inner := ItemsText(items) + ("]" + tail);
    NoteEnds(note);
    ItemsScan("", items, tail);
    assert "" + inner == inner;
    assert "[" + (ItemsText(items) + "]") + tail == "[" + inner;
    ParseArray(key, inner, items);
  }

  /** A string that is not empty, or stands before no third quote, opens no multi-line one. */
  lemma TwoQuotes(v: string, tail: string)
    requires tail != "" ==> tail[0] != '\"'
    ensures var s := Quoted(v) + tail; |s| >= 3 ==> s[..3] != "\"\"\""
  {
    var s := Quoted(v) + tail;
    EscapeIsOneLine(v);
    if |s| >= 3 {
      if v == "" {
        assert s[2] == tail[0] && s[..3][2] == s[2];
      } else {
        assert s[1] == Escape(v)[0] && s[..3][1] == s[1];
      }
    }
  }

  lemma StringParses(key: string, v: string, note: string)
    ensures ParseValue(key, Quoted(v) + NoteText(note)) == Pair(key, Str(v))
  {
    var tail := NoteText(note);
    NoteEnds(note);
    TwoQuotes(v, tail);
    ItemScans(v, tail);
  }

  lemma ValueStarts(v: Value, tail: string)
    requires v.Scalar? ==> IsScalar(v.raw)
    ensures ValueText(v) + tail != "" && !Space((ValueText(v) + tail)[0])
  {
    if v.Scalar? {
      ScalarsArePlain(v.raw);
    }
    assert (ValueText(v) + tail)[0] == ValueText(v)[0];
  }

  lemma {:induction false} IndentIsTrimmed(pad: string, s: string)
    requires Blanks(pad) && s != "" && !Space(s[0])
    ensures TrimLeft(pad + s) == s
    decreases |pad|
  {
    if pad == "" {
      assert pad + s == s;
    } else {
      assert (pad + s)[0] == pad[0] && (pad + s)[1..] == pad[1..] + s;
      IndentIsTrimmed(pad[1..], s);
    }
  }

  /** Indentation makes no difference to a line. */
  lemma IndentedParses(pad: string, line: string)
    requires Blanks(pad) && line != "" && !Space(line[0])
    ensures ParseLine(pad + line) == ParseLine(line)
  {
    IndentIsTrimmed(pad, line);
    assert TrimLeft(line) == line;
  }

  lemma ValueReads(key: string, v: Value, note: string)
    requires v.Scalar? ==> IsScalar(v.raw)
    ensures ParseValue(key, ValueText(v) + NoteText(note)) == Pair(key, v)
  {
    match v
    case Str(s) => StringParses(key, s, note);
    case Strs(items) => ArrayParses(key, items, note);
    case Scalar(raw) => ScalarParses(key, raw, note);
  }

  /** A row reads as what it was written for. */
  lemma RowParses(r: Row)
    requires RowOk(r)
    ensures ParseLine(RowText(r)) == if r.Set? then Pair(r.key, r.value) else Blank
  {
    if r.Set? {
      var written := ValueText(r.value) + NoteText(r.note);
      var line := r.key + " = " + written;
      ValueStarts(r.value, NoteText(r.note));
      ValueLineParses(r.key, written);
      ValueReads(r.key, r.value, r.note);
      assert line[0] == r.key[0] && Bare(line[0]);
      IndentedParses(r.pad, line);
    }
  }

  /** A string between single quotes is taken as it stands. */
  lemma LiteralParses(key: string, s: string)
    requires '\'' !in s && forall i :: 0 <= i < |s| ==> !Control(s[i]) || s[i] == '\t'
    ensures ParseValue(key, "'" + s + "'") == Pair(key, Str(s))
  {
    var t := "'" + s + "'";
    assert t[1..] == s + "'";
    assert t[1..][|s|] == '\'' && forall i :: 0 <= i < |s| ==> t[1..][i] == s[i];
    assert Index(t[1..], '\'') == |s|;
    assert t[1..|s| + 1] == s && t[|s| + 2..] == "";
    assert forall i :: 1 <= i < |s| + 1 ==> t[i] == s[i - 1];
  }

  // --- sections ---

  function RowTexts(rows: seq<Row>): seq<string> {
    if rows == [] then [] else [RowText(rows[0])] + RowTexts(rows[1..])
  }

  predicate RowsOk(rows: seq<Row>) { forall i :: 0 <= i < |rows| ==> RowOk(rows[i]) }

  /** The keys set, in order. */
  function Keys(rows: seq<Row>): seq<string> {
    if rows == [] then [] else (if rows[0].Set? then [rows[0].key] else []) + Keys(rows[1..])
  }

  /** A table with this row besides. */
  function WithRow(t: Table, row: Row): Table { if row.Set? then t[row.key := row.value] else t }

  function With(t: Table, rows: seq<Row>): Table
    decreases |rows|
  {
    if rows == [] then t else With(WithRow(t, rows[0]), rows[1..])
  }

  predicate Distinct(names: seq<string>) { forall i, j :: 0 <= i < j < |names| ==> names[i] != names[j] }

  /** A reader at top level, or inside a table it has. */
  predicate Somewhere(r: Reader) { r.open.None? && (r.here.Some? ==> r.here.value in r.doc.tables) }

  /** The reader once these rows are read where it is. */
  function Filled(r: Reader, rows: seq<Row>): Reader
    requires Somewhere(r)
  {
    match r.here
    case None => r.(doc := r.doc.(top := With(r.doc.top, rows)))
    case Some(t) => r.(doc := r.doc.(tables := r.doc.tables[t := With(r.doc.tables[t], rows)]))
  }

  /** The reader once one row is. */
  function FilledOnce(r: Reader, row: Row): Reader
    requires Somewhere(r)
  {
    match r.here
    case None => r.(doc := r.doc.(top := WithRow(r.doc.top, row)))
    case Some(t) => r.(doc := r.doc.(tables := r.doc.tables[t := WithRow(r.doc.tables[t], row)]))
  }

  /** A row's key and value go into the table being filled, and nowhere else. */
  lemma ReadRow(r: Reader, row: Row)
    requires Somewhere(r) && RowOk(row) && (row.Set? ==> !Defined(r, row.key))
    ensures ReadLine(r, RowText(row)) == Some(FilledOnce(r, row))
  {
    RowParses(row);
    if r.here.Some? {
      assert r.doc.tables[r.here.value := r.doc.tables[r.here.value]] == r.doc.tables;
    }
  }

  lemma FilledTwice(r: Reader, rows: seq<Row>)
    requires Somewhere(r) && rows != []
    ensures Somewhere(FilledOnce(r, rows[0]))
    ensures Filled(FilledOnce(r, rows[0]), rows[1..]) == Filled(r, rows)
  {
    if r.here.Some? {
      var t := r.here.value;
      var once := WithRow(r.doc.tables[t], rows[0]);
      assert r.doc.tables[t := once][t := With(once, rows[1..])] == r.doc.tables[t := With(once, rows[1..])];
    }
  }

  lemma OneDefinition(r: Reader, row: Row, key: string)
    requires Somewhere(r)
    ensures Defined(FilledOnce(r, row), key) <==> Defined(r, key) || (row.Set? && row.key == key)
  {
  }

  lemma {:induction false} ReadRows(r: Reader, rows: seq<Row>)
    requires Somewhere(r) && RowsOk(rows) && Distinct(Keys(rows)) && forall key :: key in Keys(rows) ==> !Defined(r, key)
    ensures ReadLines(r, RowTexts(rows)) == Some(Filled(r, rows))
    decreases |rows|
  {
    if rows == [] {
      if r.here.Some? {
        assert r.doc.tables[r.here.value := r.doc.tables[r.here.value]] == r.doc.tables;
      }
    } else {
      var row, rest := rows[0], Keys(rows[1..]);
      FilledTwice(r, rows);
      assert row.Set? ==> Keys(rows)[0] == row.key && forall i :: 0 <= i < |rest| ==> rest[i] == Keys(rows)[i + 1];
      assert !row.Set? ==> Keys(rows) == rest;
      ReadRow(r, row);
      forall key | key in rest ensures !Defined(FilledOnce(r, row), key) {
        OneDefinition(r, row, key);
      }
      ReadRows(FilledOnce(r, row), rows[1..]);
      assert RowTexts(rows)[1..] == RowTexts(rows[1..]);
    }
  }

  function HeaderText(name: string): string { "[" + name + "]" }

  lemma {:induction false} BareIsTrimmed(name: string)
    requires BareKey(name)
    ensures TrimLeft(name) == name && TrimRight(name) == name && ']' !in name && BareSpan(name) == |name|
  {
    assert Bare(name[0]) && Bare(name[|name| - 1]);
    AllBare(name);
  }

  lemma {:induction false} AllBare(s: string)
    requires forall i :: 0 <= i < |s| ==> Bare(s[i])
    ensures BareSpan(s) == |s|
  {
    if s != "" {
      AllBare(s[1..]);
    }
  }

  lemma HeaderParses(name: string)
    requires BareKey(name)
    ensures ParseLine(HeaderText(name)) == Header(name)
  {
    var t := HeaderText(name);
    BareIsTrimmed(name);
    assert forall i :: 0 <= i < |name| ==> t[i + 1] == name[i];
    assert t[|name| + 1] == ']' && forall i :: 0 <= i < |name| + 1 ==> t[i] != ']';
    assert Index(t, ']') == |name| + 1;
    assert t[1..|name| + 1] == name && t[|name| + 2..] == "";
  }

  function SectionTexts(s: Section): seq<string> { [HeaderText(s.name)] + RowTexts(s.rows) }

  function SectionsTexts(sections: seq<Section>): seq<string> {
    if sections == [] then [] else SectionTexts(sections[0]) + SectionsTexts(sections[1..])
  }

  predicate SectionOk(s: Section) { BareKey(s.name) && RowsOk(s.rows) && Distinct(Keys(s.rows)) }

  /** A document with these sections as tables besides. */
  function WithSections(d: Document, sections: seq<Section>): Document
    decreases |sections|
  {
    if sections == [] then d
    else WithSections(d.(tables := d.tables[sections[0].name := With(map[], sections[0].rows)]), sections[1..])
  }

  /** No section's name is taken. */
  predicate Apart(d: Document, sections: seq<Section>) {
    && (forall i :: 0 <= i < |sections| ==> sections[i].name !in d.top && sections[i].name !in d.tables)
    && (forall i, j :: 0 <= i < j < |sections| ==> sections[i].name != sections[j].name)
  }

  /** A header starts a table of its own, which the rows below it fill. */
  lemma ReadSection(r: Reader, s: Section)
    requires r.open.None? && SectionOk(s) && s.name !in r.doc.top && s.name !in r.doc.tables
    ensures ReadLines(r, SectionTexts(s)) ==
            Some(r.(doc := r.doc.(tables := r.doc.tables[s.name := With(map[], s.rows)]), here := Some(s.name)))
  {
    HeaderParses(s.name);
    var begun := r.(doc := r.doc.(tables := r.doc.tables[s.name := map[]]), here := Some(s.name));
    assert ReadLine(r, HeaderText(s.name)) == Some(begun);
    ReadRows(begun, s.rows);
    assert SectionTexts(s)[1..] == RowTexts(s.rows);
    assert r.doc.tables[s.name := map[]][s.name := With(map[], s.rows)] == r.doc.tables[s.name := With(map[], s.rows)];
  }

  lemma {:induction false} ReadSections(r: Reader, sections: seq<Section>)
    requires r.open.None? && Apart(r.doc, sections) && forall i :: 0 <= i < |sections| ==> SectionOk(sections[i])
    ensures ReadLines(r, SectionsTexts(sections)).Some?
    ensures var e := ReadLines(r, SectionsTexts(sections)).value; e.open.None? && e.doc == WithSections(r.doc, sections)
    decreases |sections|
  {
    if sections != [] {
      var s := sections[0];
      ReadSection(r, s);
      var r' := ReadLines(r, SectionTexts(s)).value;
      ReadLinesConcat(r, SectionTexts(s), SectionsTexts(sections[1..]));
      ReadSections(r', sections[1..]);
    }
  }

  // --- whole texts ---

  function DocumentTexts(top: seq<Row>, sections: seq<Section>): seq<string> { RowTexts(top) + SectionsTexts(sections) }

  predicate DocumentOk(top: seq<Row>, sections: seq<Section>) {
    && RowsOk(top) && Distinct(Keys(top)) && (forall i :: 0 <= i < |sections| ==> SectionOk(sections[i]))
    && Apart(Document(With(map[], top), map[]), sections)
  }

  lemma {:induction false} QuotedItemsAreOneLine(items: seq<string>)
    ensures '\n' !in ItemsText(items)
  {
    if items != [] {
      EscapeIsOneLine(items[0]);
      QuotedItemsAreOneLine(items[1..]);
    }
  }

  lemma ValueIsOneLine(v: Value)
    requires v.Scalar? ==> IsScalar(v.raw)
    ensures '\n' !in ValueText(v)
  {
    match v
    case Str(s) => EscapeIsOneLine(s);
    case Strs(items) => QuotedItemsAreOneLine(items);
    case Scalar(raw) => ScalarsArePlain(raw);
  }

  lemma RowIsOneLine(r: Row)
    requires RowOk(r)
    ensures '\n' !in RowText(r) && !Marked(RowText(r))
  {
    if r.Set? {
      assert '\n' !in r.pad && '\n' !in r.key && '\n' !in " = " && '\n' !in NoteText(r.note);
      ValueIsOneLine(r.value);
      assert RowText(r)[0] == if r.pad == "" then r.key[0] else r.pad[0];
    }
  }

  predicate PlainLines(lines: seq<string>) { forall i :: 0 <= i < |lines| ==> '\n' !in lines[i] && !Marked(lines[i]) }

  lemma PlainTogether(a: seq<string>, b: seq<string>)
    requires PlainLines(a) && PlainLines(b)
    ensures PlainLines(a + b)
  {
  }

  lemma {:induction false} RowsArePlain(rows: seq<Row>)
    requires RowsOk(rows)
    ensures PlainLines(RowTexts(rows))
  {
    if rows != [] {
      RowIsOneLine(rows[0]);
      RowsArePlain(rows[1..]);
    }
  }

  lemma {:induction false} SectionsArePlain(sections: seq<Section>)
    requires forall i :: 0 <= i < |sections| ==> SectionOk(sections[i])
    ensures PlainLines(SectionsTexts(sections))
  {
    if sections != [] {
      var s := sections[0];
      RowsArePlain(s.rows);
      assert '\n' !in s.name;
      PlainTogether([HeaderText(s.name)], RowTexts(s.rows));
      SectionsArePlain(sections[1..]);
      PlainTogether(SectionTexts(s), SectionsTexts(sections[1..]));
    }
  }

  lemma PlainIsUnmarked(lines: seq<string>)
    requires PlainLines(lines)
    ensures Unmarked(Terminated(lines)) == Terminated(lines)
  {
    if lines != [] {
      var s := Terminated(lines);
      assert s == lines[0] + "\n" + Terminated(lines[1..]);
      assert s[0] == if lines[0] == "" then '\n' else lines[0][0];
    }
  }

  lemma ReadDocument(top: seq<Row>, sections: seq<Section>)
    requires DocumentOk(top, sections)
    ensures ReadLines(Fresh, DocumentTexts(top, sections)).Some?
    ensures var e := ReadLines(Fresh, DocumentTexts(top, sections)).value;
            e.open.None? && e.doc == WithSections(Document(With(map[], top), map[]), sections)
  {
    ReadRows(Fresh, top);
    ReadLinesConcat(Fresh, RowTexts(top), SectionsTexts(sections));
    ReadSections(Filled(Fresh, top), sections);
  }

  /**
   A document written out, comments and blank lines among its rows, reads back as it is:
   the rows above the first header at top level, those below a header in its table alone,
   every string with its characters and every array with its items in order.
   */
  lemma DocumentReadsBack(top: seq<Row>, sections: seq<Section>)
    requires DocumentOk(top, sections)
    ensures Parse(Terminated(DocumentTexts(top, sections))) == Some(WithSections(Document(With(map[], top), map[]), sections))
  {
    var lines := DocumentTexts(top, sections);
    RowsArePlain(top);
    SectionsArePlain(sections);
    PlainTogether(RowTexts(top), SectionsTexts(sections));
    PlainIsUnmarked(lines);
    TerminatedLines(lines, "");
    assert Terminated(lines) + "" == Terminated(lines);
    EmptyLines();
    ReadDocument(top, sections);
    ReadLinesConcat(Fresh, lines, [""]);
    var e := ReadLines(Fresh, lines).value;
    assert ReadLine(e, "") == Some(e) && [""][1..] == [];
  }

  // --- multi-line strings ---

  function Broken(lines: seq<string>): string { if lines == [] then "" else "\n" + lines[0] + Broken(lines[1..]) }

  lemma {:induction false} NoneCloses(line: string)
    requires '\"' !in line
    ensures Closing(line).None?
  {
    if |line| >= 3 {
      assert line[..3][0] == line[0];
      NoneCloses(line[1..]);
    }
  }

  const QUOTES := "\"\"\""

  lemma ReadsQuotes(r: Reader, key: string)
    requires r.open == Some(key)
    ensures ReadLines(r, [QUOTES]) == Define(r.(open := None, text := ""), key, Multiline(r.text + "\n"))
  {
    assert Closing(QUOTES) == Some(0) && QUOTES[..0] == "" && QUOTES[3..] == "";
    assert r.text + "\n" + "" == r.text + "\n";
    assert ReadLine(r, QUOTES) == Define(r.(open := None, text := ""), key, Multiline(r.text + "\n"));
    OneLine(r, QUOTES);
  }

  lemma OneLine(r: Reader, line: string)
    ensures ReadLines(r, [line]) == ReadLine(r, line)
  {
    assert |[line][1..]| == 0;
  }

  lemma ReadsOneOn(r: Reader, line: string)
    requires r.open.Some? && '\"' !in line && Unescaped(line)
    ensures ReadLine(r, line) == Some(r.(text := r.text + "\n" + line))
  {
    NoneCloses(line);
  }

  lemma BrokenOn(text: string, body: seq<string>)
    requires body != []
    ensures text + "\n" + body[0] + Broken(body[1..]) == text + Broken(body)
  {
  }

  lemma {:induction false} ReadsOn(r: Reader, body: seq<string>)
    requires r.open.Some? && forall i :: 0 <= i < |body| ==> '\"' !in body[i] && Unescaped(body[i])
    ensures ReadLines(r, body) == Some(r.(text := r.text + Broken(body)))
    decreases |body|
  {
    if body == [] {
      assert r.text + "" == r.text;
    } else {
      ReadsOneOn(r, body[0]);
      BrokenOn(r.text, body);
      ReadsOn(r.(text := r.text + "\n" + body[0]), body[1..]);
    }
  }

  lemma OpensParses(key: string)
    requires BareKey(key)
    ensures ParseLine(key + " = " + QUOTES) == Opens(key, "")
  {
    ValueLineParses(key, QUOTES);
    assert QUOTES[..3] == QUOTES && QUOTES[3..] == "";
  }

  /** Lines between triple quotes are one string, without the line break after the opening ones. */
  lemma MultilineReads(r: Reader, key: string, body: seq<string>)
    requires r.open.None? && BareKey(key) && r.text == ""
    requires forall i :: 0 <= i < |body| ==> '\"' !in body[i] && Unescaped(body[i])
    ensures ReadLines(r, [key + " = " + QUOTES] + (body + [QUOTES])) == Define(r, key, Str((Broken(body) + "\n")[1..]))
  {
    var first := key + " = " + QUOTES;
    OpensParses(key);
    var r' := r.(open := Some(key), text := "");
    assert ReadLine(r, first) == Some(r');
    assert ([first] + (body + [QUOTES]))[1..] == body + [QUOTES];
    ReadsOn(r', body);
    ReadLinesConcat(r', body, [QUOTES]);
    assert "" + Broken(body) == Broken(body);
    ReadsQuotes(r'.(text := Broken(body)), key);
  }
}
