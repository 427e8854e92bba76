/** The product's config file as this package reads it, and what Save's addition to it reads back as. */
module ConfigFile {
  import opened Basics
  import opened Toml
  import opened Merge
  import opened Spelling
  import opened TokenCommand

  const TOKEN_COMMAND := "token_command"

  datatype ConfigFile = ConfigFile(keys: LoginKeys, tokenCommand: seq<string>)

  datatype Content = Absent | Unreadable | Text(text: string)

  datatype ConfigError =
    | NoConfigPath
    | CannotRead
    | Malformed
    | WrongType
    | EmptyValue(key: string)
    | NoProgram
    | NulInArgument

  /** The text of a file that can be read; a file that does not exist has none. */
  function TextOf(c: Content): string { if c.Text? then c.text else "" }

  /** Whether a text defines a key spelled exactly so. */
  predicate IsDefined(doc: Document, key: string) { key in doc.top || key in doc.tables }

  function Names(doc: Document): set<string> { doc.top.Keys + doc.tables.Keys }

  /**
   The decoder binds every spelling of a key to its field, in the order of a Go map,
   which is none. An Order says, field by field, which of the spellings comes last.
   */
  datatype Order = Order(api: nat, issuer: nat, clientID: nat, command: nat)

  /** The spelling of a key that is bound last, if the text has one. */
  function Last(doc: Document, key: string, n: nat): (name: Option<string>)
    ensures name.Some? ==> name.value in Spellings(Names(doc), key)
    ensures name.None? ==> Spellings(Names(doc), key) == []
  {
    var names := Spellings(Names(doc), key);
    if names == [] then None else Some(names[n % |names|])
  }

  predicate IsString(doc: Document, name: string) { name !in doc.tables && name in doc.top && doc.top[name].Str? }

  predicate IsArgv(doc: Document, name: string) { name !in doc.tables && name in doc.top && doc.top[name].Strs? }

  predicate AllStrings(doc: Document, key: string) {
    forall name :: name in Spellings(Names(doc), key) ==> IsString(doc, name)
  }

  predicate AllArgvs(doc: Document, key: string) {
    forall name :: name in Spellings(Names(doc), key) ==> IsArgv(doc, name)
  }

  /** A key decoded into a string field. Every spelling has to be a string, and a key without any leaves the field empty. */
  function StringKey(doc: Document, key: string, n: nat): Option<string> {
    if !AllStrings(doc, key) then None
    else
      var name := Last(doc, key, n);
      Some(if name.None? then "" else doc.top[name.value].s)
  }

  function CommandKey(doc: Document, n: nat): Option<seq<string>> {
    if !AllArgvs(doc, TOKEN_COMMAND) then None
    else
      var name := Last(doc, TOKEN_COMMAND, n);
      Some(if name.None? then [] else doc.top[name.value].items)
  }

  function Decode(doc: Document, o: Order): Option<ConfigFile> {
    match (StringKey(doc, API, o.api), StringKey(doc, ISSUER, o.issuer), StringKey(doc, CLIENT_ID, o.clientID),
           CommandKey(doc, o.command))
    case (Some(api), Some(issuer), Some(clientID), Some(argv)) => Some(ConfigFile(LoginKeys(api, issuer, clientID), argv))
    case _ => None
  }

  function Named(keys: LoginKeys): seq<(string, string)> {
    [(API, keys.api), (ISSUER, keys.issuer), (CLIENT_ID, keys.clientID)]
  }

  /** The first key a document defines as an empty string. */
  function FirstEmpty(doc: Document, named: seq<(string, string)>): Option<string> {
    if named == [] then None
    else if named[0].1 == "" && IsDefined(doc, named[0].0) then Some(named[0].0)
    else FirstEmpty(doc, named[1..])
  }

  function Refusal(doc: Document, file: ConfigFile): Option<ConfigError> {
    var empty := FirstEmpty(doc, Named(file.keys));
    if empty.Some? then Some(EmptyValue(empty.value))
    else if IsDefined(doc, TOKEN_COMMAND) && (file.tokenCommand == [] || file.tokenCommand[0] == "") then Some(NoProgram)
    else if !NoNul(file.tokenCommand) then Some(NulInArgument)
    else None
  }

  function ReadConfig(path: string, c: Content, o: Order): Result<ConfigFile, ConfigError> {
    if path == "" then Err(NoConfigPath)
    else
      match c
      case Absent => Ok(ConfigFile(NoKeys, []))
      case Unreadable => Err(CannotRead)
      case Text(text) =>
        match Parse(text)
        case None => Err(Malformed)
        case Some(doc) =>
          match Decode(doc, o)
          case None => Err(WrongType)
          case Some(file) => if Refusal(doc, file).Some? then Err(Refusal(doc, file).value) else Ok(file)
  }

  method ReadConfigFile(path: string, c: Content, o: Order) returns (r: Result<ConfigFile, ConfigError>)
    ensures r == ReadConfig(path, c, o)
  {
    if path == "" {
      return Err(NoConfigPath);
    }
    if c.Absent? {
      return Ok(ConfigFile(NoKeys, []));
    }
    if c.Unreadable? {
      return Err(CannotRead);
    }
    var doc := Parse(c.text);
    if doc.None? {
      return Err(Malformed);
    }
    var file := Decode(doc.value, o);
    if file.None? {
      return Err(WrongType);
    }
    var named := Named(file.value.keys);
    var i := 0;
    while i < |named|
      invariant i <= |named|
      invariant FirstEmpty(doc.value, named) == FirstEmpty(doc.value, named[i..])
    {
      if named[i].1 == "" && IsDefined(doc.value, named[i].0) {
        return Err(EmptyValue(named[i].0));
      }
      i := i + 1;
    }
    var argv := file.value.tokenCommand;
    if IsDefined(doc.value, TOKEN_COMMAND) && (argv == [] || argv[0] == "") {
      return Err(NoProgram);
    }
    if !NoNul(argv) {
      return Err(NulInArgument);
    }
    r := Ok(file.value);
  }

  // --- what a file that reads means ---

  lemma EmptyText()
    ensures Parse("") == Some(Document(map[], map[]))
  {
    EmptyLines();
    assert !Marked("") && ReadLine(Fresh, "") == Some(Fresh);
    assert [""][1..] == [];
  }

  lemma {:induction false} FirstEmptyNone(doc: Document, named: seq<(string, string)>)
    ensures FirstEmpty(doc, named).None? <==> forall i :: 0 <= i < |named| && named[i].1 == "" ==> !IsDefined(doc, named[i].0)
  {
    if named != [] {
      FirstEmptyNone(doc, named[1..]);
      assert forall i :: 1 <= i < |named| ==> named[i] == named[1..][i - 1];
    }
  }

  lemma NoneEmpty(doc: Document, k: LoginKeys)
    ensures FirstEmpty(doc, Named(k)).None? <==>
            && (k.api == "" ==> !IsDefined(doc, API))
            && (k.issuer == "" ==> !IsDefined(doc, ISSUER))
            && (k.clientID == "" ==> !IsDefined(doc, CLIENT_ID))
  {
    var n := Named(k);
    FirstEmptyNone(doc, n);
    assert n[0] == (API, k.api) && n[1] == (ISSUER, k.issuer) && n[2] == (CLIENT_ID, k.clientID);
  }

  /** A value the decoder gives a key in this order, and readConfigFile lets pass. */
  predicate ReadsKey(doc: Document, key: string, value: string, n: nat) {
    StringKey(doc, key, n) == Some(value) && (value == "" ==> !IsDefined(doc, key))
  }

  /** An argv readConfigFile lets pass. Only the key spelled exactly so is asked for a program. */
  predicate Passes(doc: Document, argv: seq<string>) {
    NoNul(argv) && (IsDefined(doc, TOKEN_COMMAND) ==> argv != [] && argv[0] != "")
  }

  predicate Reads(doc: Document, file: ConfigFile, o: Order) {
    && ReadsKey(doc, API, file.keys.api, o.api)
    && ReadsKey(doc, ISSUER, file.keys.issuer, o.issuer)
    && ReadsKey(doc, CLIENT_ID, file.keys.clientID, o.clientID)
    && CommandKey(doc, o.command) == Some(file.tokenCommand) && Passes(doc, file.tokenCommand)
  }

  lemma DecodedReads(doc: Document, file: ConfigFile, o: Order)
    ensures Decode(doc, o) == Some(file) && Refusal(doc, file).None? <==> Reads(doc, file, o)
  {
    var k := file.keys;
    NoneEmpty(doc, k);
    assert file == ConfigFile(LoginKeys(k.api, k.issuer, k.clientID), file.tokenCommand);
  }

  lemma NothingReads(doc: Document, o: Order)
    requires Names(doc) == {}
    ensures Decode(doc, o) == Some(ConfigFile(NoKeys, [])) && Refusal(doc, ConfigFile(NoKeys, [])).None?
  {
    NothingSpelled(doc);
    NoneEmpty(doc, NoKeys);
  }

  lemma TextReads(path: string, text: string, file: ConfigFile, o: Order)
    requires path != ""
    ensures ReadConfig(path, Text(text), o) == Ok(file) <==> Parse(text).Some? && Reads(Parse(text).value, file, o)
  {
    if Parse(text).Some? {
      DecodedReads(Parse(text).value, file, o);
    }
  }

  /** A file that does not exist reads as an empty one does. */
  lemma AbsentReads(path: string, o: Order)
    requires path != ""
    ensures ReadConfig(path, Absent, o) == ReadConfig(path, Text(""), o)
  {
    EmptyText();
    NothingReads(Document(map[], map[]), o);
  }

  /** A file reads as these settings, in one order, exactly when it parses and says them in that order. */
  lemma ReadMeans(path: string, c: Content, file: ConfigFile, o: Order)
    requires path != "" && !c.Unreadable?
    ensures ReadConfig(path, c, o) == Ok(file) <==> Parse(TextOf(c)).Some? && Reads(Parse(TextOf(c)).value, file, o)
  {
    AbsentReads(path, o);
    TextReads(path, TextOf(c), file, o);
  }

  lemma NothingSpelled(doc: Document)
    requires Names(doc) == {}
    ensures Spellings(Names(doc), API) == Spellings(Names(doc), ISSUER) == Spellings(Names(doc), CLIENT_ID) == []
    ensures Spellings(Names(doc), TOKEN_COMMAND) == []
  {
    KeysAreLower();
    NoneIn(doc, API);
    NoneIn(doc, ISSUER);
    NoneIn(doc, CLIENT_ID);
    NoneIn(doc, TOKEN_COMMAND);
  }

  lemma NoneIn(doc: Document, key: string)
    requires Names(doc) == {} && IsLower(key)
    ensures Spellings(Names(doc), key) == []
  {
    var names := Spellings(Names(doc), key);
    if |names| > 0 {
      InSpellings(Names(doc), key, names[0]);
    }
  }

  // --- in any order, and in every order ---

  /** A name the text defines and the decoder binds to this field. */
  predicate Spelled(doc: Document, key: string, name: string) { name in Names(doc) && Folds(name, key) }

  lemma SpelledIs(doc: Document, key: string, name: string)
    requires IsLower(key)
    ensures Spelled(doc, key, name) <==> name in Spellings(Names(doc), key)
  {
    InSpellings(Names(doc), key, name);
  }

  lemma KeysAreLower()
    ensures IsLower(API) && IsLower(ISSUER) && IsLower(CLIENT_ID) && IsLower(TOKEN_COMMAND)
  {
  }

  lemma SmallRemainder(i: nat, n: nat)
    requires i < n
    ensures i % n == i
  {
  }

  /** Any spelling may be the one bound last. */
  lemma AnyMayBeLast(doc: Document, key: string, name: string) returns (n: nat)
    requires IsLower(key) && Spelled(doc, key, name)
    ensures Last(doc, key, n) == Some(name)
  {
    SpelledIs(doc, key, name);
    var names := Spellings(Names(doc), key);
    var i: nat :| i < |names| && names[i] == name;
    n := i;
    SmallRemainder(i, |names|);
  }

  /** The one bound last is a spelling of the key, and there is one if there is any. */
  lemma LastIsSpelled(doc: Document, key: string, n: nat)
    requires IsLower(key)
    ensures Last(doc, key, n).Some? ==> Spelled(doc, key, Last(doc, key, n).value)
    ensures Last(doc, key, n).None? ==> forall name :: !Spelled(doc, key, name)
  {
    if Last(doc, key, n).Some? {
      SpelledIs(doc, key, Last(doc, key, n).value);
    } else {
      forall name ensures !Spelled(doc, key, name) {
        SpelledIs(doc, key, name);
      }
    }
  }

  lemma AllStringsIs(doc: Document, key: string)
    requires IsLower(key)
    ensures AllStrings(doc, key) <==> forall name :: Spelled(doc, key, name) ==> IsString(doc, name)
  {
    forall name ensures Spelled(doc, key, name) <==> name in Spellings(Names(doc), key) {
      SpelledIs(doc, key, name);
    }
  }

  lemma AllArgvsIs(doc: Document, key: string)
    requires IsLower(key)
    ensures AllArgvs(doc, key) <==> forall name :: Spelled(doc, key, name) ==> IsArgv(doc, name)
  {
    forall name ensures Spelled(doc, key, name) <==> name in Spellings(Names(doc), key) {
      SpelledIs(doc, key, name);
    }
  }

  /** Some spelling of the key says value, or there is none and value is empty. */
  ghost predicate MaySay(doc: Document, key: string, value: string) {
    && (forall name :: Spelled(doc, key, name) ==> IsString(doc, name))
    && (value == "" ==> !IsDefined(doc, key))
    && ((exists name :: Spelled(doc, key, name) && doc.top[name] == Str(value))
        || (value == "" && forall name :: !Spelled(doc, key, name)))
  }

  /** Every spelling of the key says value, and there is one unless value is empty. */
  ghost predicate MustSay(doc: Document, key: string, value: string) {
    MaySay(doc, key, value) && forall name :: Spelled(doc, key, name) ==> doc.top[name] == Str(value)
  }

  ghost predicate MayRun(doc: Document, argv: seq<string>) {
    && (forall name :: Spelled(doc, TOKEN_COMMAND, name) ==> IsArgv(doc, name))
    && Passes(doc, argv)
    && ((exists name :: Spelled(doc, TOKEN_COMMAND, name) && doc.top[name] == Strs(argv))
        || (argv == [] && forall name :: !Spelled(doc, TOKEN_COMMAND, name)))
  }

  ghost predicate MustRun(doc: Document, argv: seq<string>) {
    MayRun(doc, argv) && forall name :: Spelled(doc, TOKEN_COMMAND, name) ==> doc.top[name] == Strs(argv)
  }

  lemma KeyMaySay(doc: Document, key: string, value: string, n: nat)
    requires IsLower(key) && ReadsKey(doc, key, value, n)
    ensures MaySay(doc, key, value)
  {
    AllStringsIs(doc, key);
    LastIsSpelled(doc, key, n);
  }

  lemma MaySayKey(doc: Document, key: string, value: string) returns (n: nat)
    requires IsLower(key) && MaySay(doc, key, value)
    ensures ReadsKey(doc, key, value, n)
  {
    AllStringsIs(doc, key);
    n := 0;
    if name :| Spelled(doc, key, name) && doc.top[name] == Str(value) {
      n := AnyMayBeLast(doc, key, name);
    } else {
      LastIsSpelled(doc, key, n);
    }
  }

  lemma MustSayKey(doc: Document, key: string, value: string, n: nat)
    requires IsLower(key) && MustSay(doc, key, value)
    ensures ReadsKey(doc, key, value, n)
  {
    AllStringsIs(doc, key);
    LastIsSpelled(doc, key, n);
  }

  lemma RunMay(doc: Document, argv: seq<string>, n: nat)
    requires CommandKey(doc, n) == Some(argv) && Passes(doc, argv)
    ensures MayRun(doc, argv)
  {
    KeysAreLower();
    AllArgvsIs(doc, TOKEN_COMMAND);
    LastIsSpelled(doc, TOKEN_COMMAND, n);
  }

  lemma MayRunKey(doc: Document, argv: seq<string>) returns (n: nat)
    requires MayRun(doc, argv)
    ensures CommandKey(doc, n) == Some(argv)
  {
    KeysAreLower();
    AllArgvsIs(doc, TOKEN_COMMAND);
    n := 0;
    if name :| Spelled(doc, TOKEN_COMMAND, name) && doc.top[name] == Strs(argv) {
      n := AnyMayBeLast(doc, TOKEN_COMMAND, name);
    } else {
      LastIsSpelled(doc, TOKEN_COMMAND, n);
    }
  }

  lemma MustRunKey(doc: Document, argv: seq<string>, n: nat)
    requires MustRun(doc, argv)
    ensures CommandKey(doc, n) == Some(argv)
  {
    KeysAreLower();
    AllArgvsIs(doc, TOKEN_COMMAND);
    LastIsSpelled(doc, TOKEN_COMMAND, n);
  }

  ghost predicate May(doc: Document, file: ConfigFile) {
    && MaySay(doc, API, file.keys.api) && MaySay(doc, ISSUER, file.keys.issuer) && MaySay(doc, CLIENT_ID, file.keys.clientID)
    && MayRun(doc, file.tokenCommand)
  }

  ghost predicate Must(doc: Document, file: ConfigFile) {
    && MustSay(doc, API, file.keys.api) && MustSay(doc, ISSUER, file.keys.issuer) && MustSay(doc, CLIENT_ID, file.keys.clientID)
    && MustRun(doc, file.tokenCommand)
  }

  lemma ReadsMay(doc: Document, file: ConfigFile, o: Order)
    requires Reads(doc, file, o)
    ensures May(doc, file)
  {
    KeysAreLower();
    KeyMaySay(doc, API, file.keys.api, o.api);
    KeyMaySay(doc, ISSUER, file.keys.issuer, o.issuer);
    KeyMaySay(doc, CLIENT_ID, file.keys.clientID, o.clientID);
    RunMay(doc, file.tokenCommand, o.command);
  }

  lemma MayReads(doc: Document, file: ConfigFile) returns (o: Order)
    requires May(doc, file)
    ensures Reads(doc, file, o)
  {
    KeysAreLower();
    var a := MaySayKey(doc, API, file.keys.api);
    var i := MaySayKey(doc, ISSUER, file.keys.issuer);
    var c := MaySayKey(doc, CLIENT_ID, file.keys.clientID);
    var t := MayRunKey(doc, file.tokenCommand);
    o := Order(a, i, c, t);
  }

  lemma MustReads(doc: Document, file: ConfigFile, o: Order)
    requires Must(doc, file)
    ensures Reads(doc, file, o)
  {
    KeysAreLower();
    MustSayKey(doc, API, file.keys.api, o.api);
    MustSayKey(doc, ISSUER, file.keys.issuer, o.issuer);
    MustSayKey(doc, CLIENT_ID, file.keys.clientID, o.clientID);
    MustRunKey(doc, file.tokenCommand, o.command);
  }

  /** What a file may read as: exactly what some spelling of each key says. */
  lemma MayReadAs(path: string, c: Content, file: ConfigFile)
    requires path != "" && !c.Unreadable?
    ensures (exists o :: ReadConfig(path, c, o) == Ok(file)) <==> Parse(TextOf(c)).Some? && May(Parse(TextOf(c)).value, file)
  {
    if o :| ReadConfig(path, c, o) == Ok(file) {
      ReadMeans(path, c, file, o);
      ReadsMay(Parse(TextOf(c)).value, file, o);
    }
    if Parse(TextOf(c)).Some? && May(Parse(TextOf(c)).value, file) {
      var o := MayReads(Parse(TextOf(c)).value, file);
      ReadMeans(path, c, file, o);
    }
  }

  /** The spelling bound last is what a key reads as. */
  lemma LastSays(doc: Document, key: string, name: string, value: string, n: nat)
    requires IsLower(key) && Last(doc, key, n) == Some(name) && ReadsKey(doc, key, value, n)
    ensures IsString(doc, name) && doc.top[name].s == value
  {
  }

  /** What the login keys of a file say, key by key. */
  function ValueOf(k: LoginKeys, key: string): string {
    if key == API then k.api else if key == ISSUER then k.issuer else k.clientID
  }

  /** Each spelling of a key has an order in which the file reads as it says. */
  lemma OtherSpelling(doc: Document, key: string, name: string) returns (o: Order)
    requires key in {API, ISSUER, CLIENT_ID} && Spelled(doc, key, name)
    ensures forall file :: Reads(doc, file, o) ==> IsString(doc, name) && doc.top[name].s == ValueOf(file.keys, key)
  {
    KeysAreBare();
    KeysAreLower();
    var n := AnyMayBeLast(doc, key, name);
    o := Order(n, n, n, n);
    forall file | Reads(doc, file, o) ensures IsString(doc, name) && doc.top[name].s == ValueOf(file.keys, key) {
      assert ReadsKey(doc, key, ValueOf(file.keys, key), n);
      LastSays(doc, key, name, ValueOf(file.keys, key), n);
    }
  }

  lemma OtherCommand(doc: Document, name: string) returns (o: Order)
    requires Spelled(doc, TOKEN_COMMAND, name)
    ensures forall file :: Reads(doc, file, o) ==> IsArgv(doc, name) && doc.top[name].items == file.tokenCommand
  {
    KeysAreLower();
    var n := AnyMayBeLast(doc, TOKEN_COMMAND, name);
    AllArgvsIs(doc, TOKEN_COMMAND);
    o := Order(n, n, n, n);
  }

  /** What a file reads as in every order: exactly what every spelling of each key says. */
  lemma MustReadAs(path: string, c: Content, file: ConfigFile)
    requires path != "" && !c.Unreadable?
    ensures (forall o :: ReadConfig(path, c, o) == Ok(file)) <==> Parse(TextOf(c)).Some? && Must(Parse(TextOf(c)).value, file)
  {
    var o0 := Order(0, 0, 0, 0);
    ReadMeans(path, c, file, o0);
    if forall o :: ReadConfig(path, c, o) == Ok(file) {
      assert ReadConfig(path, c, o0) == Ok(file);
      var doc := Parse(TextOf(c)).value;
      ReadsMay(doc, file, o0);
      forall key, name | key in {API, ISSUER, CLIENT_ID} && Spelled(doc, key, name)
        ensures doc.top[name] == Str(ValueOf(file.keys, key))
      {
        var o := OtherSpelling(doc, key, name);
        ReadMeans(path, c, file, o);
        assert ReadConfig(path, c, o) == Ok(file);
      }
      forall name | Spelled(doc, TOKEN_COMMAND, name) ensures doc.top[name] == Strs(file.tokenCommand) {
        var o := OtherCommand(doc, name);
        ReadMeans(path, c, file, o);
        assert ReadConfig(path, c, o) == Ok(file);
      }
      KeysAreBare();
    }
    if Parse(TextOf(c)).Some? && Must(Parse(TextOf(c)).value, file) {
      forall o ensures ReadConfig(path, c, o) == Ok(file) {
        MustReads(Parse(TextOf(c)).value, file, o);
        ReadMeans(path, c, file, o);
      }
    }
  }

  // --- what the merge reads back as ---

  /** Only keys the file lacks. */
  predicate OnlyLacking(m: LoginKeys, k: LoginKeys) {
    (m.api != "" ==> k.api == "") && (m.issuer != "" ==> k.issuer == "") && (m.clientID != "" ==> k.clientID == "")
  }

  function Or(value: string, other: string): string { if value != "" then value else other }

  /** The file's keys, and the missing ones where it has none. */
  function Filled(k: LoginKeys, m: LoginKeys): LoginKeys {
    LoginKeys(Or(k.api, m.api), Or(k.issuer, m.issuer), Or(k.clientID, m.clientID))
  }

  lemma BindingsHold(m: LoginKeys)
    ensures forall key :: key in Bindings(m) <==>
              || (key == API && m.api != "") || (key == ISSUER && m.issuer != "") || (key == CLIENT_ID && m.clientID != "")
    ensures m.api != "" ==> Bindings(m)[API] == Str(m.api)
    ensures m.issuer != "" ==> Bindings(m)[ISSUER] == Str(m.issuer)
    ensures m.clientID != "" ==> Bindings(m)[CLIENT_ID] == Str(m.clientID)
  {
    KeysAreBare();
  }

  lemma CommandIsNoLoginKey()
    ensures TOKEN_COMMAND != API && TOKEN_COMMAND != ISSUER && TOKEN_COMMAND != CLIENT_ID
  {
    assert TOKEN_COMMAND[0] == 't' && API[0] == 'a' && ISSUER[0] == 'i' && CLIENT_ID[0] == 'c';
  }

  /** A document with the missing keys at top level. */
  function Added(doc: Document, m: LoginKeys): Document { doc.(top := Bindings(m) + doc.top) }

  /** doc' is doc with one more spelling of key, the exact one, when add is not empty. */
  ghost predicate Extends(doc: Document, doc': Document, key: string, add: string) {
    && (forall name :: Spelled(doc', key, name) <==> Spelled(doc, key, name) || (name == key && add != ""))
    && (forall name :: name in doc.top ==> name in doc'.top && doc'.top[name] == doc.top[name])
    && doc'.tables == doc.tables
    && (IsDefined(doc', key) <==> IsDefined(doc, key) || add != "")
    && (add != "" ==> !IsDefined(doc, key) && key in doc'.top && doc'.top[key] == Str(add))
  }

  lemma BindingFolds(m: LoginKeys, name: string, key: string)
    requires name in Bindings(m) && key in {API, ISSUER, CLIENT_ID, TOKEN_COMMAND}
    ensures Folds(name, key) <==> name == key
  {
    BindingsHold(m);
    KeysAreLower();
    LowerIsItself(name);
  }

  lemma LowerIsItself(s: string)
    requires IsLower(s)
    ensures Lower(s) == s
  {
  }

  lemma AddedExtends(doc: Document, m: LoginKeys, key: string)
    requires key in {API, ISSUER, CLIENT_ID} && Clear(Bindings(m), doc)
    ensures Extends(doc, Added(doc, m), key, ValueOf(m, key))
  {
    BindingsHold(m);
    KeysAreBare();
    var doc' := Added(doc, m);
    forall name ensures Spelled(doc', key, name) <==> Spelled(doc, key, name) || (name == key && ValueOf(m, key) != "") {
      if name in Bindings(m) {
        BindingFolds(m, name, key);
      }
      if name == key {
        KeysAreLower();
        LowerIsItself(key);
      }
    }
  }

  lemma AddedCommand(doc: Document, m: LoginKeys)
    requires Clear(Bindings(m), doc)
    ensures Extends(doc, Added(doc, m), TOKEN_COMMAND, "")
  {
    BindingsHold(m);
    CommandIsNoLoginKey();
    var doc' := Added(doc, m);
    forall name ensures Spelled(doc', TOKEN_COMMAND, name) <==> Spelled(doc, TOKEN_COMMAND, name) {
      if name in Bindings(m) {
        BindingFolds(m, name, TOKEN_COMMAND);
      }
    }
  }

  /** Every spelling of the key a document has says value. */
  ghost predicate AllSay(doc: Document, key: string, value: string) {
    forall name :: Spelled(doc, key, name) ==> name in doc.top && doc.top[name] == Str(value)
  }

  ghost predicate AllRun(doc: Document, argv: seq<string>) {
    forall name :: Spelled(doc, TOKEN_COMMAND, name) ==> name in doc.top && doc.top[name] == Strs(argv)
  }

  lemma ExtendedKey(doc: Document, doc': Document, key: string, value: string, add: string)
    requires Extends(doc, doc', key, add) && MaySay(doc, key, value) && (add != "" ==> value == "")
    ensures MustSay(doc', key, Or(value, add)) <==> AllSay(doc, key, Or(value, add))
  {
    var v := Or(value, add);
    if AllSay(doc, key, v) {
      if add != "" {
        assert Spelled(doc', key, key);
      } else if name :| Spelled(doc, key, name) && doc.top[name] == Str(value) {
        assert Spelled(doc', key, name) && doc'.top[name] == Str(v);
      }
    }
    if MustSay(doc', key, v) {
      forall name | Spelled(doc, key, name) ensures name in doc.top && doc.top[name] == Str(v) {
        assert Spelled(doc', key, name) && IsString(doc, name);
      }
    }
  }

  lemma ExtendedCommand(doc: Document, doc': Document, argv: seq<string>)
    requires Extends(doc, doc', TOKEN_COMMAND, "") && MayRun(doc, argv)
    ensures MustRun(doc', argv) <==> AllRun(doc, argv)
  {
    if AllRun(doc, argv) {
      if name :| Spelled(doc, TOKEN_COMMAND, name) && doc.top[name] == Strs(argv) {
        assert Spelled(doc', TOKEN_COMMAND, name);
      }
    }
    if MustRun(doc', argv) {
      forall name | Spelled(doc, TOKEN_COMMAND, name) ensures name in doc.top && doc.top[name] == Strs(argv) {
        assert Spelled(doc', TOKEN_COMMAND, name) && IsArgv(doc, name);
      }
    }
  }

  /** Every spelling of every key a document has says what these settings are. */
  ghost predicate SpellingsAgree(doc: Document, file: ConfigFile) {
    && AllSay(doc, API, file.keys.api) && AllSay(doc, ISSUER, file.keys.issuer) && AllSay(doc, CLIENT_ID, file.keys.clientID)
    && AllRun(doc, file.tokenCommand)
  }

  lemma MayLacksExactly(doc: Document, file: ConfigFile, m: LoginKeys)
    requires May(doc, file) && OnlyLacking(m, file.keys)
    ensures Clear(Bindings(m), doc)
  {
    BindingsHold(m);
  }

  lemma AddedMust(doc: Document, file: ConfigFile, m: LoginKeys)
    requires May(doc, file) && OnlyLacking(m, file.keys)
    ensures Must(Added(doc, m), file.(keys := Filled(file.keys, m))) <==> SpellingsAgree(doc, file.(keys := Filled(file.keys, m)))
  {
    var doc' := Added(doc, m);
    MayLacksExactly(doc, file, m);
    KeysAreBare();
    AddedExtends(doc, m, API);
    AddedExtends(doc, m, ISSUER);
    AddedExtends(doc, m, CLIENT_ID);
    AddedCommand(doc, m);
    ExtendedKey(doc, doc', API, file.keys.api, m.api);
    ExtendedKey(doc, doc', ISSUER, file.keys.issuer, m.issuer);
    ExtendedKey(doc, doc', CLIENT_ID, file.keys.clientID, m.clientID);
    ExtendedCommand(doc, doc', file.tokenCommand);
  }

  /** The file's text, read, defines this. */
  function DocOf(c: Content): Document
    requires Parse(TextOf(c)).Some?
  {
    Parse(TextOf(c)).value
  }

  /** A file that reads parses. */
  lemma ReadParses(path: string, c: Content, o: Order)
    requires ReadConfig(path, c, o).Ok?
    ensures path != "" && !c.Unreadable? && Parse(TextOf(c)).Some?
    ensures Reads(DocOf(c), ReadConfig(path, c, o).value, o) && May(DocOf(c), ReadConfig(path, c, o).value)
  {
    var file := ReadConfig(path, c, o).value;
    ReadMeans(path, c, file, o);
    ReadsMay(DocOf(c), file, o);
  }

  /**
   Adding keys a file lacks makes a file that reads, in every order, as it did with
   those keys set and nothing else changed, exactly when it does not start with a byte
   order mark and no other spelling of a key in it says otherwise. With the mark it no
   longer parses, and without it defines what it did and the keys.
   */
  lemma MergedReads(path: string, c: Content, m: LoginKeys, o: Order)
    requires ReadConfig(path, c, o).Ok? && OnlyLacking(m, ReadConfig(path, c, o).value.keys)
    ensures Parse(TextOf(c)).Some?
    ensures var file := ReadConfig(path, c, o).value;
            var filled := file.(keys := Filled(file.keys, m));
            (forall o' :: ReadConfig(path, Text(Merged(m, TextOf(c))), o') == Ok(filled)) <==>
              !Marked(TextOf(c)) && SpellingsAgree(DocOf(c), filled)
    ensures Marked(TextOf(c)) ==> forall o' :: ReadConfig(path, Text(Merged(m, TextOf(c))), o') == Err(Malformed)
    ensures !Marked(TextOf(c)) ==> Parse(Merged(m, TextOf(c))) == Some(Added(DocOf(c), m))
  {
    var file := ReadConfig(path, c, o).value;
    ReadParses(path, c, o);
    MayLacksExactly(DocOf(c), file, m);
    MergeKeepsMeaning(m, TextOf(c));
    var after := Text(Merged(m, TextOf(c)));
    if !Marked(TextOf(c)) {
      assert Parse(TextOf(after)) == Some(Added(DocOf(c), m));
      MustReadAs(path, after, file.(keys := Filled(file.keys, m)));
      AddedMust(DocOf(c), file, m);
    } else {
      var o0 := Order(0, 0, 0, 0);
      assert ReadConfig(path, after, o0) == Err(Malformed);
    }
  }
}
