/** What Save leaves behind, and what the next command loads: the login round trip, and the files over which it fails. */
module SaveAndLoad {
  import opened Basics
  import Toml
  import opened Merge
  import opened Spelling
  import opened TokenCommand
  import opened ApiUrl
  import opened ConfigFile
  import opened Deployment

  // --- Save, whatever the file holds by now ---

  lemma UnsavedIsLacking(d: Deployment, keys: LoginKeys)
    ensures OnlyLacking(Unsaved(d, keys), keys)
    ensures Unsaved(d, Filled(keys, Unsaved(d, keys))) == NoKeys
    ensures Unsaved(d, keys) == NoKeys ==> Filled(keys, Unsaved(d, keys)) == keys
  {
  }

  /** The settings of a file once Save has filled it. */
  function FilledFile(d: Deployment, file: ConfigFile): ConfigFile {
    file.(keys := Filled(file.keys, Unsaved(d, file.keys)))
  }

  predicate EndsIn(text: string, end: string) { |end| <= |text| && text[|text| - |end|..] == end }

  lemma AddingNothing(doc: Toml.Document)
    ensures Added(doc, NoKeys) == doc
  {
    assert Bindings(NoKeys) == map[];
    assert map[] + doc.top == doc.top;
  }

  /** A file nothing is added to reads as it did in every order exactly when its spellings agree. */
  lemma UnchangedReads(path: string, c: Content, o: Order)
    requires ReadConfig(path, c, o).Ok?
    ensures Toml.Parse(TextOf(c)).Some?
    ensures (forall o' :: ReadConfig(path, c, o') == ReadConfig(path, c, o)) <==>
            SpellingsAgree(DocOf(c), ReadConfig(path, c, o).value)
  {
    var file := ReadConfig(path, c, o).value;
    ReadParses(path, c, o);
    MustReadAs(path, c, file);
    AddedMust(DocOf(c), file, NoKeys);
    AddingNothing(DocOf(c));
    assert file.(keys := Filled(file.keys, NoKeys)) == file;
    assert (forall o' :: ReadConfig(path, c, o') == Ok(file)) <==> Must(DocOf(c), file);
  }

  /**
   Save fails exactly when the file does not read or there is something to write and
   the path is linked or cannot be written, and changes nothing then. Otherwise the
   file ends in its old text, and every later reading finds all it said and exactly the
   values it lacked, exactly when it need not be written to or does not start with a
   byte order mark, and no other spelling of a key in it says otherwise. Saving again
   then writes nothing.
   */
  lemma SaveAddsWhatIsMissing(d: Deployment, p: Place, o: Order)
    ensures var (p', problem) := Saving(d, p, o);
            && (problem.None? <==>
                  && ReadConfig(d.path, p.content, o).Ok?
                  && (Unsaved(d, ReadConfig(d.path, p.content, o).value.keys) == NoKeys || (!p.linked && p.writable)))
            && p' == p.(content := p'.content)
            && (problem.Some? ==> p' == p)
            && (problem.None? ==>
                  var file := ReadConfig(d.path, p.content, o).value;
                  var missing := Unsaved(d, file.keys);
                  && Toml.Parse(TextOf(p.content)).Some?
                  && EndsIn(TextOf(p'.content), TextOf(p.content))
                  && (missing == NoKeys ==> p' == p)
                  && ((forall o' :: ReadConfig(d.path, p'.content, o') == Ok(FilledFile(d, file))) <==>
                        (missing == NoKeys || !Toml.Marked(TextOf(p.content))) && SpellingsAgree(DocOf(p.content), FilledFile(d, file)))
                  && (missing != NoKeys && Toml.Marked(TextOf(p.content)) ==>
                        forall o' :: ReadConfig(d.path, p'.content, o') == Err(Malformed))
                  && ((forall o' :: ReadConfig(d.path, p'.content, o') == Ok(FilledFile(d, file))) ==>
                        forall o' :: Saving(d, p', o') == (p', None)))
  {
    if Saving(d, p, o).1.None? {
      var file := ReadConfig(d.path, p.content, o).value;
      var missing := Unsaved(d, file.keys);
      ReadParses(d.path, p.content, o);
      UnsavedIsLacking(d, file.keys);
      if missing == NoKeys {
        UnchangedReads(d.path, p.content, o);
      } else {
        MergedReads(d.path, p.content, missing, o);
        MergeKeepsMeaning(missing, TextOf(p.content));
      }
    }
  }

  // --- spellings that settle with a login ---

  /** Every spelling of api is an address of this API. */
  ghost predicate AllNormalize(doc: Toml.Document, v: string) {
    forall name :: Spelled(doc, API, name) ==> IsString(doc, name) && NormalizeAPI(doc.top[name].s) == Some(v)
  }

  /** Every spelling of token_command is one that hands no tokens. */
  ghost predicate AllIdle(doc: Toml.Document) {
    forall name :: Spelled(doc, TOKEN_COMMAND, name) ==> IsArgv(doc, name) && !Hands(doc.top[name].items)
  }

  /** Every spelling of a key in the file says what the login settled on. */
  ghost predicate SpellingsSettle(doc: Toml.Document, d: Deployment) {
    && AllNormalize(doc, d.api.value)
    && AllSay(doc, ISSUER, d.issuer.value)
    && AllSay(doc, CLIENT_ID, d.clientID.value)
    && AllIdle(doc)
  }

  /** And none of them is one readConfigFile refuses. */
  ghost predicate Harmless(doc: Toml.Document, d: Deployment) {
    && SpellingsSettle(doc, d)
    && (d.issuer.value == "" ==> !IsDefined(doc, ISSUER)) && !IsDefined(doc, TOKEN_COMMAND)
    && (forall name :: Spelled(doc, ISSUER, name) ==> IsString(doc, name))
    && (forall name :: Spelled(doc, CLIENT_ID, name) ==> IsString(doc, name))
  }

  ghost predicate AnySpelled(doc: Toml.Document, key: string) { exists name :: Spelled(doc, key, name) }

  /** What such a file reads as: the login's values for the keys it spells, and none for the others. */
  ghost predicate ReadsSettled(doc: Toml.Document, d: Deployment, file: ConfigFile) {
    && SettledAPI(doc, d, file.keys.api)
    && file.keys.issuer == (if AnySpelled(doc, ISSUER) then d.issuer.value else "")
    && file.keys.clientID == (if AnySpelled(doc, CLIENT_ID) then d.clientID.value else "")
    && !Hands(file.tokenCommand)
  }

  /** The value a key has in this order, when all its spellings are strings. */
  lemma KeyInOrder(doc: Toml.Document, key: string, n: nat) returns (value: string)
    requires IsLower(key) && forall name :: Spelled(doc, key, name) ==> IsString(doc, name)
    ensures StringKey(doc, key, n) == Some(value)
    ensures if AnySpelled(doc, key) then exists name :: Spelled(doc, key, name) && name in doc.top && doc.top[name] == Toml.Str(value) else value == ""
  {
    AllStringsIs(doc, key);
    LastIsSpelled(doc, key, n);
    value := StringKey(doc, key, n).value;
    if Last(doc, key, n).Some? {
      assert Spelled(doc, key, Last(doc, key, n).value);
    }
  }

  lemma CommandInOrder(doc: Toml.Document, n: nat) returns (argv: seq<string>)
    requires AllIdle(doc)
    ensures CommandKey(doc, n) == Some(argv) && !Hands(argv) && NoNul(argv)
  {
    KeysAreLower();
    AllArgvsIs(doc, TOKEN_COMMAND);
    LastIsSpelled(doc, TOKEN_COMMAND, n);
    argv := CommandKey(doc, n).value;
  }

  /** Whether a value is what a harmless file says of its API. */
  ghost predicate SettledAPI(doc: Toml.Document, d: Deployment, api: string) {
    if AnySpelled(doc, API) then NormalizeAPI(api) == Some(d.api.value) && api != "" else api == ""
  }

  lemma HarmlessAPI(doc: Toml.Document, d: Deployment, n: nat) returns (api: string)
    requires AllNormalize(doc, d.api.value)
    ensures ReadsKey(doc, API, api, n) && SettledAPI(doc, d, api)
  {
    KeysAreLower();
    api := KeyInOrder(doc, API, n);
    EmptyIsNoAPI("");
    ExactIsSpelled(doc, API);
  }

  lemma HarmlessKey(doc: Toml.Document, key: string, settled: string, n: nat) returns (value: string)
    requires IsLower(key) && AllSay(doc, key, settled) && forall name :: Spelled(doc, key, name) ==> IsString(doc, name)
    requires settled == "" ==> !IsDefined(doc, key)
    ensures ReadsKey(doc, key, value, n) && value == if AnySpelled(doc, key) then settled else ""
  {
    value := KeyInOrder(doc, key, n);
    ExactIsSpelled(doc, key);
  }

  lemma HarmlessFile(doc: Toml.Document, d: Deployment, o: Order) returns (file: ConfigFile)
    requires Harmless(doc, d) && d.clientID.value != ""
    ensures Reads(doc, file, o) && ReadsSettled(doc, d, file)
  {
    KeysAreLower();
    var api := HarmlessAPI(doc, d, o.api);
    var issuer := HarmlessKey(doc, ISSUER, d.issuer.value, o.issuer);
    var clientID := HarmlessKey(doc, CLIENT_ID, d.clientID.value, o.clientID);
    var argv := CommandInOrder(doc, o.command);
    file := ConfigFile(LoginKeys(api, issuer, clientID), argv);
  }

  /** A harmless file reads, in every order, as the login would have it. */
  lemma HarmlessReads(path: string, c: Content, d: Deployment, o: Order)
    requires path != "" && !c.Unreadable? && Toml.Parse(TextOf(c)).Some?
    requires Harmless(DocOf(c), d) && d.clientID.value != ""
    ensures ReadConfig(path, c, o).Ok? && ReadsSettled(DocOf(c), d, ReadConfig(path, c, o).value)
  {
    var file := HarmlessFile(DocOf(c), d, o);
    ReadMeans(path, c, file, o);
  }

  lemma ExactIsSpelled(doc: Toml.Document, key: string)
    requires IsLower(key)
    ensures IsDefined(doc, key) ==> AnySpelled(doc, key)
  {
    LowerIsItself(key);
    assert IsDefined(doc, key) ==> Spelled(doc, key, key);
  }

  // --- the round trip ---

  /** What a deployment loads as once all of it is in the file. */
  function AllFromFile(d: Deployment): Deployment {
    Deployment(d.path, FromFile(d.api.value, d.path), FromFile(d.issuer.value, d.path), FromFile(d.clientID.value, d.path), New([]))
  }

  /** A file that sets an API's address, a client and no command resolves without asking anyone. */
  lemma ResolvesFromFile(path: string, file: ConfigFile, v: string, served: string -> Answer)
    requires NormalizeAPI(file.keys.api) == Some(v) && v != "" && file.keys.clientID != "" && !Hands(file.tokenCommand)
    ensures var l, k := Resolving(path, file, "", served), file.keys;
            && l.asked == []
            && l.problem == (if k.issuer == "" then Some(NotConfigured([ISSUER])) else None)
            && (k.issuer != "" ==>
                  l.deployment == Deployment(path, FromFile(v, path), FromFile(k.issuer, path), FromFile(k.clientID, path), New([])))
  {
    var d := FromConfig(path, file, "");
    EmptyIsNoAPI(file.keys.api);
    JoinIsEmpty(file.tokenCommand);
    JoinIsEmpty([]);
    assert d.tokenCommand == New([]);
    assert d.api == FromFile(file.keys.api, path) && d.api.value == file.keys.api && d.api.source == File;
    assert NormalOrEmpty(d.api.value) == v;
    if file.keys.issuer == "" {
      MissingIssuer(d);
    } else {
      NoneMissing(d);
    }
  }

  lemma MissingIssuer(d: Deployment)
    requires !d.HandsTokens() && d.api.value != "" && d.issuer.value == "" && d.clientID.value != ""
    ensures Missing(Required(d)) == [ISSUER]
  {
    var r := [(API, d.api), (ISSUER, d.issuer), (CLIENT_ID, d.clientID)];
    assert r[1..] == [r[1], r[2]] && r[1..][1..] == [r[2]] && r[1..][1..][1..] == [];
    assert Missing([r[2]]) == [];
    assert Missing([r[1], r[2]]) == [ISSUER];
  }

  /** Only a file that reads as the deployment resolves to it. */
  lemma ResolvedFromFile(path: string, file: ConfigFile, d: Deployment, served: string -> Answer)
    requires d.path == path && d.api.value != "" && d.clientID.value != ""
    requires Resolving(path, file, "", served) == Loaded(AllFromFile(d), None, [])
    ensures d.issuer.value != "" && NormalizeAPI(file.keys.api) == Some(d.api.value)
    ensures file.keys.issuer == d.issuer.value && file.keys.clientID == d.clientID.value && !Hands(file.tokenCommand)
  {
    var e := FromConfig(path, file, "");
    EmptyIsNoAPI(e.api.value);
    NoneMissing(e);
    JoinIsEmpty(file.tokenCommand);
    JoinIsEmpty([]);
  }

  /** A login's facts, as the round trip uses them. */
  ghost predicate LoggedIn(d: Deployment, p: Place, o: Order) {
    && ReadConfig(d.path, p.content, o).Ok?
    && ReadConfig(d.path, p.content, o).value.tokenCommand == []
    && Settles(d, ReadConfig(d.path, p.content, o).value.keys)
    && (p.linked ==> Unsaved(d, ReadConfig(d.path, p.content, o).value.keys) == NoKeys)
  }

  lemma LoginIsLoggedIn(path: string, p: Place, o: Order, api: string, clientID: string, m: Machine, served: string -> Answer)
    requires LoggingIn(path, p, o, api, clientID, m, served).0.Ok?
    ensures var d := LoggingIn(path, p, o, api, clientID, m, served).0.value;
            d.path == path && LoggedIn(d, p, o)
  {
    ChoosesToSettle(path, ReadConfig(path, p.content, o).value.keys, p.linked, api, clientID, m, served);
  }

  /** What a login's Save has to write. */
  function ToWrite(d: Deployment, p: Place, o: Order): LoginKeys {
    var file := ReadConfig(d.path, p.content, o);
    if file.Ok? then Unsaved(d, file.value.keys) else NoKeys
  }

  lemma SettledIsHarmless(d: Deployment, p: Place, o: Order)
    requires LoggedIn(d, p, o)
    ensures Toml.Parse(TextOf(p.content)).Some?
    ensures SpellingsSettle(DocOf(p.content), d) ==> Harmless(DocOf(p.content), d)
  {
    ReadParses(d.path, p.content, o);
    var doc, file := DocOf(p.content), ReadConfig(d.path, p.content, o).value;
    if SpellingsSettle(doc, d) && d.issuer.value == "" && IsDefined(doc, ISSUER) {
      KeysAreLower();
      ExactIsSpelled(doc, ISSUER);
    }
  }

  /** Over settled spellings every order finds the same keys missing. */
  lemma SameMissing(d: Deployment, p: Place, o: Order, o': Order)
    requires LoggedIn(d, p, o) && Toml.Parse(TextOf(p.content)).Some? && SpellingsSettle(DocOf(p.content), d)
    ensures ReadConfig(d.path, p.content, o').Ok? && ToWrite(d, p, o') == ToWrite(d, p, o)
    ensures OnlyLacking(ToWrite(d, p, o), ReadConfig(d.path, p.content, o').value.keys)
  {
    SettledIsHarmless(d, p, o);
    ReadParses(d.path, p.content, o);
    HarmlessReads(d.path, p.content, d, o);
    HarmlessReads(d.path, p.content, d, o');
    UnsavedIsLacking(d, ReadConfig(d.path, p.content, o').value.keys);
  }

  lemma AddedSpelled(doc: Toml.Document, doc': Toml.Document, key: string, add: string)
    requires Extends(doc, doc', key, add)
    ensures AnySpelled(doc', key) <==> AnySpelled(doc, key) || add != ""
  {
    if name :| Spelled(doc, key, name) {
      assert Spelled(doc', key, name);
    }
    if add != "" {
      assert Spelled(doc', key, key);
    }
  }

  lemma AddedSays(doc: Toml.Document, doc': Toml.Document, key: string, add: string, value: string)
    requires Extends(doc, doc', key, add) && AllSay(doc, key, value) && (add != "" ==> add == value)
    requires forall name :: Spelled(doc, key, name) ==> IsString(doc, name)
    requires add != "" ==> key !in doc'.tables
    ensures AllSay(doc', key, value) && forall name :: Spelled(doc', key, name) ==> IsString(doc', name)
  {
  }

  lemma AddedNormalizes(doc: Toml.Document, doc': Toml.Document, add: string, v: string)
    requires Extends(doc, doc', API, add) && AllNormalize(doc, v) && (add != "" ==> NormalizeAPI(add) == Some(v))
    requires add != "" ==> API !in doc'.tables
    ensures AllNormalize(doc', v)
  {
  }

  lemma AddedIdle(doc: Toml.Document, doc': Toml.Document)
    requires Extends(doc, doc', TOKEN_COMMAND, "") && AllIdle(doc)
    ensures AllIdle(doc')
  {
  }

  /** What a login has to write is what it settled on, and it writes everything not spelled, but for an empty issuer. */
  lemma WritesWhatIsSettled(d: Deployment, p: Place, o: Order)
    requires LoggedIn(d, p, o) && Toml.Parse(TextOf(p.content)).Some? && SpellingsSettle(DocOf(p.content), d)
    ensures var m, doc := ToWrite(d, p, o), DocOf(p.content);
            && (m.api != "" ==> m.api == d.api.value) && (AnySpelled(doc, API) || m.api != "")
            && (m.issuer != "" ==> m.issuer == d.issuer.value) && (AnySpelled(doc, ISSUER) || m.issuer == d.issuer.value)
            && (m.clientID != "" ==> m.clientID == d.clientID.value) && (AnySpelled(doc, CLIENT_ID) || m.clientID != "")
            && Clear(Bindings(m), doc)
  {
    var file := ReadConfig(d.path, p.content, o).value;
    SettledIsHarmless(d, p, o);
    ReadParses(d.path, p.content, o);
    HarmlessReads(d.path, p.content, d, o);
    UnsavedIsLacking(d, file.keys);
    MayLacksExactly(DocOf(p.content), file, ToWrite(d, p, o));
  }

  /** Adding what the login settled on leaves the file as harmless, and every key it needs spelled. */
  lemma AddedHarmless(d: Deployment, p: Place, o: Order)
    requires LoggedIn(d, p, o) && Toml.Parse(TextOf(p.content)).Some? && SpellingsSettle(DocOf(p.content), d)
    ensures var doc' := Added(DocOf(p.content), ToWrite(d, p, o));
            && Harmless(doc', d)
            && AnySpelled(doc', API) && AnySpelled(doc', CLIENT_ID) && (d.issuer.value != "" ==> AnySpelled(doc', ISSUER))
  {
    var doc, m := DocOf(p.content), ToWrite(d, p, o);
    SettledIsHarmless(d, p, o);
    WritesWhatIsSettled(d, p, o);
    BindingsHold(m);
    var doc' := Added(doc, m);
    KeysAreBare();
    AddedExtends(doc, m, API);
    AddedExtends(doc, m, ISSUER);
    AddedExtends(doc, m, CLIENT_ID);
    AddedCommand(doc, m);
    AddedNormalizes(doc, doc', m.api, d.api.value);
    AddedSays(doc, doc', ISSUER, m.issuer, d.issuer.value);
    AddedSays(doc, doc', CLIENT_ID, m.clientID, d.clientID.value);
    AddedIdle(doc, doc');
    AddedSpelled(doc, doc', API, m.api);
    AddedSpelled(doc, doc', ISSUER, m.issuer);
    AddedSpelled(doc, doc', CLIENT_ID, m.clientID);
  }

  /** After the login's Save, in whatever order it read, the file holds the old settings and what the login settled on. */
  lemma SavedHolds(d: Deployment, p: Place, o: Order, o': Order)
    requires LoggedIn(d, p, o) && Toml.Parse(TextOf(p.content)).Some? && SpellingsSettle(DocOf(p.content), d)
    ensures var (p', problem) := Saving(d, p, o');
            && problem == (if p.writable || ToWrite(d, p, o) == NoKeys then None else Some(CannotWrite))
            && (problem == None && (ToWrite(d, p, o) == NoKeys || !Toml.Marked(TextOf(p.content))) ==>
                  && !p'.content.Unreadable?
                  && Toml.Parse(TextOf(p'.content)) == Some(Added(DocOf(p.content), ToWrite(d, p, o))))
  {
    SameMissing(d, p, o, o');
    ReadParses(d.path, p.content, o');
    AddingNothing(DocOf(p.content));
    MergedReads(d.path, p.content, ToWrite(d, p, o), o');
  }

  /** One Save after the login, one load after that, each reading in an order of its own. */
  ghost predicate RoundTrips(d: Deployment, p: Place, saving: Order, loading: Order, later: string -> Answer) {
    && Saving(d, p, saving).1 == None
    && Loading(d.path, Saving(d, p, saving).0.content, loading, "", later) == Loaded(AllFromFile(d), None, [])
  }

  /** What the next command loads, and a second Save finds, over a file whose spellings settle. */
  lemma SettledLoads(d: Deployment, p: Place, o: Order, saving: Order, loading: Order, later: string -> Answer)
    requires LoggedIn(d, p, o) && Toml.Parse(TextOf(p.content)).Some? && SpellingsSettle(DocOf(p.content), d)
    requires Saving(d, p, saving).1 == None && (ToWrite(d, p, o) == NoKeys || !Toml.Marked(TextOf(p.content)))
    ensures var p' := Saving(d, p, saving).0;
            var l := Loading(d.path, p'.content, loading, "", later);
            && l.asked == []
            && (if d.issuer.value == "" then l.problem == Some(NotConfigured([ISSUER])) else l == Loaded(AllFromFile(d), None, []))
            && Saving(d, p', loading) == (p', None)
  {
    var p' := Saving(d, p, saving).0;
    SavedHolds(d, p, o, saving);
    AddedHarmless(d, p, o);
    ReadParses(d.path, p.content, o);
    HarmlessReads(d.path, p'.content, d, loading);
    var file := ReadConfig(d.path, p'.content, loading).value;
    ResolvesFromFile(d.path, file, d.api.value, later);
    assert Unsaved(d, file.keys) == NoKeys;
  }

  /** A file loads as the login's whatever the order. */
  ghost predicate AlwaysLoads(d: Deployment, c: Content, later: string -> Answer) {
    && d.path != "" && d.api.value != "" && d.clientID.value != "" && !c.Unreadable? && Toml.Parse(TextOf(c)).Some?
    && forall o :: Loading(d.path, c, o, "", later) == Loaded(AllFromFile(d), None, [])
  }

  lemma SpellsOnlySettled(d: Deployment, c: Content, later: string -> Answer, key: string, name: string)
    requires AlwaysLoads(d, c, later) && key in {API, ISSUER, CLIENT_ID} && Spelled(DocOf(c), key, name)
    ensures IsString(DocOf(c), name)
    ensures key == API ==> NormalizeAPI(DocOf(c).top[name].s) == Some(d.api.value)
    ensures key == ISSUER ==> DocOf(c).top[name].s == d.issuer.value
    ensures key == CLIENT_ID ==> DocOf(c).top[name].s == d.clientID.value
  {
    KeysAreBare();
    var o := OtherSpelling(DocOf(c), key, name);
    LoadedFile(d, c, o, later);
  }

  lemma SpellsNoCommand(d: Deployment, c: Content, later: string -> Answer, name: string)
    requires AlwaysLoads(d, c, later) && Spelled(DocOf(c), TOKEN_COMMAND, name)
    ensures IsArgv(DocOf(c), name) && !Hands(DocOf(c).top[name].items)
  {
    var o := OtherCommand(DocOf(c), name);
    LoadedFile(d, c, o, later);
  }

  lemma AlwaysNormalizes(d: Deployment, c: Content, later: string -> Answer)
    requires AlwaysLoads(d, c, later)
    ensures AllNormalize(DocOf(c), d.api.value)
  {
    forall name | Spelled(DocOf(c), API, name) ensures IsString(DocOf(c), name) && NormalizeAPI(DocOf(c).top[name].s) == Some(d.api.value) {
      SpellsOnlySettled(d, c, later, API, name);
    }
  }

  lemma AlwaysSays(d: Deployment, c: Content, later: string -> Answer, key: string, value: string)
    requires AlwaysLoads(d, c, later)
    requires (key == ISSUER && value == d.issuer.value) || (key == CLIENT_ID && value == d.clientID.value)
    ensures AllSay(DocOf(c), key, value)
  {
    forall name | Spelled(DocOf(c), key, name) ensures name in DocOf(c).top && DocOf(c).top[name] == Toml.Str(value) {
      SpellsOnlySettled(d, c, later, key, name);
    }
  }

  lemma AlwaysIdle(d: Deployment, c: Content, later: string -> Answer)
    requires AlwaysLoads(d, c, later)
    ensures AllIdle(DocOf(c))
  {
    forall name | Spelled(DocOf(c), TOKEN_COMMAND, name) ensures IsArgv(DocOf(c), name) && !Hands(DocOf(c).top[name].items) {
      SpellsNoCommand(d, c, later, name);
    }
  }

  /** A file that loads as the login's in every order spells nothing else. */
  lemma LoadsOnlySettled(d: Deployment, c: Content, later: string -> Answer)
    requires AlwaysLoads(d, c, later)
    ensures SpellingsSettle(DocOf(c), d) && d.issuer.value != ""
  {
    AlwaysNormalizes(d, c, later);
    AlwaysSays(d, c, later, ISSUER, d.issuer.value);
    AlwaysSays(d, c, later, CLIENT_ID, d.clientID.value);
    AlwaysIdle(d, c, later);
    LoadedFile(d, c, Order(0, 0, 0, 0), later);
  }

  /** The file behind one such load. */
  lemma LoadedFile(d: Deployment, c: Content, o: Order, later: string -> Answer)
    requires d.path != "" && d.api.value != "" && d.clientID.value != "" && !c.Unreadable? && Toml.Parse(TextOf(c)).Some?
    requires Loading(d.path, c, o, "", later) == Loaded(AllFromFile(d), None, [])
    ensures ReadConfig(d.path, c, o).Ok? && d.issuer.value != ""
    ensures var file := ReadConfig(d.path, c, o).value;
            && Reads(DocOf(c), file, o)
            && NormalizeAPI(file.keys.api) == Some(d.api.value) && file.keys.issuer == d.issuer.value
            && file.keys.clientID == d.clientID.value && !Hands(file.tokenCommand)
  {
    var file := ReadConfig(d.path, c, o).value;
    ReadParses(d.path, c, o);
    ResolvedFromFile(d.path, file, d, later);
  }

  /** Spellings that settle once something is added settled before. */
  lemma SettledBefore(doc: Toml.Document, m: LoginKeys, d: Deployment)
    requires Clear(Bindings(m), doc) && SpellingsSettle(Added(doc, m), d)
    ensures SpellingsSettle(doc, d)
  {
    KeysAreBare();
    AddedExtends(doc, m, API);
    AddedExtends(doc, m, ISSUER);
    AddedExtends(doc, m, CLIENT_ID);
    AddedCommand(doc, m);
    forall name | name in Names(doc) ensures name in Added(doc, m).top ==> name !in Bindings(m) {
    }
  }

  /**
   The login round trip. Save after a login, and then the next command, give back the
   same three values, all from the file and asking nobody, whatever order either takes
   a file's keys in, exactly when the issuer is not empty, Save can write what it has
   to and not to a file that starts with a byte order mark, and every spelling of a
   login key in the file says what the login settled on.
   */
  lemma LoginRoundTrip(path: string, p: Place, o: Order, api: string, clientID: string, m: Machine,
                       served: string -> Answer, later: string -> Answer)
    requires LoggingIn(path, p, o, api, clientID, m, served).0.Ok?
    ensures Toml.Parse(TextOf(p.content)).Some?
    ensures var d := LoggingIn(path, p, o, api, clientID, m, served).0.value;
            (forall saving, loading :: RoundTrips(d, p, saving, loading, later)) <==>
              && d.issuer.value != ""
              && (ToWrite(d, p, o) == NoKeys || (p.writable && !Toml.Marked(TextOf(p.content))))
              && SpellingsSettle(DocOf(p.content), d)
  {
    var d := LoggingIn(path, p, o, api, clientID, m, served).0.value;
    LoginIsLoggedIn(path, p, o, api, clientID, m, served);
    ReadParses(path, p.content, o);
    if forall saving, loading :: RoundTrips(d, p, saving, loading, later) {
      TripsOnlySettled(d, p, o, later);
    }
    if d.issuer.value != "" && (ToWrite(d, p, o) == NoKeys || (p.writable && !Toml.Marked(TextOf(p.content))))
       && SpellingsSettle(DocOf(p.content), d) {
      forall saving, loading ensures RoundTrips(d, p, saving, loading, later) {
        SavedHolds(d, p, o, saving);
        SettledLoads(d, p, o, saving, loading, later);
      }
    }
  }

  lemma TripsOnlySettled(d: Deployment, p: Place, o: Order, later: string -> Answer)
    requires LoggedIn(d, p, o) && Toml.Parse(TextOf(p.content)).Some?
    requires forall saving, loading :: RoundTrips(d, p, saving, loading, later)
    ensures d.issuer.value != "" && (ToWrite(d, p, o) == NoKeys || (p.writable && !Toml.Marked(TextOf(p.content))))
    ensures SpellingsSettle(DocOf(p.content), d)
  {
    var m, file := ToWrite(d, p, o), ReadConfig(d.path, p.content, o).value;
    var c := Saving(d, p, o).0.content;
    ReadParses(d.path, p.content, o);
    UnsavedIsLacking(d, file.keys);
    MayLacksExactly(DocOf(p.content), file, m);
    AddingNothing(DocOf(p.content));
    assert RoundTrips(d, p, o, o, later);
    assert ReadConfig(d.path, c, o).Ok?;
    if m != NoKeys {
      MergedReads(d.path, p.content, m, o);
    }
    assert Toml.Parse(TextOf(c)) == Some(Added(DocOf(p.content), m));
    forall loading ensures Loading(d.path, c, loading, "", later) == Loaded(AllFromFile(d), None, []) {
      assert RoundTrips(d, p, o, loading, later);
    }
    LoadsOnlySettled(d, c, later);
    SettledBefore(DocOf(p.content), m, d);
  }

  /**
   And what happens besides. Over a file whose spellings settle, Save after a login
   fails only where a needed write is impossible, never for a link; the next command
   asks nobody, and with an empty issuer, which only discovery can give, misses just
   that; a second Save writes nothing. To a file with a byte order mark Save still
   writes, and no command reads it again.
   */
  lemma SaveAfterLogin(path: string, p: Place, o: Order, api: string, clientID: string, m: Machine,
                       served: string -> Answer, later: string -> Answer, saving: Order, loading: Order)
    requires LoggingIn(path, p, o, api, clientID, m, served).0.Ok?
    ensures Toml.Parse(TextOf(p.content)).Some?
    ensures var d := LoggingIn(path, p, o, api, clientID, m, served).0.value;
            var (p', problem) := Saving(d, p, saving);
            && (d.issuer.value == "" && !AnySpelled(DocOf(p.content), ISSUER) ==> d.issuer.source == Discovered)
            && (SpellingsSettle(DocOf(p.content), d) ==>
                  && problem == (if p.writable || ToWrite(d, p, o) == NoKeys then None else Some(CannotWrite))
                  && (problem == None && ToWrite(d, p, o) != NoKeys && Toml.Marked(TextOf(p.content)) ==>
                        Loading(path, p'.content, loading, "", later).problem == Some(BadConfig(Malformed)))
                  && (problem == None && (ToWrite(d, p, o) == NoKeys || !Toml.Marked(TextOf(p.content))) ==>
                        && Loading(path, p'.content, loading, "", later).asked == []
                        && (d.issuer.value == "" ==> Loading(path, p'.content, loading, "", later).problem == Some(NotConfigured([ISSUER])))
                        && Saving(d, p', loading) == (p', None)))
  {
    var d := LoggingIn(path, p, o, api, clientID, m, served).0.value;
    LoginIsLoggedIn(path, p, o, api, clientID, m, served);
    ReadParses(path, p.content, o);
    if SpellingsSettle(DocOf(p.content), d) {
      SavedHolds(d, p, o, saving);
      SameMissing(d, p, o, saving);
      if Saving(d, p, saving).1 == None {
        if ToWrite(d, p, o) == NoKeys || !Toml.Marked(TextOf(p.content)) {
          SettledLoads(d, p, o, saving, loading, later);
        } else {
          MergedReads(path, p.content, ToWrite(d, p, o), saving);
        }
      }
    }
  }

  // --- the inputs over which it fails ---

  /** An empty discovered issuer: the deployment resolves, and saving it loses the issuer, so that the next command is not configured. */
  lemma EmptyIssuerIsLost(path: string, p: Place, o: Order, api: string, m: Machine, served: string -> Answer, later: string -> Answer)
    requires path != "" && p.content.Absent? && !p.linked && p.writable && NormalizeAPI(api).Some?
    requires NamesOne(served(NormalizeAPI(api).value), NormalizeAPI(api).value)
    requires served(NormalizeAPI(api).value).document.value.servers == [""]
    ensures var login := LoggingIn(path, p, o, api, "", m, served).0;
            && login.Ok? && Saving(login.value, p, o).1 == None
            && Loading(path, Saving(login.value, p, o).0.content, o, "", later).problem == Some(NotConfigured([ISSUER]))
  {
    BareMachineLogsIn(path, p, o, api, m, served);
    EmptyText();
    assert !Toml.Marked("");
    NothingSettles(DocOf(p.content), LoggingIn(path, p, o, api, "", m, served).0.value);
    SaveAfterLogin(path, p, o, api, "", m, served, later, o, o);
  }

  lemma NothingSettles(doc: Toml.Document, d: Deployment)
    requires Names(doc) == {}
    ensures SpellingsSettle(doc, d)
  {
    assert forall key, name :: !Spelled(doc, key, name);
  }

  lemma MarkAlone()
    ensures Toml.Parse([Toml.MARK]) == Some(Toml.Document(map[], map[]))
  {
    assert [Toml.MARK][1..] == "";
    EmptyText();
  }

  lemma MarkAloneReads(path: string, o: Order)
    requires path != ""
    ensures ReadConfig(path, Text([Toml.MARK]), o) == Ok(ConfigFile(NoKeys, []))
  {
    MarkAlone();
    NothingReads(Toml.Document(map[], map[]), o);
  }

  /** A file that is a byte order mark and nothing else: Save writes to it, and no command reads it again. */
  lemma MarkedFileIsSpoiled(path: string, p: Place, o: Order, api: string, m: Machine, served: string -> Answer, later: string -> Answer)
    requires path != "" && p.content == Text([Toml.MARK]) && !p.linked && p.writable && NormalizeAPI(api).Some?
    requires NamesOne(served(NormalizeAPI(api).value), NormalizeAPI(api).value)
    ensures var login := LoggingIn(path, p, o, api, "", m, served).0;
            && login.Ok? && Saving(login.value, p, o).1 == None
            && Loading(path, Saving(login.value, p, o).0.content, o, "", later).problem == Some(BadConfig(Malformed))
            && Saving(login.value, Saving(login.value, p, o).0, o).1 == Some(BadConfig(Malformed))
  {
    MarkAloneReads(path, o);
    LogsInFromNothing(path, api, m, served);
    SaveAddsWhatIsMissing(LoggingIn(path, p, o, api, "", m, served).0.value, p, o);
  }

  /** Every login key spelled is a string, and every token_command an array. */
  ghost predicate Typed(doc: Toml.Document) {
    && (forall n :: Spelled(doc, API, n) ==> IsString(doc, n))
    && (forall n :: Spelled(doc, ISSUER, n) ==> IsString(doc, n))
    && (forall n :: Spelled(doc, CLIENT_ID, n) ==> IsString(doc, n))
    && (forall n :: Spelled(doc, TOKEN_COMMAND, n) ==> IsArgv(doc, n))
  }

  /** With an empty spelling of api bound last, a file that defines api is refused for it. */
  lemma EmptyLastIsRefused(path: string, c: Content, name: string) returns (o: Order)
    requires path != "" && c.Text? && Toml.Parse(c.text).Some? && IsDefined(DocOf(c), API)
    requires Spelled(DocOf(c), API, name) && name in DocOf(c).top && DocOf(c).top[name] == Toml.Str("")
    requires Typed(DocOf(c))
    ensures ReadConfig(path, c, o) == Err(EmptyValue(API))
  {
    var doc := DocOf(c);
    KeysAreLower();
    var n := AnyMayBeLast(doc, API, name);
    o := Order(n, 0, 0, 0);
    AllStringsIs(doc, API);
    AllStringsIs(doc, ISSUER);
    AllStringsIs(doc, CLIENT_ID);
    AllArgvsIs(doc, TOKEN_COMMAND);
    assert StringKey(doc, API, n) == Some("");
    var file := Decode(doc, o).value;
    assert Named(file.keys)[0] == (API, "");
  }

  /** A file that reads stays typed when keys are added to it. */
  lemma AddedTyped(doc: Toml.Document, file: ConfigFile, m: LoginKeys)
    requires May(doc, file) && OnlyLacking(m, file.keys)
    ensures var doc' := Added(doc, m);
            Typed(doc')
    ensures m.api != "" ==> IsDefined(Added(doc, m), API)
    ensures forall name :: Spelled(doc, API, name) ==> Spelled(Added(doc, m), API, name) && Added(doc, m).top[name] == doc.top[name]
  {
    MayLacksExactly(doc, file, m);
    BindingsHold(m);
    KeysAreBare();
    AddedExtends(doc, m, API);
    AddedExtends(doc, m, ISSUER);
    AddedExtends(doc, m, CLIENT_ID);
    AddedCommand(doc, m);
  }

  /** One more key put above an empty spelling of it, in a file that can be written. */
  lemma EmptyBelow(d: Deployment, p: Place, o: Order, name: string) returns (loading: Order)
    requires LoggedIn(d, p, o) && p.writable && Toml.Parse(TextOf(p.content)).Some? && !Toml.Marked(TextOf(p.content))
    requires ReadConfig(d.path, p.content, o).value.keys.api == ""
    requires Spelled(DocOf(p.content), API, name) && name in DocOf(p.content).top && DocOf(p.content).top[name] == Toml.Str("")
    ensures Saving(d, p, o).1 == None
    ensures ReadConfig(d.path, Saving(d, p, o).0.content, loading) == Err(EmptyValue(API))
  {
    var file, m := ReadConfig(d.path, p.content, o).value, ToWrite(d, p, o);
    ReadParses(d.path, p.content, o);
    UnsavedIsLacking(d, file.keys);
    AddedTyped(DocOf(p.content), file, m);
    MergedReads(d.path, p.content, m, o);
    loading := EmptyLastIsRefused(d.path, Text(Merged(m, TextOf(p.content))), name);
  }

  /**
   An empty api spelled otherwise passes as no api, and a login fills it in. The next
   decoding binds both to one field, and in one of its orders is refused for the empty
   one, though Save reported success.
   */
  lemma EmptySpellingIsRefused(path: string, p: Place, o: Order, api: string, clientID: string, m: Machine,
                               served: string -> Answer, later: string -> Answer, name: string) returns (loading: Order)
    requires LoggingIn(path, p, o, api, clientID, m, served).0.Ok? && p.writable
    requires Toml.Parse(TextOf(p.content)).Some? && !Toml.Marked(TextOf(p.content))
    requires ReadConfig(path, p.content, o).value.keys.api == ""
    requires Spelled(DocOf(p.content), API, name) && name in DocOf(p.content).top && DocOf(p.content).top[name] == Toml.Str("")
    ensures var d := LoggingIn(path, p, o, api, clientID, m, served).0.value;
            && Saving(d, p, o).1 == None
            && Loading(path, Saving(d, p, o).0.content, loading, "", later).problem == Some(BadConfig(EmptyValue(API)))
  {
    LoginIsLoggedIn(path, p, o, api, clientID, m, served);
    loading := EmptyBelow(LoggingIn(path, p, o, api, clientID, m, served).0.value, p, o, name);
  }

  const OTHER_CASE := "API"

  const OtherCase := Toml.Document(map[OTHER_CASE := Toml.Str("")], map[])

  /** The text API = "". */
  lemma OtherCaseParses()
    ensures Toml.Parse(KeyLine(OTHER_CASE, "")) == Some(OtherCase)
    ensures !Toml.Marked(KeyLine(OTHER_CASE, ""))
  {
    var line := KeyLine(OTHER_CASE, "");
    assert line[0] == 'A' && BareKey(OTHER_CASE);
    KeyLineIsOneLine(OTHER_CASE, "");
    OnlyPiece(line, '\n');
    KeyLineParses(OTHER_CASE, "");
    assert map[][OTHER_CASE := Toml.Str("")] == map[OTHER_CASE := Toml.Str("")];
    var r := Toml.Reader(OtherCase, None, None, "");
    assert Toml.ReadLine(Toml.Fresh, line) == Some(r);
    assert [line][0] == line && [line][1..] == [] && Toml.ReadLines(r, []) == Some(r);
    assert Toml.ReadLines(Toml.Fresh, [line]) == Some(r);
  }

  lemma OtherCaseFolds()
    ensures Lower(OTHER_CASE) == API && OTHER_CASE != API
  {
    var l := Lower(OTHER_CASE);
    assert OTHER_CASE == ['A', 'P', 'I'] && API == ['a', 'p', 'i'];
    assert |l| == 3 && l[0] == 'a' && l[1] == 'p' && l[2] == 'i';
    assert l == API;
    assert OTHER_CASE[0] != API[0];
  }

  lemma OtherCaseSpells(key: string)
    requires key in {API, ISSUER, CLIENT_ID, TOKEN_COMMAND}
    ensures forall name :: Spelled(OtherCase, key, name) <==> name == OTHER_CASE && key == API
    ensures !IsDefined(OtherCase, key)
  {
    OtherCaseFolds();
    KeysAreBare();
    CommandIsNoLoginKey();
    assert OTHER_CASE[0] == 'A' && ISSUER[0] == 'i' && CLIENT_ID[0] == 'c' && TOKEN_COMMAND[0] == 't';
    assert Names(OtherCase) == {OTHER_CASE};
  }

  /** It reads as a file that sets nothing, since the key it defines is not api. */
  lemma OtherCaseReads(path: string, o: Order)
    requires path != ""
    ensures ReadConfig(path, Text(KeyLine(OTHER_CASE, "")), o) == Ok(ConfigFile(NoKeys, []))
  {
    OtherCaseParses();
    OtherCaseSpells(API);
    OtherCaseSpells(ISSUER);
    OtherCaseSpells(CLIENT_ID);
    OtherCaseSpells(TOKEN_COMMAND);
    assert Spelled(OtherCase, API, OTHER_CASE);
    assert Must(OtherCase, ConfigFile(NoKeys, []));
    MustReadAs(path, Text(KeyLine(OTHER_CASE, "")), ConfigFile(NoKeys, []));
  }

  /** The file API = "", and a login to http://h/ over it: Save reports success, and the next command can be refused. */
  lemma OtherCaseIsRefused(path: string, o: Order, m: Machine, served: string -> Answer, later: string -> Answer) returns (loading: Order)
    requires path != "" && NamesOne(served(HTTP + "h"), HTTP + "h")
    ensures var p := Place(Text(KeyLine(OTHER_CASE, "")), false, true);
            var login := LoggingIn(path, p, o, HTTP + "h/", "", m, served).0;
            && login.Ok? && Saving(login.value, p, o).1 == None
            && Loading(path, Saving(login.value, p, o).0.content, loading, "", later).problem == Some(BadConfig(EmptyValue(API)))
  {
    var p := Place(Text(KeyLine(OTHER_CASE, "")), false, true);
    ExampleIsAPI();
    OtherCaseReads(path, o);
    OtherCaseParses();
    OtherCaseSpells(API);
    LogsInFromNothing(path, HTTP + "h/", m, served);
    loading := EmptySpellingIsRefused(path, p, o, HTTP + "h/", "", m, served, later, OTHER_CASE);
  }

  const OTHER_COMMAND := "Token_Command"

  const OtherCommandDoc := Toml.Document(map[OTHER_COMMAND := Toml.Strs([""])], map[])

  lemma OneEmptyItem()
    ensures Toml.ParseValue(OTHER_COMMAND, "[\"\"]") == Toml.Pair(OTHER_COMMAND, Toml.Strs([""]))
  {
    var w := "[\"\"]";
    assert w[..3][0] == '[' && w[1..] == "\"\"]";
    assert "\"\"]"[1..] == "\"]" && "\"]"[1..] == "]" && "]"[1..] == "";
    assert Toml.ScanString("\"]") == Some(("", "]"));
    assert Toml.ScanItems("\"\"]") == Some([""]);
  }

  /** The text Token_Command = [""]. */
  lemma OtherCommandParses()
    ensures Toml.Parse(OTHER_COMMAND + " = " + "[\"\"]") == Some(OtherCommandDoc)
  {
    var line := OTHER_COMMAND + " = " + "[\"\"]";
    assert line[0] == 'T' && BareKey(OTHER_COMMAND) && '\n' !in line;
    OnlyPiece(line, '\n');
    ValueLineParses(OTHER_COMMAND, "[\"\"]");
    OneEmptyItem();
    assert map[][OTHER_COMMAND := Toml.Strs([""])] == map[OTHER_COMMAND := Toml.Strs([""])];
    var r := Toml.Reader(OtherCommandDoc, None, None, "");
    assert Toml.ReadLine(Toml.Fresh, line) == Some(r);
    assert [line][0] == line && [line][1..] == [] && Toml.ReadLines(r, []) == Some(r);
    assert Toml.ReadLines(Toml.Fresh, [line]) == Some(r);
  }

  lemma OtherCommandFolds()
    ensures Lower(OTHER_COMMAND) == TOKEN_COMMAND && OTHER_COMMAND != TOKEN_COMMAND
  {
    var l := Lower(OTHER_COMMAND);
    assert |l| == |TOKEN_COMMAND| == 13;
    assert forall i :: 0 <= i < 13 && i != 0 && i != 6 ==> OTHER_COMMAND[i] == TOKEN_COMMAND[i];
    assert forall i :: 0 <= i < 13 ==> l[i] == TOKEN_COMMAND[i];
    assert l == TOKEN_COMMAND;
    assert OTHER_COMMAND[0] != TOKEN_COMMAND[0];
  }

  lemma OtherCommandSpells(key: string)
    requires key in {API, ISSUER, CLIENT_ID, TOKEN_COMMAND}
    ensures forall name :: Spelled(OtherCommandDoc, key, name) <==> name == OTHER_COMMAND && key == TOKEN_COMMAND
    ensures !IsDefined(OtherCommandDoc, key)
  {
    OtherCommandFolds();
    CommandIsNoLoginKey();
    assert OTHER_COMMAND[0] == 'T' && API[0] == 'a' && ISSUER[0] == 'i' && CLIENT_ID[0] == 'c';
    assert Names(OtherCommandDoc) == {OTHER_COMMAND};
  }

  /** It sets a command without a program, which passes because the key is not spelled exactly: a login is refused as handed its tokens, and no command hands any. */
  lemma EmptyProgramPasses(path: string, p: Place, o: Order, api: string, clientID: string, m: Machine, served: string -> Answer)
    requires path != "" && p.content == Text(OTHER_COMMAND + " = " + "[\"\"]")
    ensures ReadConfig(path, p.content, o) == Ok(ConfigFile(NoKeys, [""]))
    ensures LoggingIn(path, p, o, api, clientID, m, served).0 == Err(HandedTokens)
    ensures !FromConfig(path, ConfigFile(NoKeys, [""]), api).HandsTokens() && New([""]).Argv() != [""]
  {
    OtherCommandParses();
    OtherCommandSpells(API);
    OtherCommandSpells(ISSUER);
    OtherCommandSpells(CLIENT_ID);
    OtherCommandSpells(TOKEN_COMMAND);
    assert Spelled(OtherCommandDoc, TOKEN_COMMAND, OTHER_COMMAND);
    assert Must(OtherCommandDoc, ConfigFile(NoKeys, [""]));
    MustReadAs(path, p.content, ConfigFile(NoKeys, [""]));
    JoinIsEmpty([""]);
  }
}
