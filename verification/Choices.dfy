/**
 What a command ends up with, field by field and from the inputs alone: where each
 setting of a loaded deployment and of a login comes from, and the reason given for
 each refusal.
 */
module Choices {
  import opened Basics
  import Toml
  import opened Merge
  import opened TokenCommand
  import opened ApiUrl
  import opened ConfigFile
  import opened Deployment

  // --- reading the file ---

  /** Every spelling of every key has the type its field wants. */
  predicate Typed(doc: Toml.Document) {
    AllStrings(doc, API) && AllStrings(doc, ISSUER) && AllStrings(doc, CLIENT_ID) && AllArgvs(doc, TOKEN_COMMAND)
  }

  /** The key is set, spelled exactly so, and what is read for it is empty. */
  predicate SaysNothing(doc: Toml.Document, key: string, n: nat) { IsDefined(doc, key) && StringKey(doc, key, n) == Some("") }

  /** The first of the three keys that says nothing. */
  predicate FirstToSayNothing(doc: Toml.Document, key: string, o: Order) {
    if SaysNothing(doc, API, o.api) then key == API
    else if SaysNothing(doc, ISSUER, o.issuer) then key == ISSUER
    else SaysNothing(doc, CLIENT_ID, o.clientID) && key == CLIENT_ID
  }

  predicate NoneSaysNothing(doc: Toml.Document, o: Order) {
    !SaysNothing(doc, API, o.api) && !SaysNothing(doc, ISSUER, o.issuer) && !SaysNothing(doc, CLIENT_ID, o.clientID)
  }

  /** A command is set and starts with no program. */
  predicate NamesNoProgram(doc: Toml.Document, argv: seq<string>) {
    IsDefined(doc, TOKEN_COMMAND) && (argv == [] || argv[0] == "")
  }

  /** Why a config file is refused, in the order the reasons are looked for. */
  predicate ConfigRefusedFor(e: ConfigError, path: string, c: Content, o: Order) {
    if path == "" then e == NoConfigPath
    else if !c.Text? then c.Unreadable? && e == CannotRead
    else
      match Toml.Parse(c.text)
      case None => e == Malformed
      case Some(doc) =>
        if !Typed(doc) then e == WrongType
        else if !NoneSaysNothing(doc, o) then e.EmptyValue? && FirstToSayNothing(doc, e.key, o)
        else
          var argv := CommandKey(doc, o.command).value;
          if NamesNoProgram(doc, argv) then e == NoProgram else e == NulInArgument && exists i :: 0 <= i < |argv| && NUL in argv[i]
  }

  lemma FirstEmptyStep(doc: Toml.Document, key: string, value: string, rest: seq<(string, string)>)
    ensures FirstEmpty(doc, [(key, value)] + rest) == if value == "" && IsDefined(doc, key) then Some(key) else FirstEmpty(doc, rest)
  {
    assert ([(key, value)] + rest)[1..] == rest;
  }

  lemma FirstEmptyOf(doc: Toml.Document, keys: LoginKeys, o: Order)
    requires Typed(doc)
    requires StringKey(doc, API, o.api) == Some(keys.api) && StringKey(doc, ISSUER, o.issuer) == Some(keys.issuer)
    requires StringKey(doc, CLIENT_ID, o.clientID) == Some(keys.clientID)
    ensures match FirstEmpty(doc, Named(keys)) case None => NoneSaysNothing(doc, o) case Some(key) => FirstToSayNothing(doc, key, o)
  {
    var last, more := [(CLIENT_ID, keys.clientID)], [(ISSUER, keys.issuer), (CLIENT_ID, keys.clientID)];
    FirstEmptyStep(doc, CLIENT_ID, keys.clientID, []);
    FirstEmptyStep(doc, ISSUER, keys.issuer, last);
    FirstEmptyStep(doc, API, keys.api, more);
    assert last == [(CLIENT_ID, keys.clientID)] + [] && more == [(ISSUER, keys.issuer)] + last;
    assert Named(keys) == [(API, keys.api)] + more;
  }

  /** A config file that does not read is refused for the first thing wrong with it. */
  lemma ConfigIsRefusedFor(path: string, c: Content, o: Order)
    requires ReadConfig(path, c, o).Err?
    ensures ConfigRefusedFor(ReadConfig(path, c, o).error, path, c, o)
  {
    if path != "" && c.Text? && Toml.Parse(c.text).Some? {
      var doc := Toml.Parse(c.text).value;
      if Decode(doc, o).Some? {
        FirstEmptyOf(doc, Decode(doc, o).value.keys, o);
      }
    }
  }

  // --- what an API answers ---

  /** Why an answer is no document about this resource. No two of these hold of one answer. */
  predicate NotAbout(problem: Problem, answer: Answer, resource: string) {
    match problem
    case NoAnswer => answer.Unreachable?
    case BadStatus(status) => answer.Answered? && answer.status == status && status != 200
    case NotMetadata => answer.Answered? && answer.status == 200 && answer.document.None?
    case OtherResource(named) =>
      answer.Answered? && answer.status == 200 && answer.document.Some?
      && answer.document.value.resource == named && named != resource
    case _ => false
  }

  /** Metadata is returned exactly as it was served, when it is about the resource asked for, and otherwise the reason is the answer's. */
  lemma MetadataIsTheAnswers(answer: Answer, resource: string)
    ensures var r := ReadMetadata(answer, resource);
            if About(answer, resource) then r == Ok(answer.document.value) else r.Err? && NotAbout(r.error, answer, resource)
  {
  }

  // --- a login ---

  predicate APIChosen(s: Setting, path: string, keys: LoginKeys, api: string) {
    && NormalizeAPI(Or(keys.api, api)) == Some(s.value)
    && if keys.api != "" then s.source == File && s.from == path else api != "" && s.source == CommandLine && s.from == ""
  }

  /** v is the API chosen. */
  predicate IssuerChosen(s: Setting, path: string, keys: LoginKeys, v: string, served: string -> Answer) {
    if keys.issuer != "" then s == Setting(keys.issuer, File, path)
    else
      && About(served(v), v) && served(v).document.value.servers == [s.value]
      && s.source == Discovered && s.from == served(v).url
  }

  predicate ClientChosen(s: Setting, path: string, keys: LoginKeys, clientID: string, m: Machine) {
    if keys.clientID != "" then s == Setting(keys.clientID, File, path) && (clientID == "" || clientID == keys.clientID)
    else if clientID != "" then s == Setting(clientID, CommandLine, "")
    else s == Setting(ClientID(m), Hostname, m.host)
  }

  lemma ChoosesItsAPI(path: string, keys: LoginKeys, api: string)
    requires ChooseAPI(path, keys, api).Ok?
    ensures APIChosen(ChooseAPI(path, keys, api).value, path, keys, api)
  {
    EmptyIsNoAPI(Or(keys.api, api));
  }

  lemma ChoosesItsIssuer(path: string, keys: LoginKeys, v: string, served: string -> Answer)
    requires ChooseIssuer(path, keys, served(v), v).Ok?
    ensures IssuerChosen(ChooseIssuer(path, keys, served(v), v).value, path, keys, v, served)
  {
  }

  lemma ChoosesItsClient(path: string, keys: LoginKeys, clientID: string, m: Machine)
    requires ChooseClient(path, keys, clientID, m).Ok?
    ensures ClientChosen(ChooseClient(path, keys, clientID, m).value, path, keys, clientID, m)
  {
  }

  lemma ChoosesEach(path: string, keys: LoginKeys, linked: bool, api: string, clientID: string, m: Machine, served: string -> Answer)
    requires Choosing(path, keys, linked, api, clientID, m, served).0.Ok?
    ensures var d := Choosing(path, keys, linked, api, clientID, m, served).0.value;
            && d.path == path && d.tokenCommand == New([])
            && APIChosen(d.api, path, keys, api)
            && IssuerChosen(d.issuer, path, keys, d.api.value, served)
            && ClientChosen(d.clientID, path, keys, clientID, m)
  {
    var chosen := ChooseAPI(path, keys, api);
    assert chosen.Ok?;
    var v := chosen.value.value;
    assert ChooseIssuer(path, keys, served(v), v).Ok? && ChooseClient(path, keys, clientID, m).Ok?;
    ChoosesItsAPI(path, keys, api);
    ChoosesItsIssuer(path, keys, v, served);
    ChoosesItsClient(path, keys, clientID, m);
  }

  /**
   Whatever a login resolves, field by field. The API is the file's or the one typed,
   in normal form. The issuer is the file's, or the one server named in the document
   the API serves about itself. The client id is the file's, the flag's, or the
   machine's. Each says where it came from, and no command hands the tokens.
   */
  lemma LoginGives(path: string, p: Place, o: Order, api: string, clientID: string, m: Machine, served: string -> Answer)
    requires LoggingIn(path, p, o, api, clientID, m, served).0.Ok?
    ensures ReadConfig(path, p.content, o).Ok?
    ensures var d := LoggingIn(path, p, o, api, clientID, m, served).0.value;
            var keys := ReadConfig(path, p.content, o).value.keys;
            && d.path == path && d.tokenCommand.Argv() == []
            && APIChosen(d.api, path, keys, api)
            && IssuerChosen(d.issuer, path, keys, d.api.value, served)
            && ClientChosen(d.clientID, path, keys, clientID, m)
  {
    ChoosesEach(path, ReadConfig(path, p.content, o).value.keys, p.linked, api, clientID, m, served);
  }

  // --- why a login is refused ---

  /** The API a login would go by is settled. */
  predicate APISettled(keys: LoginKeys, api: string) {
    && IsAPI(Or(keys.api, api))
    && (keys.api != "" && api != "" ==> NormalizeAPI(api) == NormalizeAPI(keys.api))
  }

  /** Why there is no API: none given, one that is no API, or two that differ. */
  predicate NoAPI(problem: Problem, path: string, keys: LoginKeys, api: string) {
    match problem
    case NotConfigured(missing) => keys.api == "" && api == "" && missing == [API]
    case NotAnAPI(from) =>
      if keys.api != "" && !IsAPI(keys.api) then from == path else api != "" && !IsAPI(api) && from == ""
    case Conflict(key) =>
      key == API && keys.api != "" && api != "" && IsAPI(keys.api) && IsAPI(api) && NormalizeAPI(api) != NormalizeAPI(keys.api)
    case _ => false
  }

  /** Why no issuer is found in the answer of the API. */
  predicate NoIssuer(problem: Problem, answer: Answer, resource: string) {
    if About(answer, resource) then
      var servers := answer.document.value.servers;
      if servers == [] then problem == NoServer else |servers| > 1 && problem == ManyServers(servers)
    else NotAbout(problem, answer, resource)
  }

  /** What a link keeps from being written: each value the file lacks. */
  predicate Unwritable(missing: LoginKeys, keys: LoginKeys, api: string, clientID: string, m: Machine, answer: Answer, v: string) {
    && missing.api == (if keys.api == "" then v else "")
    && (if keys.issuer == "" then About(answer, v) && answer.document.value.servers == [missing.issuer] else missing.issuer == "")
    && missing.clientID == (if keys.clientID != "" then "" else if clientID != "" then clientID else ClientID(m))
    && missing != NoKeys
  }

  predicate IssuerSettled(keys: LoginKeys, answer: Answer, resource: string) {
    keys.issuer != "" || NamesOne(answer, resource)
  }

  /** The reason a login gives, in the order the reasons are looked for. */
  predicate RefusedFor(problem: Problem, path: string, keys: LoginKeys, linked: bool, api: string, clientID: string, m: Machine,
                       served: string -> Answer)
  {
    if !APISettled(keys, api) then NoAPI(problem, path, keys, api)
    else
      var v := NormalOrEmpty(Or(keys.api, api));
      if !IssuerSettled(keys, served(v), v) then NoIssuer(problem, served(v), v)
      else if keys.clientID != "" && clientID != "" && clientID != keys.clientID then problem == Conflict(CLIENT_ID)
      else linked && problem.Linked? && Unwritable(problem.missing, keys, api, clientID, m, served(v), v)
  }

  lemma NormalFormsOf(keys: LoginKeys, api: string)
    ensures NormalizeAPI("") == None
    ensures NormalizeAPI(keys.api).Some? ==> NormalizeAPI(keys.api).value != ""
    ensures NormalizeAPI(api).Some? ==> NormalizeAPI(api).value != ""
  {
    EmptyIsNoAPI(keys.api);
    EmptyIsNoAPI(api);
  }

  lemma APIRefused(path: string, keys: LoginKeys, api: string)
    ensures var r := ChooseAPI(path, keys, api);
            if APISettled(keys, api) then r.Ok? && r.value.value == NormalOrEmpty(Or(keys.api, api))
            else r.Err? && NoAPI(r.error, path, keys, api)
  {
    NormalFormsOf(keys, api);
  }

  lemma IssuerRefused(path: string, keys: LoginKeys, answer: Answer, v: string)
    ensures var r := ChooseIssuer(path, keys, answer, v);
            if IssuerSettled(keys, answer, v) then r.Ok? else r.Err? && NoIssuer(r.error, answer, v)
  {
  }

  lemma ChoosingRefused(path: string, keys: LoginKeys, linked: bool, api: string, clientID: string, m: Machine,
                        served: string -> Answer)
    requires Choosing(path, keys, linked, api, clientID, m, served).0.Err?
    ensures RefusedFor(Choosing(path, keys, linked, api, clientID, m, served).0.error, path, keys, linked, api, clientID, m, served)
  {
    APIRefused(path, keys, api);
    if APISettled(keys, api) {
      var v := NormalOrEmpty(Or(keys.api, api));
      IssuerRefused(path, keys, served(v), v);
    }
  }

  /** A login that is refused says why: the file does not read, its tokens are handed, or the first thing that keeps it from settling. */
  lemma LoginRefusedFor(path: string, p: Place, o: Order, api: string, clientID: string, m: Machine, served: string -> Answer)
    requires LoggingIn(path, p, o, api, clientID, m, served).0.Err?
    ensures var problem := LoggingIn(path, p, o, api, clientID, m, served).0.error;
            match ReadConfig(path, p.content, o)
            case Err(e) => problem == BadConfig(e)
            case Ok(file) =>
              if file.tokenCommand != [] then problem == HandedTokens
              else RefusedFor(problem, path, file.keys, p.linked, api, clientID, m, served)
  {
    var file := ReadConfig(path, p.content, o);
    if file.Ok? && file.value.tokenCommand == [] {
      ChoosingRefused(path, file.value.keys, p.linked, api, clientID, m, served);
    }
  }

  // --- loading ---

  /** The file's value and where it is set, or nothing from nowhere. */
  predicate OfFile(s: Setting, value: string, path: string) {
    s.value == value && if value == "" then s.source == Nowhere && s.from == "" else s.source == File && s.from == path
  }

  /** The keys a command cannot do without, in order, of those without a value. */
  function Lacking(file: ConfigFile, api: string): seq<string> {
    var logsIn := !Hands(file.tokenCommand);
    (if api == "" && file.keys.api == "" then [API] else [])
    + (if logsIn && file.keys.issuer == "" then [ISSUER] else [])
    + (if logsIn && file.keys.clientID == "" then [CLIENT_ID] else [])
  }

  /** The reason a command gives for not running, or none, in the order the reasons are looked for. */
  predicate LoadedWith(problem: Option<Problem>, path: string, file: ConfigFile, api: string, served: string -> Answer) {
    if Lacking(file, api) != [] then problem == Some(NotConfigured(Lacking(file, api)))
    else if !IsAPI(Given(api, file)) then problem == Some(NotAnAPI(if api != "" then "" else path))
    else
      var v := NormalOrEmpty(Given(api, file));
      if NormalizeAPI(file.keys.api) == Some(v) then problem == None
      else if file.keys.issuer == "" then problem == Some(Unchecked)
      else if !About(served(v), v) then problem.Some? && NotAbout(problem.value, served(v), v)
      else
        var servers := served(v).document.value.servers;
        problem == if file.keys.issuer in servers then None else Some(Untrusted(servers))
  }

  lemma MissingIsLacking(path: string, file: ConfigFile, api: string)
    ensures Missing(Required(FromConfig(path, file, api))) == Lacking(file, api)
  {
    var d := FromConfig(path, file, api);
    JoinIsEmpty(file.tokenCommand);
    var r := [(API, d.api), (ISSUER, d.issuer), (CLIENT_ID, d.clientID)];
    assert r[1..] == [r[1], r[2]] && r[1..][1..] == [r[2]];
    MissingOfOne(r[2]);
    MissingOfOne(r[0]);
  }

  lemma MissingOfOne(key: (string, Setting))
    ensures Missing([key]) == if key.1.value == "" then [key.0] else []
  {
    assert [key][1..] == [];
  }

  /** What the file sets is loaded as it is, whatever API was given. */
  lemma ResolvesTheFiles(path: string, file: ConfigFile, api: string, served: string -> Answer)
    ensures var d := Resolving(path, file, api, served).deployment;
            && d.path == path && d.tokenCommand == New(file.tokenCommand)
            && OfFile(d.issuer, file.keys.issuer, path) && OfFile(d.clientID, file.keys.clientID, path)
  {
  }

  /** The API given outranks the file's. */
  lemma ResolvesAPI(path: string, file: ConfigFile, api: string, served: string -> Answer)
    ensures var s := Resolving(path, file, api, served).deployment.api;
            && (if api != "" then s.source == CommandLine && s.from == "" else OfFile(s.(value := file.keys.api), file.keys.api, path))
            && s.value == (if Lacking(file, api) != [] then Given(api, file) else NormalOrEmpty(Given(api, file)))
  {
    MissingIsLacking(path, file, api);
  }

  lemma DistrustsFor(answer: Answer, v: string, issuer: string)
    ensures var problem := Distrust(answer, v, issuer);
            if About(answer, v) then
              problem == if issuer in answer.document.value.servers then None else Some(Untrusted(answer.document.value.servers))
            else problem.Some? && NotAbout(problem.value, answer, v)
  {
  }

  lemma ResolvesProblem(path: string, file: ConfigFile, api: string, served: string -> Answer)
    ensures LoadedWith(Resolving(path, file, api, served).problem, path, file, api, served)
  {
    MissingIsLacking(path, file, api);
    if Lacking(file, api) == [] {
      EmptyIsNoAPI(Given(api, file));
      var d, v := FromConfig(path, file, api), NormalOrEmpty(Given(api, file));
      assert d.api.value == Given(api, file) && d.issuer.value == file.keys.issuer;
      if v != "" {
        SameAPI(file.keys.api, v);
        DistrustsFor(served(v), v, file.keys.issuer);
      }
    }
  }

  lemma SameAPI(raw: string, v: string)
    requires v != ""
    ensures NormalOrEmpty(raw) == v <==> NormalizeAPI(raw) == Some(v)
  {
    EmptyIsNoAPI(raw);
  }

  /**
   What every command loads, whether or not it may go on, and the reason if not. A file
   that does not read leaves only its path. Otherwise the issuer and the client id are
   the file's, beside an API that was given too; the command comes back word for word;
   and the API is in normal form once nothing is missing.
   */
  lemma LoadGives(path: string, c: Content, o: Order, api: string, served: string -> Answer)
    ensures var l := Loading(path, c, o, api, served);
            match ReadConfig(path, c, o)
            case Err(e) =>
              && l.problem == Some(BadConfig(e)) && l.deployment.path == path && l.deployment.tokenCommand.Argv() == []
              && l.deployment.api == l.deployment.issuer == l.deployment.clientID == Setting("", Nowhere, "")
            case Ok(file) =>
              && l.deployment.path == path
              && OfFile(l.deployment.issuer, file.keys.issuer, path) && OfFile(l.deployment.clientID, file.keys.clientID, path)
              && (file.tokenCommand != [""] ==> l.deployment.tokenCommand.Argv() == file.tokenCommand)
              && (l.deployment.HandsTokens() <==> Hands(file.tokenCommand))
              && (if api != "" then l.deployment.api.source == CommandLine && l.deployment.api.from == ""
                  else OfFile(l.deployment.api.(value := file.keys.api), file.keys.api, path))
              && l.deployment.api.value ==
                 (if Lacking(file, api) != [] then Given(api, file) else NormalOrEmpty(Given(api, file)))
              && LoadedWith(l.problem, path, file, api, served)
  {
    var r := ReadConfig(path, c, o);
    if r.Ok? {
      ReadConfigAccepts(path, c, o);
      ResolvesTheFiles(path, r.value, api, served);
      ResolvesAPI(path, r.value, api, served);
      ResolvesProblem(path, r.value, api, served);
    }
  }

  // --- saving ---

  /** What is to be written under one key: the value, if there is one, the file has none, and it did not come from a file. */
  predicate Lacks(written: string, s: Setting, current: string) {
    if current == "" && s.source != File then written == s.value else written == ""
  }

  predicate Lacked(missing: LoginKeys, d: Deployment, keys: LoginKeys) {
    && Lacks(missing.api, d.api, keys.api) && Lacks(missing.issuer, d.issuer, keys.issuer)
    && Lacks(missing.clientID, d.clientID, keys.clientID)
  }

  /** Save's reason for failing, which also says what a link kept from being written, and that a failed Save writes nothing. */
  lemma SaveRefusedFor(d: Deployment, p: Place, o: Order)
    ensures var (p', problem) := Saving(d, p, o);
            match ReadConfig(d.path, p.content, o)
            case Err(e) => problem == Some(BadConfig(e)) && p' == p
            case Ok(file) =>
              exists missing ::
                && Lacked(missing, d, file.keys)
                && (problem.Some? <==> missing != NoKeys && (p.linked || !p.writable))
                && (problem.Some? ==> p' == p && problem.value == if p.linked then Linked(missing) else CannotWrite)
  {
    var r := ReadConfig(d.path, p.content, o);
    if r.Ok? {
      assert Lacked(Unsaved(d, r.value.keys), d, r.value.keys);
    }
  }
}
