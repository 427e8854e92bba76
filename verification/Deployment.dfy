/** Where a CLI's API and login server are: resolved from a flag, the config file, discovery and the hostname, and saved. */
module Deployment {
  import opened Basics
  import Toml
  import opened Merge
  import opened TokenCommand
  import opened ApiUrl
  import opened ConfigFile

  datatype Source = Nowhere | CommandLine | File | Discovered | Hostname

  datatype Setting = Setting(value: string, source: Source, from: string)

  const Unset := Setting("", Nowhere, "")

  datatype Deployment = Deployment(path: string, api: Setting, issuer: Setting, clientID: Setting, tokenCommand: TokenCommand) {
    predicate HandsTokens() { !tokenCommand.IsZero() }
  }

  function Bare(path: string): Deployment { Deployment(path, Unset, Unset, Unset, New([])) }

  function FromFile(value: string, path: string): Setting {
    if value == "" then Unset else Setting(value, File, path)
  }

  /** What an API's metadata document says. */
  datatype Metadata = Metadata(resource: string, servers: seq<string>)

  /** What asking an API for its metadata comes to. A body that is no such document decodes to none. */
  datatype Answer = Unreachable | Answered(url: string, status: int, document: Option<Metadata>)

  datatype Problem =
    | BadConfig(config: ConfigError)
    | NotConfigured(keys: seq<string>)
    | NotAnAPI(from: string)
    | Unchecked
    | NoAnswer
    | BadStatus(status: int)
    | NotMetadata
    | OtherResource(resource: string)
    | Untrusted(servers: seq<string>)
    | HandedTokens
    | Conflict(key: string)
    | NoServer
    | ManyServers(servers: seq<string>)
    | Linked(missing: LoginKeys)
    | CannotWrite

  function ReadMetadata(answer: Answer, resource: string): Result<Metadata, Problem> {
    if answer.Unreachable? then Err(NoAnswer)
    else if answer.status != 200 then Err(BadStatus(answer.status))
    else if answer.document.None? then Err(NotMetadata)
    else if answer.document.value.resource != resource then Err(OtherResource(answer.document.value.resource))
    else Ok(answer.document.value)
  }

  /** A document about this very resource. */
  predicate About(answer: Answer, resource: string) {
    answer.Answered? && answer.status == 200 && answer.document.Some? && answer.document.value.resource == resource
  }

  /** One that lists the issuer. */
  predicate Vouches(answer: Answer, resource: string, issuer: string) {
    About(answer, resource) && issuer in answer.document.value.servers
  }

  function Distrust(answer: Answer, resource: string, issuer: string): Option<Problem> {
    match ReadMetadata(answer, resource)
    case Err(p) => Some(p)
    case Ok(meta) => if issuer in meta.servers then None else Some(Untrusted(meta.servers))
  }

  // --- loading ---

  datatype Loaded = Loaded(deployment: Deployment, problem: Option<Problem>, asked: seq<string>)

  function FromConfig(path: string, file: ConfigFile, api: string): Deployment {
    Deployment(
      path,
      if api != "" then Setting(api, CommandLine, "") else FromFile(file.keys.api, path),
      FromFile(file.keys.issuer, path),
      FromFile(file.keys.clientID, path),
      New(file.tokenCommand))
  }

  function Required(d: Deployment): seq<(string, Setting)> {
    if d.HandsTokens() then [(API, d.api)] else [(API, d.api), (ISSUER, d.issuer), (CLIENT_ID, d.clientID)]
  }

  function Missing(required: seq<(string, Setting)>): seq<string> {
    if required == [] then []
    else (if required[0].1.value == "" then [required[0].0] else []) + Missing(required[1..])
  }

  function NormalOrEmpty(raw: string): string {
    var v := NormalizeAPI(raw);
    if v.Some? then v.value else ""
  }

  /** What becomes of a deployment whose API has the normal form v, or none, where the file's own has this one. */
  function Checked(d: Deployment, v: string, own: string, served: string -> Answer): Loaded {
    var missing := Missing(Required(d));
    var d' := d.(api := d.api.(value := v));
    if missing != [] then Loaded(d, Some(NotConfigured(missing)), [])
    else if v == "" then Loaded(d', Some(NotAnAPI(d.api.from)), [])
    else if d.api.source != CommandLine || v == own then Loaded(d', None, [])
    else if d.issuer.value == "" then Loaded(d', Some(Unchecked), [])
    else Loaded(d', Distrust(served(v), v, d.issuer.value), [v])
  }

  /** Loading once the file has been read. */
  function Resolving(path: string, file: ConfigFile, api: string, served: string -> Answer): Loaded {
    var d := FromConfig(path, file, api);
    Checked(d, NormalOrEmpty(d.api.value), NormalOrEmpty(file.keys.api), served)
  }

  function Loading(path: string, c: Content, o: Order, api: string, served: string -> Answer): Loaded {
    match ReadConfig(path, c, o)
    case Err(e) => Loaded(Bare(path), Some(BadConfig(e)), [])
    case Ok(file) => Resolving(path, file, api, served)
  }

  // --- logging in ---

  /** The names a client id is spelled from: the product, the prefix of its clients, and the short hostname, if any. */
  datatype Machine = Machine(product: string, prefix: string, host: string)

  function ClientID(m: Machine): (id: string)
    ensures id != ""
    ensures m.host != "" ==> |id| == |m.prefix| + |m.host| && m.prefix <= id && id[|m.prefix|..] == m.host
    ensures m.host == "" ==> m.product <= id && id[|m.product|..] == "-cli"
  {
    if m.host == "" then m.product + "-cli" else m.prefix + m.host
  }

  /** Two machines of one product share a client id exactly when they share a hostname, or one without a hostname is spelled like the other. */
  lemma ClientIDsDiffer(a: Machine, b: Machine)
    requires a.product == b.product && a.prefix == b.prefix
    ensures ClientID(a) == ClientID(b) <==>
            a.host == b.host || ((a.host == "" || b.host == "") && a.prefix + (a.host + b.host) == a.product + "-cli")
  {
    assert a.host == "" ==> a.host + b.host == b.host;
    assert b.host == "" ==> a.host + b.host == a.host;
    if a.host != "" && b.host != "" && ClientID(a) == ClientID(b) {
      assert ClientID(a)[|a.prefix|..] == a.host && ClientID(b)[|b.prefix|..] == b.host;
    }
  }

  function ChooseAPI(path: string, keys: LoginKeys, api: string): Result<Setting, Problem> {
    var given := NormalizeAPI(api);
    if keys.api != "" then
      match NormalizeAPI(keys.api)
      case None => Err(NotAnAPI(path))
      case Some(v) =>
        if api == "" || given == Some(v) then Ok(FromFile(v, path))
        else if given.None? then Err(NotAnAPI(""))
        else Err(Conflict(API))
    else if api == "" then Err(NotConfigured([API]))
    else if given.None? then Err(NotAnAPI(""))
    else Ok(Setting(given.value, CommandLine, ""))
  }

  function ChooseIssuer(path: string, keys: LoginKeys, answer: Answer, resource: string): Result<Setting, Problem> {
    if keys.issuer != "" then Ok(FromFile(keys.issuer, path))
    else
      match ReadMetadata(answer, resource)
      case Err(p) => Err(p)
      case Ok(meta) =>
        if meta.servers == [] then Err(NoServer)
        else if |meta.servers| > 1 then Err(ManyServers(meta.servers))
        else Ok(Setting(meta.servers[0], Discovered, answer.url))
  }

  function ChooseClient(path: string, keys: LoginKeys, clientID: string, m: Machine): Result<Setting, Problem> {
    if keys.clientID != "" then
      if clientID != "" && clientID != keys.clientID then Err(Conflict(CLIENT_ID)) else Ok(FromFile(keys.clientID, path))
    else if clientID != "" then Ok(Setting(clientID, CommandLine, ""))
    else Ok(Setting(ClientID(m), Hostname, m.host))
  }

  /** What is at the config file's path: its content, whether it or its directory is a symlink, and whether it can be replaced. */
  datatype Place = Place(content: Content, linked: bool, writable: bool)

  function UnsavedValue(s: Setting, current: string): string {
    if current == "" && s.source != File then s.value else ""
  }

  function Unsaved(d: Deployment, current: LoginKeys): LoginKeys {
    LoginKeys(UnsavedValue(d.api, current.api), UnsavedValue(d.issuer, current.issuer), UnsavedValue(d.clientID, current.clientID))
  }

  /** Logging in once the file has been read. */
  function Choosing(path: string, keys: LoginKeys, linked: bool, api: string, clientID: string, m: Machine, served: string -> Answer)
    : (Result<Deployment, Problem>, seq<string>)
  {
    match ChooseAPI(path, keys, api)
    case Err(e) => (Err(e), [])
    case Ok(chosen) =>
      var asked := if keys.issuer == "" then [chosen.value] else [];
      match ChooseIssuer(path, keys, served(chosen.value), chosen.value)
      case Err(e) => (Err(e), asked)
      case Ok(issuer) =>
        match ChooseClient(path, keys, clientID, m)
        case Err(e) => (Err(e), asked)
        case Ok(client) =>
          var d := Deployment(path, chosen, issuer, client, New([]));
          (if Unsaved(d, keys) != NoKeys && linked then Err(Linked(Unsaved(d, keys))) else Ok(d), asked)
  }

  function LoggingIn(path: string, p: Place, o: Order, api: string, clientID: string, m: Machine, served: string -> Answer)
    : (Result<Deployment, Problem>, seq<string>)
  {
    match ReadConfig(path, p.content, o)
    case Err(e) => (Err(BadConfig(e)), [])
    case Ok(file) =>
      if file.tokenCommand != [] then (Err(HandedTokens), [])
      else Choosing(path, file.keys, p.linked, api, clientID, m, served)
  }

  function Saving(d: Deployment, p: Place, o: Order): (Place, Option<Problem>) {
    match ReadConfig(d.path, p.content, o)
    case Err(e) => (p, Some(BadConfig(e)))
    case Ok(file) =>
      var missing := Unsaved(d, file.keys);
      if missing == NoKeys then (p, None)
      else if p.linked then (p, Some(Linked(missing)))
      else if !p.writable then (p, Some(CannotWrite))
      else (p.(content := Text(Merged(missing, TextOf(p.content)))), None)
  }

  // --- a loaded API is trusted ---

  lemma EmptyIsNoAPI(raw: string)
    ensures NormalOrEmpty(raw) == "" <==> !IsAPI(raw)
    ensures NormalOrEmpty(raw) != "" ==> NormalizeAPI(raw) == Some(NormalOrEmpty(raw))
    ensures NormalizeAPI("") == None
  {
    if IsAPI(raw) {
      NormalizeIsIdempotent(raw);
    }
    if IsAPI("") {
      APIIsNotEmpty("");
    }
  }

  lemma NoneMissing(d: Deployment)
    ensures Missing(Required(d)) == [] <==>
            d.api.value != "" && (d.HandsTokens() || (d.issuer.value != "" && d.clientID.value != ""))
  {
    var r := [(API, d.api), (ISSUER, d.issuer), (CLIENT_ID, d.clientID)];
    assert r[1..] == [r[1], r[2]] && r[1..][1..] == [r[2]] && r[1..][1..][1..] == [];
    assert Missing([r[2]]) == [] <==> d.clientID.value != "";
    assert Missing([r[1], r[2]]) == [] <==> d.issuer.value != "" && d.clientID.value != "";
  }

  /** A key is reported missing exactly when it is required and has no value. */
  lemma {:induction false} MissingIsWhatIsEmpty(required: seq<(string, Setting)>, key: string)
    ensures key in Missing(required) <==> exists i :: 0 <= i < |required| && required[i].0 == key && required[i].1.value == ""
  {
    if required != [] {
      MissingIsWhatIsEmpty(required[1..], key);
      assert forall i :: 1 <= i < |required| ==> required[i] == required[1..][i - 1];
      assert forall i :: 0 <= i < |required| - 1 ==> required[1..][i] == required[i + 1];
    }
  }

  lemma DistrustIsNoVoucher(answer: Answer, resource: string, issuer: string)
    ensures Distrust(answer, resource, issuer).None? <==> Vouches(answer, resource, issuer)
  {
  }

  /** The API a command talks to is the file's own, or one that names itself and lists the file's issuer. */
  predicate Trusted(api: string, file: ConfigFile, served: string -> Answer) {
    NormalizeAPI(file.keys.api) == Some(api) || (file.keys.issuer != "" && Vouches(served(api), api, file.keys.issuer))
  }

  /** The address a command was given or, without one, the file's. */
  function Given(api: string, file: ConfigFile): string { if api != "" then api else file.keys.api }

  /** An argv that names something to run, joined. */
  predicate Hands(argv: seq<string>) { argv != [] && argv != [""] }

  /** The flag or the file as an API, what the file must then set, and the API's trust: what resolving asks for. */
  predicate Loadable(file: ConfigFile, api: string, served: string -> Answer) {
    && NormalizeAPI(Given(api, file)).Some?
    && (Hands(file.tokenCommand) || (file.keys.issuer != "" && file.keys.clientID != ""))
    && Trusted(NormalizeAPI(Given(api, file)).value, file, served)
  }

  /** Checking asks only for the keys required, an API, and trust in one that is not the file's. */
  lemma ChecksTrust(d: Deployment, v: string, own: string, served: string -> Answer)
    ensures var l := Checked(d, v, own, served);
            && (l.problem.None? <==>
                  && d.api.value != "" && (d.HandsTokens() || (d.issuer.value != "" && d.clientID.value != ""))
                  && v != ""
                  && (d.api.source != CommandLine || v == own || (d.issuer.value != "" && Vouches(served(v), v, d.issuer.value))))
            && (l.problem.None? ==>
                  && l.deployment.api.value == v && l.deployment.issuer == d.issuer
                  && l.asked == if d.api.source != CommandLine || v == own then [] else [v])
  {
    NoneMissing(d);
    DistrustIsNoVoucher(served(v), v, d.issuer.value);
  }

  lemma ResolvesTrusted(path: string, file: ConfigFile, api: string, served: string -> Answer)
    ensures var l := Resolving(path, file, api, served);
            && (l.problem.None? <==> Loadable(file, api, served))
            && (l.problem.None? ==>
                  && NormalizeAPI(Given(api, file)) == Some(l.deployment.api.value)
                  && l.deployment.issuer.value == file.keys.issuer
                  && l.asked == if NormalizeAPI(file.keys.api) == Some(l.deployment.api.value) then [] else [l.deployment.api.value])
  {
    var d := FromConfig(path, file, api);
    var v := NormalOrEmpty(d.api.value);
    assert d.api.value == Given(api, file);
    JoinIsEmpty(file.tokenCommand);
    EmptyIsNoAPI(d.api.value);
    EmptyIsNoAPI(file.keys.api);
    ChecksTrust(d, v, NormalOrEmpty(file.keys.api), served);
  }

  /**
   Loading succeeds exactly for a file that reads, an address that is an API, the keys
   a CLI that logs in needs, and an API that is trusted. The API returned is then in
   normal form and trusted, and one request is made, to an API that is not the file's.
   */
  lemma TrustedApi(path: string, c: Content, o: Order, api: string, served: string -> Answer)
    ensures var l := Loading(path, c, o, api, served);
            && (l.problem.None? <==> ReadConfig(path, c, o).Ok? && Loadable(ReadConfig(path, c, o).value, api, served))
            && (l.problem.None? ==>
                  var file, v := ReadConfig(path, c, o).value, l.deployment.api.value;
                  && NormalizeAPI(v) == Some(v) == NormalizeAPI(Given(api, file))
                  && Trusted(v, file, served)
                  && l.deployment.issuer.value == file.keys.issuer
                  && l.asked == if NormalizeAPI(file.keys.api) == Some(v) then [] else [v])
  {
    var file := ReadConfig(path, c, o);
    if file.Ok? {
      ResolvesTrusted(path, file.value, api, served);
      if Loadable(file.value, api, served) {
        NormalizeIsIdempotent(Given(api, file.value));
      }
    }
  }

  /**
   An argv a file reads as comes back as it was, and hands tokens, exactly unless it is
   one empty word, which only another spelling of token_command can set: the key spelled
   exactly is refused without a program.
   */
  lemma ReadConfigAccepts(path: string, c: Content, o: Order)
    requires ReadConfig(path, c, o).Ok?
    ensures var argv := ReadConfig(path, c, o).value.tokenCommand;
            && NoNul(argv)
            && (New(argv).Argv() == argv <==> argv != [""])
            && (!New(argv).IsZero() <==> Hands(argv))
    ensures Toml.Parse(TextOf(c)).Some?
    ensures IsDefined(DocOf(c), TOKEN_COMMAND) ==>
              Accepted(ReadConfig(path, c, o).value.tokenCommand) && Hands(ReadConfig(path, c, o).value.tokenCommand)
  {
    var argv := ReadConfig(path, c, o).value.tokenCommand;
    ReadParses(path, c, o);
    ArgvRoundTrip(argv);
    JoinIsEmpty(argv);
  }

  // --- logging in ---

  lemma ChoosesAPI(path: string, keys: LoginKeys, api: string)
    requires ChooseAPI(path, keys, api).Ok?
    ensures var s := ChooseAPI(path, keys, api).value;
            && s.value != "" && NormalizeAPI(s.value) == Some(s.value)
            && (if keys.api != "" then NormalizeAPI(keys.api) == Some(s.value) else s.source != File)
  {
    var raw := if keys.api != "" then keys.api else api;
    NormalizeIsIdempotent(raw);
  }

  /** What a login settles on agrees with every key the file sets, and is to be saved wherever the file sets none. */
  predicate Settles(d: Deployment, keys: LoginKeys) {
    && d.api.value != "" && d.clientID.value != ""
    && NormalizeAPI(d.api.value) == Some(d.api.value)
    && (if keys.api != "" then NormalizeAPI(keys.api) == Some(d.api.value) else d.api.source != File)
    && (if keys.issuer != "" then keys.issuer == d.issuer.value else d.issuer.source == Discovered)
    && (if keys.clientID != "" then keys.clientID == d.clientID.value else d.clientID.source != File)
  }

  lemma ChoosesIssuer(path: string, keys: LoginKeys, answer: Answer, resource: string)
    requires ChooseIssuer(path, keys, answer, resource).Ok?
    ensures var s := ChooseIssuer(path, keys, answer, resource).value;
            if keys.issuer != "" then keys.issuer == s.value else s.source == Discovered
  {
  }

  lemma ChoosesClient(path: string, keys: LoginKeys, clientID: string, m: Machine)
    requires ChooseClient(path, keys, clientID, m).Ok?
    ensures var s := ChooseClient(path, keys, clientID, m).value;
            s.value != "" && if keys.clientID != "" then keys.clientID == s.value else s.source != File
  {
  }

  lemma ChoosesToSettle(path: string, keys: LoginKeys, linked: bool, api: string, clientID: string, m: Machine,
                        served: string -> Answer)
    requires Choosing(path, keys, linked, api, clientID, m, served).0.Ok?
    ensures var d := Choosing(path, keys, linked, api, clientID, m, served).0.value;
            d.path == path && Settles(d, keys) && (linked ==> Unsaved(d, keys) == NoKeys)
  {
    var chosen := ChooseAPI(path, keys, api);
    assert chosen.Ok?;
    ChoosesAPI(path, keys, api);
    var issuer := ChooseIssuer(path, keys, served(chosen.value.value), chosen.value.value);
    assert issuer.Ok?;
    ChoosesIssuer(path, keys, served(chosen.value.value), chosen.value.value);
    assert ChooseClient(path, keys, clientID, m).Ok?;
    ChoosesClient(path, keys, clientID, m);
  }

  /** Metadata about this very resource that names one authorization server. */
  predicate NamesOne(answer: Answer, resource: string) {
    About(answer, resource) && |answer.document.value.servers| == 1
  }

  /** What was typed is what the file says, wherever both speak. */
  predicate Agrees(keys: LoginKeys, api: string, clientID: string) {
    && (keys.api != "" && api != "" ==> NormalizeAPI(api) == NormalizeAPI(keys.api))
    && (keys.clientID != "" && clientID != "" ==> clientID == keys.clientID)
  }

  lemma ChooseAPISucceeds(path: string, keys: LoginKeys, api: string)
    ensures var r := ChooseAPI(path, keys, api);
            && (r.Ok? <==> NormalizeAPI(Or(keys.api, api)).Some? && Agrees(keys, api, ""))
            && (r.Ok? ==> NormalizeAPI(Or(keys.api, api)) == Some(r.value.value))
  {
    EmptyIsNoAPI(keys.api);
    EmptyIsNoAPI(api);
    if NormalizeAPI(keys.api).Some? {
      NormalizeIsIdempotent(keys.api);
    }
  }

  lemma ChooseIssuerSucceeds(path: string, keys: LoginKeys, answer: Answer, resource: string)
    ensures ChooseIssuer(path, keys, answer, resource).Ok? <==> keys.issuer != "" || NamesOne(answer, resource)
    ensures keys.issuer == "" && NamesOne(answer, resource) ==>
              ChooseIssuer(path, keys, answer, resource).value == Setting(answer.document.value.servers[0], Discovered, answer.url)
  {
  }

  lemma ChooseClientSucceeds(path: string, keys: LoginKeys, clientID: string, m: Machine)
    ensures ChooseClient(path, keys, clientID, m).Ok? <==> Agrees(keys, "", clientID)
  {
  }

  /** The answer for an API whose issuer the file does not set is asked for, and it must name one server. */
  predicate Choosable(keys: LoginKeys, api: string, clientID: string, served: string -> Answer) {
    && NormalizeAPI(Or(keys.api, api)).Some?
    && Agrees(keys, api, clientID)
    && (keys.issuer == "" ==> NamesOne(served(NormalizeAPI(Or(keys.api, api)).value), NormalizeAPI(Or(keys.api, api)).value))
  }

  /** The file sets every key, or an issuer is all it lacks and the one discovered is empty. */
  predicate Complete(keys: LoginKeys, answer: Answer, resource: string) {
    && keys.api != "" && keys.clientID != ""
    && (keys.issuer != "" || (NamesOne(answer, resource) && answer.document.value.servers[0] == ""))
  }

  lemma ChoosesExactlyWhen(path: string, keys: LoginKeys, linked: bool, api: string, clientID: string, m: Machine,
                           served: string -> Answer)
    ensures var (r, asked) := Choosing(path, keys, linked, api, clientID, m, served);
            var v := NormalOrEmpty(Or(keys.api, api));
            && (r.Ok? <==> Choosable(keys, api, clientID, served) && (linked ==> Complete(keys, served(v), v)))
            && (r.Ok? ==> asked == if keys.issuer == "" then [r.value.api.value] else [])
            && |asked| <= 1 && (keys.issuer != "" ==> asked == [])
  {
    var chosen := ChooseAPI(path, keys, api);
    ChooseAPISucceeds(path, keys, api);
    if chosen.Ok? {
      var v := chosen.value.value;
      ChooseIssuerSucceeds(path, keys, served(v), v);
      ChooseClientSucceeds(path, keys, clientID, m);
      var issuer, client := ChooseIssuer(path, keys, served(v), v), ChooseClient(path, keys, clientID, m);
      if issuer.Ok? && client.Ok? {
        ChoosesAPI(path, keys, api);
        ChoosesClient(path, keys, clientID, m);
        NothingUnsaved(Deployment(path, chosen.value, issuer.value, client.value, New([])), keys);
      }
    }
  }

  /**
   A login goes ahead exactly when the file reads and sets no token_command, an API is
   known, what was typed agrees with the file, a missing issuer can be discovered, and
   nothing would have to be written through a link. Only a missing issuer is asked for,
   and only of that API.
   */
  lemma LoginSucceedsExactlyWhen(path: string, p: Place, o: Order, api: string, clientID: string, m: Machine,
                                 served: string -> Answer)
    ensures var (r, asked) := LoggingIn(path, p, o, api, clientID, m, served);
            && (r.Ok? <==>
                  && ReadConfig(path, p.content, o).Ok?
                  && var file := ReadConfig(path, p.content, o).value;
                     var v := NormalOrEmpty(Or(file.keys.api, api));
                  && file.tokenCommand == []
                  && Choosable(file.keys, api, clientID, served)
                  && (p.linked ==> Complete(file.keys, served(v), v)))
            && (r.Ok? ==> asked == if ReadConfig(path, p.content, o).value.keys.issuer == "" then [r.value.api.value] else [])
            && |asked| <= 1
            && (asked != [] ==> ReadConfig(path, p.content, o).Ok? && ReadConfig(path, p.content, o).value.keys.issuer == "")
  {
    var file := ReadConfig(path, p.content, o);
    if file.Ok? {
      ChoosesExactlyWhen(path, file.value.keys, p.linked, api, clientID, m, served);
    }
  }

  lemma NothingUnsaved(d: Deployment, keys: LoginKeys)
    requires d.api.value != "" && d.clientID.value != ""
    requires keys.api == "" ==> d.api.source != File
    requires keys.clientID == "" ==> d.clientID.source != File
    ensures Unsaved(d, keys) == NoKeys <==>
            && keys.api != "" && keys.clientID != ""
            && (keys.issuer != "" || d.issuer.source == File || d.issuer.value == "")
  {
  }

  /** Over a file that sets nothing, a login takes any API that names one issuer, and asks only that API. */
  lemma LogsInFromNothing(path: string, api: string, m: Machine, served: string -> Answer)
    requires NormalizeAPI(api).Some?
    requires NamesOne(served(NormalizeAPI(api).value), NormalizeAPI(api).value)
    ensures var v := NormalizeAPI(api).value;
            var issuer := served(v).document.value.servers[0];
            Choosing(path, NoKeys, false, api, "", m, served) ==
              (Ok(Deployment(path, Setting(v, CommandLine, ""), Setting(issuer, Discovered, served(v).url),
                             Setting(ClientID(m), Hostname, m.host), New([]))), [v])
  {
    EmptyIsNoAPI("");
    assert api != "";
  }

  /** A machine with no config file logs in to any such API. */
  lemma BareMachineLogsIn(path: string, p: Place, o: Order, api: string, m: Machine, served: string -> Answer)
    requires path != "" && p.content.Absent? && !p.linked && NormalizeAPI(api).Some?
    requires NamesOne(served(NormalizeAPI(api).value), NormalizeAPI(api).value)
    ensures var v := NormalizeAPI(api).value;
            var issuer := served(v).document.value.servers[0];
            LoggingIn(path, p, o, api, "", m, served) ==
              (Ok(Deployment(path, Setting(v, CommandLine, ""), Setting(issuer, Discovered, served(v).url),
                             Setting(ClientID(m), Hostname, m.host), New([]))), [v])
  {
    LogsInFromNothing(path, api, m, served);
  }

  // --- the commands themselves ---

  /** One machine's config file and the APIs it can ask, with a record of whom it asked. o is the order the decoder takes. */
  class Host {
    const machine: Machine
    const served: string -> Answer
    var place: Place
    var asked: seq<string>

    constructor (machine: Machine, served: string -> Answer, place: Place)
      ensures this.machine == machine && this.served == served && this.place == place && asked == []
    {
      this.machine, this.served, this.place, this.asked := machine, served, place, [];
    }

    method ReadProtectedResourceMetadata(resource: string) returns (r: Result<Metadata, Problem>, url: string)
      modifies this`asked
      ensures r == ReadMetadata(served(resource), resource) && asked == old(asked) + [resource]
      ensures r.Ok? ==> served(resource).Answered? && url == served(resource).url
    {
      asked := asked + [resource];
      var answer := served(resource);
      url := "";
      if answer.Unreachable? {
        return Err(NoAnswer), "";
      }
      if answer.status != 200 {
        return Err(BadStatus(answer.status)), "";
      }
      if answer.document.None? {
        return Err(NotMetadata), "";
      }
      if answer.document.value.resource != resource {
        return Err(OtherResource(answer.document.value.resource)), "";
      }
      r, url := Ok(answer.document.value), answer.url;
    }

    method RequireTrustedIssuer(resource: string, issuer: string) returns (problem: Option<Problem>)
      modifies this`asked
      ensures problem == Distrust(served(resource), resource, issuer) && asked == old(asked) + [resource]
    {
      var meta, url := ReadProtectedResourceMetadata(resource);
      if meta.Err? {
        return Some(meta.error);
      }
      var servers := meta.value.servers;
      for i := 0 to |servers|
        invariant issuer !in servers[..i]
      {
        if servers[i] == issuer {
          return None;
        }
      }
      assert servers[..|servers|] == servers;
      problem := Some(Untrusted(servers));
    }

    method MissingKeys(required: seq<(string, Setting)>) returns (missing: seq<string>)
      ensures missing == Missing(required)
    {
      missing := [];
      for i := 0 to |required|
        invariant missing + Missing(required[i..]) == Missing(required)
      {
        if required[i].1.value == "" {
          missing := missing + [required[i].0];
        }
      }
      assert required[|required|..] == [];
    }

    /** An address that is not the file's is checked before any token is sent to it. */
    method CheckAPI(d: Deployment, file: ConfigFile) returns (problem: Option<Problem>)
      modifies this`asked
      ensures var v := d.api.value;
              if d.api.source != CommandLine || v == NormalOrEmpty(file.keys.api) then problem == None && asked == old(asked)
              else if d.issuer.value == "" then problem == Some(Unchecked) && asked == old(asked)
              else problem == Distrust(served(v), v, d.issuer.value) && asked == old(asked) + [v]
    {
      problem := None;
      if d.api.source == CommandLine && d.api.value != NormalOrEmpty(file.keys.api) {
        if d.issuer.value == "" {
          return Some(Unchecked);
        }
        problem := RequireTrustedIssuer(d.api.value, d.issuer.value);
      }
    }

    method Resolve(path: string, file: ConfigFile, api: string) returns (d: Deployment, problem: Option<Problem>)
      modifies this`asked
      ensures d == Resolving(path, file, api, served).deployment
      ensures problem == Resolving(path, file, api, served).problem
      ensures asked == old(asked) + Resolving(path, file, api, served).asked
    {
      d := FromConfig(path, file, api);
      var missing := MissingKeys(Required(d));
      if missing != [] {
        return d, Some(NotConfigured(missing));
      }
      var from := d.api.from;
      d := d.(api := d.api.(value := NormalOrEmpty(d.api.value)));
      if d.api.value == "" {
        return d, Some(NotAnAPI(from));
      }
      problem := CheckAPI(d, file);
    }

    method LoadDeployment(path: string, o: Order, api: string) returns (d: Deployment, problem: Option<Problem>)
      modifies this`asked
      ensures d == Loading(path, place.content, o, api, served).deployment
      ensures problem == Loading(path, place.content, o, api, served).problem
      ensures asked == old(asked) + Loading(path, place.content, o, api, served).asked
    {
      var file := ReadConfigFile(path, place.content, o);
      if file.Err? {
        return Bare(path), Some(BadConfig(file.error));
      }
      d, problem := Resolve(path, file.value, api);
    }

    method DeploymentForLogin(path: string, o: Order, api: string, clientID: string) returns (r: Result<Deployment, Problem>)
      modifies this`asked
      ensures r == LoggingIn(path, place, o, api, clientID, machine, served).0
      ensures asked == old(asked) + LoggingIn(path, place, o, api, clientID, machine, served).1
    {
      var file := ReadConfigFile(path, place.content, o);
      if file.Err? {
        return Err(BadConfig(file.error));
      }
      if |file.value.tokenCommand| > 0 {
        return Err(HandedTokens);
      }
      var keys := file.value.keys;
      var chosen := ChooseAPI(path, keys, api);
      if chosen.Err? {
        return Err(chosen.error);
      }
      var issuer := FromFile(keys.issuer, path);
      if keys.issuer == "" {
        var meta, url := ReadProtectedResourceMetadata(chosen.value.value);
        if meta.Err? {
          return Err(meta.error);
        }
        var servers := meta.value.servers;
        if |servers| == 0 {
          return Err(NoServer);
        }
        if |servers| > 1 {
          return Err(ManyServers(servers));
        }
        issuer := Setting(servers[0], Discovered, url);
      }
      var client := ChooseClient(path, keys, clientID, machine);
      if client.Err? {
        return Err(client.error);
      }
      var d := Deployment(path, chosen.value, issuer, client.value, New([]));
      var missing := Unsaved(d, keys);
      if missing != NoKeys && place.linked {
        return Err(Linked(missing));
      }
      r := Ok(d);
    }

    method Save(d: Deployment, o: Order) returns (problem: Option<Problem>)
      modifies this`place
      ensures (place, problem) == Saving(d, old(place), o)
    {
      var file := ReadConfigFile(d.path, place.content, o);
      if file.Err? {
        return Some(BadConfig(file.error));
      }
      var missing := Unsaved(d, file.value.keys);
      if missing == NoKeys {
        return None;
      }
      if place.linked {
        return Some(Linked(missing));
      }
      if !place.writable {
        return Some(CannotWrite);
      }
      var content := Marshal(missing);
      if |TextOf(place.content)| > 0 {
        content := content + "\n" + TextOf(place.content);
      }
      place := place.(content := Text(content));
      problem := None;
    }
  }
}
