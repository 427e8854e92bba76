/** The fallback file: a map from client id to token, read whole and replaced whole. */
module FileStore {
  import opened Basics
  import opened Tokens

  /** Null is a file that holds JSON's null, which decodes into no map at all. */
  datatype Content = Absent | Holding(tokens: map<string, StoredToken>) | Null | Unreadable | Corrupt

  /** Panics is an assignment into the map a Null file leaves, which ends the process. */
  datatype FileError = NoStateDir | CannotRead | CannotParse | CannotWrite | NotStored | Panics

  /** The file and what the host lets be done to it. An empty path is a host with no state directory. */
  datatype Disk = Disk(path: string, content: Content, writable: bool)

  /** A disk on which reading, setting and writing the file work. */
  predicate Working(d: Disk) { d.path != "" && d.writable && (d.content.Absent? || d.content.Holding?) }

  function Loaded(d: Disk): Result<map<string, StoredToken>, FileError> {
    match d.content
    case Absent => Ok(map[])
    case Holding(tokens) => Ok(tokens)
    case Null => Ok(map[])
    case Unreadable => Err(CannotRead)
    case Corrupt => Err(CannotParse)
  }

  /** What a working disk holds for every client id. */
  function Held(d: Disk): map<string, StoredToken>
    requires Working(d)
  {
    Loaded(d).value
  }

  function Find(d: Disk, clientID: string): Result<Option<StoredToken>, FileError> {
    if d.path == "" then Ok(None)
    else
      match Loaded(d)
      case Err(e) => Err(e)
      case Ok(tokens) => Ok(if clientID in tokens then Some(tokens[clientID]) else None)
  }

  function Written(d: Disk, tokens: map<string, StoredToken>): (Disk, Option<FileError>) {
    if d.writable then (d.(content := Holding(tokens)), None) else (d, Some(CannotWrite))
  }

  function Put(d: Disk, clientID: string, stored: StoredToken): (Disk, Option<FileError>) {
    if d.path == "" then (d, Some(NoStateDir))
    else
      match Loaded(d)
      case Err(e) => (d, Some(e))
      case Ok(tokens) => if d.content.Null? then (d, Some(Panics)) else Written(d, tokens[clientID := stored])
  }

  function Drop(d: Disk, clientID: string): (Disk, Option<FileError>) {
    if d.path == "" then (d, Some(NotStored))
    else
      match Loaded(d)
      case Err(e) => (d, Some(e))
      case Ok(tokens) => if clientID in tokens then Written(d, tokens - {clientID}) else (d, Some(NotStored))
  }

  /** Get gives what the file holds for the client, nothing where there is no file or no place for one, and otherwise says what is wrong with it. */
  lemma FindAnswers(d: Disk, clientID: string)
    ensures var r := Find(d, clientID);
            && (forall s :: r == Ok(Some(s)) <==>
                  d.path != "" && d.content.Holding? && clientID in d.content.tokens && d.content.tokens[clientID] == s)
            && (r == Err(CannotRead) <==> d.path != "" && d.content.Unreadable?)
            && (r == Err(CannotParse) <==> d.path != "" && d.content.Corrupt?)
            && (r.Err? ==> r.error.CannotRead? || r.error.CannotParse?)
  {
  }

  /** Why Set fails, in the order the reasons are met. */
  lemma PutRefusedFor(d: Disk, clientID: string, stored: StoredToken)
    requires Put(d, clientID, stored).1.Some?
    ensures match Put(d, clientID, stored).1.value
            case NoStateDir => d.path == ""
            case CannotRead => d.path != "" && d.content.Unreadable?
            case CannotParse => d.path != "" && d.content.Corrupt?
            case Panics => d.path != "" && d.content.Null?
            case CannotWrite => d.path != "" && !d.writable && (d.content.Absent? || d.content.Holding?)
            case NotStored => false
  {
  }

  /** Set succeeds exactly on a working disk, panics exactly over a null file, changes only its own client's token, and a failure changes nothing. */
  lemma PutChangesOne(d: Disk, clientID: string, stored: StoredToken)
    ensures var (d', err) := Put(d, clientID, stored);
            && (err.None? <==> Working(d))
            && (err == Some(Panics) <==> d.path != "" && d.content.Null?)
            && (err.Some? ==> d' == d)
            && (err.None? ==> Working(d') && Find(d', clientID) == Ok(Some(stored)))
            && (err.None? ==> forall other :: other != clientID ==> Find(d', other) == Find(d, other))
  {
  }

  /** Delete succeeds exactly where a working disk holds the client's token, removes only that, and a failure changes nothing. */
  lemma DropChangesOne(d: Disk, clientID: string)
    ensures var (d', err) := Drop(d, clientID);
            && (err.None? <==> Working(d) && clientID in Held(d))
            && (err == Some(NotStored) <==> Find(d, clientID) == Ok(None))
            && (err.Some? ==> d' == d)
            && (err.None? ==> Working(d') && Find(d', clientID) == Ok(None))
            && (err.None? ==> forall other :: other != clientID ==> Find(d', other) == Find(d, other))
  {
  }

  class File {
    const path: string
    var content: Content
    var writable: bool

    function State(): Disk reads this { Disk(path, content, writable) }

    constructor (path: string, content: Content, writable: bool)
      ensures State() == Disk(path, content, writable)
    {
      this.path, this.content, this.writable := path, content, writable;
    }

    /** Replaces the file by a rename, so a failure leaves it as it was. */
    method Write(tokens: map<string, StoredToken>) returns (err: Option<FileError>)
      modifies this`content
      ensures (State(), err) == Written(old(State()), tokens)
    {
      if !writable {
        return Some(CannotWrite);
      }
      content := Holding(tokens);
      err := None;
    }

    method Get(clientID: string) returns (r: Result<Option<StoredToken>, FileError>)
      ensures r == Find(State(), clientID)
    {
      if path == "" {
        return Ok(None);
      }
      var tokens := Loaded(State());
      if tokens.Err? {
        return Err(tokens.error);
      }
      r := Ok(if clientID in tokens.value then Some(tokens.value[clientID]) else None);
    }

    method Set(clientID: string, stored: StoredToken) returns (err: Option<FileError>)
      modifies this`content
      ensures (State(), err) == Put(old(State()), clientID, stored)
    {
      if path == "" {
        return Some(NoStateDir);
      }
      var tokens := Loaded(State());
      if tokens.Err? {
        return Some(tokens.error);
      }
      if content.Null? {
        return Some(Panics);
      }
      err := Write(tokens.value[clientID := stored]);
    }

    method Delete(clientID: string) returns (err: Option<FileError>)
      modifies this`content
      ensures (State(), err) == Drop(old(State()), clientID)
    {
      if path == "" {
        return Some(NotStored);
      }
      var tokens := Loaded(State());
      if tokens.Err? {
        return Some(tokens.error);
      }
      if clientID !in tokens.value {
        return Some(NotStored);
      }
      err := Write(tokens.value - {clientID});
    }
  }
}
