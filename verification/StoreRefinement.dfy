/** When the two-tier store behaves as one map, when it does not, and what a Mac never does. */
module StoreRefinement {
  import opened Basics
  import opened Tokens
  import opened Keyring
  import opened FileStore
  import opened TokenStore

  /**
   What happens to a store. Save, Load and Delete each touch the keyring once and
   then only the file, so a change of availability inside one of them is one right after it.
   */
  datatype Event =
    | SaveEvent(clientID: string, token: OAuthToken)
    | LoadEvent(clientID: string)
    | DeleteEvent(clientID: string)
    | Becomes(availability: Availability)

  /** What a caller sees, whichever backend served it. */
  datatype Reply = Stored | NotStored | Found(token: OAuthToken) | NotLoggedIn | Broken | Forgotten | Quiet

  function Happens(h: Host, e: Event): (Host, Reply) {
    match e
    case SaveEvent(id, token) =>
      var (h', r) := Saved(h, id, token);
      (h', if r.Ok? then Stored else Reply.NotStored)
    case LoadEvent(id) =>
      var r := Lookup(h, id);
      (h, if r.Ok? then Found(r.value.0) else if IsNotLoggedIn(r.error) then Reply.NotLoggedIn else Broken)
    case DeleteEvent(id) =>
      var (h', err) := Deleted(h, id);
      (h', if err.None? then Forgotten else if IsNotLoggedIn(err.value) then Reply.NotLoggedIn else Broken)
    case Becomes(a) => (h.(availability := a), Quiet)
  }

  function Replies(h: Host, events: seq<Event>): (Host, seq<Reply>)
    decreases |events|
  {
    if events == [] then (h, [])
    else
      var (h', r) := Happens(h, events[0]);
      var (end, rest) := Replies(h', events[1..]);
      (end, [r] + rest)
  }

  /** The same events on a single map from client id to token. */
  function MapHappens(m: map<string, StoredToken>, e: Event): (map<string, StoredToken>, Reply) {
    match e
    case SaveEvent(id, token) => (m[id := FromOAuth2(token)], Stored)
    case LoadEvent(id) => (m, if id in m then Found(ToOAuth2(m[id])) else Reply.NotLoggedIn)
    case DeleteEvent(id) => (m - {id}, if id in m then Forgotten else Reply.NotLoggedIn)
    case Becomes(_) => (m, Quiet)
  }

  function MapReplies(m: map<string, StoredToken>, events: seq<Event>): (map<string, StoredToken>, seq<Reply>)
    decreases |events|
  {
    if events == [] then (m, [])
    else
      var (m', r) := MapHappens(m, events[0]);
      var (end, rest) := MapReplies(m', events[1..]);
      (end, [r] + rest)
  }

  /** The history of availabilities in a sequence of events. */
  function Availabilities(events: seq<Event>): seq<Availability> {
    if events == [] then []
    else (if events[0].Becomes? then [events[0].availability] else []) + Availabilities(events[1..])
  }

  /** The keyring holds nothing for any client of this service. */
  ghost predicate Unfilled(h: Host) { forall id :: Key(h, id) !in h.entries }

  /**
   From availability a on, the keyring refuses every write until it answers
   everything, and then answers everything for good. unfilled says whether it is
   sure to hold nothing so far; a keyring that is alive may be given something.
   */
  predicate OnlyRevives(a: Availability, unfilled: bool, history: seq<Availability>)
    decreases |history|
  {
    && (a.IsAlive() || (unfilled && a.onSet.Some?))
    && (history != [] ==> OnlyRevives(history[0], unfilled && !a.IsAlive(), history[1..]))
  }

  /** A store off the Mac, over a working file, whose keyring holds only tokens. */
  ghost predicate OffTheMac(h: Host) {
    && h.goos != DARWIN && Working(h.disk)
    && (forall id :: Key(h, id) in h.entries ==> h.entries[Key(h, id)].Encoded?)
  }

  /** A keyring that answers everything, or holds nothing and takes nothing. */
  ghost predicate Tidy(h: Host) {
    OffTheMac(h) && (h.availability.IsAlive() || (Unfilled(h) && h.availability.onSet.Some?))
  }

  /** The token the store would give for a client id. */
  function Current(h: Host, clientID: string): Option<StoredToken>
    requires Working(h.disk)
  {
    if Key(h, clientID) in h.entries && h.entries[Key(h, clientID)].Encoded? then Some(h.entries[Key(h, clientID)].token)
    else if clientID in Held(h.disk) then Some(Held(h.disk)[clientID])
    else None
  }

  /** The store and the single map agree on a client id. */
  predicate Agree(h: Host, m: map<string, StoredToken>, clientID: string)
    requires Working(h.disk)
  {
    Current(h, clientID) == if clientID in m then Some(m[clientID]) else None
  }

  /** m is the single map the store stands for. */
  ghost predicate Represents(h: Host, m: map<string, StoredToken>) {
    Tidy(h) && forall id :: Agree(h, m, id)
  }

  /** An event leaves the platform, the file and the kind of entries as they should be. */
  lemma StaysOffTheMac(h: Host, e: Event)
    requires OffTheMac(h)
    ensures OffTheMac(Happens(h, e).0)
  {
    var h' := Happens(h, e).0;
    forall id | Key(h', id) in h'.entries ensures h'.entries[Key(h', id)].Encoded? {
      assert Key(h', id) == Key(h, id);
    }
  }

  /** Only an answering keyring is ever given anything. */
  lemma StaysUnfilled(h: Host, e: Event)
    requires Unfilled(h) && h.availability.onSet.Some?
    ensures Unfilled(Happens(h, e).0)
  {
    var h' := Happens(h, e).0;
    forall id ensures Key(h', id) !in h'.entries {
      assert Key(h, id) !in h.entries;
    }
  }

  lemma StaysTidy(h: Host, e: Event)
    requires Tidy(h) && !e.Becomes?
    ensures Tidy(Happens(h, e).0)
  {
    StaysOffTheMac(h, e);
    if !h.availability.IsAlive() {
      StaysUnfilled(h, e);
    }
  }

  lemma SaveRefines(h: Host, m: map<string, StoredToken>, touched: string, tok: OAuthToken)
    requires Represents(h, m)
    ensures Saved(h, touched, tok).1.Ok?
    ensures Represents(Saved(h, touched, tok).0, m[touched := FromOAuth2(tok)])
  {
    var h', m' := Saved(h, touched, tok).0, m[touched := FromOAuth2(tok)];
    StaysTidy(h, SaveEvent(touched, tok));
    forall id ensures Agree(h', m', id) {
      assert Agree(h, m, id);
      if id != touched {
        MemoryKeysDiffer(h.service, id, touched);
      }
    }
  }

  lemma DeleteRefines(h: Host, m: map<string, StoredToken>, touched: string)
    requires Represents(h, m)
    ensures Deleted(h, touched).1 == if touched in m then None else Some(StoreError.NotLoggedIn)
    ensures Represents(Deleted(h, touched).0, m - {touched})
  {
    var h', m' := Deleted(h, touched).0, m - {touched};
    StaysTidy(h, DeleteEvent(touched));
    assert Agree(h, m, touched);
    forall id ensures Agree(h', m', id) {
      assert Agree(h, m, id);
      if id != touched {
        MemoryKeysDiffer(h.service, id, touched);
      }
    }
  }

  lemma StepRefines(h: Host, m: map<string, StoredToken>, e: Event)
    requires Represents(h, m) && !e.Becomes?
    ensures Represents(Happens(h, e).0, MapHappens(m, e).0)
    ensures Happens(h, e).1 == MapHappens(m, e).1
    ensures Happens(h, e).0.availability == h.availability
  {
    match e
    case SaveEvent(id, token) => SaveRefines(h, m, id, token);
    case DeleteEvent(id) => DeleteRefines(h, m, id);
    case LoadEvent(id) =>
      assert Agree(h, m, id);
  }

  /** The availability alone changes; the store still stands for the same map. */
  lemma RevivalRefines(h: Host, m: map<string, StoredToken>, a: Availability)
    requires Represents(h, m) && (a.IsAlive() || (Unfilled(h) && a.onSet.Some?))
    ensures Represents(h.(availability := a), m)
    ensures Unfilled(h.(availability := a)) == Unfilled(h)
  {
    var h' := h.(availability := a);
    forall id ensures Agree(h', m, id) {
      assert Agree(h, m, id);
    }
    assert forall id :: Key(h', id) == Key(h, id);
  }

  /**
   Refinement: over a store that stands for a map, while the keyring only revives,
   every sequence of Save, Load and Delete gives the replies of that map,
   ErrNotLoggedIn from Delete included, and leaves a store that stands for the map's end.
   */
  lemma {:induction false} StoreRefinesMap(h: Host, m: map<string, StoredToken>, events: seq<Event>, unfilled: bool)
    requires Represents(h, m) && OnlyRevives(h.availability, unfilled, Availabilities(events))
    requires unfilled && !h.availability.IsAlive() ==> Unfilled(h)
    ensures Replies(h, events).1 == MapReplies(m, events).1
    ensures Represents(Replies(h, events).0, MapReplies(m, events).0)
    decreases |events|
  {
    if events != [] {
      var e := events[0];
      var h', m' := Happens(h, e).0, MapHappens(m, e).0;
      if e.Becomes? {
        assert Availabilities(events)[1..] == Availabilities(events[1..]);
        RevivalRefines(h, m, e.availability);
        StoreRefinesMap(h', m', events[1..], unfilled && !h.availability.IsAlive());
      } else {
        StepRefines(h, m, e);
        if !h.availability.IsAlive() {
          StaysUnfilled(h, e);
        }
        assert Availabilities(events) == Availabilities(events[1..]);
        StoreRefinesMap(h', m', events[1..], unfilled);
      }
    }
  }

  // --- and only then ---

  predicate Same(h: Host, m: map<string, StoredToken>, events: seq<Event>) {
    Replies(h, events).1 == MapReplies(m, events).1
  }

  lemma {:induction false} AvailabilitiesConcat(a: seq<Event>, b: seq<Event>)
    ensures Availabilities(a + b) == Availabilities(a) + Availabilities(b)
    decreases |a|
  {
    if a == [] {
      assert a + b == b;
    } else {
      assert (a + b)[0] == a[0] && (a + b)[1..] == a[1..] + b;
      AvailabilitiesConcat(a[1..], b);
    }
  }

  /** One event, then others. */
  lemma SameNext(h: Host, m: map<string, StoredToken>, e: Event, rest: seq<Event>)
    ensures Same(h, m, [e] + rest) <==>
            Happens(h, e).1 == MapHappens(m, e).1 && Same(Happens(h, e).0, MapHappens(m, e).0, rest)
  {
    var r, r' := Replies(h, [e] + rest).1, MapReplies(m, [e] + rest).1;
    assert ([e] + rest)[1..] == rest;
    assert r[0] == Happens(h, e).1 && r'[0] == MapHappens(m, e).1;
    assert r[1..] == Replies(Happens(h, e).0, rest).1 && r'[1..] == MapReplies(MapHappens(m, e).0, rest).1;
  }

  /** A difference stays one, whatever happens after it. */
  lemma {:induction false} DifferStill(h: Host, m: map<string, StoredToken>, a: seq<Event>, b: seq<Event>)
    requires !Same(h, m, a)
    ensures !Same(h, m, a + b)
    decreases |a|
  {
    if a != [] {
      var e, rest := a[0], a[1..];
      assert a == [e] + rest && a + b == [e] + (rest + b);
      SameNext(h, m, e, rest);
      SameNext(h, m, e, rest + b);
      if Happens(h, e).1 == MapHappens(m, e).1 {
        DifferStill(Happens(h, e).0, MapHappens(m, e).0, rest, b);
      }
    }
  }

  /** A token unlike any the file holds for id, and unlike t. */
  function Unlike(held: map<string, StoredToken>, id: string, t: StoredToken): (u: OAuthToken)
    ensures FromOAuth2(u) != t && (id in held ==> FromOAuth2(u) != held[id])
  {
    var other := if id in held then held[id].accessToken else "";
    var name := t.accessToken + other + "x";
    var u := ToOAuth2(StoredToken(name, "", "", 0, ""));
    assert |FromOAuth2(u).accessToken| > |t.accessToken| && |FromOAuth2(u).accessToken| > |other|;
    u
  }

  lemma FoundDiffers(a: StoredToken, b: StoredToken)
    requires a != b
    ensures Found(ToOAuth2(a)) != Found(ToOAuth2(b))
  {
    PersistedFormRoundTrips(a);
    PersistedFormRoundTrips(b);
  }

  /** The keyring holds t for id, and the file does not. */
  ghost predicate Hidden(h: Host, m: map<string, StoredToken>, id: string, t: StoredToken) {
    && OffTheMac(h) && id in m && m[id] == t
    && Key(h, id) in h.entries && h.entries[Key(h, id)] == Encoded(t)
    && (id in Held(h.disk) ==> Held(h.disk)[id] != t)
  }

  /** Out of reach of Get: a load gives what the file has. */
  lemma UnreadDiffers(h: Host, m: map<string, StoredToken>, id: string, t: StoredToken)
    requires Hidden(h, m, id, t) && h.availability.onGet.Some?
    ensures !Same(h, m, [LoadEvent(id)])
  {
    if id in Held(h.disk) {
      FoundDiffers(t, Held(h.disk)[id]);
    }
    SameNext(h, m, LoadEvent(id), []);
    assert [LoadEvent(id)] + [] == [LoadEvent(id)];
  }

  /** Out of reach of Set: a save goes to the file, and a load still gives the entry. */
  lemma UnwrittenDiffers(h: Host, m: map<string, StoredToken>, id: string, t: StoredToken, u: OAuthToken)
    requires Hidden(h, m, id, t) && h.availability.onGet.None? && h.availability.onSet.Some? && FromOAuth2(u) != t
    ensures !Same(h, m, [SaveEvent(id, u), LoadEvent(id)])
  {
    var h', m' := Happens(h, SaveEvent(id, u)).0, MapHappens(m, SaveEvent(id, u)).0;
    FoundDiffers(t, FromOAuth2(u));
    assert Happens(h', LoadEvent(id)).1 == Found(ToOAuth2(t));
    SameNext(h', m', LoadEvent(id), []);
    assert [LoadEvent(id)] + [] == [LoadEvent(id)];
    SameNext(h, m, SaveEvent(id, u), [LoadEvent(id)]);
    assert [SaveEvent(id, u)] + [LoadEvent(id)] == [SaveEvent(id, u), LoadEvent(id)];
  }

  /** Out of reach of Delete: a load gives the entry deleted. */
  lemma UndeletedDiffers(h: Host, m: map<string, StoredToken>, id: string, t: StoredToken)
    requires Hidden(h, m, id, t) && h.availability.onGet.None? && h.availability.onDelete.Some?
    ensures !Same(h, m, [DeleteEvent(id), LoadEvent(id)])
  {
    var h', m' := Happens(h, DeleteEvent(id)).0, MapHappens(m, DeleteEvent(id)).0;
    assert Happens(h', LoadEvent(id)).1 == Found(ToOAuth2(t));
    SameNext(h', m', LoadEvent(id), []);
    assert [LoadEvent(id)] + [] == [LoadEvent(id)];
    SameNext(h, m, DeleteEvent(id), [LoadEvent(id)]);
    assert [DeleteEvent(id)] + [LoadEvent(id)] == [DeleteEvent(id), LoadEvent(id)];
  }

  lemma {:induction false} OperationsAlone(events: seq<Event>)
    requires forall i :: 0 <= i < |events| ==> !events[i].Becomes?
    ensures Availabilities(events) == []
  {
    if events != [] {
      OperationsAlone(events[1..]);
    }
  }

  /** Whatever the keyring refuses, an entry it alone holds shows that the store is no map. */
  lemma HiddenDiffers(h: Host, m: map<string, StoredToken>, id: string, t: StoredToken) returns (after: seq<Event>)
    requires Hidden(h, m, id, t) && !h.availability.IsAlive()
    ensures Availabilities(after) == [] && !Same(h, m, after)
  {
    if h.availability.onGet.Some? {
      after := [LoadEvent(id)];
      UnreadDiffers(h, m, id, t);
    } else if h.availability.onSet.Some? {
      var u := Unlike(Held(h.disk), id, t);
      after := [SaveEvent(id, u), LoadEvent(id)];
      UnwrittenDiffers(h, m, id, t, u);
    } else {
      after := [DeleteEvent(id), LoadEvent(id)];
      UndeletedDiffers(h, m, id, t);
    }
    OperationsAlone(after);
  }

  /** A token saved where the keyring takes it is one the file does not hold. */
  lemma SavedIsHidden(h: Host, m: map<string, StoredToken>, id: string, u: OAuthToken)
    requires OffTheMac(h) && h.availability.onSet.None?
    requires id in Held(h.disk) ==> FromOAuth2(u) != Held(h.disk)[id]
    ensures var h' := Happens(h, SaveEvent(id, u)).0;
            && h'.availability == h.availability
            && forall a :: Hidden(h'.(availability := a), MapHappens(m, SaveEvent(id, u)).0, id, FromOAuth2(u))
  {
    var h' := Happens(h, SaveEvent(id, u)).0;
    StaysOffTheMac(h, SaveEvent(id, u));
    forall a ensures Hidden(h'.(availability := a), MapHappens(m, SaveEvent(id, u)).0, id, FromOAuth2(u)) {
      SameKeys(h', a);
    }
  }

  /** A keyring that leaves Alive for anything less stops the store being a map. */
  lemma LeavingDiffers(h: Host, m: map<string, StoredToken>, a: Availability) returns (events: seq<Event>)
    requires OffTheMac(h) && h.availability.IsAlive() && !a.IsAlive()
    ensures Availabilities(events) == [a] && !Same(h, m, events)
  {
    var u := Unlike(Held(h.disk), "", StoredToken("", "", "", 0, ""));
    var save := SaveEvent("", u);
    var h1, m1 := Happens(h, save).0, MapHappens(m, save).0;
    SavedIsHidden(h, m, "", u);
    var h2 := h1.(availability := a);
    var after := HiddenDiffers(h2, m1, "", FromOAuth2(u));
    SameNext(h1, m1, Becomes(a), after);
    SameNext(h, m, save, [Becomes(a)] + after);
    events := [save] + ([Becomes(a)] + after);
    AvailabilitiesConcat([Becomes(a)], after);
    AvailabilitiesConcat([save], [Becomes(a)] + after);
  }

  /** So does one that takes a token without answering everything. */
  lemma TakingDiffers(h: Host, m: map<string, StoredToken>) returns (events: seq<Event>)
    requires OffTheMac(h) && h.availability.onSet.None? && !h.availability.IsAlive()
    ensures Availabilities(events) == [] && !Same(h, m, events)
  {
    var u := Unlike(Held(h.disk), "", StoredToken("", "", "", 0, ""));
    var save := SaveEvent("", u);
    var h1, m1 := Happens(h, save).0, MapHappens(m, save).0;
    SavedIsHidden(h, m, "", u);
    assert h1 == h1.(availability := h.availability);
    var after := HiddenDiffers(h1, m1, "", FromOAuth2(u));
    SameNext(h, m, save, after);
    events := [save] + after;
    AvailabilitiesConcat([save], after);
  }

  function Become(history: seq<Availability>): seq<Event> {
    if history == [] then [] else [Becomes(history[0])] + Become(history[1..])
  }

  lemma {:induction false} BecomeIsHistory(history: seq<Availability>)
    ensures Availabilities(Become(history)) == history
  {
    if history != [] {
      BecomeIsHistory(history[1..]);
      AvailabilitiesConcat([Becomes(history[0])], Become(history[1..]));
    }
  }

  /** Past the point where it stops reviving, the operations that show it, and then the rest of the history. */
  lemma DifferThenBecome(h: Host, m: map<string, StoredToken>, events: seq<Event>, rest: seq<Availability>) returns (all: seq<Event>)
    requires !Same(h, m, events)
    ensures Availabilities(all) == Availabilities(events) + rest && !Same(h, m, all)
  {
    all := events + Become(rest);
    DifferStill(h, m, events, Become(rest));
    BecomeIsHistory(rest);
    AvailabilitiesConcat(events, Become(rest));
  }

  /** Any history that does more than revive has a placing of operations the map answers otherwise. */
  lemma {:induction false} SomePlacingDiffers(h: Host, m: map<string, StoredToken>, history: seq<Availability>) returns (events: seq<Event>)
    requires OffTheMac(h) && (h.availability.IsAlive() || Unfilled(h))
    requires !OnlyRevives(h.availability, Unfilled(h), history)
    ensures Availabilities(events) == history && !Same(h, m, events)
    decreases |history|
  {
    if !h.availability.IsAlive() && h.availability.onSet.None? {
      var shown := TakingDiffers(h, m);
      events := DifferThenBecome(h, m, shown, history);
    } else {
      var a := history[0];
      if h.availability.IsAlive() && !a.IsAlive() {
        var shown := LeavingDiffers(h, m, a);
        events := DifferThenBecome(h, m, shown, history[1..]);
      } else {
        var h' := h.(availability := a);
        SameKeys(h, a);
        Forgetful(a, Unfilled(h'), Unfilled(h) && !h.availability.IsAlive(), history[1..]);
        var rest := SomePlacingDiffers(h', m, history[1..]);
        SameNext(h, m, Becomes(a), rest);
        events := [Becomes(a)] + rest;
        AvailabilitiesConcat([Becomes(a)], rest);
      }
    }
  }

  lemma SameKeys(h: Host, a: Availability)
    ensures Unfilled(h.(availability := a)) == Unfilled(h)
    ensures OffTheMac(h.(availability := a)) == OffTheMac(h)
  {
    var h' := h.(availability := a);
    assert forall id :: Key(h', id) == Key(h, id);
  }

  /** While a keyring is alive it makes no difference whether it was empty before. */
  lemma Forgetful(a: Availability, unfilled: bool, flag: bool, history: seq<Availability>)
    requires a.IsAlive() || unfilled == flag
    ensures OnlyRevives(a, unfilled, history) == OnlyRevives(a, flag, history)
  {
  }

  /**
   One map, exactly: a store off the Mac, over a working file, with a keyring that
   answers everything or holds nothing, gives the replies of the map it stands for to
   every placing of Save, Load and Delete in a history of availabilities exactly when
   in that history the keyring only revives: it takes nothing until it answers
   everything, and from then on never stops answering.
   */
  lemma OneMapExactlyWhen(h: Host, m: map<string, StoredToken>, history: seq<Availability>)
    requires OffTheMac(h) && (h.availability.IsAlive() || Unfilled(h)) && forall id :: Agree(h, m, id)
    ensures (forall events :: Availabilities(events) == history ==> Same(h, m, events))
       <==> OnlyRevives(h.availability, Unfilled(h), history)
  {
    if OnlyRevives(h.availability, Unfilled(h), history) {
      forall events | Availabilities(events) == history ensures Same(h, m, events) {
        StoreRefinesMap(h, m, events, Unfilled(h));
      }
    } else {
      var events := SomePlacingDiffers(h, m, history);
      assert Availabilities(events) == history && !Same(h, m, events);
    }
  }

  // --- the runs in which each promise fails ---

  lemma OneReply(h: Host, e: Event, rest: seq<Event>)
    ensures Replies(h, [e] + rest).1 == [Happens(h, e).1] + Replies(Happens(h, e).0, rest).1
  {
    assert ([e] + rest)[1..] == rest;
  }

  lemma FourReplies(h: Host, a: Event, b: Event, c: Event, d: Event)
    ensures var h1 := Happens(h, a).0;
            var h2 := Happens(h1, b).0;
            var h3 := Happens(h2, c).0;
            Replies(h, [a, b, c, d]).1 == [Happens(h, a).1, Happens(h1, b).1, Happens(h2, c).1, Happens(h3, d).1]
  {
    var h1 := Happens(h, a).0;
    var h2 := Happens(h1, b).0;
    var h3 := Happens(h2, c).0;
    OneReply(h3, d, []);
    OneReply(h2, c, [d]);
    OneReply(h1, b, [c, d]);
    OneReply(h, a, [b, c, d]);
    assert [d] + [] == [d] && [c] + [d] == [c, d] && [b] + [c, d] == [b, c, d] && [a] + [b, c, d] == [a, b, c, d];
  }

  /** A keyring that dies again lets a stale file token resurface: the last save was b and the load gives a. */
  lemma DyingKeyringResurfacesStale(h: Host, id: string, a: OAuthToken, b: OAuthToken, f: Fault)
    requires OffTheMac(h) && h.availability == Dead(f)
    ensures Replies(h, [SaveEvent(id, a), Becomes(Alive), SaveEvent(id, b), Becomes(Dead(f)), LoadEvent(id)]).1
            == [Stored, Quiet, Stored, Quiet, Found(ToOAuth2(FromOAuth2(a)))]
  {
    var rest := [Becomes(Alive), SaveEvent(id, b), Becomes(Dead(f)), LoadEvent(id)];
    OneReply(h, SaveEvent(id, a), rest);
    FourReplies(Happens(h, SaveEvent(id, a)).0, Becomes(Alive), SaveEvent(id, b), Becomes(Dead(f)), LoadEvent(id));
    assert [SaveEvent(id, a)] + rest == [SaveEvent(id, a), Becomes(Alive), SaveEvent(id, b), Becomes(Dead(f)), LoadEvent(id)];
  }

  /** A keyring that refuses Set and answers Get hides the token saved: b went to the file and the load gives a. */
  lemma ReadOnlyKeyringHidesTheSave(h: Host, id: string, a: OAuthToken, b: OAuthToken, f: Fault)
    requires OffTheMac(h) && h.availability == Alive
    ensures Replies(h, [SaveEvent(id, a), Becomes(ReadOnly(f)), SaveEvent(id, b), LoadEvent(id)]).1
            == [Stored, Quiet, Stored, Found(ToOAuth2(FromOAuth2(a)))]
  {
    FourReplies(h, SaveEvent(id, a), Becomes(ReadOnly(f)), SaveEvent(id, b), LoadEvent(id));
  }

  /** So does one that takes Set and refuses Get: b went to the keyring and the load gives the file's a. */
  lemma WriteOnlyKeyringHidesTheSave(h: Host, id: string, a: OAuthToken, b: OAuthToken, f: Fault)
    requires OffTheMac(h) && h.availability == Dead(f)
    ensures Replies(h, [SaveEvent(id, a), Becomes(WriteOnly(f)), SaveEvent(id, b), LoadEvent(id)]).1
            == [Stored, Quiet, Stored, Found(ToOAuth2(FromOAuth2(a)))]
  {
    FourReplies(h, SaveEvent(id, a), Becomes(WriteOnly(f)), SaveEvent(id, b), LoadEvent(id));
  }

  /** A logout while the keyring is dead reports success for the file's token, and the keyring's is loaded once it is back. */
  lemma DeletedTokenComesBack(h: Host, id: string, a: OAuthToken, b: OAuthToken, f: Fault)
    requires OffTheMac(h) && h.availability == Alive
    ensures Replies(h, [SaveEvent(id, a), Becomes(Dead(f))] + [SaveEvent(id, b), DeleteEvent(id), Becomes(Alive), LoadEvent(id)]).1
            == [Stored, Quiet] + [Stored, Forgotten, Quiet, Found(ToOAuth2(FromOAuth2(a)))]
  {
    var rest := [SaveEvent(id, b), DeleteEvent(id), Becomes(Alive), LoadEvent(id)];
    var h1 := Happens(h, SaveEvent(id, a)).0;
    var h2 := Happens(h1, Becomes(Dead(f))).0;
    FourReplies(h2, SaveEvent(id, b), DeleteEvent(id), Becomes(Alive), LoadEvent(id));
    OneReply(h1, Becomes(Dead(f)), rest);
    OneReply(h, SaveEvent(id, a), [Becomes(Dead(f))] + rest);
    assert [SaveEvent(id, a)] + ([Becomes(Dead(f))] + rest) == [SaveEvent(id, a), Becomes(Dead(f))] + rest;
  }

  /** What one event leaves of the tokens saved and not since deleted. */
  function Kept(m: map<string, StoredToken>, e: Event, r: Reply): map<string, StoredToken> {
    if e.SaveEvent? && r.Stored? then m[e.clientID := FromOAuth2(e.token)]
    else if e.DeleteEvent? && r.Forgotten? then m - {e.clientID}
    else m
  }

  /** What the last successful Save not followed by a successful Delete left, for every client. */
  function LastKept(m: map<string, StoredToken>, events: seq<Event>, replies: seq<Reply>): map<string, StoredToken>
    requires |events| == |replies|
    decreases |events|
  {
    if events == [] then m else LastKept(Kept(m, events[0], replies[0]), events[1..], replies[1..])
  }

  /** The keychain holds m's token, and nothing else, for this client. */
  predicate KeychainHolds(h: Host, m: map<string, StoredToken>, id: string) {
    if id in m then Key(h, id) in h.entries && h.entries[Key(h, id)] == Encoded(m[id])
    else Key(h, id) !in h.entries
  }

  /** A Mac whose file holds no token and whose keychain holds the tokens of m. */
  ghost predicate Mac(h: Host, m: map<string, StoredToken>) {
    && h.goos == DARWIN
    && (h.disk.path == "" || h.disk.content == Absent || h.disk.content == Holding(map[]))
    && (forall id :: KeychainHolds(h, m, id))
  }

  lemma MacStep(h: Host, m: map<string, StoredToken>, e: Event)
    requires Mac(h, m)
    ensures Mac(Happens(h, e).0, Kept(m, e, Happens(h, e).1))
    ensures Happens(h, e).0.disk == h.disk
  {
    var (h', r) := Happens(h, e);
    forall id ensures KeychainHolds(h', Kept(m, e, r), id) {
      assert KeychainHolds(h, m, id);
      if (e.SaveEvent? || e.DeleteEvent?) && id != e.clientID {
        MemoryKeysDiffer(h.service, id, e.clientID);
      }
    }
  }

  lemma MacLoad(h: Host, m: map<string, StoredToken>, id: string)
    requires Mac(h, m)
    ensures Happens(h, LoadEvent(id)).1 ==
            if h.availability.onGet.Some? || id !in m then Reply.NotLoggedIn else Found(ToOAuth2(m[id]))
  {
    assert KeychainHolds(h, m, id);
  }

  /**
   A Mac never downgrades: starting with no file token, under any pattern of locking
   and unlocking, the fallback file is never written, and the keychain holds exactly
   the tokens successfully saved and not successfully deleted since.
   */
  lemma {:induction false} MacNeverDowngrades(h: Host, m: map<string, StoredToken>, events: seq<Event>)
    requires Mac(h, m)
    ensures |Replies(h, events).1| == |events|
    ensures Replies(h, events).0.disk == h.disk
    ensures Mac(Replies(h, events).0, LastKept(m, events, Replies(h, events).1))
    decreases |events|
  {
    if events != [] {
      MacStep(h, m, events[0]);
      var (h', r) := Happens(h, events[0]);
      MacNeverDowngrades(h', Kept(m, events[0], r), events[1..]);
      var rest := Replies(h', events[1..]).1;
      assert Replies(h, events).1 == [r] + rest;
      assert ([r] + rest)[1..] == rest;
    }
  }

  /** Whatever a Mac loads is the last token kept; it says nobody is logged in when none was, or while it is locked. */
  lemma MacLoadsTheLastKept(h: Host, m: map<string, StoredToken>, events: seq<Event>, id: string)
    requires Mac(h, m)
    ensures |Replies(h, events).1| == |events|
    ensures var (end, replies) := Replies(h, events);
            var kept := LastKept(m, events, replies);
            Happens(end, LoadEvent(id)).1 ==
              if end.availability.onGet.Some? || id !in kept then Reply.NotLoggedIn else Found(ToOAuth2(kept[id]))
  {
    MacNeverDowngrades(h, m, events);
    MacLoad(Replies(h, events).0, LastKept(m, events, Replies(h, events).1), id);
  }

  /** A keychain that refuses makes Delete say nobody was logged in while the token stays where it was. */
  lemma LockedDeleteKeepsTheToken(h: Host, m: map<string, StoredToken>, id: string)
    requires Mac(h, m) && id in m
    ensures Happens(h, DeleteEvent(id)).1 == Reply.NotLoggedIn <==> h.availability.onDelete.Some?
    ensures h.availability.onDelete.Some? ==> Mac(Happens(h, DeleteEvent(id)).0, m)
  {
    assert KeychainHolds(h, m, id);
    MacStep(h, m, DeleteEvent(id));
  }
}
