/** fileStore.write under interleaving: temp file, rename over the path, deferred removal, any number of writers at once. */
module AtomicFile {
  import opened Basics
  import opened Tokens

  type TokenMap = map<string, StoredToken>

  /** What an inode holds: nothing or part of a file, or a whole one. */
  datatype Data = Torn | Whole(tokens: TokenMap)

  datatype Pc =
    | Start
    | Created(name: string, inode: nat)
    | Written(name: string, inode: nat)
    | Closed(name: string, inode: nat)
    | Moded(name: string, inode: nat)
    | Cleaning(name: string)
    | Ended

  datatype Writer = Writer(tokens: TokenMap, pc: Pc)

  /** dir maps names to inodes. used holds every temp name ever created. */
  datatype Disk = Disk(path: string, dir: map<string, nat>, data: map<nat, Data>, used: set<string>, ws: seq<Writer>)

  /** A write puts down some of the bytes or all of them, and any step before the rename may fail. */
  datatype Act = Create(name: string, inode: nat) | WritePart | WriteAll | Close | Chmod | Rename | Fail | Remove

  datatype Step = Step(w: nat, act: Act)

  predicate Midway(pc: Pc) { pc.Created? || pc.Written? || pc.Closed? || pc.Moded? }

  predicate HasTemp(pc: Pc) { Midway(pc) || pc.Cleaning? }

  /** Creating a temp file takes a name and an inode nothing has at the moment. */
  predicate Enabled(d: Disk, s: Step) {
    s.w < |d.ws| &&
    var pc := d.ws[s.w].pc;
    match s.act
    case Create(name, inode) => pc.Start? && name !in d.dir && name != d.path && inode !in d.data
    case WritePart => pc.Created?
    case WriteAll => pc.Created?
    case Close => pc.Written?
    case Chmod => pc.Closed?
    case Rename => pc.Moded? && pc.name in d.dir
    case Fail => Midway(pc)
    case Remove => pc.Cleaning?
  }

  function Goto(d: Disk, w: nat, pc: Pc): Disk
    requires w < |d.ws|
  {
    d.(ws := d.ws[w := d.ws[w].(pc := pc)])
  }

  function Apply(d: Disk, s: Step): Disk
    requires Enabled(d, s)
  {
    var w := s.w;
    var pc := d.ws[w].pc;
    match s.act
    case Create(name, inode) =>
      Goto(d.(dir := d.dir[name := inode], data := d.data[inode := Torn], used := d.used + {name}), w, Created(name, inode))
    case WritePart => d.(data := d.data[pc.inode := Torn])
    case WriteAll => Goto(d.(data := d.data[pc.inode := Whole(d.ws[w].tokens)]), w, Written(pc.name, pc.inode))
    case Close => Goto(d, w, Closed(pc.name, pc.inode))
    case Chmod => Goto(d, w, Moded(pc.name, pc.inode))
    case Rename => Goto(d.(dir := d.dir[d.path := d.dir[pc.name]] - {pc.name}), w, Cleaning(pc.name))
    case Fail => Goto(d, w, Cleaning(pc.name))
    case Remove => Goto(d.(dir := d.dir - {pc.name}), w, Ended)
  }

  /** A temp name that has never been used before, which a long random one is for practical purposes. */
  predicate FreshName(d: Disk, s: Step) {
    s.act.Create? ==> s.act.name !in d.used
  }

  /** What a reader of the path sees: nothing, or an inode's content. */
  function View(d: Disk): Option<Data> {
    if d.path in d.dir && d.dir[d.path] in d.data then Some(d.data[d.dir[d.path]]) else None
  }

  /** What the path may ever show: what it showed first, or the whole map of some writer. */
  ghost predicate Allowed(initial: Option<Data>, ws: seq<Writer>, v: Option<Data>) {
    v == initial || exists w :: 0 <= w < |ws| && v == Some(Whole(ws[w].tokens))
  }

  /** A writer's temp name leads to its own inode, which holds its whole map once written. */
  predicate WriterRight(d: Disk, w: Writer) {
    && (HasTemp(w.pc) ==> w.pc.name != d.path && w.pc.name in d.used)
    && (Midway(w.pc) ==>
          && w.pc.name in d.dir && d.dir[w.pc.name] == w.pc.inode && w.pc.inode in d.data
          && (d.path in d.dir ==> d.dir[d.path] != w.pc.inode))
    && (w.pc.Written? || w.pc.Closed? || w.pc.Moded? ==> d.data[w.pc.inode] == Whole(w.tokens))
  }

  predicate Apart(a: Pc, b: Pc) {
    && (HasTemp(a) && HasTemp(b) ==> a.name != b.name)
    && (Midway(a) && Midway(b) ==> a.inode != b.inode)
  }

  ghost predicate Right(d: Disk, initial: Option<Data>) {
    && (d.path in d.dir ==> d.dir[d.path] in d.data)
    && (forall w :: 0 <= w < |d.ws| ==> WriterRight(d, d.ws[w]))
    && (forall v, w :: 0 <= v < w < |d.ws| ==> Apart(d.ws[v].pc, d.ws[w].pc))
    && Allowed(initial, d.ws, View(d))
  }

  lemma StepKeepsWriters(d: Disk, s: Step, initial: Option<Data>)
    requires Right(d, initial) && Enabled(d, s) && FreshName(d, s)
    ensures var d' := Apply(d, s);
            && (d'.path in d'.dir ==> d'.dir[d'.path] in d'.data)
            && (forall w :: 0 <= w < |d'.ws| ==> WriterRight(d', d'.ws[w]))
            && (forall v, w :: 0 <= v < w < |d'.ws| ==> Apart(d'.ws[v].pc, d'.ws[w].pc))
  {
    var d' := Apply(d, s);
    assert WriterRight(d, d.ws[s.w]);
    forall w | 0 <= w < |d'.ws| ensures WriterRight(d', d'.ws[w]) {
      assert WriterRight(d, d.ws[w]);
      assert w < s.w ==> Apart(d.ws[w].pc, d.ws[s.w].pc);
      assert s.w < w ==> Apart(d.ws[s.w].pc, d.ws[w].pc);
    }
    forall v, w | 0 <= v < w < |d'.ws| ensures Apart(d'.ws[v].pc, d'.ws[w].pc) {
      assert Apart(d.ws[v].pc, d.ws[w].pc);
      assert WriterRight(d, d.ws[v]) && WriterRight(d, d.ws[w]);
    }
  }

  /** The path changes only by a rename, and then to the renaming writer's whole map. */
  lemma StepKeepsView(d: Disk, s: Step, initial: Option<Data>)
    requires Right(d, initial) && Enabled(d, s) && FreshName(d, s)
    ensures View(Apply(d, s)) == if s.act.Rename? then Some(Whole(d.ws[s.w].tokens)) else View(d)
    ensures Allowed(initial, Apply(d, s).ws, View(Apply(d, s)))
  {
    var d' := Apply(d, s);
    assert WriterRight(d, d.ws[s.w]);
    assert forall w :: 0 <= w < |d.ws| ==> d'.ws[w].tokens == d.ws[w].tokens;
    if s.act.Rename? {
      assert View(d') == Some(Whole(d'.ws[s.w].tokens));
    } else if View(d) != initial {
      var w :| 0 <= w < |d.ws| && View(d) == Some(Whole(d.ws[w].tokens));
      assert View(d') == Some(Whole(d'.ws[w].tokens));
    }
  }

  ghost predicate Run(d: Disk, steps: seq<Step>)
    decreases |steps|
  {
    steps != [] ==> Enabled(d, steps[0]) && Run(Apply(d, steps[0]), steps[1..])
  }

  ghost function Final(d: Disk, steps: seq<Step>): Disk
    requires Run(d, steps)
    decreases |steps|
  {
    if steps == [] then d else Final(Apply(d, steps[0]), steps[1..])
  }

  /** No step of the run takes a temp name used before. */
  ghost predicate AllFresh(d: Disk, steps: seq<Step>)
    requires Run(d, steps)
    decreases |steps|
  {
    steps != [] ==> FreshName(d, steps[0]) && AllFresh(Apply(d, steps[0]), steps[1..])
  }

  lemma {:induction false} RunKeepsRight(d: Disk, steps: seq<Step>, initial: Option<Data>)
    requires Right(d, initial) && Run(d, steps) && AllFresh(d, steps)
    ensures Right(Final(d, steps), initial)
    ensures |Final(d, steps).ws| == |d.ws| && forall w :: 0 <= w < |d.ws| ==> Final(d, steps).ws[w].tokens == d.ws[w].tokens
    decreases |steps|
  {
    if steps != [] {
      StepKeepsWriters(d, steps[0], initial);
      StepKeepsView(d, steps[0], initial);
      RunKeepsRight(Apply(d, steps[0]), steps[1..], initial);
    }
  }

  /** Writers about to start, over any directory. */
  ghost predicate Begin(d: Disk) {
    (d.path in d.dir ==> d.dir[d.path] in d.data) && forall w :: 0 <= w < |d.ws| ==> d.ws[w].pc.Start?
  }

  /**
   Atomic replacement: any number of concurrent writers with fresh temp names, stopped
   at any step, leave a reader of the path seeing it absent or as it was at first, or
   as the whole map some writer passed. Never a torn file.
   */
  lemma ReadersSeeWholeMaps(d: Disk, steps: seq<Step>)
    requires Begin(d) && Run(d, steps) && AllFresh(d, steps)
    ensures Allowed(View(d), d.ws, View(Final(d, steps)))
  {
    RunKeepsRight(d, steps, View(d));
    var e := Final(d, steps);
    if View(e) != View(d) {
      var w :| 0 <= w < |e.ws| && View(e) == Some(Whole(e.ws[w].tokens));
      assert View(e) == Some(Whole(d.ws[w].tokens));
    }
  }

  /** The writer whose rename is the last of these steps. */
  function LastRenamer(steps: seq<Step>): Option<nat> {
    if steps == [] then None
    else
      var later := LastRenamer(steps[1..]);
      if later.None? && steps[0].act.Rename? then Some(steps[0].w) else later
  }

  /** A reader of the path sees what the last rename put there, and before any rename what was there at first. */
  lemma {:induction false} ShowsTheLastRename(d: Disk, steps: seq<Step>, initial: Option<Data>)
    requires Right(d, initial) && Run(d, steps) && AllFresh(d, steps)
    ensures LastRenamer(steps).Some? ==> LastRenamer(steps).value < |d.ws|
    ensures View(Final(d, steps)) ==
            match LastRenamer(steps) case None => View(d) case Some(w) => Some(Whole(d.ws[w].tokens))
    decreases |steps|
  {
    if steps != [] {
      StepKeepsWriters(d, steps[0], initial);
      StepKeepsView(d, steps[0], initial);
      ShowsTheLastRename(Apply(d, steps[0]), steps[1..], initial);
    }
  }

  /** An inode nobody is still writing keeps its content through every step. */
  lemma {:induction false} OpenedContentStays(d: Disk, steps: seq<Step>, initial: Option<Data>, inode: nat)
    requires Right(d, initial) && Run(d, steps) && AllFresh(d, steps) && inode in d.data
    requires forall w :: 0 <= w < |d.ws| && Midway(d.ws[w].pc) ==> d.ws[w].pc.inode != inode
    ensures inode in Final(d, steps).data && Final(d, steps).data[inode] == d.data[inode]
    decreases |steps|
  {
    if steps != [] {
      StepKeepsWriters(d, steps[0], initial);
      StepKeepsView(d, steps[0], initial);
      OpenedContentStays(Apply(d, steps[0]), steps[1..], initial, inode);
    }
  }

  /** So a reader that opened the path goes on reading the file it opened, whatever is renamed over it meanwhile. */
  lemma SlowReadersReadOneFile(d: Disk, steps: seq<Step>, initial: Option<Data>)
    requires Right(d, initial) && Run(d, steps) && AllFresh(d, steps) && d.path in d.dir
    ensures var inode := d.dir[d.path];
            inode in Final(d, steps).data && Some(Final(d, steps).data[inode]) == View(d)
  {
    forall w | 0 <= w < |d.ws| && Midway(d.ws[w].pc) ensures d.ws[w].pc.inode != d.dir[d.path] {
      assert WriterRight(d, d.ws[w]);
    }
    OpenedContentStays(d, steps, initial, d.dir[d.path]);
  }

  lemma {:induction false} Extend(d: Disk, steps: seq<Step>, w: nat, act: Act)
    requires Run(d, steps) && Enabled(Final(d, steps), Step(w, act))
    ensures Run(d, steps + [Step(w, act)])
    ensures Final(d, steps + [Step(w, act)]) == Apply(Final(d, steps), Step(w, act))
    decreases |steps|
  {
    if steps == [] {
      assert steps + [Step(w, act)] == [Step(w, act)];
    } else {
      assert (steps + [Step(w, act)])[1..] == steps[1..] + [Step(w, act)];
      Extend(Apply(d, steps[0]), steps[1..], w, act);
    }
  }

  ghost predicate Reaches(d: Disk, e: Disk) { exists steps :: Run(d, steps) && Final(d, steps) == e }

  /** One more step. */
  lemma Then(d: Disk, e: Disk, w: nat, act: Act)
    requires Reaches(d, e) && Enabled(e, Step(w, act))
    ensures Reaches(d, Apply(e, Step(w, act)))
  {
    var steps :| Run(d, steps) && Final(d, steps) == e;
    Extend(d, steps, w, act);
  }

  /** Writer w's whole write up to the rename. */
  lemma Prepares(d: Disk, e: Disk, w: nat, name: string, inode: nat) returns (e': Disk)
    requires Reaches(d, e) && Enabled(e, Step(w, Create(name, inode)))
    ensures Reaches(d, e') && e'.path == e.path && e'.dir == e.dir[name := inode]
    ensures e'.data.Keys == e.data.Keys + {inode}
    ensures e'.ws == e.ws[w := Writer(e.ws[w].tokens, Moded(name, inode))]
  {
    Then(d, e, w, Create(name, inode));
    e' := Apply(e, Step(w, Create(name, inode)));
    Then(d, e', w, WriteAll);
    e' := Apply(e', Step(w, WriteAll));
    Then(d, e', w, Close);
    e' := Apply(e', Step(w, Close));
    Then(d, e', w, Chmod);
    e' := Apply(e', Step(w, Chmod));
  }

  /** Three writers at these pcs, the temp name free or taken, and no inode above the last. */
  predicate Stage(e: Disk, path: string, n: string, a: Pc, b: Pc, c: Pc, taken: bool, inodes: set<nat>) {
    && e.path == path && |e.ws| == 3 && e.ws[0].pc == a && e.ws[1].pc == b && e.ws[2].pc == c
    && (n in e.dir <==> taken) && e.data.Keys == inodes
  }

  /** The first writer publishes its file and has yet to remove its temp name. */
  lemma FirstPublishes(d: Disk, path: string, n: string) returns (e: Disk)
    requires path != n && Stage(d, path, n, Start, Start, Start, false, {})
    ensures Reaches(d, e) && Stage(e, path, n, Cleaning(n), Start, Start, false, {0})
  {
    assert Run(d, []) && Final(d, []) == d;
    e := Prepares(d, d, 0, n, 0);
    Then(d, e, 0, Rename);
    e := Apply(e, Step(0, Rename));
  }

  /** The second takes the name again and is ready to rename, and only then does the first remove it. */
  lemma SecondLosesItsTemp(d: Disk, e: Disk, path: string, n: string) returns (e': Disk)
    requires path != n && Reaches(d, e) && Stage(e, path, n, Cleaning(n), Start, Start, false, {0})
    ensures Reaches(d, e') && Stage(e', path, n, Ended, Moded(n, 1), Start, false, {0, 1})
  {
    e' := Prepares(d, e, 1, n, 1);
    Then(d, e', 0, Remove);
    e' := Apply(e', Step(0, Remove));
  }

  /**
   Fresh names are needed. The directory keeps a temp name from clashing only while it
   exists. Taken again after its rename, it lets one writer's removal unlink another's
   temp file, and a third one's unfinished file reach the path.
   */
  lemma ReusedNameTears(d: Disk, path: string, n: string) returns (torn: Disk)
    requires path != n && Stage(d, path, n, Start, Start, Start, false, {})
    ensures Reaches(d, torn) && View(torn) == Some(Torn)
  {
    torn := FirstPublishes(d, path, n);
    torn := SecondLosesItsTemp(d, torn, path, n);
    Then(d, torn, 2, Create(n, 2));
    torn := Apply(torn, Step(2, Create(n, 2)));
    Then(d, torn, 1, Rename);
    torn := Apply(torn, Step(1, Rename));
  }
}
