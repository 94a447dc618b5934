/** A server with an append only file as a state machine: commands are fed, the buffer is
    flushed, a child rewrites the file while the parent sends it the changes through a pipe,
    the rewritten file replaces the old one, and the file is switched on and off. Every
    interleaving keeps the file replayable to the dataset in memory. */
module AofRuns {
  import opened Common
  import opened AofFormat
  import opened AofLoad
  import opened AofTranslate

  // ----- replaying

  /** How a command changes a dataset, in a given database. */
  type Apply<!D> = (D, int, Command) -> D

  datatype Replayed<+D> = Replayed(data: D, db: int)

  predicate IsSelect(c: Command) { Named(c, "select") && |c| == 2 }

  function SelectCmd(db: nat): Command {
    ["SELECT", Dec(db)]
  }

  function ReplayOne<D>(apply: Apply<D>, s: Replayed<D>, c: Command): Replayed<D> {
    if IsSelect(c) then s.(db := ParseInt(c[1])) else s.(data := apply(s.data, s.db, c))
  }

  function Replay<D>(apply: Apply<D>, s: Replayed<D>, cmds: seq<Command>): Replayed<D>
    decreases cmds
  {
    if cmds == [] then s else Replay(apply, ReplayOne(apply, s, cmds[0]), cmds[1..])
  }

  lemma {:induction false} ReplayAppend<D>(apply: Apply<D>, s: Replayed<D>, a: seq<Command>, b: seq<Command>)
    ensures Replay(apply, s, a + b) == Replay(apply, Replay(apply, s, a), b)
    decreases a
  {
    if a == [] {
      assert a + b == b;
    } else {
      assert (a + b)[1..] == a[1..] + b;
      ReplayAppend(apply, ReplayOne(apply, s, a[0]), a[1..], b);
    }
  }

  lemma SelectSelects<D>(apply: Apply<D>, s: Replayed<D>, db: nat)
    ensures IsSelect(SelectCmd(db)) && ReplayOne(apply, s, SelectCmd(db)) == s.(db := db)
  {
    assert Lower("SELECT") == "select";
    ParseIntHeader(db, []);
    assert Dec(db) + [] == Dec(db);
  }

  // ----- feeding

  const NO_DB: int := -1

  /** A command executed in a database at a time. */
  datatype Write = Write(db: nat, argv: Command, now: int)
  {
    /** What is written for it; the dataset changes as these commands say, all at once. */
    function Parts(): (r: seq<Command>)
      ensures r != []
    {
      Translate(argv, now)
    }
  }

  /** feedAppendOnlyFile: a SELECT first when the command is for another database. */
  function FeedOne(selected: int, w: Write): seq<Command> {
    (if w.db != selected then [SelectCmd(w.db)] else []) + w.Parts()
  }

  /** The bytes feedAppendOnlyFile appends for one command. */
  method FeedBuffer(selected: int, w: Write) returns (buf: Bytes)
    requires !(IsSet(w.argv) && HasOption(w.argv, "ex") && HasOption(w.argv, "px"))
    ensures buf == EncodeAll(FeedOne(selected, w)) && Written(w.argv, w.now, w.Parts())
  {
    hide Encode, Translate, HasOption, Written;
    buf := "";
    if w.db != selected {
      buf := CatGenericCommand(buf, ["SELECT", Dec(w.db)]);
      EncodeTwo(SelectCmd(w.db), SelectCmd(w.db));
    }
    EncodeAllAppend(if w.db != selected then [SelectCmd(w.db)] else [], w.Parts());
    buf := CatTranslated(buf, w.argv, w.now);
  }

  function FeedAll(selected: int, ws: seq<Write>): seq<Command>
    decreases ws
  {
    if ws == [] then [] else FeedOne(selected, ws[0]) + FeedAll(ws[0].db, ws[1..])
  }

  function ApplyParts<D>(apply: Apply<D>, d: D, db: int, parts: seq<Command>): D
    decreases parts
  {
    if parts == [] then d else ApplyParts(apply, apply(d, db, parts[0]), db, parts[1..])
  }

  function ApplyAll<D>(apply: Apply<D>, d: D, ws: seq<Write>): D
    decreases ws
  {
    if ws == [] then d else ApplyAll(apply, ApplyParts(apply, d, ws[0].db, ws[0].Parts()), ws[1..])
  }

  /** The selected database recorded by the server is the one a replay would be in. */
  predicate InStep(selected: int, db: int) {
    selected == NO_DB || selected == db
  }

  predicate Writable(c: Command, known: set<Bytes>) {
    Plain(c, known) && !IsSelect(c)
  }

  predicate WriteOk(w: Write, known: set<Bytes>) {
    w.db <= INT_MAX && forall i :: 0 <= i < |w.Parts()| ==> Writable(w.Parts()[i], known)
  }

  lemma {:induction false} ReplayParts<D>(apply: Apply<D>, s: Replayed<D>, parts: seq<Command>)
    requires forall i :: 0 <= i < |parts| ==> !IsSelect(parts[i])
    ensures Replay(apply, s, parts) == Replayed(ApplyParts(apply, s.data, s.db, parts), s.db)
    decreases parts
  {
    if parts != [] { ReplayParts(apply, ReplayOne(apply, s, parts[0]), parts[1..]); }
  }

  lemma ReplayFeedOne<D>(apply: Apply<D>, s: Replayed<D>, selected: int, w: Write, known: set<Bytes>)
    requires InStep(selected, s.db) && WriteOk(w, known)
    ensures Replay(apply, s, FeedOne(selected, w)) == Replayed(ApplyParts(apply, s.data, w.db, w.Parts()), w.db)
  {
    hide Translate, SelectCmd;
    var t := s.(db := w.db);
    ReplayParts(apply, t, w.Parts());
    if w.db != selected {
      SelectSelects(apply, s, w.db);
      assert FeedOne(selected, w)[1..] == w.Parts();
    } else {
      assert s == t && FeedOne(selected, w) == w.Parts();
    }
  }

  /** Replaying what was fed applies the writes in their databases, whatever was selected. */
  lemma {:induction false} ReplayFeedAll<D>(apply: Apply<D>, s: Replayed<D>, selected: int, ws: seq<Write>,
                                            known: set<Bytes>)
    requires InStep(selected, s.db) && ws != [] && forall w :: w in ws ==> WriteOk(w, known)
    ensures Replay(apply, s, FeedAll(selected, ws)) == Replayed(ApplyAll(apply, s.data, ws), ws[|ws| - 1].db)
    decreases ws
  {
    hide Translate, Replay, WriteOk, FeedOne;
    var first := FeedOne(selected, ws[0]);
    var t := Replayed(ApplyParts(apply, s.data, ws[0].db, ws[0].Parts()), ws[0].db);
    ReplayFeedOne(apply, s, selected, ws[0], known);
    ReplayAppend(apply, s, first, FeedAll(ws[0].db, ws[1..]));
    if |ws| > 1 {
      ReplayFeedAll(apply, t, ws[0].db, ws[1..], known);
    } else {
      ReplayNothing(apply, t);
    }
  }

  lemma ReplayNothing<D>(apply: Apply<D>, s: Replayed<D>)
    ensures Replay(apply, s, []) == s
  {
  }

  /** The database a client is in when its writes have been fed; a transaction's EXEC is fed in
      the database `exec` holds. */
  function LastDb(ws: seq<Write>, exec: Option<nat>): nat
    requires ws != []
  {
    if exec.Some? then exec.value else ws[|ws| - 1].db
  }

  function Body(ws: seq<Write>, exec: Option<nat>): seq<Command>
    requires ws != []
  {
    FeedAll(ws[0].db, ws) +
    (if LastDb(ws, exec) != ws[|ws| - 1].db then [SelectCmd(LastDb(ws, exec))] else [])
  }

  function Singles(cmds: seq<Command>): (us: seq<Unit>)
    ensures |us| == |cmds|
  {
    seq(|cmds|, i requires 0 <= i < |cmds| => Single(cmds[i]))
  }

  /** What the server feeds for one event: a single write, or a transaction whose MULTI is fed
      in the database of its first write. */
  function FedUnits(selected: int, ws: seq<Write>, exec: Option<nat>): seq<Unit>
    requires ws != []
  {
    var select := if ws[0].db != selected then [Single(SelectCmd(ws[0].db))] else [];
    if exec.Some?
    then select + [Transaction(["MULTI"], Body(ws, exec), ["EXEC"])]
    else select + Singles(ws[0].Parts())
  }

  /** The datasets between the commands written for one write outside a transaction. */
  ghost function Halves<D(!new)>(apply: Apply<D>, d: D, ws: seq<Write>, exec: Option<nat>): set<D>
    requires ws != []
  {
    if exec.Some? then {}
    else set m | 0 < m < |ws[0].Parts()| :: ApplyParts(apply, d, ws[0].db, ws[0].Parts()[..m])
  }

  // ----- logs

  /** The units a file holds: replaying any prefix past `base` gives a dataset that the server
      had at some time, and replaying all of them gives the current one. */
  ghost predicate LogOk<D>(apply: Apply<D>, start: D, known: set<Bytes>,
                           log: seq<Unit>, base: nat, data: D, selected: int, seen: set<D>)
  {
    && base <= |log|
    && (forall u :: u in log ==> UnitOk(u, known))
    && ReplayLog(apply, start, log).data == data
    && InStep(selected, ReplayLog(apply, start, log).db)
    && forall n :: base <= n <= |log| ==> ReplayLog(apply, start, log[..n]).data in seen
  }

  /** A fresh client is in database 0. */
  function ReplayLog<D>(apply: Apply<D>, start: D, log: seq<Unit>): Replayed<D> {
    Replay(apply, Replayed(start, 0), Effects(log))
  }

  lemma {:induction false} EffectsAppend(a: seq<Unit>, b: seq<Unit>)
    ensures Effects(a + b) == Effects(a) + Effects(b)
  {
    if a == [] {
      assert a + b == b;
    } else {
      assert (a + b)[1..] == a[1..] + b;
      EffectsAppend(a[1..], b);
    }
  }

  lemma {:induction false} FlattenAppend(a: seq<Unit>, b: seq<Unit>)
    ensures Flatten(a + b) == Flatten(a) + Flatten(b)
  {
    if a == [] {
      assert a + b == b;
    } else {
      assert (a + b)[1..] == a[1..] + b;
      FlattenAppend(a[1..], b);
    }
  }

  function LogBytes(log: seq<Unit>): Bytes {
    EncodeAll(Flatten(log))
  }

  lemma LogBytesAppend(a: seq<Unit>, b: seq<Unit>)
    ensures LogBytes(a + b) == LogBytes(a) + LogBytes(b)
  {
    FlattenAppend(a, b);
    EncodeAllAppend(Flatten(a), Flatten(b));
  }

  lemma ReplayLogAppend<D>(apply: Apply<D>, start: D, log: seq<Unit>, more: seq<Unit>)
    ensures ReplayLog(apply, start, log + more) == Replay(apply, ReplayLog(apply, start, log), Effects(more))
  {
    EffectsAppend(log, more);
    ReplayAppend(apply, Replayed(start, 0), Effects(log), Effects(more));
  }

  predicate Names(known: set<Bytes>) {
    "select" in known && "multi" in known && "exec" in known
  }

  lemma FedUnitsOk(selected: int, ws: seq<Write>, exec: Option<nat>, known: set<Bytes>)
    requires ws != [] && Names(known) && (exec.Some? ==> exec.value <= INT_MAX)
    requires forall w :: w in ws ==> WriteOk(w, known)
    ensures forall u :: u in FedUnits(selected, ws, exec) ==> UnitOk(u, known)
  {
    hide Translate, SelectCmd, Printable, IsSelect;
    assert ws[0] in ws;
    SelectIsPlain(ws[0].db, known);
    if exec.Some? {
      SelectIsPlain(exec.value, known);
      FeedAllPlain(ws[0].db, ws, known);
      BracketsAreOk(known);
      assert forall c :: c in Body(ws, exec) ==> Plain(c, known);
      hide Body, Plain;
    }
  }

  lemma BracketsAreOk(known: set<Bytes>)
    requires Names(known)
    ensures Printable(["MULTI"]) && IsMulti(["MULTI"]) && Known("MULTI", known)
    ensures Printable(["EXEC"]) && IsExec(["EXEC"]) && Known("EXEC", known)
  {
    assert Lower("MULTI") == "multi" && Lower("EXEC") == "exec";
  }

  lemma SelectIsPlain(db: nat, known: set<Bytes>)
    requires Names(known) && db <= INT_MAX
    ensures Plain(SelectCmd(db), known)
  {
    assert Lower("SELECT") == "select";
    DecFits(db);
  }

  lemma {:induction false} FeedAllPlain(selected: int, ws: seq<Write>, known: set<Bytes>)
    requires Names(known) && forall w :: w in ws ==> WriteOk(w, known)
    ensures forall c :: c in FeedAll(selected, ws) ==> Plain(c, known)
    decreases ws
  {
    hide Translate, SelectCmd, Printable, IsSelect, Named, Known;
    if ws != [] {
      assert ws[0] in ws;
      SelectIsPlain(ws[0].db, known);
      FeedAllPlain(ws[0].db, ws[1..], known);
    }
  }

  lemma ReplayBody<D>(apply: Apply<D>, s: Replayed<D>, ws: seq<Write>, exec: Option<nat>, known: set<Bytes>)
    requires ws != [] && s.db == ws[0].db && forall w :: w in ws ==> WriteOk(w, known)
    ensures Replay(apply, s, Body(ws, exec)) == Replayed(ApplyAll(apply, s.data, ws), LastDb(ws, exec))
  {
    hide Translate, WriteOk, FeedAll, ApplyAll;
    var all := FeedAll(ws[0].db, ws);
    var t := Replayed(ApplyAll(apply, s.data, ws), ws[|ws| - 1].db);
    ReplayFeedAll(apply, s, ws[0].db, ws, known);
    var select := SelectCmd(LastDb(ws, exec));
    ReplayAppend(apply, s, all, [select]);
    SelectSelects(apply, t, LastDb(ws, exec));
    assert [select][1..] == [];
    assert all + [] == all;
  }

  lemma {:induction false} SinglesEffects(cmds: seq<Command>)
    ensures Effects(Singles(cmds)) == cmds
  {
    if cmds != [] {
      assert Singles(cmds)[1..] == Singles(cmds[1..]);
      SinglesEffects(cmds[1..]);
    }
  }

  lemma OneEffect(u: Unit)
    ensures Effects([u]) == match u case Single(c) => [c] case Transaction(_, body, _) => body
  {
    assert [u][1..] == [];
  }

  /** Replaying the select unit, if any, then `more`. */
  lemma ReplaySelected<D>(apply: Apply<D>, s: Replayed<D>, selected: int, db: nat, more: seq<Unit>)
    requires InStep(selected, s.db)
    ensures var select := if db != selected then [Single(SelectCmd(db))] else [];
      Replay(apply, s, Effects(select + more)) == Replay(apply, s.(db := db), Effects(more))
  {
    hide SelectCmd;
    if db != selected {
      var select := [Single(SelectCmd(db))];
      EffectsAppend(select, more);
      OneEffect(select[0]);
      ReplayAppend(apply, s, [SelectCmd(db)], Effects(more));
      SelectSelects(apply, s, db);
      assert [SelectCmd(db)][1..] == [];
      assert Replay(apply, s, [SelectCmd(db)]) == s.(db := db);
    } else {
      assert [] + more == more;
    }
  }

  /** Replaying the fed units applies exactly the writes; after any proper prefix of them the dataset
      is the one before, or one between the commands written for a write outside a transaction. */
  lemma ReplayFedUnits<D(!new)>(apply: Apply<D>, s: Replayed<D>, selected: int, ws: seq<Write>, exec: Option<nat>,
                                known: set<Bytes>, n: nat)
    requires InStep(selected, s.db) && ws != [] && (exec.Some? || |ws| == 1)
    requires forall w :: w in ws ==> WriteOk(w, known)
    requires n <= |FedUnits(selected, ws, exec)|
    ensures var us := FedUnits(selected, ws, exec);
      && Replay(apply, s, Effects(us)) == Replayed(ApplyAll(apply, s.data, ws), LastDb(ws, exec))
      && Replay(apply, s, Effects(us[..n])).data in
           {s.data, ApplyAll(apply, s.data, ws)} + Halves(apply, s.data, ws, exec)
  {
    if exec.Some? {
      ReplayTransaction(apply, s, selected, ws, exec, known, n);
    } else {
      ReplaySingle(apply, s, selected, ws[0], known, n);
      assert ws == [ws[0]];
    }
  }

  lemma ReplayTransaction<D(!new)>(apply: Apply<D>, s: Replayed<D>, selected: int, ws: seq<Write>, exec: Option<nat>,
                                   known: set<Bytes>, n: nat)
    requires InStep(selected, s.db) && ws != [] && exec.Some? && forall w :: w in ws ==> WriteOk(w, known)
    requires n <= |FedUnits(selected, ws, exec)|
    ensures var us := FedUnits(selected, ws, exec);
      && Replay(apply, s, Effects(us)) == Replayed(ApplyAll(apply, s.data, ws), LastDb(ws, exec))
      && Replay(apply, s, Effects(us[..n])).data in {s.data, ApplyAll(apply, s.data, ws)}
  {
    hide WriteOk, Replay, ApplyAll, Body, SelectCmd, Translate;
    var us := FedUnits(selected, ws, exec);
    var select := if ws[0].db != selected then [Single(SelectCmd(ws[0].db))] else [];
    var unit := Transaction(["MULTI"], Body(ws, exec), ["EXEC"]);
    ReplaySelected(apply, s, selected, ws[0].db, [unit]);
    OneEffect(unit);
    ReplayBody(apply, s.(db := ws[0].db), ws, exec, known);
    if n == |us| {
      assert us[..n] == us;
    } else {
      ReplayNothing(apply, s);
      ReplayNothing(apply, s.(db := ws[0].db));
      ReplaySelected(apply, s, selected, ws[0].db, []);
      assert select + [] == select;
      assert n == |select| ==> us[..n] == select;
      assert n < |select| ==> us[..n] == [];
    }
  }

  lemma ReplaySingle<D(!new)>(apply: Apply<D>, s: Replayed<D>, selected: int, w: Write, known: set<Bytes>, n: nat)
    requires InStep(selected, s.db) && WriteOk(w, known) && n <= |FedUnits(selected, [w], None)|
    ensures var us := FedUnits(selected, [w], None);
      && Replay(apply, s, Effects(us)) == Replayed(ApplyAll(apply, s.data, [w]), w.db)
      && Replay(apply, s, Effects(us[..n])).data in
           {s.data, ApplyAll(apply, s.data, [w])} + Halves(apply, s.data, [w], None)
  {
    hide Replay, SelectCmd, Translate;
    var us := FedUnits(selected, [w], None);
    var select := if w.db != selected then [Single(SelectCmd(w.db))] else [];
    var parts := w.Parts();
    assert ApplyAll(apply, s.data, [w]) == ApplyParts(apply, s.data, w.db, parts) by { assert [w][1..] == []; }
    ReplayPrefix(apply, s, selected, w, known, |parts|);
    assert parts[..|parts|] == parts && select + Singles(parts) == us;
    if n < |select| {
      assert us[..n] == [];
      ReplayNothing(apply, s);
    } else {
      var m := n - |select|;
      ReplayPrefix(apply, s, selected, w, known, m);
      assert us[..n] == select + Singles(parts[..m]);
      if m == |parts| { assert parts[..m] == parts; }
      if m == 0 { assert parts[..0] == []; }
    }
  }

  lemma ReplayPrefix<D>(apply: Apply<D>, s: Replayed<D>, selected: int, w: Write, known: set<Bytes>, m: nat)
    requires InStep(selected, s.db) && WriteOk(w, known) && m <= |w.Parts()|
    ensures var select := if w.db != selected then [Single(SelectCmd(w.db))] else [];
      Replay(apply, s, Effects(select + Singles(w.Parts()[..m]))) ==
        Replayed(ApplyParts(apply, s.data, w.db, w.Parts()[..m]), w.db)
  {
    hide SelectCmd, Translate, Replay;
    ReplaySelected(apply, s, selected, w.db, Singles(w.Parts()[..m]));
    SinglesEffects(w.Parts()[..m]);
    ReplayParts(apply, s.(db := w.db), w.Parts()[..m]);
  }

  lemma LogFed<D(!new)>(apply: Apply<D>, start: D, known: set<Bytes>, log: seq<Unit>, base: nat, data: D, selected: int,
                        seen: set<D>, ws: seq<Write>, exec: Option<nat>)
    requires LogOk(apply, start, known, log, base, data, selected, seen) && data in seen
    requires ws != [] && (exec.Some? || |ws| == 1) && Names(known) && (exec.Some? ==> exec.value <= INT_MAX)
    requires forall w :: w in ws ==> WriteOk(w, known)
    ensures var data' := ApplyAll(apply, data, ws);
      LogOk(apply, start, known, log + FedUnits(selected, ws, exec), base, data', LastDb(ws, exec),
            seen + Halves(apply, data, ws, exec) + {data'})
  {
    hide FedUnits, ReplayLog, ApplyAll, LastDb, UnitOk, WriteOk, Halves, Effects, Replay;
    var us := FedUnits(selected, ws, exec);
    var more := log + us;
    var s := ReplayLog(apply, start, log);
    FedUnitsOk(selected, ws, exec, known);
    ReplayFedUnits(apply, s, selected, ws, exec, known, 0);
    ReplayLogAppend(apply, start, log, us);
    forall n | base <= n <= |more|
      ensures ReplayLog(apply, start, more[..n]).data in seen + Halves(apply, data, ws, exec)
        + {ApplyAll(apply, data, ws)}
    {
      if n <= |log| {
        assert more[..n] == log[..n];
      } else {
        assert more[..n] == log + us[..n - |log|];
        ReplayLogAppend(apply, start, log, us[..n - |log|]);
        ReplayFedUnits(apply, s, selected, ws, exec, known, n - |log|);
      }
    }
  }

  // ----- the server, its child and their pipes

  /** Whether the file is written: not at all, not before the first rewrite is done, or always. */
  datatype Mode = Off | Waiting | On

  datatype Phase = Dumping | Asked | Acked | Done

  /** A rewrite in progress. `newLog` is the history the rewritten file will hold. */
  datatype Rewrite = Rewrite(
    dump: Bytes, diff: Bytes, phase: Phase,
    pipe: Bytes, blocks: Bytes, stopSending: bool, ask: bool, ack: bool,
    newLog: seq<Unit>)

  /** `log` is the history that file and buffer hold, `base` the part of it that was in the file
      from the start. */
  datatype System<D> = System(
    data: D,
    mode: Mode, file: Bytes, buf: Bytes, selected: int,
    log: seq<Unit>, base: nat,
    rewrite: Option<Rewrite>)

  datatype Event =
    | Feed(ws: seq<Write>, exec: Option<nat>)
    | Flush(n: nat)
    | StartFile
    | StopFile(n: nat)
    | Fork(snapshot: seq<Unit>)
    | ParentSends(n: nat)
    | ChildReads(n: nat)
    | ChildAsks
    | ParentAcks
    | ChildSeesAck
    | ChildFinishes
    | Swap
    | RewriteFails

  ghost predicate Enabled<D>(apply: Apply<D>, start: D, known: set<Bytes>, s: System<D>, e: Event) {
    match e
    case Feed(ws, exec) =>
      && ws != [] && (exec.Some? || |ws| == 1) && (exec.Some? ==> exec.value <= INT_MAX)
      && forall w :: w in ws ==> WriteOk(w, known)
    case Flush(n) => !s.mode.Off? && n <= |s.buf|
    case StartFile => s.mode.Off?
    case StopFile(n) => !s.mode.Off? && n <= |s.buf|
    case Fork(snapshot) =>
      // the dump of the child rebuilds the dataset at the time of the fork
      && s.rewrite.None? && (forall u :: u in snapshot ==> UnitOk(u, known))
      && ReplayLog(apply, start, snapshot).data == s.data
    case RewriteFails => s.rewrite.Some?
    case _ =>
      && s.rewrite.Some?
      && var r := s.rewrite.value;
         match e
         case ParentSends(n) => !r.stopSending && n <= |r.blocks|
         case ChildReads(n) => r.phase == Dumping && n <= |r.pipe|
         case ChildAsks => r.phase == Dumping
         case ParentAcks => r.ask
         case ChildSeesAck => r.phase == Asked && r.ack
         case ChildFinishes => r.phase == Acked
         case Swap => r.phase == Done
         case _ => true
  }

  /** With the file off nothing is fed, not even to a rewrite. */
  ghost function FeedNext<D>(apply: Apply<D>, s: System<D>, ws: seq<Write>, exec: Option<nat>): System<D>
    requires ws != []
  {
    var us := FedUnits(s.selected, ws, exec);
    var data := ApplyAll(apply, s.data, ws);
    if s.mode.Off? then s.(data := data)
    else
      s.(data := data, selected := LastDb(ws, exec),
         buf := if s.mode.On? then s.buf + LogBytes(us) else s.buf,
         log := if s.mode.On? then s.log + us else s.log,
         rewrite := if s.rewrite.None? then None
                    else var r := s.rewrite.value;
                         Some(r.(blocks := r.blocks + LogBytes(us), newLog := r.newLog + us)))
  }

  ghost function Next<D>(apply: Apply<D>, start: D, known: set<Bytes>, s: System<D>, e: Event): System<D>
    requires Enabled(apply, start, known, s, e)
  {
    match e
    case Feed(ws, exec) => FeedNext(apply, s, ws, exec)
    case Flush(n) => s.(file := s.file + s.buf[..n], buf := s.buf[n..])
    case StartFile => s.(mode := Waiting, rewrite := None)
    case StopFile(n) =>
      s.(mode := Off, file := s.file + s.buf[..n], buf := s.buf[n..], selected := NO_DB, rewrite := None)
    case Fork(snapshot) =>
      s.(selected := NO_DB,
         rewrite := Some(Rewrite(LogBytes(snapshot), [], Dumping, [], [], false, false, false, snapshot)))
    case RewriteFails => s.(rewrite := None)
    case ParentSends(n) =>
      var r := s.rewrite.value;
      s.(rewrite := Some(r.(pipe := r.pipe + r.blocks[..n], blocks := r.blocks[n..])))
    case ChildReads(n) =>
      var r := s.rewrite.value;
      s.(rewrite := Some(r.(diff := r.diff + r.pipe[..n], pipe := r.pipe[n..])))
    case ChildAsks => s.(rewrite := Some(s.rewrite.value.(phase := Asked, ask := true)))
    case ParentAcks => s.(rewrite := Some(s.rewrite.value.(stopSending := true, ask := false, ack := true)))
    case ChildSeesAck => s.(rewrite := Some(s.rewrite.value.(phase := Acked, ack := false)))
    case ChildFinishes =>
      // reads until the pipe is empty, then writes the diff after the dump
      var r := s.rewrite.value;
      s.(rewrite := Some(r.(diff := r.diff + r.pipe, pipe := [], phase := Done)))
    case Swap =>
      var r := s.rewrite.value;
      var t := s.(file := r.dump + r.diff + r.blocks, log := r.newLog, base := |r.newLog|, rewrite := None);
      // a file that is off stays off
      if s.mode.Off? then t else t.(mode := On, buf := [], selected := NO_DB)
  }

  // ----- the invariant

  /** The log of a rewrite rebuilds the dataset in memory; of a rewrite that is not fed, a dataset
      that the server had. */
  ghost predicate NewLogOk<D>(apply: Apply<D>, start: D, known: set<Bytes>, s: System<D>, newLog: seq<Unit>,
                              seen: set<D>) {
    if s.mode.Off? then
      (forall u :: u in newLog ==> UnitOk(u, known)) && ReplayLog(apply, start, newLog).data in seen
    else LogOk(apply, start, known, newLog, |newLog|, s.data, s.selected, seen)
  }

  ghost predicate RewriteOk<D>(apply: Apply<D>, start: D, known: set<Bytes>, s: System<D>, r: Rewrite, seen: set<D>) {
    // nothing is lost, repeated or reordered on the way from the parent to the new file
    && r.dump + r.diff + r.pipe + r.blocks == LogBytes(r.newLog)
    && (r.phase == Done ==> r.pipe == [])
    && (r.phase == Acked || r.phase == Done || r.ack ==> r.stopSending)
    && NewLogOk(apply, start, known, s, r.newLog, seen)
  }

  ghost predicate FileOk<D>(apply: Apply<D>, start: D, known: set<Bytes>, s: System<D>, seen: set<D>) {
    && s.file + s.buf == LogBytes(s.log)
    && LogOk(apply, start, known, s.log, s.base, s.data, s.selected, seen)
    && |s.file| >= |LogBytes(s.log[..s.base])|
  }

  /** `seen` holds the datasets that the server had, and those between the commands of one write. */
  ghost predicate Inv<D>(apply: Apply<D>, start: D, known: set<Bytes>, s: System<D>, seen: set<D>) {
    && s.data in seen
    && (s.mode.On? ==> FileOk(apply, start, known, s, seen))
    && (s.rewrite.Some? ==> RewriteOk(apply, start, known, s, s.rewrite.value, seen))
  }

  /** The datasets that an event adds to those seen. */
  ghost function Adds<D(!new)>(apply: Apply<D>, start: D, known: set<Bytes>, s: System<D>, e: Event): set<D>
    requires Enabled(apply, start, known, s, e)
  {
    {Next(apply, start, known, s, e).data} +
    if e.Feed? && !s.mode.Off? then Halves(apply, s.data, e.ws, e.exec) else {}
  }

  lemma LogSeesMore<D>(apply: Apply<D>, start: D, known: set<Bytes>, log: seq<Unit>, base: nat, data: D, selected: int,
                       seen: set<D>, more: set<D>)
    requires LogOk(apply, start, known, log, base, data, selected, seen) && seen <= more
    ensures LogOk(apply, start, known, log, base, data, selected, more)
  {
  }

  lemma InvSeesMore<D>(apply: Apply<D>, start: D, known: set<Bytes>, s: System<D>, seen: set<D>, more: set<D>)
    requires Inv(apply, start, known, s, seen) && seen <= more
    ensures Inv(apply, start, known, s, more)
  {
    hide LogOk, LogBytes, ReplayLog;
    if s.mode.On? { LogSeesMore(apply, start, known, s.log, s.base, s.data, s.selected, seen, more); }
    if s.rewrite.Some? && !s.mode.Off? {
      var l := s.rewrite.value.newLog;
      LogSeesMore(apply, start, known, l, |l|, s.data, s.selected, seen, more);
    }
  }

  lemma FeedKeepsFile<D(!new)>(apply: Apply<D>, start: D, known: set<Bytes>, s: System<D>, e: Event, seen: set<D>)
    requires Names(known) && Enabled(apply, start, known, s, e) && e.Feed? && s.mode.On?
    requires s.data in seen && FileOk(apply, start, known, s, seen)
    ensures FileOk(apply, start, known, Next(apply, start, known, s, e), seen + Adds(apply, start, known, s, e))
  {
    hide FedUnits, ReplayLog, LogBytes, ApplyAll, LogOk, Halves, WriteOk;
    var us := FedUnits(s.selected, e.ws, e.exec);
    LogFed(apply, start, known, s.log, s.base, s.data, s.selected, seen, e.ws, e.exec);
    LogBytesAppend(s.log, us);
    Assoc(s.file, s.buf, LogBytes(us));
    LogBaseIn(apply, start, known, s.log, s.base, s.data, s.selected, seen);
    assert (s.log + us)[..s.base] == s.log[..s.base];
    assert seen + Halves(apply, s.data, e.ws, e.exec) + {ApplyAll(apply, s.data, e.ws)} ==
      seen + Adds(apply, start, known, s, e);
  }

  lemma LogBaseIn<D>(apply: Apply<D>, start: D, known: set<Bytes>, log: seq<Unit>, base: nat, data: D, selected: int,
                     seen: set<D>)
    requires LogOk(apply, start, known, log, base, data, selected, seen)
    ensures base <= |log|
  {
  }

  lemma LogBaseUp<D>(apply: Apply<D>, start: D, known: set<Bytes>, log: seq<Unit>, base: nat, data: D, selected: int,
                     seen: set<D>)
    requires LogOk(apply, start, known, log, base, data, selected, seen)
    ensures LogOk(apply, start, known, log, |log|, data, selected, seen)
  {
  }

  lemma FeedKeepsRewrite<D(!new)>(apply: Apply<D>, start: D, known: set<Bytes>, s: System<D>, e: Event, seen: set<D>)
    requires Names(known) && Enabled(apply, start, known, s, e) && e.Feed? && !s.mode.Off?
    requires s.data in seen && s.rewrite.Some? && RewriteOk(apply, start, known, s, s.rewrite.value, seen)
    ensures var t := Next(apply, start, known, s, e);
      RewriteOk(apply, start, known, t, t.rewrite.value, seen + Adds(apply, start, known, s, e))
  {
    hide FedUnits, ReplayLog, LogBytes, ApplyAll, LogOk, Halves, WriteOk;
    var us := FedUnits(s.selected, e.ws, e.exec);
    var r := s.rewrite.value;
    var t := Next(apply, start, known, s, e);
    var more := seen + Halves(apply, s.data, e.ws, e.exec) + {ApplyAll(apply, s.data, e.ws)};
    assert more == seen + Adds(apply, start, known, s, e);
    LogFed(apply, start, known, r.newLog, |r.newLog|, s.data, s.selected, seen, e.ws, e.exec);
    LogBaseUp(apply, start, known, r.newLog + us, |r.newLog|, t.data, t.selected, more);
    LogBytesAppend(r.newLog, us);
    Assoc(r.dump + r.diff + r.pipe, r.blocks, LogBytes(us));
  }

  lemma FeedStep<D(!new)>(apply: Apply<D>, start: D, known: set<Bytes>, s: System<D>, e: Event, seen: set<D>)
    requires Names(known) && Enabled(apply, start, known, s, e) && e.Feed? && Inv(apply, start, known, s, seen)
    ensures Inv(apply, start, known, Next(apply, start, known, s, e), seen + Adds(apply, start, known, s, e))
  {
    hide FedUnits, ReplayLog, LogBytes, ApplyAll, LogOk, Halves, WriteOk;
    if s.mode.On? { FeedKeepsFile(apply, start, known, s, e, seen); }
    if s.rewrite.Some? && !s.mode.Off? { FeedKeepsRewrite(apply, start, known, s, e, seen); }
  }

  lemma FlushKeepsFile<D>(apply: Apply<D>, start: D, known: set<Bytes>, s: System<D>, n: nat, seen: set<D>)
    requires s.mode.On? && n <= |s.buf| && FileOk(apply, start, known, s, seen)
    ensures FileOk(apply, start, known, Next(apply, start, known, s, Flush(n)), seen)
  {
    assert s.buf == s.buf[..n] + s.buf[n..];
    Assoc(s.file, s.buf[..n], s.buf[n..]);
  }

  /** Moving bytes along the pipe keeps their order. */
  lemma PipeKeepsOrder(dump: Bytes, diff: Bytes, pipe: Bytes, blocks: Bytes, n: nat)
    ensures n <= |blocks| ==> dump + diff + (pipe + blocks[..n]) + blocks[n..] == dump + diff + pipe + blocks
    ensures n <= |pipe| ==> dump + (diff + pipe[..n]) + pipe[n..] + blocks == dump + diff + pipe + blocks
  {
    if n <= |blocks| { assert blocks == blocks[..n] + blocks[n..]; }
    if n <= |pipe| { assert pipe == pipe[..n] + pipe[n..]; }
  }

  ghost predicate IsPipeEvent(e: Event) {
    e.ParentSends? || e.ChildReads? || e.ChildAsks? || e.ParentAcks? || e.ChildSeesAck? || e.ChildFinishes?
  }

  lemma PipeStep<D>(apply: Apply<D>, start: D, known: set<Bytes>, s: System<D>, e: Event, seen: set<D>)
    requires Enabled(apply, start, known, s, e) && s.rewrite.Some? && IsPipeEvent(e)
    requires RewriteOk(apply, start, known, s, s.rewrite.value, seen)
    ensures var t := Next(apply, start, known, s, e);
      && t == s.(rewrite := t.rewrite) && t.rewrite.Some? && RewriteOk(apply, start, known, t, t.rewrite.value, seen)
  {
    hide LogOk, LogBytes, ReplayLog;
    var r := s.rewrite.value;
    match e
    case ParentSends(n) => PipeKeepsOrder(r.dump, r.diff, r.pipe, r.blocks, n);
    case ChildReads(n) => PipeKeepsOrder(r.dump, r.diff, r.pipe, r.blocks, n);
    case ChildFinishes =>
      PipeKeepsOrder(r.dump, r.diff, r.pipe, r.blocks, |r.pipe|);
      assert r.pipe[..|r.pipe|] == r.pipe && r.pipe[|r.pipe|..] == [];
    case _ =>
  }

  lemma SwapStep<D>(apply: Apply<D>, start: D, known: set<Bytes>, s: System<D>, seen: set<D>)
    requires Enabled(apply, start, known, s, Swap) && Inv(apply, start, known, s, seen)
    ensures var t := Next(apply, start, known, s, Swap);
      && Inv(apply, start, known, t, seen) && t.file == LogBytes(t.log) && (t.mode.Off? <==> s.mode.Off?)
      && (forall u :: u in t.log ==> UnitOk(u, known))
      && ReplayLog(apply, start, t.log).data in (if s.mode.Off? then seen else {s.data})
  {
    hide LogBytes, ReplayLog, UnitOk;
    var r := s.rewrite.value;
    assert r.dump + r.diff + r.pipe == r.dump + r.diff;
    assert r.newLog[..|r.newLog|] == r.newLog;
    var t := Next(apply, start, known, s, Swap);
    assert t.file + [] == t.file;
  }

  lemma ForkStep<D>(apply: Apply<D>, start: D, known: set<Bytes>, s: System<D>, e: Event, seen: set<D>)
    requires Enabled(apply, start, known, s, e) && e.Fork? && Inv(apply, start, known, s, seen)
    ensures Inv(apply, start, known, Next(apply, start, known, s, e), seen)
  {
    hide LogBytes, ReplayLog, UnitOk;
    var bytes := LogBytes(e.snapshot);
    assert bytes + [] + [] + [] == bytes;
    assert e.snapshot[..|e.snapshot|] == e.snapshot;
  }

  /** Every event keeps the invariant; the datasets seen grow by those the event adds. */
  lemma StepKeepsInv<D(!new)>(apply: Apply<D>, start: D, known: set<Bytes>, s: System<D>, e: Event, seen: set<D>)
    requires Names(known) && Enabled(apply, start, known, s, e) && Inv(apply, start, known, s, seen)
    ensures Inv(apply, start, known, Next(apply, start, known, s, e), seen + Adds(apply, start, known, s, e))
  {
    hide LogOk, LogBytes, ReplayLog, FeedNext, UnitOk, WriteOk;
    if e.Feed? {
      FeedStep(apply, start, known, s, e, seen);
    } else {
      match e {
        case Flush(n) => if s.mode.On? { FlushKeepsFile(apply, start, known, s, n, seen); }
        case Fork(_) => ForkStep(apply, start, known, s, e, seen);
        case Swap => SwapStep(apply, start, known, s, seen);
        case StartFile =>
        case StopFile(n) =>
        case RewriteFails =>
        case _ => PipeStep(apply, start, known, s, e, seen);
      }
      InvSeesMore(apply, start, known, Next(apply, start, known, s, e), seen, seen + Adds(apply, start, known, s, e));
    }
  }

  // ----- runs

  ghost predicate IsRun<D>(apply: Apply<D>, start: D, known: set<Bytes>, run: seq<System<D>>, events: seq<Event>) {
    && |run| == |events| + 1
    && forall i :: 0 <= i < |events| ==>
         Enabled(apply, start, known, run[i], events[i]) && run[i + 1] == Next(apply, start, known, run[i], events[i])
  }

  /** Either an empty dataset with an empty file, or any dataset whose file is not in use until
      the first rewrite is done. */
  ghost predicate Init<D>(start: D, s: System<D>) {
    && s.rewrite.None? && s.selected == NO_DB
    && (s.mode.On? ==> s.data == start && s.file == [] && s.buf == [] && s.log == [] && s.base == 0)
  }

  /** The datasets the server had from step `i` to step `k`, and those between the commands of a
      write that was fed in that time outside a transaction. */
  ghost function Had<D(!new)>(apply: Apply<D>, start: D, known: set<Bytes>, run: seq<System<D>>, events: seq<Event>,
                              i: nat, k: nat): set<D>
    requires IsRun(apply, start, known, run, events) && i <= k < |run|
    decreases k - i
  {
    if i == k then {run[i].data}
    else Had(apply, start, known, run, events, i, k - 1) + Adds(apply, start, known, run[k - 1], events[k - 1])
  }

  /** No write outside a transaction is written as more than one command. */
  ghost predicate WholeWrites(events: seq<Event>, i: nat, k: nat)
    requires i <= k <= |events|
  {
    forall j :: i <= j < k && events[j].Feed? && events[j].exec.None? && events[j].ws != [] ==>
      |events[j].ws[0].Parts()| == 1
  }

  /** Then only datasets that the server had count. */
  lemma {:induction false} HadIsData<D(!new)>(apply: Apply<D>, start: D, known: set<Bytes>, run: seq<System<D>>,
                                              events: seq<Event>, i: nat, k: nat, d: D)
    requires IsRun(apply, start, known, run, events) && i <= k < |run| && WholeWrites(events, i, k)
    requires d in Had(apply, start, known, run, events, i, k)
    ensures exists j :: i <= j <= k && run[j].data == d
    decreases k - i
  {
    hide Next, Translate, WriteOk, UnitOk, ReplayLog;
    if i < k {
      if d in Had(apply, start, known, run, events, i, k - 1) {
        HadIsData(apply, start, known, run, events, i, k - 1, d);
      } else {
        NoHalves(apply, start, known, run[k - 1], events[k - 1]);
        assert run[k].data == d;
      }
    }
  }

  lemma NoHalves<D(!new)>(apply: Apply<D>, start: D, known: set<Bytes>, s: System<D>, e: Event)
    requires Enabled(apply, start, known, s, e)
    requires e.Feed? && e.exec.None? ==> |e.ws[0].Parts()| == 1
    ensures Adds(apply, start, known, s, e) == {Next(apply, start, known, s, e).data}
  {
  }

  lemma {:induction false} RunKeepsInv<D(!new)>(apply: Apply<D>, start: D, known: set<Bytes>,
                                                run: seq<System<D>>, events: seq<Event>, i: nat)
    requires Names(known) && IsRun(apply, start, known, run, events) && Init(start, run[0]) && i < |run|
    ensures Inv(apply, start, known, run[i], Had(apply, start, known, run, events, 0, i))
  {
    if i == 0 {
      assert run[0].log[..0] == [];
    } else {
      hide Inv, Enabled, Next, Adds, Init;
      RunKeepsInv(apply, start, known, run, events, i - 1);
      StepKeepsInv(apply, start, known, run[i - 1], events[i - 1], Had(apply, start, known, run, events, 0, i - 1));
    }
  }

  /** A rewrite loses and repeats nothing: at any point of any run the bytes on their way to the new
      file are exactly those of a log, which rebuilds the dataset in memory unless the file is off. */
  lemma RewriteLosesNothing<D(!new)>(apply: Apply<D>, start: D, known: set<Bytes>, run: seq<System<D>>,
                                     events: seq<Event>, i: nat)
    requires Names(known) && IsRun(apply, start, known, run, events) && Init(start, run[0]) && i < |run|
    requires run[i].rewrite.Some?
    ensures var r := run[i].rewrite.value;
      && r.dump + r.diff + r.pipe + r.blocks == LogBytes(r.newLog)
      && (!run[i].mode.Off? ==> ReplayLog(apply, start, r.newLog).data == run[i].data)
  {
    hide LogBytes, ReplayLog, IsRun, Had;
    RunKeepsInv(apply, start, known, run, events, i);
  }

  /** What loading the file would rebuild. */
  function Reload<D>(apply: Apply<D>, start: D, known: set<Bytes>, file: Bytes): D {
    Replay(apply, Replayed(start, 0), Load(file, known, true).0).data
  }

  lemma CompleteAll(us: seq<Unit>, known: set<Bytes>)
    requires forall u :: u in us ==> UnitOk(u, known)
    ensures CompleteUnits(us, |LogBytes(us)|) == |us|
  {
    if us != [] {
      var e := EncodeAll(Commands(us[0]));
      EncodeAllAppend(Commands(us[0]), Flatten(us[1..]));
      CompleteAll(us[1..], known);
    }
  }

  /** A longer prefix holds at least the units of a shorter one. */
  lemma {:induction false} CompleteAtLeast(us: seq<Unit>, n: nat, k: nat)
    requires n <= |us| && |LogBytes(us[..n])| <= k
    ensures CompleteUnits(us, k) >= n
  {
    if n > 0 {
      var first := Commands(us[0]);
      assert us[..n] == [us[0]] + us[1..][..n - 1];
      LogBytesAppend([us[0]], us[1..][..n - 1]);
      assert LogBytes([us[0]]) == EncodeAll(first) by {
        assert [us[0]][1..] == [];
        assert Flatten([us[0]]) == first;
      }
      CompleteAtLeast(us[1..], n - 1, k - |EncodeAll(first)|);
    }
  }

  /** Loading `k` bytes of a log rebuilds what its complete units say. */
  lemma LoadsPrefix<D>(apply: Apply<D>, start: D, known: set<Bytes>, log: seq<Unit>, file: Bytes)
    requires (forall u :: u in log ==> UnitOk(u, known)) && file <= LogBytes(log)
    ensures var (_, outcome) := Load(file, known, true); outcome.Loaded? || outcome.Truncated? || outcome.EmptyFile?
    ensures Reload(apply, start, known, file) == ReplayLog(apply, start, log[..CompleteUnits(log, |file|)]).data
  {
    hide Load, UnitOk, CompleteUnits, TearsTransaction;
    var k := |file|;
    assert file == LogBytes(log)[..k];
    if k > 0 {
      LoadAnyCut(log, k, known);
    } else {
      LoadEmpty(known);
      NothingComplete(log);
      assert log[..0] == [];
    }
  }

  lemma LoadEmpty(known: set<Bytes>)
    ensures Load([], known, true) == ([], EmptyFile)
  {
  }

  lemma NothingComplete(us: seq<Unit>)
    ensures CompleteUnits(us, 0) == 0
  {
    if us != [] {
      var c := Commands(us[0]);
      assert EncodeAll(c) == Encode(c[0]) + EncodeAll(c[1..]);
    }
  }

  lemma LoadsSeenData<D>(apply: Apply<D>, start: D, known: set<Bytes>, s: System<D>, seen: set<D>)
    requires s.mode.On? && Inv(apply, start, known, s, seen)
    ensures var (_, outcome) := Load(s.file, known, true); outcome.Loaded? || outcome.Truncated? || outcome.EmptyFile?
    ensures Reload(apply, start, known, s.file) in seen
  {
    hide Load, Reload, LogBytes, ReplayLog, UnitOk, RewriteOk;
    LoadsPrefix(apply, start, known, s.log, s.file);
    CompleteAtLeast(s.log, s.base, |s.file|);
  }

  /** Crash consistency: whatever happened before, loading the bytes that are on disk reports no
      error and rebuilds a dataset that the server had at some time, transactions included whole
      or not at all, or else one between the commands written for one write. */
  lemma CrashConsistency<D(!new)>(apply: Apply<D>, start: D, known: set<Bytes>, run: seq<System<D>>, events: seq<Event>,
                                  i: nat)
    requires Names(known) && IsRun(apply, start, known, run, events) && Init(start, run[0])
    requires i < |run| && run[i].mode.On?
    ensures var (_, outcome) := Load(run[i].file, known, true);
      outcome.Loaded? || outcome.Truncated? || outcome.EmptyFile?
    ensures Reload(apply, start, known, run[i].file) in Had(apply, start, known, run, events, 0, i)
  {
    hide Load, Reload, Had, IsRun;
    RunKeepsInv(apply, start, known, run, events, i);
    LoadsSeenData(apply, start, known, run[i], Had(apply, start, known, run, events, 0, i));
  }

  // ----- durability

  /** Steps do not look at `base`. */
  lemma BaseIsHistory<D>(apply: Apply<D>, start: D, known: set<Bytes>, s: System<D>, e: Event, b: nat)
    requires Enabled(apply, start, known, s, e)
    ensures Enabled(apply, start, known, s.(base := b), e)
    ensures Next(apply, start, known, s.(base := b), e) ==
      Next(apply, start, known, s, e).(base := if e.Swap? then Next(apply, start, known, s, e).base else b)
  {
    hide LogBytes, ReplayLog, WriteOk, UnitOk, FedUnits, ApplyAll, LastDb;
  }

  /** From a moment with an empty buffer on, only what happened since then counts. */
  lemma {:induction false} Rebased<D(!new)>(apply: Apply<D>, start: D, known: set<Bytes>, run: seq<System<D>>,
                                            events: seq<Event>, i: nat, k: nat, seen: set<D>) returns (b: nat)
    requires Names(known) && IsRun(apply, start, known, run, events) && i <= k < |run|
    requires run[i].mode.On? && run[i].buf == [] && Inv(apply, start, known, run[i], seen)
    ensures Inv(apply, start, known, run[k].(base := b), Had(apply, start, known, run, events, i, k))
    decreases k - i
  {
    hide Inv, Enabled, Next, Adds;
    if i == k {
      b := |run[i].log|;
      RebaseHere(apply, start, known, run[i], seen);
    } else {
      var c := Rebased(apply, start, known, run, events, i, k - 1, seen);
      var s, e := run[k - 1], events[k - 1];
      BaseIsHistory(apply, start, known, s, e, c);
      AddsSame(apply, start, known, s, e, c);
      StepKeepsInv(apply, start, known, s.(base := c), e, Had(apply, start, known, run, events, i, k - 1));
      b := if e.Swap? then run[k].base else c;
    }
  }

  lemma AddsSame<D(!new)>(apply: Apply<D>, start: D, known: set<Bytes>, s: System<D>, e: Event, b: nat)
    requires Enabled(apply, start, known, s, e) && Enabled(apply, start, known, s.(base := b), e)
    ensures Adds(apply, start, known, s.(base := b), e) == Adds(apply, start, known, s, e)
  {
    hide Enabled, Next, Halves;
    BaseIsHistory(apply, start, known, s, e, b);
  }

  lemma RebaseHere<D>(apply: Apply<D>, start: D, known: set<Bytes>, s: System<D>, seen: set<D>)
    requires s.mode.On? && s.buf == [] && Inv(apply, start, known, s, seen)
    ensures Inv(apply, start, known, s.(base := |s.log|), {s.data})
  {
    hide LogBytes, ReplayLog, UnitOk;
    assert s.log[..|s.log|] == s.log && s.file + [] == s.file;
    if s.rewrite.Some? {
      var l := s.rewrite.value.newLog;
      assert l[..|l|] == l;
    }
  }

  /** Durability: once the buffer was empty with the file on, whatever happens later, loading the
      bytes that are on disk rebuilds a dataset from that moment or later. */
  lemma Durability<D(!new)>(apply: Apply<D>, start: D, known: set<Bytes>, run: seq<System<D>>, events: seq<Event>,
                            i: nat, k: nat)
    requires Names(known) && IsRun(apply, start, known, run, events) && Init(start, run[0]) && i <= k < |run|
    requires run[i].mode.On? && run[i].buf == [] && run[k].mode.On?
    ensures Reload(apply, start, known, run[k].file) in Had(apply, start, known, run, events, i, k)
  {
    hide Load, Reload, Had, Inv;
    RunKeepsInv(apply, start, known, run, events, i);
    var b := Rebased(apply, start, known, run, events, i, k, Had(apply, start, known, run, events, 0, i));
    LoadsSeenData(apply, start, known, run[k].(base := b), Had(apply, start, known, run, events, i, k));
  }

  /** With nothing left in the buffer, loading the file rebuilds the dataset in memory. */
  lemma ReloadAfterFlush<D(!new)>(apply: Apply<D>, start: D, known: set<Bytes>, run: seq<System<D>>, events: seq<Event>,
                                  i: nat)
    requires Names(known) && IsRun(apply, start, known, run, events) && Init(start, run[0])
    requires i < |run| && run[i].mode.On?
    requires run[i].buf == []
    ensures Reload(apply, start, known, run[i].file) == run[i].data
  {
    hide Load, Reload;
    Durability(apply, start, known, run, events, i, i);
  }

  /** A rewrite while the file is off replaces the file by one that loads to a dataset the server had,
      and leaves the file off. */
  lemma RewriteWhileOff<D(!new)>(apply: Apply<D>, start: D, known: set<Bytes>, run: seq<System<D>>, events: seq<Event>,
                                 i: nat)
    requires Names(known) && IsRun(apply, start, known, run, events) && Init(start, run[0]) && i < |events|
    requires events[i].Swap? && run[i].mode.Off?
    ensures run[i + 1].mode.Off?
    ensures Reload(apply, start, known, run[i + 1].file) in Had(apply, start, known, run, events, 0, i)
  {
    hide Load, Reload, LogBytes, ReplayLog, UnitOk, Had, Inv;
    RunKeepsInv(apply, start, known, run, events, i);
    SwapStep(apply, start, known, run[i], Had(apply, start, known, run, events, 0, i));
    var t := run[i + 1];
    LoadsPrefix(apply, start, known, t.log, t.file);
    CompleteAll(t.log, known);
    assert t.log[..|t.log|] == t.log;
  }

  // ----- a write that is only half on disk

  /** A server that starts with an empty file, executes `w` and writes the first `m` of the commands
      it is written as: loading the file then rebuilds the dataset between those commands. */
  lemma HalfWritten<D(!new)>(apply: Apply<D>, start: D, known: set<Bytes>, w: Write, m: nat)
      returns (run: seq<System<D>>, events: seq<Event>)
    requires Names(known) && WriteOk(w, known) && 0 < m < |w.Parts()|
    ensures IsRun(apply, start, known, run, events) && Init(start, run[0]) && |run| == 3 && run[2].mode.On?
    ensures run[0].data == start && run[1].data == run[2].data == ApplyParts(apply, start, w.db, w.Parts())
    ensures Reload(apply, start, known, run[2].file) == ApplyParts(apply, start, w.db, w.Parts()[..m])
  {
    hide WriteOk, Translate, FedUnits, Load, Singles, SelectCmd, LogBytes, UnitOk, Reload;
    var us := FedUnits(NO_DB, [w], None);
    var part := [Single(SelectCmd(w.db))] + Singles(w.Parts()[..m]);
    var n := |LogBytes(part)|;
    FedUnitsOk(NO_DB, [w], None, known);
    FedPart(w, m);
    assert ApplyAll(apply, start, [w]) == ApplyParts(apply, start, w.db, w.Parts()) by { assert [w][1..] == []; }
    var s0 := System(start, On, [], [], NO_DB, [], 0, None);
    var feed, flush := Feed([w], None), Flush(n);
    var s1 := Next(apply, start, known, s0, feed);
    assert s1.buf == LogBytes(us) by { assert [] + LogBytes(us) == LogBytes(us); }
    var s2 := Next(apply, start, known, s1, flush);
    assert s2.file == LogBytes(part) by { assert [] + LogBytes(us)[..n] == LogBytes(part); }
    run, events := [s0, s1, s2], [feed, flush];
    ReloadsPart(apply, start, known, us, part, w, m);
  }

  lemma FedPart(w: Write, m: nat)
    requires m <= |w.Parts()|
    ensures var us, part := FedUnits(NO_DB, [w], None), [Single(SelectCmd(w.db))] + Singles(w.Parts()[..m]);
      part <= us && LogBytes(part) <= LogBytes(us)
  {
    hide Translate, SelectCmd;
    var us, part := FedUnits(NO_DB, [w], None), [Single(SelectCmd(w.db))] + Singles(w.Parts()[..m]);
    assert us == part + Singles(w.Parts()[m..]);
    LogBytesAppend(part, Singles(w.Parts()[m..]));
  }

  lemma ReloadsPart<D>(apply: Apply<D>, start: D, known: set<Bytes>, us: seq<Unit>, part: seq<Unit>, w: Write, m: nat)
    requires WriteOk(w, known) && m <= |w.Parts()| && part == [Single(SelectCmd(w.db))] + Singles(w.Parts()[..m])
    requires part <= us && forall u :: u in us ==> UnitOk(u, known)
    ensures Reload(apply, start, known, LogBytes(part)) == ApplyParts(apply, start, w.db, w.Parts()[..m])
  {
    hide WriteOk, Translate, Load, Singles, SelectCmd, Reload, UnitOk;
    assert forall u :: u in part ==> u in us;
    LoadsPrefix(apply, start, known, part, LogBytes(part));
    CompleteAll(part, known);
    assert part[..|part|] == part;
    ReplayPrefix(apply, Replayed(start, 0), NO_DB, w, known, m);
  }

  const SETEX: Write := Write(0, ["SETEX", "k", "10", "v"], 0)

  lemma SetExIsTwo(known: set<Bytes>)
    requires "set" in known && "pexpireat" in known
    ensures SETEX.Parts() == [["SET", "k", "v"], ["PEXPIREAT", "k", IntText(10000)]] && WriteOk(SETEX, known)
  {
    assert Lower("SETEX") == "setex" && Lower("SET") == "set" && Lower("PEXPIREAT") == "pexpireat";
    assert ParseInt("10") == 10 by {
      assert "10"[1..] == "0" && "0"[1..] == "";
      assert ParseDigits("10", 0) == ParseDigits("0", 1) == ParseDigits("", 10);
    }
    assert Pow10(5) == 100000;
    DecLength(10000, 5);
  }

  /** With datasets that record what was applied: after SETEX and a partial write of the buffer the
      file loads to a dataset that the server never had, the value without its time to live. */
  lemma SetExHalfWritten(known: set<Bytes>) returns (run: seq<System<seq<Command>>>, events: seq<Event>)
    requires Names(known) && "set" in known && "pexpireat" in known
    ensures var record: Apply<seq<Command>> := (d, db, c) => d + [c];
      && IsRun(record, [], known, run, events) && Init([], run[0]) && |run| == 3 && run[2].mode.On?
      && Reload(record, [], known, run[2].file) == [["SET", "k", "v"]]
      && forall j :: 0 <= j < |run| ==> run[j].data != [["SET", "k", "v"]]
  {
    hide Reload, IsRun, WriteOk, Translate;
    SetExIsTwo(known);
    var record: Apply<seq<Command>> := (d, db, c) => d + [c];
    run, events := HalfWritten(record, [], known, SETEX, 1);
    var parts := SETEX.Parts();
    Recorded(record, [], parts);
    Recorded(record, [], parts[..1]);
    assert [] + parts == parts && [] + parts[..1] == [["SET", "k", "v"]];
  }

  lemma {:induction false} Recorded(record: Apply<seq<Command>>, d: seq<Command>, parts: seq<Command>)
    requires forall e, db, c :: record(e, db, c) == e + [c]
    ensures ApplyParts(record, d, SETEX.db, parts) == d + parts
    decreases parts
  {
    if parts == [] {
      assert d + [] == d;
    } else {
      Recorded(record, d + [parts[0]], parts[1..]);
      assert d + [parts[0]] + parts[1..] == d + parts;
    }
  }

  // ----- a whole rewrite

  /** Some run from an initial state goes through `events` and ends in `s`. */
  ghost predicate Reaches<D(!new)>(apply: Apply<D>, start: D, known: set<Bytes>, events: seq<Event>, s: System<D>) {
    exists run :: IsRun(apply, start, known, run, events) && Init(start, run[0]) && run[|events|] == s
  }

  lemma ReachesStep<D(!new)>(apply: Apply<D>, start: D, known: set<Bytes>, events: seq<Event>, s: System<D>, e: Event)
    requires Reaches(apply, start, known, events, s) && Enabled(apply, start, known, s, e)
    ensures Reaches(apply, start, known, events + [e], Next(apply, start, known, s, e))
  {
    hide Enabled, Next, Init;
    var run :| IsRun(apply, start, known, run, events) && Init(start, run[0]) && run[|events|] == s;
    var more, evs := run + [Next(apply, start, known, s, e)], events + [e];
    forall i | 0 <= i < |evs|
      ensures Enabled(apply, start, known, more[i], evs[i]) && more[i + 1] == Next(apply, start, known, more[i], evs[i])
    {
      assert i < |events| ==> more[i] == run[i] && more[i + 1] == run[i + 1];
    }
    assert IsRun(apply, start, known, more, evs) && more[0] == run[0];
  }

  /** Where a rewrite stands, and the data after `n` more writes. */
  ghost predicate Stands<D>(s: System<D>, data: D, phase: Phase, stop: bool, ask: bool, ack: bool) {
    && s.mode.On? && s.data == data && s.rewrite.Some? && s.rewrite.value.phase == phase
      && s.rewrite.value.stopSending == stop
    && s.rewrite.value.ask == ask && s.rewrite.value.ack == ack
  }

  /** One write while a rewrite runs changes only the data and the bytes on their way. */
  lemma FeedOnTheWay<D(!new)>(apply: Apply<D>, start: D, known: set<Bytes>, events: seq<Event>, s: System<D>, w: Write)
      returns (t: System<D>)
    requires Reaches(apply, start, known, events, s) && s.mode.On? && s.rewrite.Some? && WriteOk(w, known)
    ensures Reaches(apply, start, known, events + [Feed([w], None)], t) && t.rewrite.Some?
    ensures var r := s.rewrite.value;
      Stands(t, ApplyAll(apply, s.data, [w]), r.phase, r.stopSending, r.ask, r.ack) && t.rewrite.value.pipe == r.pipe
    ensures |t.rewrite.value.blocks| > |s.rewrite.value.blocks|
  {
    BytesFed(s.selected, w);
    hide FedUnits, LogBytes, ApplyAll, WriteOk, Reaches;
    ReachesStep(apply, start, known, events, s, Feed([w], None));
    t := Next(apply, start, known, s, Feed([w], None));
  }

  lemma BytesFed(selected: int, w: Write)
    ensures |LogBytes(FedUnits(selected, [w], None))| >= 1
  {
  }

  lemma FirstWrite<D(!new)>(apply: Apply<D>, start: D, known: set<Bytes>, w: Write)
    requires Names(known) && WriteOk(w, known)
    ensures var us := FedUnits(NO_DB, [w], None);
      && (forall u :: u in us ==> UnitOk(u, known)) && ReplayLog(apply, start, us).data == ApplyAll(apply, start, [w])
  {
    FedUnitsOk(NO_DB, [w], None, known);
    ReplayFedUnits(apply, Replayed(start, 0), NO_DB, [w], None, known, 0);
  }

  function After<D>(apply: Apply<D>, start: D, w: Write, n: nat): D {
    if n == 0 then start else ApplyAll(apply, After(apply, start, w, n - 1), [w])
  }

  /** One write, then the fork. */
  lemma Forked<D(!new)>(apply: Apply<D>, start: D, known: set<Bytes>, w: Write) returns (s: System<D>)
    requires Names(known) && WriteOk(w, known)
    ensures Reaches(apply, start, known, [Feed([w], None), Fork(FedUnits(NO_DB, [w], None))], s)
    ensures Stands(s, After(apply, start, w, 1), Dumping, false, false, false)
  {
    hide FedUnits, ReplayLog, LogBytes, ApplyAll, WriteOk, UnitOk, Reaches;
    FirstWrite(apply, start, known, w);
    assert After(apply, start, w, 1) == ApplyAll(apply, After(apply, start, w, 0), [w]);
    var s0 := System(start, On, [], [], NO_DB, [], 0, None);
    var none: seq<Event> := [];
    ReachesStart(apply, start, known, s0);
    hide After;
    var s1, evs := Do(apply, start, known, none, s0, Feed([w], None));
    var fork := Fork(FedUnits(NO_DB, [w], None));
    s, evs := Do(apply, start, known, evs, s1, fork);
    assert none + [Feed([w], None)] + [fork] == [Feed([w], None), fork];
  }

  lemma ReachesStart<D(!new)>(apply: Apply<D>, start: D, known: set<Bytes>, s: System<D>)
    requires Init(start, s)
    ensures Reaches(apply, start, known, [], s)
  {
    var none: seq<Event> := [];
    assert IsRun(apply, start, known, [s], none) && [s][|none|] == s;
  }

  /** While the child dumps: a write, a byte sent, a byte read, and the request to stop. */
  lemma Dumped<D(!new)>(apply: Apply<D>, start: D, known: set<Bytes>, events: seq<Event>, s0: System<D>, w: Write)
      returns (s: System<D>)
    requires Reaches(apply, start, known, events, s0)
      && Stands(s0, After(apply, start, w, 1), Dumping, false, false, false)
    requires WriteOk(w, known)
    ensures Reaches(apply, start, known,
                    events + [Feed([w], None)] + [ParentSends(1)] + [ChildReads(1)] + [ChildAsks], s)
    ensures Stands(s, After(apply, start, w, 2), Asked, false, true, false)
  {
    AfterMore(apply, start, w, 1);
    hide Reaches, After, ApplyAll, WriteOk;
    var evs := events;
    s := FeedOnTheWay(apply, start, known, evs, s0, w);
    evs := evs + [Feed([w], None)];
    s, evs := Do(apply, start, known, evs, s, ParentSends(1));
    assert |s.rewrite.value.pipe| >= 1;
    s, evs := Do(apply, start, known, evs, s, ChildReads(1));
    s, evs := Do(apply, start, known, evs, s, ChildAsks);
  }

  /** Then a write, the acknowledgement, another write, and the child is done. */
  lemma Exchanged<D(!new)>(apply: Apply<D>, start: D, known: set<Bytes>, events: seq<Event>, s0: System<D>, w: Write)
      returns (s: System<D>)
    requires Reaches(apply, start, known, events, s0)
      && Stands(s0, After(apply, start, w, 2), Asked, false, true, false)
    requires WriteOk(w, known)
    ensures Reaches(apply, start, known, events + [Feed([w], None)] + [ParentAcks] + [ChildSeesAck] + [Feed([w], None)]
                    + [ChildFinishes], s)
    ensures s.mode.On? && s.rewrite.Some? && s.rewrite.value.phase == Done && s.data == After(apply, start, w, 4)
  {
    AfterMore(apply, start, w, 2);
    AfterMore(apply, start, w, 3);
    hide Reaches, After, ApplyAll, WriteOk;
    var evs := events;
    s := FeedOnTheWay(apply, start, known, evs, s0, w);
    evs := evs + [Feed([w], None)];
    s, evs := Do(apply, start, known, evs, s, ParentAcks);
    s, evs := Do(apply, start, known, evs, s, ChildSeesAck);
    s := FeedOnTheWay(apply, start, known, evs, s, w);
    evs := evs + [Feed([w], None)];
    s, evs := Do(apply, start, known, evs, s, ChildFinishes);
  }

  lemma AfterMore<D>(apply: Apply<D>, start: D, w: Write, n: nat)
    ensures ApplyAll(apply, After(apply, start, w, n), [w]) == After(apply, start, w, n + 1)
  {
  }

  lemma Do<D(!new)>(apply: Apply<D>, start: D, known: set<Bytes>, events: seq<Event>, s: System<D>, e: Event)
      returns (t: System<D>, evs: seq<Event>)
    requires Reaches(apply, start, known, events, s) && Enabled(apply, start, known, s, e)
    ensures evs == events + [e] && t == Next(apply, start, known, s, e) && Reaches(apply, start, known, evs, t)
  {
    ReachesStep(apply, start, known, events, s, e);
    t, evs := Next(apply, start, known, s, e), events + [e];
  }

  /** A whole rewrite, with a write before the fork, one while the child dumps, one after the child
      asked the parent to stop and one after the parent stopped sending: the run exists, and after
      the swap the file alone rebuilds all four writes. */
  lemma WholeRewrite<D(!new)>(apply: Apply<D>, start: D, known: set<Bytes>, w: Write)
      returns (events: seq<Event>, s: System<D>)
    requires Names(known) && WriteOk(w, known)
    ensures Reaches(apply, start, known, events, s) && |events| == 12 && events[11] == Swap
    ensures s.mode.On? && s.buf == [] && s.data == After(apply, start, w, 4)
    ensures Reload(apply, start, known, s.file) == s.data
  {
    hide Reaches, After, WriteOk, Reload;
    var s0 := Forked(apply, start, known, w);
    var forked := [Feed([w], None), Fork(FedUnits(NO_DB, [w], None))];
    var s1 := Dumped(apply, start, known, forked, s0, w);
    events := forked + [Feed([w], None)] + [ParentSends(1)] + [ChildReads(1)] + [ChildAsks];
    var s2 := Exchanged(apply, start, known, events, s1, w);
    events := events + [Feed([w], None)] + [ParentAcks] + [ChildSeesAck] + [Feed([w], None)] + [ChildFinishes];
    s, events := Do(apply, start, known, events, s2, Swap);
    ReachedReloads(apply, start, known, events, s);
  }

  lemma ReachedReloads<D(!new)>(apply: Apply<D>, start: D, known: set<Bytes>, events: seq<Event>, s: System<D>)
    requires Names(known) && Reaches(apply, start, known, events, s) && s.mode.On? && s.buf == []
    ensures Reload(apply, start, known, s.file) == s.data
  {
    hide Init, Reload;
    var run :| IsRun(apply, start, known, run, events) && Init(start, run[0]) && run[|events|] == s;
    ReloadAfterFlush(apply, start, known, run, events, |events|);
  }
}
