/** Loading an append only file, and what a cut file loads to. */
module AofLoad {
  import opened Common
  import opened AofFormat

  // ----- the loader

  predicate Named(c: Command, name: Bytes) {
    c != [] && Lower(c[0]) == name
  }

  /** Command lookup ignores case. */
  predicate Known(name: Bytes, known: set<Bytes>) {
    Lower(name) in known
  }

  predicate IsMulti(c: Command) { Named(c, "multi") }
  predicate IsExec(c: Command) { Named(c, "exec") }

  /** The state of the loading loop: `executed` is the list of commands run so far. */
  datatype Loading = Loading(
    executed: seq<Command>,
    multi: bool,
    queue: seq<Command>,
    validUpTo: nat,
    validBeforeMulti: nat)

  const FRESH: Loading := Loading([], false, [], 0, 0)

  /** Run or queue one command that ends at file offset `end`. */
  function RunOne(st: Loading, c: Command, end: nat, truncatedOk: bool): Loading {
    var t := if IsMulti(c) then st.(validBeforeMulti := st.validUpTo) else st;
    var u :=
      if t.multi && !IsExec(c) then t.(queue := t.queue + [c])
      else if IsMulti(c) then t.(multi := true)
      else if IsExec(c) then
        if t.multi then t.(executed := t.executed + t.queue, multi := false, queue := []) else t
      else t.(executed := t.executed + [c]);
    if truncatedOk then u.(validUpTo := end) else u
  }

  datatype Stop = AtEnd | ShortRead | BadFormat | ReadError | UnknownCommand

  datatype Outcome =
    | Loaded
    | Truncated(offset: nat)
    | EmptyFile
    | RdbPreamble
    | Refused
    | Fatal(why: Stop)

  /** Load the rest `r` of a file, which starts at offset `pos`. */
  function LoadFrom(pos: nat, r: Bytes, st: Loading, known: set<Bytes>, truncatedOk: bool): (Loading, Stop)
    decreases |r|
  {
    match ReadCommand(r)
    case End => (st, AtEnd)
    case Short => (st, ShortRead)
    case Bad => (st, BadFormat)
    case Broken => (st, ReadError)
    case Got(argv, rest) =>
      if !Known(argv[0], known) then (st, UnknownCommand)
      else
        var end := pos + (|r| - |rest|);
        LoadFrom(end, rest, RunOne(st, argv, end, truncatedOk), known, truncatedOk)
  }

  function Finish(st: Loading, stop: Stop, truncatedOk: bool): Outcome {
    match stop
    case AtEnd =>
      if !st.multi then Loaded
      else if truncatedOk then Truncated(st.validBeforeMulti) else Refused
    case ShortRead => if truncatedOk then Truncated(st.validUpTo) else Refused
    case _ => Fatal(stop)
  }

  function Load(file: Bytes, known: set<Bytes>, truncatedOk: bool): (seq<Command>, Outcome) {
    if file == [] then ([], EmptyFile)
    else if |file| >= 5 && file[..5] == "REDIS" then ([], RdbPreamble)
    else
      var (st, stop) := LoadFrom(0, file, FRESH, known, truncatedOk);
      (st.executed, Finish(st, stop, truncatedOk))
  }

  // ----- the loader as the loop it is

  /** fgets into a buffer of 128 bytes: the longest prefix of at most 127 bytes with no newline
      before its last byte. */
  method ReadLine(r: Bytes) returns (line: Bytes)
    ensures line <= r && |line| <= LINE_MAX && (forall i :: 0 <= i < |line| - 1 ==> line[i] != '\n')
    ensures |line| < |r| && |line| < LINE_MAX ==> line != [] && line[|line| - 1] == '\n'
    ensures line == Line(r)
  {
    var n := 0;
    while n < LINE_MAX && n < |r|
      invariant n <= LINE_MAX && n <= |r| && forall i :: 0 <= i < n ==> r[i] != '\n'
      invariant LineLength(r, LINE_MAX) == n + LineLength(r[n..], LINE_MAX - n)
    {
      assert r[n..][1..] == r[n + 1..];
      n := n + 1;
      if r[n - 1] == '\n' { return r[..n]; }
    }
    line := r[..n];
  }

  /** atoi and strtol: skip blanks, take a sign, add up digits. */
  method ParseNumber(s: Bytes) returns (n: int)
    ensures n == ParseInt(s)
  {
    var i := 0;
    while i < |s| && IsSpace(s[i])
      invariant i <= |s| && ParseInt(s) == ParseInt(s[i..])
    {
      assert s[i..][1..] == s[i + 1..];
      i := i + 1;
    }
    var negative := i < |s| && s[i] == '-';
    if i < |s| && (s[i] == '-' || s[i] == '+') {
      assert s[i..][1..] == s[i + 1..];
      i := i + 1;
    }
    var sum: nat := 0;
    ghost var digits := s[i..];
    while i < |s| && IsDigit(s[i])
      invariant i <= |s| && ParseDigits(digits, 0) == ParseDigits(s[i..], sum)
    {
      assert s[i..][1..] == s[i + 1..];
      sum := sum * 10 + DigitValue(s[i]);
      i := i + 1;
    }
    n := if negative then -(sum as int) else sum;
  }

  /** Read one bulk string from what is left of the file. */
  method ReadNextArg(r: Bytes) returns (p: ArgReading)
    ensures p == ReadArg(r)
  {
    if r == [] { return NoArg(Short); }
    var line := ReadLine(r);
    if line[0] != '$' { return NoArg(Bad); }
    var len := ParseNumber(line[1..]);
    if len < 0 { return NoArg(Broken); }
    var body := r[|line|..];
    if |body| < len { return NoArg(Short); }
    if |body| - len < 2 { return NoArg(Short); }
    p := Arg(body[..len], body[len + 2..]);
  }

  /** Read `argc` arguments from what is left of the file. */
  method ReadNextArgs(r: Bytes, argc: nat) returns (p: Reading)
    ensures p == ReadArgs(r, argc, [])
  {
    hide ReadArg;
    var rest := r;
    var argv: Command := [];
    for j := 0 to argc
      invariant ReadArgs(r, argc, []) == ReadArgs(rest, argc - j, argv)
    {
      var arg := ReadNextArg(rest);
      match arg
      case NoArg(why) => return why;
      case Arg(value, left) =>
        argv := argv + [value];
        rest := left;
    }
    p := Got(argv, rest);
  }

  method ReadNext(r: Bytes) returns (p: Reading)
    ensures p == ReadCommand(r)
  {
    if r == [] { return End; }
    var line := ReadLine(r);
    if line[0] != '*' { return Bad; }
    if |line| == 1 { return Short; }
    if line[1] == '\0' {
      if |line| == |r| < LINE_MAX && line[|line| - 1] != '\n' { return Short; } else { return Broken; }
    }
    var argc := ParseNumber(line[1..]);
    if argc < 1 { return Bad; }
    p := ReadNextArgs(r[|line|..], argc);
  }

  lemma LoadFromStep(pos: nat, r: Bytes, st: Loading, known: set<Bytes>, truncatedOk: bool)
    ensures LoadFrom(pos, r, st, known, truncatedOk) ==
      match ReadCommand(r)
      case End => (st, AtEnd)
      case Short => (st, ShortRead)
      case Bad => (st, BadFormat)
      case Broken => (st, ReadError)
      case Got(argv, rest) =>
        if !Known(argv[0], known) then (st, UnknownCommand)
        else
          var end := pos + (|r| - |rest|);
          LoadFrom(end, rest, RunOne(st, argv, end, truncatedOk), known, truncatedOk)
  {
  }

  /** loadAppendOnlyFile; the read position is the part of the file not read yet. */
  method LoadAppendOnlyFile(file: Bytes, known: set<Bytes>, truncatedOk: bool)
    returns (executed: seq<Command>, outcome: Outcome)
    ensures (executed, outcome) == Load(file, known, truncatedOk)
  {
    hide LoadFrom, ReadCommand;
    if file == [] { return [], EmptyFile; }
    if |file| >= 5 && file[..5] == "REDIS" { return [], RdbPreamble; }
    var st := FRESH;
    var rest := file;
    while true
      invariant |rest| <= |file|
      invariant LoadFrom(0, file, FRESH, known, truncatedOk) == LoadFrom(|file| - |rest|, rest, st, known, truncatedOk)
      decreases |rest|
    {
      var p := ReadNext(rest);
      LoadFromStep(|file| - |rest|, rest, st, known, truncatedOk);
      match p
      case End => return st.executed, Finish(st, AtEnd, truncatedOk);
      case Short => return st.executed, Finish(st, ShortRead, truncatedOk);
      case Bad => return st.executed, Finish(st, BadFormat, truncatedOk);
      case Broken => return st.executed, Finish(st, ReadError, truncatedOk);
      case Got(argv, left) =>
        if !Known(argv[0], known) { return st.executed, Finish(st, UnknownCommand, truncatedOk); }
        rest := left;
        st := RunOne(st, argv, |file| - |rest|, truncatedOk);
    }
  }

  // ----- streams of whole commands

  /** What a server appends: plain commands and whole MULTI/EXEC transactions. */
  datatype Unit = Single(c: Command) | Transaction(multi: Command, body: seq<Command>, exec: Command)

  predicate Plain(c: Command, known: set<Bytes>) {
    Printable(c) && Known(c[0], known) && !IsMulti(c) && !IsExec(c)
  }

  predicate UnitOk(u: Unit, known: set<Bytes>) {
    match u
    case Single(c) => Plain(c, known)
    case Transaction(m, body, e) =>
      && Printable(m) && IsMulti(m) && Known(m[0], known) && Printable(e) && IsExec(e) && Known(e[0], known)
      && forall i :: 0 <= i < |body| ==> Plain(body[i], known)
  }

  function Commands(u: Unit): (r: seq<Command>)
    ensures r != []
  {
    match u
    case Single(c) => [c]
    case Transaction(m, body, e) => [m] + body + [e]
  }

  function Flatten(us: seq<Unit>): seq<Command> {
    if us == [] then [] else Commands(us[0]) + Flatten(us[1..])
  }

  function Effects(us: seq<Unit>): seq<Command> {
    if us == [] then [] else (match us[0] case Single(c) => [c] case Transaction(_, body, _) => body) + Effects(us[1..])
  }

  // ----- reading whole commands

  function RunAll(st: Loading, cmds: seq<Command>, end: nat): Loading
    decreases cmds
  {
    if cmds == [] then st
    else RunAll(RunOne(st, cmds[0], end + |Encode(cmds[0])|, true), cmds[1..], end + |Encode(cmds[0])|)
  }

  predicate AllReadable(cmds: seq<Command>, known: set<Bytes>) {
    forall i :: 0 <= i < |cmds| ==> Printable(cmds[i]) && Known(cmds[i][0], known)
  }

  /** A loader that runs one printed command at a time. */
  ghost predicate RunsOneByOne(load: (nat, Bytes, Loading) -> (Loading, Stop), known: set<Bytes>) {
    forall pos: nat, c: Command, tail: Bytes, st: Loading :: Printable(c) && Known(c[0], known) ==>
      load(pos, Encode(c) + tail, st) == load(pos + |Encode(c)|, tail, RunOne(st, c, pos + |Encode(c)|, true))
  }

  lemma {:induction false} RunsAll(load: (nat, Bytes, Loading) -> (Loading, Stop), known: set<Bytes>,
                                   pos: nat, cmds: seq<Command>, rest: Bytes, st: Loading)
    requires RunsOneByOne(load, known) && AllReadable(cmds, known)
    ensures load(pos, EncodeAll(cmds) + rest, st) == load(pos + |EncodeAll(cmds)|, rest, RunAll(st, cmds, pos))
    decreases |cmds|
  {
    hide Encode, RunOne, Printable, Known;
    if cmds == [] {
      assert EncodeAll(cmds) + rest == rest;
    } else {
      var c, more := cmds[0], cmds[1..];
      var at := pos + |Encode(c)|;
      Assoc(Encode(c), EncodeAll(more), rest);
      RunsAll(load, known, at, more, rest, RunOne(st, c, at, true));
    }
  }

  /** Whole commands are all read and run, and loading goes on with what follows them. */
  lemma LoadWhole(pos: nat, cmds: seq<Command>, rest: Bytes, st: Loading, known: set<Bytes>)
    requires AllReadable(cmds, known)
    ensures LoadFrom(pos, EncodeAll(cmds) + rest, st, known, true)
         == LoadFrom(pos + |EncodeAll(cmds)|, rest, RunAll(st, cmds, pos), known, true)
  {
    hide LoadFrom;
    var load := (p: nat, r: Bytes, t: Loading) => LoadFrom(p, r, t, known, true);
    forall p: nat, c: Command, tail: Bytes, t: Loading | Printable(c) && Known(c[0], known)
      ensures load(p, Encode(c) + tail, t) == load(p + |Encode(c)|, tail, RunOne(t, c, p + |Encode(c)|, true))
    {
      LoadStep(p, c, tail, t, known);
    }
    RunsAll(load, known, pos, cmds, rest, st);
  }

  lemma LoadStep(pos: nat, c: Command, tail: Bytes, st: Loading, known: set<Bytes>)
    requires Printable(c) && Known(c[0], known)
    ensures LoadFrom(pos, Encode(c) + tail, st, known, true)
         == LoadFrom(pos + |Encode(c)|, tail, RunOne(st, c, pos + |Encode(c)|, true), known, true)
  {
    ReadEncoded(c, tail);
  }

  lemma RunNothing(st: Loading, end: nat)
    ensures RunAll(st, [], end) == st && EncodeAll([]) == [] && Flatten([]) == [] && Effects([]) == []
  {
  }

  lemma RunAllStep(st: Loading, a: seq<Command>, b: seq<Command>, end: nat)
    requires a != []
    ensures var next := end + |Encode(a[0])|; var mid := RunOne(st, a[0], next, true);
      && RunAll(st, a + b, end) == RunAll(mid, a[1..] + b, next) && RunAll(st, a, end) == RunAll(mid, a[1..], next)
      && |EncodeAll(a)| == |Encode(a[0])| + |EncodeAll(a[1..])|
  {
    hide RunOne, Encode;
    assert (a + b)[1..] == a[1..] + b && (a + b)[0] == a[0];
  }

  lemma {:induction false} RunAllAppend(st: Loading, a: seq<Command>, b: seq<Command>, end: nat)
    ensures RunAll(st, a + b, end) == RunAll(RunAll(st, a, end), b, end + |EncodeAll(a)|)
    decreases a
  {
    hide RunAll, RunOne, EncodeAll, Encode;
    if a == [] {
      assert a + b == b;
      RunNothing(st, end);
    } else {
      RunAllStep(st, a, b, end);
      RunAllAppend(RunOne(st, a[0], end + |Encode(a[0])|, true), a[1..], b, end + |Encode(a[0])|);
    }
  }

  /** Inside a transaction commands are only queued. */
  lemma {:induction false} RunQueued(st: Loading, body: seq<Command>, end: nat, known: set<Bytes>)
    requires st.multi && st.validUpTo == end && forall i :: 0 <= i < |body| ==> Plain(body[i], known)
    ensures RunAll(st, body, end) == st.(queue := st.queue + body, validUpTo := end + |EncodeAll(body)|)
    decreases body
  {
    hide Encode, Printable, Known;
    if body == [] {
      assert st.queue + body == st.queue;
    } else {
      var next := end + |Encode(body[0])|;
      var t := RunOne(st, body[0], next, true);
      RunQueued(t, body[1..], next, known);
      assert st.queue + [body[0]] + body[1..] == st.queue + body;
    }
  }

  /** The state between transactions: everything so far is executed. */
  predicate Settled(st: Loading, executed: seq<Command>, end: nat) {
    st.executed == executed && !st.multi && st.queue == [] && st.validUpTo == end
  }

  lemma RunTransaction(st: Loading, u: Unit, end: nat, known: set<Bytes>)
    requires u.Transaction? && UnitOk(u, known) && Settled(st, st.executed, end)
    ensures Settled(RunAll(st, Commands(u), end), st.executed + u.body, end + |EncodeAll(Commands(u))|)
  {
    RunAllAppend(st, [u.multi] + u.body, [u.exec], end);
    RunOpen(st, u.multi, u.body, end, known);
    var mid := RunAll(st, [u.multi] + u.body, end);
    var at := end + |EncodeAll([u.multi] + u.body)|;
    EncodeAllAppend([u.multi] + u.body, [u.exec]);
    assert EncodeAll([u.exec]) == Encode(u.exec);
    assert [u.exec][1..] == [];
    assert RunAll(mid, [u.exec], at) == RunOne(mid, u.exec, at + |Encode(u.exec)|, true);
    assert !IsMulti(u.exec);
  }

  /** An open transaction: nothing of it is executed, and MULTI remembers where it began. */
  lemma RunOpen(st: Loading, multi: Command, body: seq<Command>, end: nat, known: set<Bytes>)
    requires IsMulti(multi) && (forall i :: 0 <= i < |body| ==> Plain(body[i], known))
    requires Settled(st, st.executed, end)
    ensures RunAll(st, [multi] + body, end)
         == Loading(st.executed, true, body, end + |EncodeAll([multi] + body)|, end)
  {
    var next := end + |Encode(multi)|;
    assert ([multi] + body)[1..] == body;
    assert !IsExec(multi);
    var t := RunOne(st, multi, next, true);
    assert t == Loading(st.executed, true, [], next, end);
    RunQueued(t, body, next, known);
    assert [] + body == body;
    assert EncodeAll([multi] + body) == Encode(multi) + EncodeAll(body);
  }

  lemma {:induction false} RunUnits(st: Loading, us: seq<Unit>, end: nat, known: set<Bytes>)
    requires (forall i :: 0 <= i < |us| ==> UnitOk(us[i], known)) && Settled(st, st.executed, end)
    ensures Settled(RunAll(st, Flatten(us), end), st.executed + Effects(us), end + |EncodeAll(Flatten(us))|)
    decreases us
  {
    hide RunAll, EncodeAll, Flatten, Effects, Commands, UnitOk;
    if us == [] {
      RunNothing(st, end);
      assert st.executed + [] == st.executed;
    } else {
      RunUnit(st, us[0], end, known);
      var first, rest := Commands(us[0]), Flatten(us[1..]);
      RunUnits(RunAll(st, first, end), us[1..], end + |EncodeAll(first)|, known);
      RunJoined(st, first, rest, Effects([us[0]]), Effects(us[1..]), end);
      FlattenCons(us);
    }
  }

  lemma FlattenCons(us: seq<Unit>)
    requires us != []
    ensures Flatten(us) == Commands(us[0]) + Flatten(us[1..]) && Effects(us) == Effects([us[0]]) + Effects(us[1..])
  {
    assert us == [us[0]] + us[1..];
    EffectsCons(us[0], us[1..]);
  }

  lemma RunJoined(st: Loading, first: seq<Command>, rest: seq<Command>, a: seq<Command>, b: seq<Command>, end: nat)
    requires var next := end + |EncodeAll(first)|;
      Settled(RunAll(RunAll(st, first, end), rest, next), st.executed + a + b, next + |EncodeAll(rest)|)
    ensures Settled(RunAll(st, first + rest, end), st.executed + (a + b), end + |EncodeAll(first + rest)|)
  {
    hide RunAll, EncodeAll, Settled;
    RunAllAppend(st, first, rest, end);
    EncodeAllAppend(first, rest);
    Assoc(st.executed, a, b);
  }

  lemma EffectsCons(u: Unit, us: seq<Unit>)
    ensures Effects([u] + us) == Effects([u]) + Effects(us)
  {
    assert ([u] + us)[1..] == us && [u][1..] == [];
  }

  lemma RunUnit(st: Loading, u: Unit, end: nat, known: set<Bytes>)
    requires UnitOk(u, known) && Settled(st, st.executed, end)
    ensures Settled(RunAll(st, Commands(u), end), st.executed + Effects([u]), end + |EncodeAll(Commands(u))|)
  {
    assert [u][1..] == [];
    if u.Transaction? {
      RunTransaction(st, u, end, known);
      assert Effects([u]) == u.body;
    } else {
      assert Commands(u)[1..] == [];
      assert RunAll(st, Commands(u), end) == RunOne(st, u.c, end + |Encode(u.c)|, true);
      assert EncodeAll(Commands(u)) == Encode(u.c);
      assert Effects([u]) == [u.c];
    }
  }

  lemma {:induction false} FlattenReadable(us: seq<Unit>, known: set<Bytes>)
    requires forall i :: 0 <= i < |us| ==> UnitOk(us[i], known)
    ensures AllReadable(Flatten(us), known)
  {
    if us != [] {
      FlattenReadable(us[1..], known);
    }
  }

  // ----- a cut file

  /** A file cut somewhere: complete units, then possibly the start of a transaction, then
      possibly the torn beginning of one more command. */
  datatype Cut = Cut(units: seq<Unit>, open: Option<(Command, seq<Command>)>, torn: Bytes)
  {
    function Whole(): seq<Command> {
      Flatten(units) + (if open.Some? then [open.value.0] + open.value.1 else [])
    }

    function Bytes(): Bytes {
      EncodeAll(Whole()) + torn
    }

    predicate Ok(known: set<Bytes>) {
      && (forall i :: 0 <= i < |units| ==> UnitOk(units[i], known))
      && (open.Some? ==>
            && Printable(open.value.0) && IsMulti(open.value.0) && Known(open.value.0[0], known)
            && forall i :: 0 <= i < |open.value.1| ==> Plain(open.value.1[i], known))
    }

    ghost predicate TornOk() {
      torn != [] ==> exists c :: Printable(c) && torn < Encode(c)
    }
  }

  lemma RunThenOpen(whole: seq<Command>, multi: Command, body: seq<Command>, done: seq<Command>, known: set<Bytes>)
    requires IsMulti(multi) && forall i :: 0 <= i < |body| ==> Plain(body[i], known)
    requires Settled(RunAll(FRESH, whole, 0), done, |EncodeAll(whole)|)
    ensures RunAll(FRESH, whole + ([multi] + body), 0) ==
      Loading(done, true, body, |EncodeAll(whole + ([multi] + body))|, |EncodeAll(whole)|)
  {
    hide RunAll, EncodeAll, Plain, IsMulti;
    RunAllAppend(FRESH, whole, [multi] + body, 0);
    RunOpen(RunAll(FRESH, whole, 0), multi, body, |EncodeAll(whole)|, known);
    EncodeAllAppend(whole, [multi] + body);
  }

  lemma RunCut(cut: Cut, known: set<Bytes>)
    requires cut.Ok(known)
    ensures var st := RunAll(FRESH, cut.Whole(), 0);
      && st.executed == Effects(cut.units) && st.multi == cut.open.Some?
      && st.validUpTo == |EncodeAll(cut.Whole())|
      && (cut.open.Some? ==> st.validBeforeMulti == |EncodeAll(Flatten(cut.units))|)
  {
    hide RunAll, EncodeAll, Effects, Flatten, UnitOk, Printable, Named, Known;
    RunUnits(FRESH, cut.units, 0, known);
    assert [] + Effects(cut.units) == Effects(cut.units);
    if cut.open.Some? {
      RunThenOpen(Flatten(cut.units), cut.open.value.0, cut.open.value.1, Effects(cut.units), known);
    } else {
      assert cut.Whole() == Flatten(cut.units);
    }
  }

  lemma ReadCut(cut: Cut, known: set<Bytes>)
    requires cut.Ok(known) && cut.TornOk()
    ensures LoadFrom(0, cut.Bytes(), FRESH, known, true)
      == (RunAll(FRESH, cut.Whole(), 0), if cut.torn == [] then AtEnd else ShortRead)
  {
    hide LoadFrom, RunAll;
    FlattenReadable(cut.units, known);
    assert AllReadable(cut.Whole(), known);
    LoadWhole(0, cut.Whole(), cut.torn, FRESH, known);
    LoadTorn(|EncodeAll(cut.Whole())|, cut.torn, RunAll(FRESH, cut.Whole(), 0), known);
  }

  lemma LoadTorn(pos: nat, torn: Bytes, st: Loading, known: set<Bytes>)
    requires torn != [] ==> exists c :: Printable(c) && torn < Encode(c)
    ensures LoadFrom(pos, torn, st, known, true) == (st, if torn == [] then AtEnd else ShortRead)
  {
    if torn != [] {
      var c :| Printable(c) && torn < Encode(c);
      CutCommand(c, torn);
    }
  }

  lemma StartsWithStar(cut: Cut, known: set<Bytes>)
    requires cut.Ok(known) && cut.TornOk() && cut.Bytes() != []
    ensures cut.Bytes()[0] == '*'
  {
    if cut.Whole() != [] {
      assert Encode(cut.Whole()[0])[0] == '*';
    } else if cut.torn != [] {
      var c :| Printable(c) && cut.torn < Encode(c);
      assert Encode(c)[0] == '*';
      assert cut.Bytes() == cut.torn;
    }
  }

  /** Loading a cut file runs exactly its complete units and never reports a format error.
      The file is truncated after the last complete unit, except when the cut tears a command
      inside an open transaction: then the queued commands stay in the file. */
  lemma LoadCut(cut: Cut, known: set<Bytes>)
    requires cut.Ok(known) && cut.TornOk() && cut.Bytes() != []
    ensures var (executed, outcome) := Load(cut.Bytes(), known, true);
      && executed == Effects(cut.units)
      && outcome == if cut.torn != [] then Truncated(|EncodeAll(cut.Whole())|)
                    else if cut.open.Some? then Truncated(|EncodeAll(Flatten(cut.units))|)
                    else Loaded
  {
    StartsWithStar(cut, known);
    assert !(|cut.Bytes()| >= 5 && cut.Bytes()[..5] == "REDIS") by {
      assert "REDIS"[0] == 'R';
    }
    ReadCut(cut, known);
    RunCut(cut, known);
  }

  /** The truncate offset is the end of the last executed command exactly when the cut does not
      tear a command inside an open transaction. */
  lemma TruncationIsExact(cut: Cut, known: set<Bytes>)
    requires cut.Ok(known) && cut.TornOk() && cut.Bytes() != []
    requires cut.torn != [] || cut.open.Some?
    ensures Load(cut.Bytes(), known, true).1 == Truncated(|EncodeAll(Flatten(cut.units))|)
            <==> !(cut.torn != [] && cut.open.Some?)
  {
    LoadCut(cut, known);
    if cut.open.Some? {
      OpenIsNotEmpty(cut);
    } else {
      assert cut.Whole() == Flatten(cut.units);
    }
  }

  /** What the wrong offset costs: commands appended after such a truncation join the dangling
      transaction, and the next load runs none of them and cuts them off. */
  lemma AppendedAfterTornTransactionIsLost(cut: Cut, more: seq<Command>, known: set<Bytes>)
    requires cut.Ok(known) && cut.TornOk() && cut.torn != [] && cut.open.Some?
    requires forall i :: 0 <= i < |more| ==> Plain(more[i], known)
    ensures var kept := cut.Bytes()[..|EncodeAll(cut.Whole())|];
      && Load(cut.Bytes(), known, true).1 == Truncated(|kept|)
      && Load(kept + EncodeAll(more), known, true)
         == (Effects(cut.units), Truncated(|EncodeAll(Flatten(cut.units))|))
  {
    hide Load, Encode, Effects, Flatten;
    LoadCut(cut, known);
    var (m, body) := cut.open.value;
    var next := Cut(cut.units, Some((m, body + more)), []);
    EncodeAllAppend(cut.Whole(), more);
    WholeWithMore(cut, more, next);
    assert next.Bytes() == EncodeAll(next.Whole());
    OpenIsNotEmpty(cut);
    LoadCut(next, known);
    assert cut.Bytes()[..|EncodeAll(cut.Whole())|] == EncodeAll(cut.Whole());
  }

  lemma OpenIsNotEmpty(cut: Cut)
    requires cut.open.Some?
    ensures |EncodeAll(cut.Whole())| > |EncodeAll(Flatten(cut.units))|
  {
    var tail := [cut.open.value.0] + cut.open.value.1;
    EncodeAllAppend(Flatten(cut.units), tail);
    assert |EncodeAll(tail)| > 0;
  }

  lemma WholeWithMore(cut: Cut, more: seq<Command>, next: Cut)
    requires cut.open.Some? && next == Cut(cut.units, Some((cut.open.value.0, cut.open.value.1 + more)), [])
    ensures next.Whole() == cut.Whole() + more
  {
  }

  // ----- every cut of every stream has that shape

  /** How many whole commands the first `k` bytes hold. */
  function WholeCount(cmds: seq<Command>, k: nat): (w: nat)
    ensures w <= |cmds|
  {
    if cmds == [] || k < |Encode(cmds[0])| then 0 else 1 + WholeCount(cmds[1..], k - |Encode(cmds[0])|)
  }

  /** The bytes after those whole commands. */
  function Torn(cmds: seq<Command>, k: nat): Bytes
    requires k <= |EncodeAll(cmds)|
  {
    if cmds == [] || k < |Encode(cmds[0])| then EncodeAll(cmds)[..k] else Torn(cmds[1..], k - |Encode(cmds[0])|)
  }

  lemma EncodeCons(c: Command, cmds: seq<Command>)
    ensures EncodeAll([c] + cmds) == Encode(c) + EncodeAll(cmds)
  {
    assert ([c] + cmds)[1..] == cmds;
  }

  lemma {:induction false} CutBytes(cmds: seq<Command>, k: nat)
    requires k <= |EncodeAll(cmds)|
    ensures var w := WholeCount(cmds, k);
      && EncodeAll(cmds)[..k] == EncodeAll(cmds[..w]) + Torn(cmds, k)
      && (Torn(cmds, k) != [] ==> w < |cmds| && Torn(cmds, k) < Encode(cmds[w]))
      && (w == |cmds| <==> k == |EncodeAll(cmds)|)
  {
    var w := WholeCount(cmds, k);
    if cmds == [] || k < |Encode(cmds[0])| {
      assert cmds[..w] == [];
      if cmds != [] { TakeWithinLeft(Encode(cmds[0]), EncodeAll(cmds[1..]), k); }
    } else {
      var e := Encode(cmds[0]);
      var kept := cmds[1..][..w - 1];
      CutBytes(cmds[1..], k - |e|);
      TakePastLeft(e, EncodeAll(cmds[1..]), k);
      TakePastLeft([cmds[0]], cmds[1..], w);
      assert cmds == [cmds[0]] + cmds[1..];
      EncodeCons(cmds[0], kept);
      Assoc(e, EncodeAll(kept), Torn(cmds[1..], k - |e|));
    }
  }

  /** How many units lie entirely within the first `k` bytes. */
  function CompleteUnits(us: seq<Unit>, k: nat): (n: nat)
    ensures n <= |us|
  {
    if us == [] then 0
    else
      var e := EncodeAll(Commands(us[0]));
      if k < |e| then 0 else 1 + CompleteUnits(us[1..], k - |e|)
  }

  function CutFile(us: seq<Unit>, k: nat): Cut
    requires k <= |EncodeAll(Flatten(us))|
    decreases us
  {
    if us == [] then Cut([], None, [])
    else
      var first := Commands(us[0]);
      var e := EncodeAll(first);
      if k < |e| then
        var w := WholeCount(first, k);
        if w == 0 || us[0].Single? then Cut([], None, Torn(first, k))
        else Cut([], Some((us[0].multi, (us[0].body + [us[0].exec])[..w - 1])), Torn(first, k))
      else
        EncodeAllAppend(first, Flatten(us[1..]));
        var rest := CutFile(us[1..], k - |e|);
        rest.(units := [us[0]] + rest.units)
  }

  lemma CutWithin(u: Unit, w: nat)
    requires w < |Commands(u)|
    ensures w > 0 ==> u.Transaction? && (u.body + [u.exec])[..w - 1] == u.body[..w - 1]
                      && Commands(u)[..w] == [u.multi] + u.body[..w - 1]
  {
  }

  lemma UnitIsPrintable(u: Unit, known: set<Bytes>)
    requires UnitOk(u, known)
    ensures forall i :: 0 <= i < |Commands(u)| ==> Printable(Commands(u)[i])
  {
    hide Printable, Known, Named;
  }

  lemma CutFirst(us: seq<Unit>, k: nat, known: set<Bytes>)
    requires us != [] && k < |EncodeAll(Commands(us[0]))| && k <= |EncodeAll(Flatten(us))| && UnitOk(us[0], known)
    ensures var cut := CutFile(us, k);
      cut.Ok(known) && cut.TornOk() && cut.Bytes() == EncodeAll(Flatten(us))[..k] && cut.units == []
  {
    hide Encode, EncodeAll, Torn, WholeCount, Printable, Known, Named;
    var first := Commands(us[0]);
    var w := WholeCount(first, k);
    var cut := CutFile(us, k);
    CutBytes(first, k);
    EncodeAllAppend(first, Flatten(us[1..]));
    TakeWithinLeft(EncodeAll(first), EncodeAll(Flatten(us[1..])), k);
    CutWithin(us[0], w);
    assert cut.Whole() == first[..w];
    hide CutFile;
    UnitIsPrintable(us[0], known);
  }

  lemma {:induction false} CutFileShape(us: seq<Unit>, k: nat, known: set<Bytes>)
    requires (forall i :: 0 <= i < |us| ==> UnitOk(us[i], known)) && k <= |EncodeAll(Flatten(us))|
    ensures var cut := CutFile(us, k);
      && cut.Ok(known) && cut.TornOk() && cut.Bytes() == EncodeAll(Flatten(us))[..k]
      && cut.units == us[..CompleteUnits(us, k)]
    decreases us
  {
    hide Encode, UnitOk, Torn, WholeCount;
    if us == [] {
      assert CutFile(us, k).Bytes() == [];
    } else {
      hide CutFile, Flatten;
      var first := Commands(us[0]);
      var e := EncodeAll(first);
      if k < |e| {
        CutFirst(us, k, known);
        assert us[..0] == [];
      } else {
        EncodeAllAppend(first, Flatten(us[1..]));
        CutFileShape(us[1..], k - |e|, known);
        CutLater(us, k, known);
      }
    }
  }

  lemma CutLater(us: seq<Unit>, k: nat, known: set<Bytes>)
    requires us != [] && UnitOk(us[0], known) && |EncodeAll(Commands(us[0]))| <= k <= |EncodeAll(Flatten(us))|
    requires k - |EncodeAll(Commands(us[0]))| <= |EncodeAll(Flatten(us[1..]))|
    requires var k' := k - |EncodeAll(Commands(us[0]))|;
      var rest := CutFile(us[1..], k');
      && rest.Ok(known) && rest.TornOk() && rest.Bytes() == EncodeAll(Flatten(us[1..]))[..k']
      && rest.units == us[1..][..CompleteUnits(us[1..], k')]
    ensures var cut := CutFile(us, k);
      && cut.Ok(known) && cut.TornOk() && cut.Bytes() == EncodeAll(Flatten(us))[..k]
      && cut.units == us[..CompleteUnits(us, k)]
  {
    hide Commands, Encode, EncodeAll, WholeCount, Torn, UnitOk;
    var e := EncodeAll(Commands(us[0]));
    EncodeAllAppend(Commands(us[0]), Flatten(us[1..]));
    CutPrepend(us[0], CutFile(us[1..], k - |e|));
    TakePastLeft(e, EncodeAll(Flatten(us[1..])), k);
    TakePastLeft([us[0]], us[1..], CompleteUnits(us, k));
    assert us == [us[0]] + us[1..];
  }

  lemma CutPrepend(u: Unit, rest: Cut)
    ensures var cut := rest.(units := [u] + rest.units);
      cut.Whole() == Commands(u) + rest.Whole() && cut.Bytes() == EncodeAll(Commands(u)) + rest.Bytes()
  {
    hide Flatten, Commands, EncodeAll;
    var cut := rest.(units := [u] + rest.units);
    FlattenCons(cut.units);
    assert cut.units[1..] == rest.units;
    assert cut.Whole() == Commands(u) + rest.Whole();
    EncodeAllAppend(Commands(u), rest.Whole());
    Assoc(EncodeAll(Commands(u)), EncodeAll(rest.Whole()), rest.torn);
  }

  /** Where the last complete unit of the first `k` bytes ends. */
  function DoneBytes(us: seq<Unit>, k: nat): nat {
    |EncodeAll(Flatten(us[..CompleteUnits(us, k)]))|
  }

  /** The first `k` bytes end inside a command of a transaction whose MULTI is whole. */
  ghost predicate TearsTransaction(us: seq<Unit>, k: nat) {
    var n, more := CompleteUnits(us, k), k - DoneBytes(us, k);
    && n < |us| && us[n].Transaction? && more >= |Encode(us[n].multi)|
    && forall w :: 0 <= w <= |Commands(us[n])| ==> |EncodeAll(Commands(us[n])[..w])| != more
  }

  lemma DoneCons(us: seq<Unit>, k: nat)
    requires us != [] && k >= |EncodeAll(Commands(us[0]))|
    ensures var e := |EncodeAll(Commands(us[0]))|;
      DoneBytes(us, k) == e + DoneBytes(us[1..], k - e) && CompleteUnits(us, k) == 1 + CompleteUnits(us[1..], k - e)
  {
    var e := |EncodeAll(Commands(us[0]))|;
    var n := CompleteUnits(us[1..], k - e);
    assert us[..n + 1] == [us[0]] + us[1..][..n];
    assert Flatten([us[0]] + us[1..][..n]) == Commands(us[0]) + Flatten(us[1..][..n]) by {
      assert ([us[0]] + us[1..][..n])[1..] == us[1..][..n];
    }
    EncodeAllAppend(Commands(us[0]), Flatten(us[1..][..n]));
  }

  /** What follows the complete units of a cut file. */
  ghost predicate Remainder(us: seq<Unit>, k: nat, cut: Cut) {
    var n, done := CompleteUnits(us, k), DoneBytes(us, k);
    && done <= k
    && if n == |us| then k == done && cut.open.None? && cut.torn == []
       else
         && k - done < |EncodeAll(Commands(us[n]))|
         && (cut.open.Some? <==> us[n].Transaction? && WholeCount(Commands(us[n]), k - done) > 0)
         && cut.torn == Torn(Commands(us[n]), k - done)
  }

  lemma {:induction false} CutFileRemainder(us: seq<Unit>, k: nat)
    requires k <= |EncodeAll(Flatten(us))|
    ensures Remainder(us, k, CutFile(us, k))
    decreases us
  {
    if us == [] {
      assert us[..0] == [];
    } else {
      var first := Commands(us[0]);
      var e := |EncodeAll(first)|;
      if k < e {
        CutBeforeFirst(us, k);
      } else {
        EncodeAllAppend(first, Flatten(us[1..]));
        CutFileRemainder(us[1..], k - e);
        CutAfterFirst(us, k);
      }
    }
  }

  lemma CutBeforeFirst(us: seq<Unit>, k: nat)
    requires us != [] && k < |EncodeAll(Commands(us[0]))| && k <= |EncodeAll(Flatten(us))|
    ensures Remainder(us, k, CutFile(us, k))
  {
    hide Encode, Torn;
    assert us[..0] == [];
    var w := WholeCount(Commands(us[0]), k);
    CutBytes(Commands(us[0]), k);
  }

  lemma CutFileCons(us: seq<Unit>, k: nat)
    requires us != [] && |EncodeAll(Commands(us[0]))| <= k <= |EncodeAll(Flatten(us))|
    ensures var k' := k - |EncodeAll(Commands(us[0]))|;
      && k' <= |EncodeAll(Flatten(us[1..]))|
      && CutFile(us, k) == CutFile(us[1..], k').(units := [us[0]] + CutFile(us[1..], k').units)
  {
    EncodeAllAppend(Commands(us[0]), Flatten(us[1..]));
    hide Encode, EncodeAll, Commands, Torn, WholeCount;
  }

  lemma CutAfterFirst(us: seq<Unit>, k: nat)
    requires us != [] && |EncodeAll(Commands(us[0]))| <= k <= |EncodeAll(Flatten(us))|
    requires k - |EncodeAll(Commands(us[0]))| <= |EncodeAll(Flatten(us[1..]))|
    requires var k' := k - |EncodeAll(Commands(us[0]))|; Remainder(us[1..], k', CutFile(us[1..], k'))
    ensures Remainder(us, k, CutFile(us, k))
  {
    hide CutFile, DoneBytes, CompleteUnits, Commands, Torn, WholeCount, EncodeAll, Flatten;
    var e := |EncodeAll(Commands(us[0]))|;
    DoneCons(us, k);
    CutFileCons(us, k);
    var n := CompleteUnits(us[1..], k - e);
    if n < |us[1..]| { assert us[n + 1] == us[1..][n]; }
  }

  /** Bytes are torn exactly when the cut is not between two commands. */
  lemma {:induction false} TornIsBetween(cmds: seq<Command>, k: nat)
    requires k < |EncodeAll(cmds)|
    ensures Torn(cmds, k) == [] <==> exists w :: 0 <= w <= |cmds| && |EncodeAll(cmds[..w])| == k
  {
    CutBytes(cmds, k);
    var n := WholeCount(cmds, k);
    if Torn(cmds, k) == [] {
      assert |EncodeAll(cmds[..n])| == k;
    } else if w :| 0 <= w <= |cmds| && |EncodeAll(cmds[..w])| == k {
      PrefixWhole(cmds, w, k);
    }
  }

  /** A cut after `w` whole commands keeps at least those. */
  lemma {:induction false} PrefixWhole(cmds: seq<Command>, w: nat, k: nat)
    requires w <= |cmds| && |EncodeAll(cmds[..w])| == k <= |EncodeAll(cmds)|
    ensures WholeCount(cmds, k) == w && Torn(cmds, k) == []
  {
    if w == 0 {
      assert EncodeAll(cmds)[..0] == [];
      if cmds != [] { assert |Encode(cmds[0])| > 0; }
    } else {
      assert cmds[..w] == [cmds[0]] + cmds[1..][..w - 1];
      EncodeCons(cmds[0], cmds[1..][..w - 1]);
      PrefixWhole(cmds[1..], w - 1, k - |Encode(cmds[0])|);
    }
  }

  lemma TearsMeans(us: seq<Unit>, k: nat)
    requires k <= |EncodeAll(Flatten(us))|
    ensures var cut := CutFile(us, k);
      && (TearsTransaction(us, k) <==> cut.torn != [] && cut.open.Some?)
      && (k == DoneBytes(us, k) <==> cut.torn == [] && cut.open.None?)
  {
    CutFileRemainder(us, k);
    var n, more := CompleteUnits(us, k), k - DoneBytes(us, k);
    if n < |us| {
      var cmds := Commands(us[n]);
      TornIsBetween(cmds, more);
      hide CutFile, DoneBytes, CompleteUnits;
      if us[n].Transaction? { assert cmds[0] == us[n].multi; }
      if more == 0 { NothingWhole(cmds); }
      if us[n].Single? { OneWhole(us[n].c, more); }
      CutBytes(cmds, more);
    }
  }

  lemma NothingWhole(cmds: seq<Command>)
    requires cmds != []
    ensures WholeCount(cmds, 0) == 0 && Torn(cmds, 0) == []
  {
  }

  lemma OneWhole(c: Command, k: nat)
    requires k < |EncodeAll([c])|
    ensures Torn([c], k) == [] <==> k == 0
  {
    assert EncodeAll([c]) == Encode(c) by { assert [c][1..] == []; }
  }

  /** Any `k` bytes of the file written for a stream of units: the loader runs exactly the units
      whose bytes are all there and reports no format error. Bytes past the last of them are cut
      off, and exactly those, unless the cut tears a command inside an open transaction. */
  lemma LoadAnyCut(us: seq<Unit>, k: nat, known: set<Bytes>)
    requires forall i :: 0 <= i < |us| ==> UnitOk(us[i], known)
    requires 0 < k <= |EncodeAll(Flatten(us))|
    ensures var (executed, outcome) := Load(EncodeAll(Flatten(us))[..k], known, true);
      && executed == Effects(us[..CompleteUnits(us, k)])
      && (outcome.Loaded? <==> k == DoneBytes(us, k))
      && (!outcome.Loaded? ==> outcome.Truncated? && DoneBytes(us, k) <= outcome.offset <= k)
      && (!outcome.Loaded? ==> (outcome.offset == DoneBytes(us, k) <==> !TearsTransaction(us, k)))
  {
    CutFileShape(us, k, known);
    TearsMeans(us, k);
    var cut := CutFile(us, k);
    LoadCut(cut, known);
    hide CutFile, TearsTransaction, Load, Effects;
    if cut.open.Some? {
      OpenIsNotEmpty(cut);
    } else {
      assert cut.Whole() == Flatten(cut.units);
    }
  }

  /** One transaction of one write, of which the file keeps MULTI and one byte more. */
  const TORN: seq<Unit> := [Transaction(["MULTI"], [["SET", "k", "v"]], ["EXEC"])]

  lemma TornIsOk()
    ensures UnitOk(TORN[0], {"multi", "set", "exec"})
    ensures EncodeAll(Flatten(TORN)) == Encode(["MULTI"]) + Encode(["SET", "k", "v"]) + Encode(["EXEC"])
    ensures Commands(TORN[0]) == [["MULTI"], ["SET", "k", "v"], ["EXEC"]]
  {
    hide Encode;
    assert Lower("MULTI") == "multi" && Lower("SET") == "set" && Lower("EXEC") == "exec";
    var all := [["MULTI"], ["SET", "k", "v"], ["EXEC"]];
    assert Commands(TORN[0]) == all;
    assert TORN[1..] == [] && all + [] == all;
    assert all[1..] == [["SET", "k", "v"], ["EXEC"]] && all[1..][1..] == [["EXEC"]] && all[1..][1..][1..] == [];
    assert EncodeAll(all) == Encode(all[0]) + (Encode(all[1]) + (Encode(all[2]) + []));
  }

  lemma MultiBytes()
    ensures Encode(["MULTI"]) == "*1\r\n$5\r\nMULTI\r\n"
  {
    assert Dec(1) == "1" && Dec(5) == "5";
    assert ["MULTI"][1..] == [];
    assert EncodeArgs(["MULTI"]) == EncodeArg("MULTI");
  }

  lemma TornCut()
    ensures CompleteUnits(TORN, 16) == 0 && DoneBytes(TORN, 16) == 0 && TearsTransaction(TORN, 16)
    ensures 16 < |EncodeAll(Flatten(TORN))|
  {
    TornIsOk();
    MultiBytes();
    EncodeIsLong(["SET", "k", "v"]);
    hide Encode;
    var all := Commands(TORN[0]);
    assert TORN[1..] == [] && all + [] == all;
    assert TORN[..0] == [];
    forall w | 0 <= w <= |all|
      ensures |EncodeAll(all[..w])| != 16
    {
      if w == 0 {
        assert all[..0] == [];
      } else {
        assert all[..w] == [all[0]] + all[1..][..w - 1];
        EncodeCons(all[0], all[1..][..w - 1]);
        if w > 1 {
          assert all[1..][..w - 1] == [all[1]] + all[2..][..w - 2];
          EncodeCons(all[1], all[2..][..w - 2]);
        } else {
          assert all[1..][..0] == [];
        }
      }
    }
  }

  lemma EncodeIsLong(argv: Command)
    ensures |Encode(argv)| > 3
  {
  }

  /** Those 16 bytes are not cut back to the start of the transaction. */
  lemma TornTransactionStays()
    ensures 16 < |EncodeAll(Flatten(TORN))|
    ensures var (executed, outcome) := Load(EncodeAll(Flatten(TORN))[..16], {"multi", "set", "exec"}, true);
      executed == [] && outcome.Truncated? && outcome.offset != 0
  {
    TornIsOk();
    TornCut();
    hide Load, TearsTransaction, UnitOk, Flatten, EncodeAll;
    LoadAnyCut(TORN, 16, {"multi", "set", "exec"});
    assert TORN[..0] == [];
  }
}
