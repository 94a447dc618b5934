/** Commands that push, pop, store and block, each batch followed by the drain of ready keys, and
    what holds between batches of any run. */
module BlockedRuns {
  import opened Common
  import opened Blocked
  import opened BlockedIndex
  import opened BlockedDrain

  /** One command, or one way a client stops waiting. A command inside MULTI/EXEC never blocks. A value
      that is no list signals its key when the key is new and the value a sorted set or a stream. */
  datatype Act =
    | Push(key: Key, values: seq<Value>, where: Where)
    | BlockingPop(client: Client, names: seq<Key>, where: Where, multi: bool)
    | BlockingPopPush(client: Client, source: Key, target: Key, multi: bool)
    | WaitForOther(client: Client, names: seq<Key>)
    | GiveUp(client: Client)
    | Pop(key: Key, where: Where)
    | PopPush(source: Key, target: Key)
    | Remove(key: Key)
    | SetOther(key: Key, signals: bool)
    | Store(key: Key, items: seq<Value>)

  // ----- the commands

  function PushAll(s: State, k: Key, values: seq<Value>, where: Where): State
    requires k in s.db ==> s.db[k].List?
    decreases values
  {
    if values == [] then s else PushAll(PushOne(s, k, values[0], where), k, values[1..], where)
  }

  function PushValues(s: State, k: Key, values: seq<Value>, where: Where): State {
    if k in s.db && s.db[k].Other? then s else PushAll(s, k, values, where)
  }

  function PopItem(s: State, k: Key, where: Where): State {
    var items := Items(s, k);
    if items == [] then s
    else
      var rest := if where == Head then items[1..] else items[..|items| - 1];
      DropIfEmpty(s.(db := s.db[k := List(rest)]), k)
  }

  /** The first key that is of another type or has items decides the command. */
  function FirstPresent(s: State, names: seq<Key>): (r: Option<Key>)
    ensures r.Some? ==> r.value in names && r.value in s.db && s.db[r.value] != List([])
    ensures r.None? ==> forall k :: k in names ==> k !in s.db || s.db[k] == List([])
  {
    if names == [] then None
    else if names[0] in s.db && s.db[names[0]] != List([]) then Some(names[0])
    else FirstPresent(s, names[1..])
  }

  function PopOrBlock(s: State, c: Client, names: seq<Key>, where: Where, multi: bool): State {
    match FirstPresent(s, names)
    case Some(k) => if s.db[k].Other? then s else PopItem(s, k, where)
    case None => if multi then s else Block(s, c, true, names, None, where)
  }

  function MoveItem(s: State, source: Key, target: Key): State {
    var items := Items(s, source);
    if items == [] || (target in s.db && s.db[target].Other?) then s
    else
      var t := s.(db := s.db[source := List(items[..|items| - 1])]);
      DropIfEmpty(PushOne(t, target, items[|items| - 1], Head), source)
  }

  function MoveOrBlock(s: State, c: Client, source: Key, target: Key, multi: bool): State {
    if source in s.db then MoveItem(s, source, target)
    else if multi then s
    else Block(s, c, true, [source], Some(target), Tail)
  }

  /** setKey of a computed list, or deletion when there is nothing to store. */
  function StoreList(s: State, k: Key, items: seq<Value>): State {
    if items == [] then s.(db := s.db - {k})
    else if k !in s.db then AddList(s, k, items)
    else s.(db := s.db[k := List(items)])
  }

  function SetValue(s: State, k: Key, signals: bool): State {
    var t := s.(db := s.db[k := Other]);
    if signals && k !in s.db then Signal(t, k) else t
  }

  predicate Enabled(s: State, a: Act) {
    match a
    case BlockingPop(c, names, _, _) => c !in s.clients && names != []
    case BlockingPopPush(c, _, _, _) => c !in s.clients
    case WaitForOther(c, names) => c !in s.clients && names != []
    case GiveUp(c) => c in s.clients
    case _ => true
  }

  function Perform(s: State, a: Act): State
    requires Enabled(s, a)
  {
    match a
    case Push(k, values, where) => PushValues(s, k, values, where)
    case BlockingPop(c, names, where, multi) => PopOrBlock(s, c, names, where, multi)
    case BlockingPopPush(c, source, target, multi) => MoveOrBlock(s, c, source, target, multi)
    case WaitForOther(c, names) => Block(s, c, false, names, None, Head)
    case GiveUp(c) => Unblock(s, c)
    case Pop(k, where) => PopItem(s, k, where)
    case PopPush(source, target) => MoveItem(s, source, target)
    case Remove(k) => s.(db := s.db - {k})
    case SetOther(k, signals) => SetValue(s, k, signals)
    case Store(k, items) => StoreList(s, k, items)
  }

  /** A store over an existing key never signals it. */
  ghost predicate SilentStore(s: State, a: Act) {
    a.Store? && a.items != [] && a.key in s.db && a.key !in s.ready && ListWaiter(s, a.key)
  }

  // ----- every command keeps what must be served queued

  /** A key that gained items was signalled. */
  ghost predicate Fed(s: State, t: State, x: Key) {
    Items(t, x) != [] ==> Items(s, x) != [] || (x in t.waiting ==> x in t.readyDb)
  }

  ghost predicate DbFed(s: State, t: State) {
    && SameIndex(s, t) && s.ready <= t.ready
    && (forall x :: x in t.readyDb ==> x in s.readyDb || x in t.ready)
    && (forall x :: Fed(s, t, x))
  }

  lemma FedHungry(s: State, t: State, x: Key)
    requires DrainOk(s, [], {}) && DbFed(s, t) && Hungry(t, x)
    ensures x in t.ready
  {
    assert Queue(t, x) == Queue(s, x);
    assert Fed(s, t, x);
    if Items(s, x) != [] {
      assert Hungry(s, x);
    }
  }

  lemma FedKeeps(s: State, t: State)
    requires DrainOk(s, [], {}) && DbFed(s, t) && NoEmpty(t, {})
    ensures DrainOk(t, [], {})
  {
    IndexOfSame(s, t);
    hide IndexOk, Hungry;
    forall x | Hungry(t, x)
      ensures x in t.ready
    {
      FedHungry(s, t, x);
    }
  }

  lemma DbFedTransitive(s: State, m: State, t: State)
    requires DbFed(s, m) && DbFed(m, t) && m.readyDb <= t.readyDb
    ensures DbFed(s, t)
  {
    forall x
      ensures Fed(s, t, x)
    {
      assert Fed(s, m, x) && Fed(m, t, x);
    }
  }

  lemma PushOneFeeds(s: State, k: Key, v: Value, where: Where)
    requires (k in s.db ==> s.db[k].List? && s.db[k] != List([]))
    ensures var t := PushOne(s, k, v, where);
      && DbFed(s, t) && s.readyDb <= t.readyDb && k in t.db && t.db[k].List? && t.db[k] != List([])
      && (forall x :: x in t.db && x != k ==> x in s.db && t.db[x] == s.db[x])
  {
  }

  lemma {:induction false} PushAllFeeds(s: State, k: Key, values: seq<Value>, where: Where)
    requires (k in s.db ==> s.db[k].List? && s.db[k] != List([]))
    ensures var t := PushAll(s, k, values, where);
      && DbFed(s, t) && s.readyDb <= t.readyDb
      && (k in t.db ==> t.db[k] != List([]))
      && (forall x :: x in t.db && x != k ==> x in s.db && t.db[x] == s.db[x])
    decreases values
  {
    if values != [] {
      PushOneFeeds(s, k, values[0], where);
      var m := PushOne(s, k, values[0], where);
      hide PushOne, DbFed;
      PushAllFeeds(m, k, values[1..], where);
      DbFedTransitive(s, m, PushAll(m, k, values[1..], where));
    }
  }

  lemma PopItemFeeds(s: State, k: Key, where: Where)
    requires NoEmpty(s, {})
    ensures DbFed(s, PopItem(s, k, where)) && NoEmpty(PopItem(s, k, where), {})
  {
  }

  lemma MoveItemFeeds(s: State, source: Key, target: Key)
    requires NoEmpty(s, {})
    ensures DbFed(s, MoveItem(s, source, target)) && NoEmpty(MoveItem(s, source, target), {})
  {
    var items := Items(s, source);
    if items != [] && (target in s.db ==> s.db[target].List?) {
      var m := s.(db := s.db[source := List(items[..|items| - 1])]);
      var t := PushOne(m, target, items[|items| - 1], Head);
      PushMoved(s, m, source, target, items[|items| - 1]);
      hide PushOne;
    }
  }

  /** Pushing the item taken from `source`, whose list may now be empty. */
  lemma PushMoved(s: State, m: State, source: Key, target: Key, v: Value)
    requires NoEmpty(s, {}) && Items(s, source) != [] && (target in s.db ==> s.db[target].List?)
    requires m == s.(db := s.db[source := List(Items(s, source)[..|Items(s, source)| - 1])])
    ensures var t := PushOne(m, target, v, Head);
      && DbFed(s, t) && target in t.db && t.db[target] != List([])
      && (forall x :: x in t.db && x != source && x != target ==> x in s.db && t.db[x] == s.db[x])
  {
  }

  // ----- blocking

  /** Blocking only adds the new client, to the waiting lists of the keys it names. */
  ghost predicate Joined(s: State, t: State, c: Client, names: seq<Key>, x: Key) {
    forall e :: e in Queue(t, x) ==> e in Queue(s, x) || (e.client == c && x in names)
  }

  lemma {:induction false} BlockLoopJoins(s: State, c: Client, keys: map<Key, Node>, names: seq<Key>, x: Key)
    ensures Joined(s, BlockLoop(s, c, keys, names).0, c, names, x)
    decreases names
  {
    if names != [] {
      var (m, more) := BlockOne(s, c, keys, names[0]);
      BlockLoopJoins(m, c, more, names[1..], x);
    }
  }

  ghost predicate OnlyAdds(s: State, t: State, c: Client, list: bool) {
    && c in t.clients && t.clients[c].onList == list
    && forall d :: d in t.clients && d != c ==> d in s.clients && t.clients[d] == s.clients[d]
  }

  lemma {:induction false} BlockLoopFrame(s: State, c: Client, keys: map<Key, Node>, names: seq<Key>)
    ensures var t := BlockLoop(s, c, keys, names).0; t.clients == s.clients && t.db == s.db
    decreases names
  {
    if names != [] {
      var (m, more) := BlockOne(s, c, keys, names[0]);
      BlockLoopFrame(m, c, more, names[1..]);
    }
  }

  lemma BlockEffect(s: State, c: Client, list: bool, names: seq<Key>, target: Option<Key>, where: Where, x: Key)
    ensures var t := Block(s, c, list, names, target, where);
      Joined(s, t, c, names, x) && t.db == s.db && OnlyAdds(s, t, c, list)
  {
    BlockLoopFrame(s, c, map[], names);
    BlockLoopJoins(s, c, map[], names, x);
    var r := BlockLoop(s, c, map[], names);
    hide BlockLoop, Joined;
    JoinedSame(s, r.0, Block(s, c, list, names, target, where), c, names, x);
  }

  lemma JoinedSame(s: State, m: State, t: State, c: Client, names: seq<Key>, x: Key)
    requires Joined(s, m, c, names, x) && t.waiting == m.waiting
    ensures Joined(s, t, c, names, x)
  {
    assert Queue(t, x) == Queue(m, x);
  }

  lemma JoinedWaiter(s: State, t: State, c: Client, list: bool, names: seq<Key>, x: Key)
    requires Joined(s, t, c, names, x) && OnlyAdds(s, t, c, list) && (list ==> x !in names) && ListWaiter(t, x)
    requires IndexOk(s) && c !in s.clients
    ensures ListWaiter(s, x)
  {
    assert forall e :: e in Queue(s, x) ==> e.client != c by {
      assert x in s.waiting ==> QueueOk(s.waiting[x], x, s.clients, s.nextNode);
    }
    hide IndexOk;
    var e :| e in Queue(t, x) && IsList(t.clients, e);
    assert e in Queue(s, x) && IsList(s.clients, e);
  }

  lemma BlockHungry(s: State, c: Client, list: bool, names: seq<Key>, target: Option<Key>, where: Where, x: Key)
    requires IndexOk(s) && c !in s.clients
    requires list ==> forall k :: k in names ==> Items(s, k) == []
    requires Hungry(Block(s, c, list, names, target, where), x)
    ensures Hungry(s, x)
  {
    BlockEffect(s, c, list, names, target, where, x);
    hide IndexOk, Block, OnlyAdds, Joined, ListWaiter;
    JoinedWaiter(s, Block(s, c, list, names, target, where), c, list, names, x);
  }

  lemma BlockKeeps(s: State, c: Client, list: bool, names: seq<Key>, target: Option<Key>, where: Where)
    requires DrainOk(s, [], {}) && c !in s.clients && names != []
    requires list ==> forall k :: k in names ==> Items(s, k) == []
    ensures DrainOk(Block(s, c, list, names, target, where), [], {})
  {
    BlockKeepsIndex(s, c, list, names, target, where);
    var t := Block(s, c, list, names, target, where);
    hide IndexOk, Block, Hungry;
    forall x | Hungry(t, x)
      ensures Hungry(s, x)
    {
      BlockHungry(s, c, list, names, target, where, x);
    }
  }

  lemma UnblockKeeps(s: State, c: Client)
    requires DrainOk(s, [], {}) && c in s.clients
    ensures DrainOk(Unblock(s, c), [], {})
  {
    UnblockKeepsIndex(s, c);
    var t := Unblock(s, c);
    assert t.db == s.db && t.ready == s.ready && t.readyDb == s.readyDb && SameIndex(t, t);
    hide IndexOk, Unblock, Hungry;
    forall x | Hungry(t, x)
      ensures Hungry(s, x)
    {
      UnblockHungry(s, c, x);
    }
  }

  lemma UnblockHungry(s: State, c: Client, x: Key)
    requires IndexOk(s) && c in s.clients && Hungry(Unblock(s, c), x)
    ensures Hungry(s, x)
  {
    WaiterShrinks(s, Unblock(s, c), c, x);
  }

  // ----- one lemma per command

  lemma PushKeeps(s: State, k: Key, values: seq<Value>, where: Where)
    requires DrainOk(s, [], {})
    ensures DrainOk(PushValues(s, k, values, where), [], {})
  {
    if !(k in s.db && s.db[k].Other?) {
      PushAllFeeds(s, k, values, where);
      assert NoEmpty(PushAll(s, k, values, where), {});
      hide DrainOk, DbFed, PushAll;
      FedKeeps(s, PushAll(s, k, values, where));
    }
  }

  lemma PopKeeps(s: State, k: Key, where: Where)
    requires DrainOk(s, [], {})
    ensures DrainOk(PopItem(s, k, where), [], {})
  {
    PopItemFeeds(s, k, where);
    hide DrainOk, DbFed, PopItem;
    FedKeeps(s, PopItem(s, k, where));
  }

  lemma MoveKeeps(s: State, source: Key, target: Key)
    requires DrainOk(s, [], {})
    ensures DrainOk(MoveItem(s, source, target), [], {})
  {
    MoveItemFeeds(s, source, target);
    hide DrainOk, DbFed, MoveItem;
    FedKeeps(s, MoveItem(s, source, target));
  }

  lemma RemoveKeeps(s: State, k: Key)
    requires DrainOk(s, [], {})
    ensures DrainOk(s.(db := s.db - {k}), [], {})
  {
    hide IndexOk, Pending, Marked;
    assert NoEmpty(s.(db := s.db - {k}), {});
    hide DrainOk;
    assert DbFed(s, s.(db := s.db - {k}));
    FedKeeps(s, s.(db := s.db - {k}));
  }

  lemma SetValueFeeds(s: State, k: Key, signals: bool)
    requires NoEmpty(s, {})
    ensures DbFed(s, SetValue(s, k, signals)) && NoEmpty(SetValue(s, k, signals), {})
  {
  }

  lemma SetValueKeeps(s: State, k: Key, signals: bool)
    requires DrainOk(s, [], {})
    ensures DrainOk(SetValue(s, k, signals), [], {})
  {
    hide IndexOk, Pending, Marked, SetValue;
    SetValueFeeds(s, k, signals);
    hide DrainOk, DbFed;
    FedKeeps(s, SetValue(s, k, signals));
  }

  lemma AddListFeeds(s: State, k: Key, items: seq<Value>)
    requires NoEmpty(s, {}) && k !in s.db && items != []
    ensures DbFed(s, AddList(s, k, items)) && NoEmpty(AddList(s, k, items), {})
  {
  }

  lemma AddListKeeps(s: State, k: Key, items: seq<Value>)
    requires DrainOk(s, [], {}) && k !in s.db && items != []
    ensures DrainOk(AddList(s, k, items), [], {})
  {
    hide IndexOk, Pending, Marked, AddList;
    AddListFeeds(s, k, items);
    hide DrainOk, DbFed;
    FedKeeps(s, AddList(s, k, items));
  }

  lemma OverwriteHungry(s: State, k: Key, items: seq<Value>, x: Key)
    requires Hungry(s.(db := s.db[k := List(items)]), x)
    ensures ListWaiter(s, x) && (x != k ==> Hungry(s, x))
  {
    assert Queue(s.(db := s.db[k := List(items)]), x) == Queue(s, x);
  }

  lemma OverwriteKeeps(s: State, k: Key, items: seq<Value>)
    requires DrainOk(s, [], {}) && items != [] && (k in s.ready || !ListWaiter(s, k))
    ensures DrainOk(s.(db := s.db[k := List(items)]), [], {})
  {
    hide IndexOk, Hungry, ListWaiter;
    var t := s.(db := s.db[k := List(items)]);
    IndexOfSame(s, t);
    forall x | Hungry(t, x)
      ensures x in t.ready
    {
      OverwriteHungry(s, k, items, x);
    }
  }

  lemma StoreKeeps(s: State, k: Key, items: seq<Value>)
    requires DrainOk(s, [], {}) && !SilentStore(s, Store(k, items))
    ensures DrainOk(StoreList(s, k, items), [], {})
  {
    hide DrainOk;
    if items == [] {
      RemoveKeeps(s, k);
    } else if k !in s.db {
      AddListKeeps(s, k, items);
    } else {
      OverwriteKeeps(s, k, items);
    }
  }

  lemma PopOrBlockKeeps(s: State, c: Client, names: seq<Key>, where: Where, multi: bool)
    requires DrainOk(s, [], {}) && c !in s.clients && names != []
    ensures DrainOk(PopOrBlock(s, c, names, where, multi), [], {})
  {
    hide DrainOk, PopItem, Block;
    if FirstPresent(s, names).Some? {
      PopKeeps(s, FirstPresent(s, names).value, where);
    } else {
      BlockKeeps(s, c, true, names, None, where);
    }
  }

  lemma MoveOrBlockKeeps(s: State, c: Client, source: Key, target: Key, multi: bool)
    requires DrainOk(s, [], {}) && c !in s.clients
    ensures DrainOk(MoveOrBlock(s, c, source, target, multi), [], {})
  {
    hide DrainOk, MoveItem, Block;
    if source in s.db {
      MoveKeeps(s, source, target);
    } else {
      BlockKeeps(s, c, true, [source], Some(target), Tail);
    }
  }

  // ----- whole runs

  /** No command but a silent store leaves a servable client unqueued. */
  lemma PerformKeeps(s: State, a: Act)
    requires DrainOk(s, [], {}) && Enabled(s, a) && !SilentStore(s, a)
    ensures DrainOk(Perform(s, a), [], {})
  {
    hide DrainOk, PushValues, PopOrBlock, MoveOrBlock, Block, Unblock, PopItem, MoveItem, StoreList, SetValue;
    match a
    case Push(k, values, where) => PushKeeps(s, k, values, where);
    case BlockingPop(c, names, where, multi) => PopOrBlockKeeps(s, c, names, where, multi);
    case BlockingPopPush(c, source, target, multi) => MoveOrBlockKeeps(s, c, source, target, multi);
    case WaitForOther(c, names) => BlockKeeps(s, c, false, names, None, Head);
    case GiveUp(c) => UnblockKeeps(s, c);
    case Pop(k, where) => PopKeeps(s, k, where);
    case PopPush(source, target) => MoveKeeps(s, source, target);
    case Remove(k) => RemoveKeeps(s, k);
    case SetOther(k, signals) => SetValueKeeps(s, k, signals);
    case Store(k, items) => StoreKeeps(s, k, items);
  }

  /** The commands of one batch (one command, or a whole MULTI/EXEC) all run before the drain. */
  predicate BatchOk(s: State, batch: seq<Act>)
    decreases batch
  {
    batch != [] ==> Enabled(s, batch[0]) && BatchOk(Perform(s, batch[0]), batch[1..])
  }

  function RunBatch(s: State, batch: seq<Act>): State
    requires BatchOk(s, batch)
    decreases batch
  {
    if batch == [] then Drain(s) else RunBatch(Perform(s, batch[0]), batch[1..])
  }

  /** No command of the batch is a silent store. */
  ghost predicate BatchSignals(s: State, batch: seq<Act>)
    requires BatchOk(s, batch)
    decreases batch
  {
    batch != [] ==> !SilentStore(s, batch[0]) && BatchSignals(Perform(s, batch[0]), batch[1..])
  }

  predicate RunOk(s: State, run: seq<seq<Act>>)
    decreases run
  {
    run != [] ==> BatchOk(s, run[0]) && RunOk(RunBatch(s, run[0]), run[1..])
  }

  function RunAll(s: State, run: seq<seq<Act>>): State
    requires RunOk(s, run)
    decreases run
  {
    if run == [] then s else RunAll(RunBatch(s, run[0]), run[1..])
  }

  ghost predicate RunSignals(s: State, run: seq<seq<Act>>)
    requires RunOk(s, run)
    decreases run
  {
    run != [] ==> BatchSignals(s, run[0]) && RunSignals(RunBatch(s, run[0]), run[1..])
  }

  lemma {:induction false} BatchKeeps(s: State, batch: seq<Act>)
    requires DrainOk(s, [], {}) && BatchOk(s, batch) && BatchSignals(s, batch)
    ensures var t := RunBatch(s, batch); DrainOk(t, [], {}) && t.ready == [] && Quiescent(t)
    decreases batch
  {
    hide DrainOk, Perform, Quiescent, Drain;
    if batch == [] {
      DrainQuiesces(s);
    } else {
      PerformKeeps(s, batch[0]);
      BatchKeeps(Perform(s, batch[0]), batch[1..]);
    }
  }

  /** Nothing stored, nobody blocked. */
  function Start(): State {
    State(map[], map[], map[], 0, [], {}, 0, [], [])
  }

  lemma {:induction false} RunKeeps(s: State, run: seq<seq<Act>>)
    requires DrainOk(s, [], {}) && s.ready == [] && Quiescent(s) && RunOk(s, run) && RunSignals(s, run)
    ensures var t := RunAll(s, run); DrainOk(t, [], {}) && t.ready == [] && Quiescent(t)
    decreases run
  {
    hide DrainOk, BatchOk, RunBatch, BatchSignals, Quiescent;
    if run != [] {
      BatchKeeps(s, run[0]);
      RunKeeps(RunBatch(s, run[0]), run[1..]);
    }
  }

  /** No wake-up is lost: after any run without a silent store, no client waits for a list that has
      items, no key holds an empty list, no ready key is forgotten, and the index agrees. */
  lemma NoLostWakeUp(run: seq<seq<Act>>)
    requires RunOk(Start(), run) && RunSignals(Start(), run)
    ensures var t := RunAll(Start(), run);
      && Quiescent(t) && IndexOk(t) && t.ready == [] && t.readyDb == {}
      && (forall k :: k in t.db ==> t.db[k] != List([]))
  {
    assert DrainOk(Start(), [], {}) && Quiescent(Start()) by {
      assert forall k :: !ListWaiter(Start(), k);
    }
    RunKeeps(Start(), run);
  }

  // ----- the index, over every run

  lemma {:induction false} PushAllSameIndex(s: State, k: Key, values: seq<Value>, where: Where)
    requires k in s.db ==> s.db[k].List?
    ensures SameIndex(s, PushAll(s, k, values, where))
    decreases values
  {
    if values != [] { PushAllSameIndex(PushOne(s, k, values[0], where), k, values[1..], where); }
  }

  lemma MoveSameIndex(s: State, source: Key, target: Key)
    ensures SameIndex(s, MoveItem(s, source, target))
  {
    hide PushItem;
  }

  /** A command that blocks and unblocks nobody leaves the index alone. */
  lemma CommandSameIndex(s: State, a: Act)
    requires Enabled(s, a) && !a.BlockingPop? && !a.BlockingPopPush? && !a.WaitForOther? && !a.GiveUp?
    ensures SameIndex(s, Perform(s, a))
  {
    hide PushAll, MoveItem, PopOrBlock, MoveOrBlock, Block, Unblock;
    if a.PopPush? {
      MoveSameIndex(s, a.source, a.target);
    } else if a.Push? && !(a.key in s.db && s.db[a.key].Other?) {
      PushAllSameIndex(s, a.key, a.values, a.where);
    }
  }

  lemma PerformKeepsIndex(s: State, a: Act)
    requires IndexOk(s) && Enabled(s, a)
    ensures IndexOk(Perform(s, a))
  {
    hide IndexOk, Block, Unblock, PopItem, MoveItem;
    match a
    case BlockingPop(c, names, where, multi) =>
      if FirstPresent(s, names).Some? {
        CommandSameIndex(s, Pop(FirstPresent(s, names).value, where));
        IndexOfSame(s, PopItem(s, FirstPresent(s, names).value, where));
      } else {
        BlockKeepsIndex(s, c, true, names, None, where);
      }
    case BlockingPopPush(c, source, target, multi) =>
      CommandSameIndex(s, PopPush(source, target));
      IndexOfSame(s, MoveItem(s, source, target));
      BlockKeepsIndex(s, c, true, [source], Some(target), Tail);
    case WaitForOther(c, names) => BlockKeepsIndex(s, c, false, names, None, Head);
    case GiveUp(c) => UnblockKeepsIndex(s, c);
    case _ =>
      CommandSameIndex(s, a);
      IndexOfSame(s, Perform(s, a));
  }

  lemma {:induction false} BatchKeepsIndex(s: State, batch: seq<Act>)
    requires IndexOk(s) && BatchOk(s, batch)
    ensures IndexOk(RunBatch(s, batch))
    decreases batch
  {
    hide IndexOk, Perform, Drain;
    if batch == [] {
      DrainKeepsIndex(s);
    } else {
      PerformKeepsIndex(s, batch[0]);
      BatchKeepsIndex(Perform(s, batch[0]), batch[1..]);
    }
  }

  lemma {:induction false} RunKeepsIndex(s: State, run: seq<seq<Act>>)
    requires IndexOk(s) && RunOk(s, run)
    ensures IndexOk(RunAll(s, run))
    decreases run
  {
    hide IndexOk, BatchOk, RunBatch;
    if run != [] {
      BatchKeepsIndex(s, run[0]);
      RunKeepsIndex(RunBatch(s, run[0]), run[1..]);
    }
  }

  /** After every run, silent stores included, a key is among a client's keys exactly when the client
      is in the waiting list of the key, once and at the node it stored; no waiting list is empty
      and the count of blocked clients is right. */
  lemma IndexAlwaysAgrees(run: seq<seq<Act>>)
    requires RunOk(Start(), run)
    ensures IndexOk(RunAll(Start(), run))
  {
    RunKeepsIndex(Start(), run);
  }

  // ----- the stores that lose a wake-up

  lemma OverwriteStrands(s: State, k: Key, items: seq<Value>)
    requires s.ready == [] && items != [] && ListWaiter(s, k)
    ensures var t := s.(db := s.db[k := List(items)]); Drain(t) == t && Hungry(t, k)
  {
    assert Queue(s.(db := s.db[k := List(items)]), k) == Queue(s, k);
  }

  /** A store is followed by a lost wake-up exactly when it overwrites a key that a list client
      waits for. */
  lemma StoreIsExact(s: State, k: Key, items: seq<Value>)
    requires DrainOk(s, [], {}) && s.ready == [] && items != []
    ensures Quiescent(Drain(StoreList(s, k, items))) <==> !(k in s.db && ListWaiter(s, k))
  {
    hide DrainOk, Drain, ListWaiter, Hungry;
    if k in s.db && ListWaiter(s, k) {
      OverwriteStrands(s, k, items);
    } else {
      StoreKeeps(s, k, items);
      hide StoreList, Quiescent;
      DrainQuiesces(StoreList(s, k, items));
    }
  }

  /** It happens: a client blocks on a missing key, the key gets a string, and a computed list
      then overwrites the string. The client waits although the list has an item. */
  lemma SilentStoreStrands()
    ensures exists run: seq<seq<Act>>, last: Act ::
      && RunOk(Start(), run) && RunSignals(Start(), run) && Enabled(RunAll(Start(), run), last)
      && !Quiescent(Drain(Perform(RunAll(Start(), run), last)))
  {
    hide *;
    var block, put, store := BlockingPop(1, ["k"], Head, false), SetOther("k", false), Store("k", ["v"]);
    BlockThenSet(Start(), block, put);
    var s2 := Drain(Perform(Drain(Perform(Start(), block)), put));
    TwoBatches(Start(), block, put);
    StoreStrands(s2, "k", ["v"]);
    assert RunAll(Start(), [[block], [put]]) == s2;
    assert Enabled(s2, store) && !Quiescent(Drain(Perform(s2, store)));
  }

  /** A client blocks on a missing key, which then gets a value that signals nothing. */
  lemma BlockThenSet(s: State, block: Act, put: Act)
    requires s == Start() && block == BlockingPop(1, ["k"], Head, false) && put == SetOther("k", false)
    ensures Enabled(s, block) && !SilentStore(s, block)
    ensures var m := Drain(Perform(s, block));
      && Enabled(m, put) && !SilentStore(m, put)
      && var t := Drain(Perform(m, put)); t.ready == [] && "k" in t.db && ListWaiter(t, "k")
  {
    BlockOnOne(s);
    var m := Perform(s, block);
    hide PopOrBlock;
    assert Drain(m) == m;
    var t := Perform(m, put);
    assert Drain(t) == t && Queue(t, "k") == Queue(m, "k");
  }

  lemma StoreStrands(s: State, k: Key, items: seq<Value>)
    requires s.ready == [] && items != [] && k in s.db && ListWaiter(s, k)
    ensures Enabled(s, Store(k, items)) && !Quiescent(Drain(Perform(s, Store(k, items))))
  {
    OverwriteStrands(s, k, items);
  }

  lemma TwoBatches(s: State, a: Act, b: Act)
    requires Enabled(s, a) && !SilentStore(s, a)
    requires var m := Drain(Perform(s, a)); Enabled(m, b) && !SilentStore(m, b)
    ensures RunOk(s, [[a], [b]]) && RunSignals(s, [[a], [b]])
    ensures RunAll(s, [[a], [b]]) == Drain(Perform(Drain(Perform(s, a)), b))
  {
    hide Drain, Perform, SilentStore, Enabled, BatchOk, RunBatch, BatchSignals;
    OneActRun(s, a);
    var m := Drain(Perform(s, a));
    OneActRun(m, b);
    var run := [[a], [b]];
    assert run[1..] == [[b]] && run[1..][1..] == [];
    assert RunOk(Drain(Perform(m, b)), []) && RunSignals(Drain(Perform(m, b)), []);
    assert RunOk(m, run[1..]) && RunSignals(m, run[1..]) && RunAll(m, run[1..]) == Drain(Perform(m, b));
  }

  lemma BlockOnOne(s: State)
    requires s == Start()
    ensures var t := Perform(s, BlockingPop(1, ["k"], Head, false));
      && t.ready == [] && t.db == map[] && Entry(0, 1) in Queue(t, "k")
      && IsList(t.clients, Entry(0, 1))
  {
    var (m, keys) := BlockOne(s, 1, map[], "k");
    assert ["k"][1..] == [];
    assert BlockLoop(s, 1, map[], ["k"]) == BlockLoop(m, 1, keys, []);
    assert m.waiting["k"] == [Entry(0, 1)];
  }

  lemma OneActRun(s: State, a: Act)
    requires Enabled(s, a) && !SilentStore(s, a)
    ensures BatchOk(s, [a]) && BatchSignals(s, [a]) && RunBatch(s, [a]) == Drain(Perform(s, a))
  {
    assert [a][1..] == [];
    assert BatchOk(Perform(s, a), []) && BatchSignals(Perform(s, a), []);
  }
}
