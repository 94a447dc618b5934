/** Whose turn it is: blocking joins a waiting list at its end, leaving it keeps the order of the
    others, and over every run the clients that wait for a list stay in the order they blocked in. */
module BlockedTurns {
  import opened Common
  import opened Blocked
  import opened BlockedIndex
  import opened BlockedDrain
  import opened BlockedRuns

  // ----- joining

  /** The client joined at the end, with a node no one had before. */
  ghost predicate Appended(s: State, t: State, c: Client, x: Key, n: Node) {
    Queue(t, x) == Queue(s, x) + [Entry(n, c)] && s.nextNode <= n
  }

  ghost predicate Joins(s: State, t: State, c: Client, keys: map<Key, Node>, more: map<Key, Node>, names: seq<Key>,
                        x: Key) {
    if x in names && x !in keys then x in more && Appended(s, t, c, x, more[x])
    else Queue(t, x) == Queue(s, x) && (x in more <==> x in keys) && (x in keys ==> more[x] == keys[x])
  }

  lemma {:induction false} BlockLoopAppends(s: State, c: Client, keys: map<Key, Node>, names: seq<Key>, x: Key)
    ensures var (t, more) := BlockLoop(s, c, keys, names); Joins(s, t, c, keys, more, names, x)
    decreases names
  {
    if names != [] {
      var (m, more) := BlockOne(s, c, keys, names[0]);
      BlockLoopAppends(m, c, more, names[1..], x);
    }
  }

  /** Blocking on keys: the client waits for exactly those, at the end of each of their lists. */
  lemma BlockAppends(s: State, c: Client, list: bool, names: seq<Key>, target: Option<Key>, where: Where, x: Key)
    ensures var t := Block(s, c, list, names, target, where);
      && c in t.clients && (x in t.clients[c].keys <==> x in names)
      && t.clients[c] == Wait(list, t.clients[c].keys, target, where) && t.clients == s.clients[c := t.clients[c]]
      && (x in names ==> Appended(s, t, c, x, t.clients[c].keys[x]))
      && (x !in names ==> Queue(t, x) == Queue(s, x))
  {
    BlockLoopAppends(s, c, map[], names, x);
    BlockLoopFrame(s, c, map[], names);
    var r := BlockLoop(s, c, map[], names);
    hide BlockLoop;
    assert Queue(Block(s, c, list, names, target, where), x) == Queue(r.0, x);
  }

  // ----- leaving

  /** `r` is `q` without the entries of one client, the others in the order they were. */
  ghost predicate Left(q: seq<Entry>, c: Client, r: seq<Entry>) {
    || (r == q && forall e :: e in q ==> e.client != c)
    || exists i :: 0 <= i < |q| && q[i].client == c && r == q[..i] + q[i + 1..]
  }

  lemma {:induction false} DropNodeAt(q: seq<Entry>, n: Node, i: nat)
    requires i < |q| && q[i].node == n && forall j :: 0 <= j < i ==> q[j].node != n
    ensures DropNode(q, n) == q[..i] + q[i + 1..]
  {
    if i > 0 {
      DropNodeAt(q[1..], n, i - 1);
      assert q[1..][..i - 1] == q[1..i] && q[1..][i..] == q[i + 1..];
    }
  }

  /** Unblocking takes the client out of every list it is in and moves nobody else. */
  lemma UnblockLeaves(s: State, c: Client, x: Key)
    requires IndexOk(s) && c in s.clients
    ensures Left(Queue(s, x), c, Queue(Unblock(s, c), x))
  {
    var q, w := Queue(s, x), s.clients[c];
    assert x in s.waiting ==> QueueOk(q, x, s.clients, s.nextNode);
    if x in w.keys {
      assert ClientLinked(w, c, s.waiting);
      var i :| 0 <= i < |q| && q[i] == Entry(w.keys[x], c);
      DropNodeAt(q, w.keys[x], i);
      assert Queue(Unblock(s, c), x) == q[..i] + q[i + 1..];
    } else {
      assert forall e :: e in q ==> EntryOk(e, x, s.clients, s.nextNode);
    }
  }

  // ----- the order over a run

  /** Nodes are numbered as clients block, so this is the order in which they did. */
  ghost predicate Ordered(clients: map<Client, Wait>, q: seq<Entry>) {
    forall i, j :: 0 <= i < j < |q| && IsList(clients, q[i]) && IsList(clients, q[j]) ==> q[i].node < q[j].node
  }

  /** Clients that wait for a list stand in the order they blocked in, and those with a destination
      pop from the tail. */
  ghost predicate InTurn(s: State) {
    && (forall x :: Ordered(s.clients, Queue(s, x)))
    && (forall c :: c in s.clients && s.clients[c].target.Some? ==> s.clients[c].where == Tail)
  }

  lemma SameInTurn(s: State, t: State)
    requires InTurn(s) && t.clients == s.clients && t.waiting == s.waiting
    ensures InTurn(t)
  {
    forall x ensures Ordered(t.clients, Queue(t, x)) {
      assert Queue(t, x) == Queue(s, x);
    }
  }

  lemma LeftOrdered(clients: map<Client, Wait>, q: seq<Entry>, c: Client, r: seq<Entry>)
    requires Ordered(clients, q) && Left(q, c, r)
    ensures Ordered(clients - {c}, r)
  {
    if r != q {
      var i :| 0 <= i < |q| && q[i].client == c && r == q[..i] + q[i + 1..];
      forall a, b | 0 <= a < b < |r| && IsList(clients - {c}, r[a]) && IsList(clients - {c}, r[b])
        ensures r[a].node < r[b].node
      {
        var a', b' := if a < i then a else a + 1, if b < i then b else b + 1;
        assert r[a] == q[a'] && r[b] == q[b'];
      }
    }
  }

  lemma UnblockInTurn(s: State, c: Client)
    requires IndexOk(s) && InTurn(s) && c in s.clients
    ensures InTurn(Unblock(s, c))
  {
    var t := Unblock(s, c);
    assert t.clients == s.clients - {c};
    hide IndexOk, Unblock, Left, Ordered;
    forall x ensures Ordered(t.clients, Queue(t, x)) {
      UnblockLeaves(s, c, x);
      LeftOrdered(s.clients, Queue(s, x), c, Queue(t, x));
    }
  }

  lemma AppendOrdered(clients: map<Client, Wait>, q: seq<Entry>, c: Client, w: Wait, n: Node)
    requires Ordered(clients, q) && c !in clients && forall e :: e in q ==> e.node < n && e.client in clients
    ensures Ordered(clients[c := w], q) && Ordered(clients[c := w], q + [Entry(n, c)])
  {
    assert forall i :: 0 <= i < |q| ==> IsList(clients[c := w], q[i]) == IsList(clients, q[i]);
  }

  lemma KnownNodes(s: State, x: Key)
    requires IndexOk(s)
    ensures forall e :: e in Queue(s, x) ==> e.node < s.nextNode && e.client in s.clients
  {
    assert forall e :: e in Queue(s, x) ==> EntryOk(e, x, s.clients, s.nextNode);
  }

  lemma BlockInTurn(s: State, c: Client, list: bool, names: seq<Key>, target: Option<Key>, where: Where)
    requires IndexOk(s) && InTurn(s) && c !in s.clients && (target.Some? ==> where == Tail)
    ensures InTurn(Block(s, c, list, names, target, where))
  {
    var t := Block(s, c, list, names, target, where);
    hide Block, IndexOk, Ordered;
    forall x ensures Ordered(t.clients, Queue(t, x)) {
      BlockAppends(s, c, list, names, target, where, x);
      KnownNodes(s, x);
      var n := if x in names then t.clients[c].keys[x] else s.nextNode;
      AppendOrdered(s.clients, Queue(s, x), c, t.clients[c], n);
    }
    BlockAppends(s, c, list, names, target, where, "");
  }

  lemma RotateOrdered(clients: map<Client, Wait>, q: seq<Entry>)
    requires Ordered(clients, q) && q != [] && !IsList(clients, q[0])
    ensures Ordered(clients, Rotate(q))
  {
    var r := Rotate(q);
    assert |q| > 1 ==> r[|r| - 1] == q[0] && forall j :: 0 <= j < |q| - 1 ==> r[j] == q[j + 1];
  }

  lemma RoundInTurn(s: State, k: Key)
    requires IndexOk(s) && InTurn(s) && PassGoesOn(s, k, 1)
    ensures InTurn(PassRound(s, k))
  {
    var t := PassRound(s, k);
    var c := Queue(s, k)[0].client;
    if s.clients[c].onList {
      UnblockInTurn(s, c);
      ServeHeadSameIndex(s, k);
      hide IndexOk, InTurn, Unblock, ServeHead;
      SameInTurn(Unblock(s, c), t);
    } else {
      hide IndexOk;
      forall x ensures Ordered(t.clients, Queue(t, x)) {
        assert Ordered(s.clients, Queue(s, x));
        if x == k { RotateOrdered(s.clients, Queue(s, k)); }
      }
    }
  }

  lemma {:induction false} ServeLoopInTurn(s: State, k: Key, n: nat)
    requires IndexOk(s) && InTurn(s)
    ensures InTurn(ServeLoop(s, k, n))
    decreases n
  {
    hide IndexOk, InTurn, PassRound;
    if PassGoesOn(s, k, n) {
      RoundInTurn(s, k);
      RoundOfPass(s, k);
      ServeLoopInTurn(PassRound(s, k), k, n - 1);
    }
  }

  lemma HandleKeyInTurn(s: State, k: Key)
    requires IndexOk(s) && InTurn(s)
    ensures InTurn(HandleKey(s, k))
  {
    var t := s.(readyDb := s.readyDb - {k});
    IndexOfSame(s, t);
    hide IndexOk, InTurn, ServeLoop;
    SameInTurn(s, t);
    ServeLoopInTurn(t, k, |Queue(t, k)|);
    var u := ServeLoop(t, k, |Queue(t, k)|);
    SameInTurn(u, DropIfEmpty(u, k));
  }

  lemma {:induction false} DrainSavedInTurn(s: State, l: seq<Key>)
    requires IndexOk(s) && InTurn(s)
    ensures InTurn(DrainSaved(s, l))
    decreases l
  {
    hide IndexOk, InTurn, HandleKey;
    if l != [] {
      HandleKeyKeepsIndex(s, l[0]);
      HandleKeyInTurn(s, l[0]);
      DrainSavedInTurn(HandleKey(s, l[0]), l[1..]);
    }
  }

  lemma {:induction false} DrainInTurn(s: State)
    requires IndexOk(s) && InTurn(s)
    ensures InTurn(Drain(s))
    decreases |s.clients|, |s.ready|
  {
    hide IndexOk, InTurn, DrainSaved;
    if s.ready != [] {
      IndexOfSame(s, s.(ready := []));
      SameInTurn(s, s.(ready := []));
      DrainSavedKeepsIndex(s.(ready := []), s.ready);
      DrainSavedInTurn(s.(ready := []), s.ready);
      DrainInTurn(DrainSaved(s.(ready := []), s.ready));
    }
  }

  lemma PerformInTurn(s: State, a: Act)
    requires IndexOk(s) && InTurn(s) && Enabled(s, a)
    ensures InTurn(Perform(s, a))
  {
    hide IndexOk, InTurn, Block, Unblock, PopItem, MoveItem;
    match a
    case BlockingPop(c, names, where, multi) =>
      if FirstPresent(s, names).Some? {
        CommandSameIndex(s, Pop(FirstPresent(s, names).value, where));
        SameInTurn(s, PopItem(s, FirstPresent(s, names).value, where));
      } else {
        BlockInTurn(s, c, true, names, None, where);
      }
    case BlockingPopPush(c, source, target, multi) =>
      CommandSameIndex(s, PopPush(source, target));
      SameInTurn(s, MoveItem(s, source, target));
      BlockInTurn(s, c, true, [source], Some(target), Tail);
    case WaitForOther(c, names) => BlockInTurn(s, c, false, names, None, Head);
    case GiveUp(c) => UnblockInTurn(s, c);
    case _ =>
      CommandSameIndex(s, a);
      SameInTurn(s, Perform(s, a));
  }

  lemma {:induction false} BatchInTurn(s: State, batch: seq<Act>)
    requires IndexOk(s) && InTurn(s) && BatchOk(s, batch)
    ensures InTurn(RunBatch(s, batch))
    decreases batch
  {
    hide IndexOk, InTurn, Perform, Drain;
    if batch == [] {
      DrainInTurn(s);
    } else {
      PerformKeepsIndex(s, batch[0]);
      PerformInTurn(s, batch[0]);
      BatchInTurn(Perform(s, batch[0]), batch[1..]);
    }
  }

  lemma {:induction false} RunInTurn(s: State, run: seq<seq<Act>>)
    requires IndexOk(s) && InTurn(s) && RunOk(s, run)
    ensures InTurn(RunAll(s, run))
    decreases run
  {
    hide IndexOk, InTurn, BatchOk, RunBatch;
    if run != [] {
      BatchKeepsIndex(s, run[0]);
      BatchInTurn(s, run[0]);
      RunInTurn(RunBatch(s, run[0]), run[1..]);
    }
  }

  /** After every run, the clients that wait for a list on one key stand in the order in which they
      blocked, whatever was served, given up or rotated in between. */
  lemma TurnsAreKept(run: seq<seq<Act>>)
    requires RunOk(Start(), run)
    ensures InTurn(RunAll(Start(), run))
  {
    assert InTurn(Start());
    RunInTurn(Start(), run);
  }
}
