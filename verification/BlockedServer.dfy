/** The blocking layer as the server runs it: lists, dictionaries and counters changed in place,
    each operation equal to its function on the server's state. */
module BlockedServer {
  import opened Common
  import opened Blocked
  import opened BlockedIndex
  import opened BlockedDrain
  import opened BlockedOrder

  // ----- unblocking key by key

  function Done(keys: map<Key, Node>, left: set<Key>): map<Key, Node> {
    map k | k in keys && k !in left :: keys[k]
  }

  /** Dropping one more node. */
  lemma DropOneMore(waiting: map<Key, seq<Entry>>, keys: map<Key, Node>, left: set<Key>, k: Key)
    requires k in left && k in keys && k in waiting
    ensures var was := DropNodes(waiting, Done(keys, left));
      && k in was && was[k] == waiting[k]
      && SetQueue(was, k, DropNode(was[k], keys[k])) == DropNodes(waiting, Done(keys, left - {k}))
  {
    hide DropNode;
  }

  lemma NothingDropped(waiting: map<Key, seq<Entry>>)
    ensures DropNodes(waiting, map[]) == waiting
  {
  }

  lemma RoundLength(s: State, k: Key)
    requires IndexOk(s) && PassGoesOn(s, k, 1)
    ensures |Queue(PassRound(s, k), k)| >= |Queue(s, k)| - 1
  {
    hide IndexOk, PassRound;
    RoundOfPass(s, k);
  }

  lemma ClientListed(s: State, c: Client)
    requires IndexOk(s) && c in s.clients
    ensures forall k :: k in s.clients[c].keys ==> k in s.waiting
  {
    assert ClientLinked(s.clients[c], c, s.waiting);
  }

  lemma TakeKeepsIndex(s: State, db: map<Key, Obj>, served: seq<Client>)
    requires IndexOk(s)
    ensures IndexOk(s.(db := db, served := served))
  {
    IndexOfSame(s, s.(db := db, served := served));
  }

  class Server {
    var db: map<Key, Obj>
    var waiting: map<Key, seq<Entry>>
    var clients: map<Client, Wait>
    var blockedClients: int
    var ready: seq<Key>
    var readyDb: set<Key>
    var nextNode: Node
    var served: seq<Client>
    var given: seq<(Client, Value)>

    ghost function View(): State
      reads this
    {
      State(db, waiting, clients, blockedClients, ready, readyDb, nextNode, served, given)
    }

    constructor ()
      ensures View() == State(map[], map[], map[], 0, [], {}, 0, [], []) && IndexOk(View())
    {
      db, waiting, clients, blockedClients := map[], map[], map[], 0;
      ready, readyDb, nextNode, served, given := [], {}, 0, [], [];
    }

    /** Append the client to the waiting list of one key, unless the key was named before. */
    method BlockOnKey(c: Client, keys: map<Key, Node>, k: Key) returns (more: map<Key, Node>)
      modifies `waiting, `nextNode
      ensures (View(), more) == BlockOne(old(View()), c, keys, k)
    {
      more := keys;
      if k !in keys {
        more := keys[k := nextNode];
        var l := if k in waiting then waiting[k] else [];
        waiting := waiting[k := l + [Entry(nextNode, c)]];
        nextNode := nextNode + 1;
      }
    }

    /** Append the client to the waiting list of every key, remembering the node. */
    method BlockForKeys(c: Client, onList: bool, names: seq<Key>, target: Option<Key>, where: Where)
      requires IndexOk(View()) && c !in clients && names != []
      modifies this
      ensures View() == Block(old(View()), c, onList, names, target, where) && IndexOk(View())
    {
      hide IndexOk, BlockOne;
      ghost var before := View();
      BlockKeepsIndex(before, c, onList, names, target, where);
      var keys: map<Key, Node> := map[];
      var j := 0;
      assert names[0..] == names;
      while j < |names|
        invariant j <= |names|
        invariant BlockLoop(before, c, map[], names) == BlockLoop(View(), c, keys, names[j..])
      {
        keys := BlockOnKey(c, keys, names[j]);
        assert names[j..][1..] == names[j + 1..];
        j := j + 1;
      }
      clients := clients[c := Wait(onList, keys, target, where)];
      blockedClients := blockedClients + 1;
    }

    /** Remove one node from the waiting list of a key, and the list with its last node. */
    method RemoveWaiting(k: Key, n: Node)
      requires k in waiting
      modifies `waiting
      ensures waiting == SetQueue(old(waiting), k, DropNode(old(waiting)[k], n))
    {
      var l := DropNode(waiting[k], n);
      if |l| == 0 {
        waiting := waiting - {k};
      } else {
        waiting := waiting[k := l];
      }
    }

    /** Remove, for each key a client waits for, the node it stored. */
    method RemoveFromAll(keys: map<Key, Node>)
      requires forall k :: k in keys ==> k in waiting
      modifies `waiting
      ensures waiting == DropNodes(old(waiting), keys)
    {
      ghost var before := waiting;
      var left := keys.Keys;
      assert Done(keys, left) == map[] && Done(keys, {}) == keys;
      NothingDropped(waiting);
      hide Done, DropNodes, SetQueue, DropNode;
      while left != {}
        invariant left <= keys.Keys
        invariant waiting == DropNodes(before, Done(keys, left))
      {
        var k :| k in left;
        DropOneMore(before, keys, left, k);
        RemoveWaiting(k, keys[k]);
        left := left - {k};
      }
    }

    /** Unblock a client: it leaves every waiting list and stops being counted. */
    method UnblockClient(c: Client)
      requires IndexOk(View()) && c in clients
      modifies `waiting, `clients, `blockedClients
      ensures View() == Unblock(old(View()), c) && IndexOk(View())
    {
      hide IndexOk, DropNodes;
      ghost var before := View();
      UnblockKeepsIndex(before, c);
      ClientListed(before, c);
      var keys := clients[c].keys;
      RemoveFromAll(keys);
      clients := clients - {c};
      blockedClients := blockedClients - 1;
    }

    method SignalKeyAsReady(k: Key)
      modifies `ready, `readyDb
      ensures View() == Signal(old(View()), k)
    {
      if k !in waiting || k in readyDb {
        return;
      }
      ready := ready + [k];
      readyDb := readyDb + {k};
    }

    /** Push one value to a list, creating the list when the key is missing. */
    method PushValue(k: Key, v: Value, where: Where)
      requires k in db ==> db[k].List?
      modifies `db, `ready, `readyDb
      ensures View() == PushOne(old(View()), k, v, where)
      ensures Pushed(old(Items(View(), k)), [v], where, Items(View(), k)) && SameBut(old(View()), View(), {k})
    {
      if k !in db {
        db := db[k := List([])];
        SignalKeyAsReady(k);
      }
      var items := db[k].items;
      db := db[k := List(if where == Head then [v] + items else items + [v])];
    }

    /** Serve the client at the head of a waiting list from a list that has items. */
    method ServeFirst(k: Key)
      requires IndexOk(View()) && k in waiting && waiting[k] != [] && waiting[k][0].client in clients
      requires k in db && db[k].List? && db[k].items != []
      modifies this
      ensures View() == ServeHead(old(View()), k) && IndexOk(View())
      ensures Delivered(old(View()), View(), k)
    {
      hide IndexOk, DropNodes, Delivered;
      ServeHeadDelivers(View(), k);
      ServeHeadKeepsIndex(View(), k);
      var c := waiting[k][0].client;
      var target, where := clients[c].target, clients[c].where;
      var items := db[k].items;
      var v, rest;
      if where == Head {
        v, rest := items[0], items[1..];
      } else {
        v, rest := items[|items| - 1], items[..|items| - 1];
      }
      TakeKeepsIndex(View(), db[k := List(rest)], served + [c]);
      db, served := db[k := List(rest)], served + [c];
      UnblockClient(c);
      if target.None? {
        given := given + [(c, v)];
      } else {
        if target.value in db && db[target.value].Other? {
          db := db[k := List(PushItem(rest, v, where))];
        } else {
          PushValue(target.value, v, Head);
        }
      }
    }

    /** One pass over the clients waiting for a list key. */
    method ServeClientsBlockedOnListKey(k: Key)
      requires IndexOk(View()) && k in db && db[k].List?
      modifies this
      ensures View() == ServeList(old(View()), k) && IndexOk(View())
    {
      ghost var before := View();
      if k in waiting {
        ServeWaiting(k);
      }
      if k in db && db[k].List? && |db[k].items| == 0 {
        IndexOfSame(View(), DropIfEmpty(View(), k));
        db := db - {k};
      }
    }

    /** One round of the pass; false when the items have run out. */
    method ServeRound(k: Key) returns (goOn: bool)
      requires IndexOk(View()) && k in db && db[k].List? && k in waiting && waiting[k] != []
      modifies this
      ensures IndexOk(View()) && k in db && db[k].List?
      ensures goOn == PassGoesOn(old(View()), k, 1)
      ensures View() == if goOn then PassRound(old(View()), k) else old(View())
    {
      hide IndexOk, ServeHead;
      ghost var s := View();
      HeadKnown(s, k);
      goOn := true;
      if !clients[waiting[k][0].client].onList {
        RoundOfPass(s, k);
        waiting := waiting[k := Rotate(waiting[k])];
      } else if |db[k].items| != 0 {
        ServeHeadDb(s, k);
        ServeFirst(k);
      } else {
        goOn := false;
      }
    }

    /** The loop of the pass. The waiting list always has at least as many nodes as there are
        rounds left, so its first node exists. */
    method ServeWaiting(k: Key)
      requires IndexOk(View()) && k in db && db[k].List? && k in waiting
      modifies this
      ensures View() == ServeLoop(old(View()), k, |old(waiting)[k]|) && IndexOk(View())
    {
      hide IndexOk, PassRound;
      ghost var before := View();
      ghost var total := |waiting[k]|;
      var n, goOn := |waiting[k]|, true;
      while n > 0 && goOn
        invariant IndexOk(View()) && k in db && db[k].List?
        invariant 0 <= n && (goOn ==> n <= |Queue(View(), k)|)
        invariant ServeLoop(before, k, total) == if goOn then ServeLoop(View(), k, n) else View()
        decreases n, goOn
      {
        ghost var s := View();
        goOn := ServeRound(k);
        if goOn {
          RoundLength(s, k);
          n := n - 1;
        }
      }
    }

    /** Handle ready keys until there are none left. */
    method HandleClientsBlockedOnKeys()
      requires IndexOk(View())
      modifies this
      ensures View() == Drain(old(View())) && IndexOk(View())
    {
      ghost var before := View();
      hide IndexOk;
      while |ready| != 0
        invariant IndexOk(View()) && Drain(before) == Drain(View())
        decreases |clients|, |ready|
      {
        var l := ready;
        IndexOfSame(View(), View().(ready := []));
        ready := [];
        HandleSaved(l);
      }
    }

    /** Handle the ready keys of one saved list. */
    method HandleSaved(l: seq<Key>)
      requires IndexOk(View())
      modifies this
      ensures View() == DrainSaved(old(View()), l) && IndexOk(View())
    {
      ghost var before := View();
      var i := 0;
      hide IndexOk;
      assert l[0..] == l;
      while i < |l|
        invariant i <= |l| && IndexOk(View())
        invariant DrainSaved(before, l) == DrainSaved(View(), l[i..])
      {
        var k := l[i];
        HandleReady(k);
        assert l[i..][1..] == l[i + 1..];
        i := i + 1;
      }
    }

    method HandleReady(k: Key)
      requires IndexOk(View())
      modifies this
      ensures View() == HandleKey(old(View()), k) && IndexOk(View())
    {
      IndexOfSame(View(), View().(readyDb := readyDb - {k}));
      hide IndexOk, ServeList;
      readyDb := readyDb - {k};
      if k in db && db[k].List? {
        ServeClientsBlockedOnListKey(k);
      }
    }
  }
}
