/** The two-way index between blocked clients and waiting lists survives every operation. */
module BlockedIndex {
  import opened Common
  import opened Blocked

  // ----- removing a node

  lemma {:induction false} DropNodeEffect(q: seq<Entry>, n: Node)
    requires NodesDistinct(q)
    ensures forall e :: e in DropNode(q, n) <==> e in q && e.node != n
    ensures NodesDistinct(DropNode(q, n))
  {
    if q != [] && q[0].node != n {
      DropNodeEffect(q[1..], n);
      var r := DropNode(q[1..], n);
      assert q == [q[0]] + q[1..];
      assert forall i :: 0 < i < |[q[0]] + r| ==> ([q[0]] + r)[i] == r[i - 1] && r[i - 1] in r;
    } else if q != [] {
      assert q == [q[0]] + q[1..];
      assert forall i :: 0 <= i < |q[1..]| ==> q[1..][i] == q[i + 1];
    }
  }

  lemma RotateEffect(q: seq<Entry>)
    requires NodesDistinct(q)
    ensures NodesDistinct(Rotate(q)) && |Rotate(q)| == |q| && forall e :: e in Rotate(q) <==> e in q
  {
    if |q| > 1 {
      var r := Rotate(q);
      assert forall i :: 0 <= i < |q| - 1 ==> r[i] == q[i + 1];
      assert r[|q| - 1] == q[0];
      forall e | e in q
        ensures e in r
      {
        var i :| 0 <= i < |q| && q[i] == e;
        assert r[if i == 0 then |q| - 1 else i - 1] == e;
      }
    }
  }

  /** A blocked client occurs in a waiting list at one place only. */
  lemma OccursOnce(s: State, c: Client, k: Key, i: nat, j: nat)
    requires IndexOk(s) && k in s.waiting && i < |s.waiting[k]| && j < |s.waiting[k]|
    requires s.waiting[k][i].client == c && s.waiting[k][j].client == c
    ensures i == j && c in s.clients && k in s.clients[c].keys && s.waiting[k][i].node == s.clients[c].keys[k]
  {
    assert EntryOk(s.waiting[k][i], k, s.clients, s.nextNode) && EntryOk(s.waiting[k][j], k, s.clients, s.nextNode);
  }

  lemma DropQueue(clients: map<Client, Wait>, waiting: map<Key, seq<Entry>>, nextNode: Node, c: Client, k: Key)
    requires Linked(clients, waiting, nextNode) && c in clients && k in clients[c].keys
    ensures k in waiting
    ensures var q := DropNode(waiting[k], clients[c].keys[k]);
      && (forall e :: e in q <==> e in waiting[k] && e.client != c)
      && (q != [] ==> QueueOk(q, k, clients - {c}, nextNode))
  {
    var n := clients[c].keys[k];
    var q := waiting[k];
    DropNodeEffect(q, n);
    assert Entry(n, c) in q;
    forall e | e in q
      ensures e.node != n <==> e.client != c
    {
      assert EntryOk(e, k, clients, nextNode);
      if e.node == n {
        var i, j :| 0 <= i < |q| && 0 <= j < |q| && q[i] == e && q[j] == Entry(n, c);
        assert i == j;
      }
    }
  }

  lemma UnblockQueue(clients: map<Client, Wait>, waiting: map<Key, seq<Entry>>, nextNode: Node, c: Client, k: Key)
    requires Linked(clients, waiting, nextNode) && c in clients && k in DropNodes(waiting, clients[c].keys)
    ensures var q := DropNodes(waiting, clients[c].keys)[k];
      QueueOk(q, k, clients - {c}, nextNode) && forall e :: e in q <==> e in waiting[k] && e.client != c
  {
    if k in clients[c].keys {
      DropQueue(clients, waiting, nextNode, c, k);
    } else {
      assert QueueOk(waiting[k], k, clients, nextNode);
      forall e | e in waiting[k]
        ensures EntryOk(e, k, clients - {c}, nextNode)
      {
        assert EntryOk(e, k, clients, nextNode);
      }
    }
  }

  lemma UnblockLinked(clients: map<Client, Wait>, waiting: map<Key, seq<Entry>>, nextNode: Node, c: Client)
    requires Linked(clients, waiting, nextNode) && c in clients
    ensures Linked(clients - {c}, DropNodes(waiting, clients[c].keys), nextNode)
  {
    var less := DropNodes(waiting, clients[c].keys);
    forall k | k in less
      ensures QueueOk(less[k], k, clients - {c}, nextNode)
    {
      UnblockQueue(clients, waiting, nextNode, c, k);
    }
    forall d | d in clients && d != c
      ensures ClientLinked(clients[d], d, less)
    {
      forall k | k in clients[d].keys
        ensures k in less && Entry(clients[d].keys[k], d) in less[k]
      {
        assert ClientLinked(clients[d], d, waiting);
        if k in clients[c].keys {
          DropQueue(clients, waiting, nextNode, c, k);
        }
      }
    }
  }

  /** Unblocking removes exactly one client, from all its waiting lists. */
  lemma UnblockKeepsIndex(s: State, c: Client)
    requires IndexOk(s) && c in s.clients
    ensures IndexOk(Unblock(s, c))
  {
    UnblockLinked(s.clients, s.waiting, s.nextNode, c);
    assert (s.clients - {c}).Keys == s.clients.Keys - {c};
  }

  // ----- blocking

  lemma BlockOneLinked(s: State, c: Client, w: Wait, k: Key)
    requires Linked(s.clients[c := w], s.waiting, s.nextNode)
    ensures var (t, keys) := BlockOne(s, c, w.keys, k);
      && Linked(t.clients[c := w.(keys := keys)], t.waiting, t.nextNode)
      && t.clients == s.clients && t.blockedClients == s.blockedClients && t.db == s.db
      && t.ready == s.ready && t.readyDb == s.readyDb && k in keys
  {
    var (t, keys) := BlockOne(s, c, w.keys, k);
    if k !in w.keys {
      var was := s.clients[c := w];
      var now := t.clients[c := w.(keys := keys)];
      forall x | x in t.waiting
        ensures QueueOk(t.waiting[x], x, now, t.nextNode)
      {
        QueueGrows(s, c, w, k, x);
      }
      forall d | d in now
        ensures ClientLinked(now[d], d, t.waiting)
      {
        assert ClientLinked(was[d], d, s.waiting);
      }
    }
  }

  lemma QueueGrows(s: State, c: Client, w: Wait, k: Key, x: Key)
    requires Linked(s.clients[c := w], s.waiting, s.nextNode) && k !in w.keys
    requires x == k || x in s.waiting
    ensures var q := if x == k then Queue(s, k) + [Entry(s.nextNode, c)] else s.waiting[x];
      QueueOk(q, x, s.clients[c := w.(keys := w.keys[k := s.nextNode])], s.nextNode + 1)
  {
    var was := s.clients[c := w];
    var now := s.clients[c := w.(keys := w.keys[k := s.nextNode])];
    var q := Queue(s, x);
    assert q != [] ==> QueueOk(q, x, was, s.nextNode);
    forall e | e in q
      ensures EntryOk(e, x, now, s.nextNode + 1) && e.node < s.nextNode
    {
      assert EntryOk(e, x, was, s.nextNode);
    }
  }

  lemma {:induction false} BlockLoopLinked(s: State, c: Client, w: Wait, names: seq<Key>)
    requires Linked(s.clients[c := w], s.waiting, s.nextNode)
    ensures var (t, keys) := BlockLoop(s, c, w.keys, names);
      && Linked(t.clients[c := w.(keys := keys)], t.waiting, t.nextNode)
      && t.clients == s.clients && t.blockedClients == s.blockedClients && t.db == s.db
      && t.ready == s.ready && t.readyDb == s.readyDb
      && w.keys.Keys <= keys.Keys && (forall k :: k in names ==> k in keys)
    decreases names
  {
    if names != [] {
      BlockOneLinked(s, c, w, names[0]);
      var (t, keys) := BlockOne(s, c, w.keys, names[0]);
      BlockLoopLinked(t, c, w.(keys := keys), names[1..]);
      assert names == [names[0]] + names[1..];
    }
  }

  lemma OneMore(clients: map<Client, Wait>, c: Client, w: Wait)
    requires c !in clients
    ensures |clients[c := w]| == |clients| + 1
  {
    assert clients[c := w].Keys == clients.Keys + {c};
  }

  lemma AddClient(s: State, c: Client, w: Wait)
    requires c !in s.clients && w.keys != map[] && Linked(s.clients[c := w], s.waiting, s.nextNode)
    requires s.blockedClients == |s.clients| && forall d :: d in s.clients ==> s.clients[d].keys != map[]
    ensures IndexOk(s.(clients := s.clients[c := w], blockedClients := s.blockedClients + 1))
  {
    hide Linked;
    OneMore(s.clients, c, w);
  }

  /** Blocking a client that is not blocked, on at least one key. */
  lemma BlockKeepsIndex(s: State, c: Client, onList: bool, names: seq<Key>, target: Option<Key>, where: Where)
    requires IndexOk(s) && c !in s.clients && names != []
    ensures var t := Block(s, c, onList, names, target, where);
      IndexOk(t) && c in t.clients && t.db == s.db && t.ready == s.ready && t.readyDb == s.readyDb
  {
    var w := Wait(onList, map[], target, where);
    NewClientLinked(s, c, w);
    BlockLoopLinked(s, c, w, names);
    var (t, keys) := BlockLoop(s, c, map[], names);
    assert names[0] in keys;
    hide Linked, BlockLoop;
    AddClient(t, c, w.(keys := keys));
    hide IndexOk;
  }

  lemma NewClientLinked(s: State, c: Client, w: Wait)
    requires IndexOk(s) && c !in s.clients && w.keys == map[]
    ensures Linked(s.clients[c := w], s.waiting, s.nextNode)
  {
    forall k | k in s.waiting
      ensures QueueOk(s.waiting[k], k, s.clients[c := w], s.nextNode)
    {
      assert QueueOk(s.waiting[k], k, s.clients, s.nextNode);
      forall e | e in s.waiting[k]
        ensures EntryOk(e, k, s.clients[c := w], s.nextNode)
      {
        assert EntryOk(e, k, s.clients, s.nextNode);
      }
    }
    var now := s.clients[c := w];
    forall d | d in now
      ensures ClientLinked(now[d], d, s.waiting)
    {
      assert d != c ==> ClientLinked(s.clients[d], d, s.waiting);
    }
  }

  // ----- rotation, signals, pushes

  /** Rotating a waiting list keeps every stored node valid. */
  lemma RotateKeepsIndex(s: State, k: Key)
    requires IndexOk(s) && k in s.waiting
    ensures IndexOk(s.(waiting := s.waiting[k := Rotate(s.waiting[k])]))
  {
    hide Rotate, NodesDistinct;
    var t := s.(waiting := s.waiting[k := Rotate(s.waiting[k])]);
    assert QueueOk(s.waiting[k], k, s.clients, s.nextNode);
    RotateEffect(s.waiting[k]);
    ReorderKeepsQueue(s.waiting[k], t.waiting[k], k, s.clients, s.nextNode);
    hide QueueOk;
    forall c | c in s.clients
      ensures ClientLinked(s.clients[c], c, t.waiting)
    {
      ReorderKeepsClient(s.clients[c], c, s.waiting, k, t.waiting[k]);
    }
  }

  lemma ReorderKeepsQueue(q: seq<Entry>, r: seq<Entry>, k: Key, clients: map<Client, Wait>, nextNode: Node)
    requires QueueOk(q, k, clients, nextNode) && NodesDistinct(r) && |r| == |q| && forall e :: e in r <==> e in q
    ensures QueueOk(r, k, clients, nextNode)
  {
  }

  lemma ReorderKeepsClient(w: Wait, c: Client, waiting: map<Key, seq<Entry>>, k: Key, r: seq<Entry>)
    requires ClientLinked(w, c, waiting) && k in waiting && forall e :: e in r <==> e in waiting[k]
    ensures ClientLinked(w, c, waiting[k := r])
  {
  }

  ghost predicate SameIndex(s: State, t: State) {
    && t.clients == s.clients && t.waiting == s.waiting && t.nextNode == s.nextNode
    && t.blockedClients == s.blockedClients
  }

  lemma IndexOfSame(s: State, t: State)
    requires IndexOk(s) && SameIndex(s, t)
    ensures IndexOk(t)
  {
  }

  lemma ServeHeadSameIndex(s: State, k: Key)
    requires Queue(s, k) != [] && Items(s, k) != [] && Queue(s, k)[0].client in s.clients
    ensures SameIndex(Unblock(s, Queue(s, k)[0].client), ServeHead(s, k))
    ensures ServeHead(s, k).served == s.served + [Queue(s, k)[0].client]
  {
    hide DropNodes;
  }

  /** Serving the client at the head of a waiting list unblocks exactly that client. */
  lemma ServeHeadKeepsIndex(s: State, k: Key)
    requires IndexOk(s) && Queue(s, k) != [] && Items(s, k) != []
    ensures Queue(s, k)[0].client in s.clients && IndexOk(ServeHead(s, k))
  {
    var e := Queue(s, k)[0];
    assert QueueOk(s.waiting[k], k, s.clients, s.nextNode);
    assert EntryOk(e, k, s.clients, s.nextNode);
    UnblockKeepsIndex(s, e.client);
    hide IndexOk, ServeHead, Unblock;
    ServeHeadSameIndex(s, k);
    IndexOfSame(Unblock(s, e.client), ServeHead(s, k));
  }
}
