/** Clients blocked on keys of one database: the waiting lists, the index each client keeps into
    them, the queue of ready keys, and the commands that touch them, as functions on values.

    A waiting list is a sequence of entries; an entry pairs the list node that holds it with the
    blocked client. Rotating a list moves entries, so nodes keep their clients. */
module Blocked {
  import opened Common

  type Key = string
  type Value = string
  type Client = nat
  type Node = nat

  datatype Where = Head | Tail

  datatype Obj = List(items: seq<Value>) | Other

  datatype Entry = Entry(node: Node, client: Client)

  /** What a blocked client waits for: `keys` holds, for each key, the node it uses in the
      waiting list of that key. */
  datatype Wait = Wait(onList: bool, keys: map<Key, Node>, target: Option<Key>, where: Where)

  /** The state of one database and its blocked clients. `served` lists the clients unblocked by the
      drain, `given` the values that left the database with them. */
  datatype State = State(
    db: map<Key, Obj>,
    waiting: map<Key, seq<Entry>>,
    clients: map<Client, Wait>,
    blockedClients: int,
    ready: seq<Key>,
    readyDb: set<Key>,
    nextNode: Node,
    served: seq<Client>,
    given: seq<(Client, Value)>)

  function Queue(s: State, k: Key): seq<Entry> {
    if k in s.waiting then s.waiting[k] else []
  }

  /** The items of a list key; none for a missing key or another type. */
  function Items(s: State, k: Key): seq<Value> {
    if k in s.db && s.db[k].List? then s.db[k].items else []
  }

  // ----- waiting lists

  /** listDelNode on a waiting list. */
  function DropNode(q: seq<Entry>, n: Node): seq<Entry> {
    if q == [] then [] else if q[0].node == n then q[1..] else [q[0]] + DropNode(q[1..], n)
  }

  function Rotate(q: seq<Entry>): seq<Entry> {
    if |q| <= 1 then q else q[1..] + [q[0]]
  }

  function SetQueue(waiting: map<Key, seq<Entry>>, k: Key, q: seq<Entry>): map<Key, seq<Entry>> {
    if q == [] then waiting - {k} else waiting[k := q]
  }

  /** The waiting lists without the nodes of `keys`. */
  function DropNodes(waiting: map<Key, seq<Entry>>, keys: map<Key, Node>): map<Key, seq<Entry>> {
    map k | k in waiting && !(k in keys && DropNode(waiting[k], keys[k]) == []) ::
      if k in keys then DropNode(waiting[k], keys[k]) else waiting[k]
  }

  // ----- blocking and unblocking

  /** One round of the loop of blockForKeys. */
  function BlockOne(s: State, c: Client, keys: map<Key, Node>, k: Key): (State, map<Key, Node>) {
    if k in keys then (s, keys)
    else (s.(waiting := s.waiting[k := Queue(s, k) + [Entry(s.nextNode, c)]], nextNode := s.nextNode + 1),
          keys[k := s.nextNode])
  }

  function BlockLoop(s: State, c: Client, keys: map<Key, Node>, names: seq<Key>): (State, map<Key, Node>)
    decreases names
  {
    if names == [] then (s, keys)
    else
      var (t, more) := BlockOne(s, c, keys, names[0]);
      BlockLoop(t, c, more, names[1..])
  }

  function Block(s: State, c: Client, onList: bool, names: seq<Key>, target: Option<Key>, where: Where): State {
    var (t, keys) := BlockLoop(s, c, map[], names);
    t.(clients := t.clients[c := Wait(onList, keys, target, where)], blockedClients := t.blockedClients + 1)
  }

  function Unblock(s: State, c: Client): State
    requires c in s.clients
  {
    s.(waiting := DropNodes(s.waiting, s.clients[c].keys), clients := s.clients - {c},
       blockedClients := s.blockedClients - 1)
  }

  // ----- ready keys

  function Signal(s: State, k: Key): State {
    if k !in s.waiting || k in s.readyDb then s
    else s.(ready := s.ready + [k], readyDb := s.readyDb + {k})
  }

  /** dbAdd of a list. */
  function AddList(s: State, k: Key, items: seq<Value>): State {
    Signal(s.(db := s.db[k := List(items)]), k)
  }

  function PushItem(items: seq<Value>, v: Value, where: Where): seq<Value> {
    if where == Head then [v] + items else items + [v]
  }

  /** Push one value; a missing key is created first, which is what signals it. */
  function PushOne(s: State, k: Key, v: Value, where: Where): State
    requires k in s.db ==> s.db[k].List?
  {
    var t := if k in s.db then s else AddList(s, k, []);
    t.(db := t.db[k := List(PushItem(t.db[k].items, v, where))])
  }

  // ----- serving

  /** Serve the client at the head of the queue with a value from a non-empty list. */
  function ServeHead(s: State, k: Key): State
    requires Queue(s, k) != [] && Items(s, k) != [] && Queue(s, k)[0].client in s.clients
  {
    var c := Queue(s, k)[0].client;
    var w := s.clients[c];
    var items := Items(s, k);
    var v := if w.where == Head then items[0] else items[|items| - 1];
    var rest := if w.where == Head then items[1..] else items[..|items| - 1];
    var t := Unblock(s.(db := s.db[k := List(rest)], served := s.served + [c]), c);
    if w.target.None? then t.(given := t.given + [(c, v)])
    else if w.target.value in t.db && t.db[w.target.value].Other? then
      // the destination has the wrong type: the pop is undone
      t.(db := t.db[k := List(PushItem(rest, v, w.where))])
    else PushOne(t, w.target.value, v, Head)
  }

  /** Whether the loop of a pass goes on to another round. */
  predicate PassGoesOn(s: State, k: Key, n: nat) {
    && n != 0 && Queue(s, k) != [] && Queue(s, k)[0].client in s.clients
    && (s.clients[Queue(s, k)[0].client].onList ==> Items(s, k) != [])
  }

  /** The state after that round. */
  function PassRound(s: State, k: Key): State
    requires PassGoesOn(s, k, 1)
  {
    if s.clients[Queue(s, k)[0].client].onList then ServeHead(s, k)
    else s.(waiting := s.waiting[k := Rotate(Queue(s, k))])
  }

  /** The loop of serveClientsBlockedOnListKey, with `n` clients left to look at. */
  function ServeLoop(s: State, k: Key, n: nat): State
    decreases n
  {
    if PassGoesOn(s, k, n) then ServeLoop(PassRound(s, k), k, n - 1) else s
  }

  function DropIfEmpty(s: State, k: Key): State {
    if k in s.db && s.db[k] == List([]) then s.(db := s.db - {k}) else s
  }

  function ServeList(s: State, k: Key): State {
    DropIfEmpty(ServeLoop(s, k, |Queue(s, k)|), k)
  }

  /** One key taken from the ready queue. */
  function HandleKey(s: State, k: Key): State {
    var t := s.(readyDb := s.readyDb - {k});
    if k in t.db && t.db[k].List? then ServeList(t, k) else t
  }

  /** Either some client was unblocked, or nothing new became ready. */
  ghost predicate Settles(s: State, t: State) {
    |t.clients| < |s.clients| || (t.clients == s.clients && t.ready == s.ready)
  }

  lemma ServeHeadUnblocks(s: State, k: Key)
    requires Queue(s, k) != [] && Items(s, k) != [] && Queue(s, k)[0].client in s.clients
    ensures |ServeHead(s, k).clients| < |s.clients|
  {
    hide DropNodes, PushItem;
    var c := Queue(s, k)[0].client;
    assert (s.clients - {c}).Keys == s.clients.Keys - {c};
  }

  lemma PassRoundSettles(s: State, k: Key)
    requires PassGoesOn(s, k, 1)
    ensures Settles(s, PassRound(s, k))
  {
    if s.clients[Queue(s, k)[0].client].onList {
      ServeHeadUnblocks(s, k);
      hide ServeHead;
    }
  }

  lemma {:induction false} ServeLoopSettles(s: State, k: Key, n: nat)
    ensures Settles(s, ServeLoop(s, k, n))
    decreases n
  {
    hide PassRound;
    if PassGoesOn(s, k, n) {
      PassRoundSettles(s, k);
      ServeLoopSettles(PassRound(s, k), k, n - 1);
    }
  }

  /** The inner loop of handleClientsBlockedOnKeys: the ready keys saved in `l`. */
  function DrainSaved(s: State, l: seq<Key>): (t: State)
    ensures Settles(s, t)
    decreases l
  {
    if l == [] then s
    else
      ServeLoopSettles(s.(readyDb := s.readyDb - {l[0]}), l[0], |Queue(s, l[0])|);
      DrainSaved(HandleKey(s, l[0]), l[1..])
  }

  /** handleClientsBlockedOnKeys. Serving a client may make further keys ready; the measure is the
      number of blocked clients, then the number of ready keys. */
  function Drain(s: State): (t: State)
    decreases |s.clients|, |s.ready|
  {
    if s.ready == [] then s else Drain(DrainSaved(s.(ready := []), s.ready))
  }

  // ----- the index

  predicate NodesDistinct(q: seq<Entry>) {
    forall i, j :: 0 <= i < j < |q| ==> q[i].node != q[j].node
  }

  ghost predicate ClientLinked(w: Wait, c: Client, waiting: map<Key, seq<Entry>>) {
    forall k :: k in w.keys ==> k in waiting && Entry(w.keys[k], c) in waiting[k]
  }

  ghost predicate EntryOk(e: Entry, k: Key, clients: map<Client, Wait>, nextNode: Node) {
    && e.client in clients && k in clients[e.client].keys && clients[e.client].keys[k] == e.node
    && e.node < nextNode
  }

  ghost predicate QueueOk(q: seq<Entry>, k: Key, clients: map<Client, Wait>, nextNode: Node) {
    && q != [] && NodesDistinct(q)
    && forall e :: e in q ==> EntryOk(e, k, clients, nextNode)
  }

  /** Key `k` is among a client's keys exactly when the client is in the waiting list of `k`, at
      the node it stored; no waiting list is empty. */
  ghost predicate Linked(clients: map<Client, Wait>, waiting: map<Key, seq<Entry>>, nextNode: Node) {
    && (forall c :: c in clients ==> ClientLinked(clients[c], c, waiting))
    && (forall k :: k in waiting ==> QueueOk(waiting[k], k, clients, nextNode))
  }

  ghost predicate IndexOk(s: State) {
    && Linked(s.clients, s.waiting, s.nextNode)
    && s.blockedClients == |s.clients|
    && (forall c :: c in s.clients ==> s.clients[c].keys != map[])
  }
}
