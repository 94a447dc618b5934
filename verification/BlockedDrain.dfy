/** The drain of ready keys: it ends, it serves list clients in the order they blocked, and when
    it ends no client waits for a list that has items. */
module BlockedDrain {
  import opened Blocked
  import opened BlockedIndex

  predicate IsList(clients: map<Client, Wait>, e: Entry) {
    e.client in clients && clients[e.client].onList
  }

  ghost predicate ListWaiter(s: State, k: Key) {
    exists e :: e in Queue(s, k) && IsList(s.clients, e)
  }

  /** Some client waits for a list item on a key that has one. */
  ghost predicate Hungry(s: State, k: Key) {
    Items(s, k) != [] && ListWaiter(s, k)
  }

  /** Every key somebody could be served from is queued for service, in `l` or as ready. */
  ghost predicate Pending(s: State, l: seq<Key>, but: set<Key>) {
    forall k :: k !in but && Hungry(s, k) ==> k in l || k in s.ready
  }

  ghost predicate Quiescent(s: State) {
    forall k :: !Hungry(s, k)
  }

  /** Keys marked ready really are queued, so skipping a marked key loses nothing. */
  ghost predicate Marked(s: State, l: seq<Key>) {
    forall k :: k in s.readyDb ==> k in l || k in s.ready
  }

  ghost predicate NoEmpty(s: State, but: set<Key>) {
    forall k :: k in s.db && k !in but ==> s.db[k] != List([])
  }

  /** What holds in the middle of a drain, with the keys `l` still to handle. */
  ghost predicate DrainOk(s: State, l: seq<Key>, but: set<Key>) {
    IndexOk(s) && Pending(s, l, but) && Marked(s, l) && NoEmpty(s, but)
  }

  lemma SameHungry(s: State, t: State, x: Key)
    requires t.waiting == s.waiting && t.clients == s.clients && (Items(t, x) != [] ==> Items(s, x) != [])
    ensures Hungry(t, x) ==> Hungry(s, x)
  {
    assert Queue(t, x) == Queue(s, x);
  }

  /** Changing only which keys are marked, queued or present. */
  lemma SameDrainOk(s: State, t: State, l: seq<Key>, m: seq<Key>, was: set<Key>, but: set<Key>)
    requires DrainOk(s, l, was) && SameIndex(s, t) && Marked(t, m) && NoEmpty(t, but)
    requires forall k :: k in l || k in s.ready ==> k in m || k in t.ready || k in but
    requires forall k :: Items(t, k) != [] ==> Items(s, k) != []
    requires forall k :: k in was ==> k in but || !Hungry(s, k)
    ensures DrainOk(t, m, but)
  {
    IndexOfSame(s, t);
    hide IndexOk, Hungry;
    forall x | Hungry(t, x) && x !in but
      ensures x in m || x in t.ready
    {
      SameHungry(s, t, x);
    }
  }

  // ----- serving one client

  lemma WaiterShrinks(s: State, t: State, c: Client, x: Key)
    requires IndexOk(s) && c in s.clients && SameIndex(Unblock(s, c), t) && ListWaiter(t, x)
    ensures ListWaiter(s, x)
  {
    var e :| e in Queue(t, x) && IsList(t.clients, e);
    UnblockQueue(s.clients, s.waiting, s.nextNode, c, x);
    assert e in Queue(s, x) && IsList(s.clients, e);
  }

  ghost predicate KeyServed(s: State, t: State, x: Key) {
    x in t.db ==>
      || (x in s.db && t.db[x] == s.db[x])
      || (x in s.db && s.db[x].List? && t.db[x] != List([]))
      || (t.db[x] != List([]) && (x in t.waiting ==> x in t.readyDb))
  }

  /** What serving does to the database: only `k` and the target change; a new target is signalled. */
  ghost predicate DbServed(s: State, t: State, k: Key) {
    && s.ready <= t.ready
    && (forall x :: x in t.readyDb ==> x in s.readyDb || x in t.ready)
    && (forall x :: x != k ==> KeyServed(s, t, x))
  }

  lemma ServeHeadDb(s: State, k: Key)
    requires Queue(s, k) != [] && Items(s, k) != [] && Queue(s, k)[0].client in s.clients
    ensures var t := ServeHead(s, k); k in t.db && t.db[k].List? && DbServed(s, t, k)
  {
    hide DropNodes;
  }

  lemma PendingAfter(s: State, t: State, k: Key, l: seq<Key>, x: Key)
    requires DbServed(s, t, k) && Pending(s, l, {k}) && Marked(s, l) && NoEmpty(s, {k})
    requires x != k && Hungry(t, x) && ListWaiter(s, x)
    ensures x in l || x in t.ready
  {
    assert KeyServed(s, t, x);
    if x in s.db && s.db[x].List? {
      assert Hungry(s, x);
    } else {
      assert x in t.readyDb;
    }
  }

  lemma ServeHeadDrains(s: State, k: Key, l: seq<Key>)
    requires DrainOk(s, l, {k}) && Queue(s, k) != [] && Items(s, k) != []
    ensures Queue(s, k)[0].client in s.clients && DrainOk(ServeHead(s, k), l, {k})
    ensures k in ServeHead(s, k).db && ServeHead(s, k).db[k].List?
  {
    ServeHeadKeepsIndex(s, k);
    ServeHeadSameIndex(s, k);
    ServeHeadDb(s, k);
    var c, t := Queue(s, k)[0].client, ServeHead(s, k);
    hide IndexOk, ServeHead, Unblock, SameIndex, Hungry;
    forall x | x != k && Hungry(t, x)
      ensures x in l || x in t.ready
    {
      HungryWaits(t, x);
      WaiterShrinks(s, t, c, x);
      PendingAfter(s, t, k, l, x);
    }
    assert NoEmpty(t, {k}) by {
      forall x | x in t.db && x != k
        ensures t.db[x] != List([])
      {
        assert KeyServed(s, t, x);
      }
    }
  }

  lemma HungryWaits(s: State, x: Key)
    requires Hungry(s, x)
    ensures ListWaiter(s, x)
  {
  }

  // ----- serving one key

  /** The entries of list clients (or of the others), in order. */
  function Select(clients: map<Client, Wait>, q: seq<Entry>, list: bool): seq<Entry> {
    if q == [] then []
    else (if IsList(clients, q[0]) == list then [q[0]] else []) + Select(clients, q[1..], list)
  }

  function Names(q: seq<Entry>): seq<Client> {
    seq(|q|, i requires 0 <= i < |q| => q[i].client)
  }

  lemma NamesCons(e: Entry, rest: seq<Entry>)
    ensures Names([e] + rest) == [e.client] + Names(rest)
  {
  }

  lemma {:induction false} SelectMembers(clients: map<Client, Wait>, q: seq<Entry>, list: bool)
    ensures forall e :: e in Select(clients, q, list) <==> e in q && IsList(clients, e) == list
  {
    if q != [] {
      SelectMembers(clients, q[1..], list);
      assert q == [q[0]] + q[1..];
    }
  }

  lemma {:induction false} SelectConcat(clients: map<Client, Wait>, a: seq<Entry>, b: seq<Entry>, list: bool)
    ensures Select(clients, a + b, list) == Select(clients, a, list) + Select(clients, b, list)
  {
    if a == [] {
      assert a + b == b;
    } else {
      assert (a + b)[1..] == a[1..] + b && (a + b)[0] == a[0];
      SelectConcat(clients, a[1..], b, list);
      var first := if IsList(clients, a[0]) == list then [a[0]] else [];
      assert Select(clients, a, list) == first + Select(clients, a[1..], list);
      assert Select(clients, a + b, list) == first + Select(clients, a[1..] + b, list);
      hide *;
      assert first + (Select(clients, a[1..], list) + Select(clients, b, list))
          == (first + Select(clients, a[1..], list)) + Select(clients, b, list);
    }
  }

  ghost predicate Part(a: map<Client, Wait>, b: map<Client, Wait>) {
    forall c :: c in a ==> c in b && a[c] == b[c]
  }

  /** The client served leaves the head of the waiting list. */
  lemma HeadLeaves(s: State, k: Key)
    requires IndexOk(s) && Queue(s, k) != [] && Items(s, k) != []
    ensures Queue(s, k)[0].client in s.clients
    ensures Queue(ServeHead(s, k), k) == Queue(s, k)[1..] && Part(ServeHead(s, k).clients, s.clients)
  {
    ServeHeadKeepsIndex(s, k);
    ServeHeadSameIndex(s, k);
    var q := s.waiting[k];
    assert QueueOk(q, k, s.clients, s.nextNode) && EntryOk(q[0], k, s.clients, s.nextNode);
    hide ServeHead, IndexOk, QueueOk, EntryOk;
    assert DropNode(q, s.clients[q[0].client].keys[k]) == q[1..];
  }

  /** How far one pass got: `j` entries of `r` were looked at, with `done` already rotated away. */
  ghost predicate Passed(s: State, t: State, k: Key, all: map<Client, Wait>, r: seq<Entry>, done: seq<Entry>, j: nat) {
    && j <= |r|
    && Queue(t, k) == r[j..] + done + Select(all, r[..j], false)
    && t.served == s.served + Names(Select(all, r[..j], true))
    && (j < |r| ==> Items(t, k) == [] && IsList(all, r[j]))
    && Part(t.clients, all)
  }

  lemma ExtendServed(s: State, m: State, t: State, k: Key, all: map<Client, Wait>, r: seq<Entry>, done: seq<Entry>,
                     j: nat)
    requires r != [] && IsList(all, r[0]) && m.served == s.served + [r[0].client]
    requires Passed(m, t, k, all, r[1..], done, j)
    ensures Passed(s, t, k, all, r, done, j + 1)
  {
    assert r[..j + 1] == [r[0]] + r[1..][..j];
    assert r[..j + 1][1..] == r[1..][..j];
    assert r[1..][j..] == r[j + 1..];
    NamesCons(r[0], Select(all, r[1..][..j], true));
    hide Names;
  }

  lemma ExtendRotated(s: State, m: State, t: State, k: Key, all: map<Client, Wait>, r: seq<Entry>, done: seq<Entry>,
                      j: nat)
    requires r != [] && !IsList(all, r[0]) && m.served == s.served
    requires Passed(m, t, k, all, r[1..], done + [r[0]], j)
    ensures Passed(s, t, k, all, r, done, j + 1)
  {
    assert r[..j + 1] == [r[0]] + r[1..][..j];
    assert r[..j + 1][1..] == r[1..][..j];
    assert r[1..][j..] == r[j + 1..];
  }

  lemma RotateWhole(r: seq<Entry>, done: seq<Entry>)
    requires r != []
    ensures Rotate(r + done) == r[1..] + (done + [r[0]])
  {
  }

  lemma PassStops(s: State, k: Key, all: map<Client, Wait>, r: seq<Entry>, done: seq<Entry>)
    requires Queue(s, k) == r + done && Part(s.clients, all)
    requires r != [] ==> Items(s, k) == [] && IsList(s.clients, r[0])
    ensures Passed(s, ServeLoop(s, k, |r|), k, all, r, done, 0)
  {
    assert r[..0] == [] && Names([]) == [];
  }

  lemma HeadKnown(s: State, k: Key)
    requires IndexOk(s) && Queue(s, k) != []
    ensures Queue(s, k)[0].client in s.clients
  {
    assert QueueOk(s.waiting[k], k, s.clients, s.nextNode);
    assert EntryOk(s.waiting[k][0], k, s.clients, s.nextNode);
  }

  /** One round keeps the index; it serves the head of the queue or rotates it away. */
  lemma RoundOfPass(s: State, k: Key)
    requires IndexOk(s) && PassGoesOn(s, k, 1)
    ensures var m, e := PassRound(s, k), Queue(s, k)[0];
      && IndexOk(m) && Part(m.clients, s.clients)
      && (IsList(s.clients, e) ==> Queue(m, k) == Queue(s, k)[1..] && m.served == s.served + [e.client])
      && (!IsList(s.clients, e) ==> Queue(m, k) == Rotate(Queue(s, k)) && m.served == s.served)
  {
    if IsList(s.clients, Queue(s, k)[0]) {
      HeadLeaves(s, k);
      ServeHeadKeepsIndex(s, k);
      ServeHeadSameIndex(s, k);
      hide IndexOk, ServeHead;
    } else {
      RotateKeepsIndex(s, k);
      hide IndexOk;
    }
  }

  /** One pass over a waiting list looks at each client once, in order: list clients are served
      until the items run out, the others move behind. */
  lemma {:induction false} ServePass(s: State, k: Key, all: map<Client, Wait>, r: seq<Entry>, done: seq<Entry>)
      returns (j: nat)
    requires IndexOk(s) && Queue(s, k) == r + done && Part(s.clients, all)
    ensures Passed(s, ServeLoop(s, k, |r|), k, all, r, done, j)
    decreases |r|, 1
  {
    if r != [] {
      HeadKnown(s, k);
    }
    hide Passed, ServeLoop, IndexOk;
    if r == [] || (IsList(s.clients, r[0]) && Items(s, k) == []) {
      j := 0;
      PassStops(s, k, all, r, done);
    } else if IsList(s.clients, r[0]) {
      j := PassServes(s, k, all, r, done);
    } else {
      j := PassRotates(s, k, all, r, done);
    }
  }

  lemma {:induction false} PassServes(s: State, k: Key, all: map<Client, Wait>, r: seq<Entry>, done: seq<Entry>)
      returns (j: nat)
    requires IndexOk(s) && Queue(s, k) == r + done && Part(s.clients, all)
    requires r != [] && IsList(s.clients, r[0]) && Items(s, k) != []
    ensures Passed(s, ServeLoop(s, k, |r|), k, all, r, done, j)
    decreases |r|, 0
  {
    hide *;
    RoundServes(s, k, r, done);
    var m := PassRound(s, k);
    PartTrans(m.clients, s.clients, all, r[0]);
    var i := ServePass(m, k, all, r[1..], done);
    ExtendServed(s, m, ServeLoop(m, k, |r| - 1), k, all, r, done, i);
    j := i + 1;
  }

  lemma {:induction false} PassRotates(s: State, k: Key, all: map<Client, Wait>, r: seq<Entry>, done: seq<Entry>)
      returns (j: nat)
    requires IndexOk(s) && Queue(s, k) == r + done && Part(s.clients, all)
    requires r != [] && !IsList(s.clients, r[0])
    ensures Passed(s, ServeLoop(s, k, |r|), k, all, r, done, j)
    decreases |r|, 0
  {
    hide *;
    RoundRotates(s, k, r, done);
    var m := PassRound(s, k);
    PartTrans(m.clients, s.clients, all, r[0]);
    var i := ServePass(m, k, all, r[1..], done + [r[0]]);
    ExtendRotated(s, m, ServeLoop(m, k, |r| - 1), k, all, r, done, i);
    j := i + 1;
  }

  lemma PartTrans(a: map<Client, Wait>, b: map<Client, Wait>, all: map<Client, Wait>, e: Entry)
    requires Part(a, b) && Part(b, all)
    ensures Part(a, all) && (e.client in b ==> IsList(b, e) == IsList(all, e))
  {
  }

  lemma RoundServes(s: State, k: Key, r: seq<Entry>, done: seq<Entry>)
    requires IndexOk(s) && Queue(s, k) == r + done && r != [] && IsList(s.clients, r[0]) && Items(s, k) != []
    ensures PassGoesOn(s, k, 1) && r[0].client in s.clients
      && ServeLoop(s, k, |r|) == ServeLoop(PassRound(s, k), k, |r| - 1)
    ensures var m := PassRound(s, k);
      && IndexOk(m) && Part(m.clients, s.clients) && Queue(m, k) == r[1..] + done
      && m.served == s.served + [r[0].client]
  {
    hide IndexOk, PassRound;
    RoundOfPass(s, k);
    assert (r + done)[1..] == r[1..] + done;
  }

  lemma RoundRotates(s: State, k: Key, r: seq<Entry>, done: seq<Entry>)
    requires IndexOk(s) && Queue(s, k) == r + done && r != [] && !IsList(s.clients, r[0])
    ensures PassGoesOn(s, k, 1) && r[0].client in s.clients
      && ServeLoop(s, k, |r|) == ServeLoop(PassRound(s, k), k, |r| - 1)
    ensures var m := PassRound(s, k);
      && IndexOk(m) && Part(m.clients, s.clients) && Queue(m, k) == r[1..] + (done + [r[0]])
      && m.served == s.served
  {
    HeadKnown(s, k);
    hide IndexOk, PassRound;
    RoundOfPass(s, k);
    RotateWhole(r, done);
  }

  lemma {:induction false} SelectNone(all: map<Client, Wait>, q: seq<Entry>)
    requires forall e :: e in q ==> !IsList(all, e)
    ensures Select(all, q, true) == []
  {
    if q != [] {
      SelectNone(all, q[1..]);
    }
  }

  /** The list clients served, then the list clients still waiting, are those that waited. */
  ghost predicate InOrder(s: State, t: State, k: Key, j: nat) {
    var q := Queue(s, k);
    && j <= |q| && s.served <= t.served
    && t.served[|s.served|..] == Names(Select(s.clients, q[..j], true))
    && Select(s.clients, q, true) == Select(s.clients, q[..j], true) + Select(s.clients, Queue(t, k), true)
    && Queue(t, k) == q[j..] + Select(s.clients, q[..j], false)
    && (j < |q| ==> Items(t, k) == [])
  }

  lemma PassedInOrder(s: State, t: State, k: Key, j: nat)
    requires Passed(s, t, k, s.clients, Queue(s, k), [], j)
    ensures InOrder(s, t, k, j)
  {
    var q, all := Queue(s, k), s.clients;
    var rest := Select(all, q[..j], false);
    assert q[..j] + q[j..] == q && q[j..] + [] + rest == q[j..] + rest;
    SelectConcat(all, q[..j], q[j..], true);
    SelectMembers(all, q[..j], false);
    SelectNone(all, rest);
    hide Queue;
    SelectConcat(all, q[j..], rest, true);
  }

  /** First come, first served: in one pass list clients are served in the order they blocked, and
      the pass stops early only when the items run out. */
  lemma ServedInOrder(s: State, k: Key)
    requires IndexOk(s)
    ensures exists j: nat :: InOrder(s, ServeLoop(s, k, |Queue(s, k)|), k, j)
  {
    var q, t := Queue(s, k), ServeLoop(s, k, |Queue(s, k)|);
    assert q == q + [];
    hide ServeLoop, IndexOk, Passed, InOrder;
    var j := ServePass(s, k, s.clients, q, []);
    PassedInOrder(s, t, k, j);
  }

  /** After a pass nobody waits for a list item that is there. */
  lemma PassLeavesNobodyHungry(s: State, k: Key)
    requires IndexOk(s)
    ensures !Hungry(ServeLoop(s, k, |Queue(s, k)|), k)
  {
    var q, t := Queue(s, k), ServeLoop(s, k, |Queue(s, k)|);
    assert q == q + [];
    var j := ServePass(s, k, s.clients, q, []);
    hide ServeLoop, IndexOk;
    if j == |q| {
      SelectMembers(s.clients, q[..j], false);
      forall e | e in Queue(t, k)
        ensures !IsList(t.clients, e)
      {
        assert e in Select(s.clients, q[..j], false);
        assert !IsList(s.clients, e);
      }
    }
  }

  // ----- the drain

  lemma RotateHungry(s: State, k: Key, x: Key)
    requires k in s.waiting && x != k && Hungry(s.(waiting := s.waiting[k := Rotate(s.waiting[k])]), x)
    ensures Hungry(s, x)
  {
    assert Queue(s.(waiting := s.waiting[k := Rotate(s.waiting[k])]), x) == Queue(s, x);
  }

  lemma RotateDrains(s: State, k: Key, l: seq<Key>)
    requires DrainOk(s, l, {k}) && k in s.waiting
    ensures DrainOk(s.(waiting := s.waiting[k := Rotate(s.waiting[k])]), l, {k})
  {
    RotateKeepsIndex(s, k);
    hide IndexOk, Hungry, Rotate;
    forall x | x != k && Hungry(s.(waiting := s.waiting[k := Rotate(s.waiting[k])]), x)
      ensures Hungry(s, x)
    {
      RotateHungry(s, k, x);
    }
  }

  lemma RoundDrains(s: State, k: Key, l: seq<Key>)
    requires DrainOk(s, l, {k}) && k in s.db && s.db[k].List? && PassGoesOn(s, k, 1)
    ensures var m := PassRound(s, k); DrainOk(m, l, {k}) && k in m.db && m.db[k].List?
  {
    if IsList(s.clients, Queue(s, k)[0]) {
      ServeHeadDrains(s, k, l);
      hide DrainOk, ServeHead;
    } else {
      RotateDrains(s, k, l);
      hide DrainOk, Rotate;
    }
  }

  lemma {:induction false} ServeLoopDrains(s: State, k: Key, n: nat, l: seq<Key>)
    requires DrainOk(s, l, {k}) && k in s.db && s.db[k].List?
    ensures var t := ServeLoop(s, k, n); DrainOk(t, l, {k}) && k in t.db && t.db[k].List?
    decreases n
  {
    hide DrainOk, PassRound;
    if PassGoesOn(s, k, n) {
      RoundDrains(s, k, l);
      ServeLoopDrains(PassRound(s, k), k, n - 1, l);
    }
  }

  lemma DropIfEmptyDrains(s: State, k: Key, l: seq<Key>)
    requires DrainOk(s, l, {k}) && !Hungry(s, k)
    ensures DrainOk(DropIfEmpty(s, k), l, {})
  {
    SameDrainOk(s, DropIfEmpty(s, k), l, l, {k}, {});
  }

  /** Handling one ready key keeps everything else that must be served queued. */
  lemma HandleKeyDrains(s: State, k: Key, l: seq<Key>)
    requires DrainOk(s, [k] + l, {})
    ensures DrainOk(HandleKey(s, k), l, {})
  {
    var t := s.(readyDb := s.readyDb - {k});
    SameDrainOk(s, t, [k] + l, l, {}, {k});
    if !(k in t.db && t.db[k].List?) {
      SameDrainOk(t, t, l, l, {k}, {});
    } else {
      ServeLoopDrains(t, k, |Queue(t, k)|, l);
      PassLeavesNobodyHungry(t, k);
      hide DrainOk, ServeLoop, Hungry;
      DropIfEmptyDrains(ServeLoop(t, k, |Queue(t, k)|), k, l);
    }
  }

  lemma {:induction false} DrainSavedDrains(s: State, l: seq<Key>)
    requires DrainOk(s, l, {})
    ensures DrainOk(DrainSaved(s, l), [], {})
    decreases l
  {
    if l != [] {
      assert l == [l[0]] + l[1..];
      hide DrainOk, HandleKey;
      HandleKeyDrains(s, l[0], l[1..]);
      DrainSavedDrains(HandleKey(s, l[0]), l[1..]);
    }
  }

  /** The drain ends with no client waiting for a list that has items. */
  lemma {:induction false} DrainQuiesces(s: State)
    requires DrainOk(s, [], {})
    ensures DrainOk(Drain(s), [], {}) && Drain(s).ready == [] && Quiescent(Drain(s))
    decreases |s.clients|, |s.ready|
  {
    if s.ready != [] {
      var t := s.(ready := []);
      SameDrainOk(s, t, [], s.ready, {}, {});
      hide DrainOk;
      DrainSavedDrains(t, s.ready);
      DrainQuiesces(DrainSaved(t, s.ready));
    }
  }

  // ----- the pass and the drain keep the index

  lemma {:induction false} ServeLoopKeepsIndex(s: State, k: Key, n: nat)
    requires IndexOk(s)
    ensures IndexOk(ServeLoop(s, k, n))
    decreases n
  {
    hide IndexOk, PassRound;
    if PassGoesOn(s, k, n) {
      RoundOfPass(s, k);
      ServeLoopKeepsIndex(PassRound(s, k), k, n - 1);
    }
  }

  lemma HandleKeyKeepsIndex(s: State, k: Key)
    requires IndexOk(s)
    ensures IndexOk(HandleKey(s, k))
  {
    var t := s.(readyDb := s.readyDb - {k});
    IndexOfSame(s, t);
    ServeLoopKeepsIndex(t, k, |Queue(t, k)|);
    hide IndexOk, ServeLoop;
    var u := ServeLoop(t, k, |Queue(t, k)|);
    assert SameIndex(u, DropIfEmpty(u, k));
    IndexOfSame(u, DropIfEmpty(u, k));
  }

  lemma {:induction false} DrainSavedKeepsIndex(s: State, l: seq<Key>)
    requires IndexOk(s)
    ensures IndexOk(DrainSaved(s, l))
    decreases l
  {
    hide IndexOk, HandleKey;
    if l != [] {
      HandleKeyKeepsIndex(s, l[0]);
      DrainSavedKeepsIndex(HandleKey(s, l[0]), l[1..]);
    }
  }

  lemma {:induction false} DrainKeepsIndex(s: State)
    requires IndexOk(s)
    ensures IndexOk(Drain(s))
    decreases |s.clients|, |s.ready|
  {
    hide IndexOk, DrainSaved;
    if s.ready != [] {
      IndexOfSame(s, s.(ready := []));
      DrainSavedKeepsIndex(s.(ready := []), s.ready);
      DrainKeepsIndex(DrainSaved(s.(ready := []), s.ready));
    }
  }
}
