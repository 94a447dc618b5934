/** What the drain does with list items: none is lost or handed out twice, and clients that block
    for the same end of a list get its items in the order they blocked. */
module BlockedItems {
  import opened Common
  import opened Blocked
  import opened BlockedIndex
  import opened BlockedDrain

  // ----- conservation

  function ItemsOf(o: Obj): multiset<Value> {
    if o.List? then multiset(o.items) else multiset{}
  }

  /** All the items in the database. */
  ghost function Total(db: map<Key, Obj>): multiset<Value>
    decreases |db|
  {
    if db == map[] then multiset{}
    else
      var k :| k in db;
      Fewer(db, k);
      ItemsOf(db[k]) + Total(db - {k})
  }

  lemma Fewer(db: map<Key, Obj>, k: Key)
    requires k in db
    ensures |db - {k}| < |db|
  {
    assert (db - {k}).Keys == db.Keys - {k};
  }

  lemma TotalPick(db: map<Key, Obj>) returns (x: Key)
    requires db != map[]
    ensures x in db && Total(db) == ItemsOf(db[x]) + Total(db - {x})
  {
    x :| x in db && Total(db) == ItemsOf(db[x]) + Total(db - {x});
  }

  lemma MinusSwap(db: map<Key, Obj>, x: Key, k: Key)
    requires x in db && k in db && x != k
    ensures db - {x} - {k} == db - {k} - {x}
    ensures k in db - {x} && x in db - {k} && (db - {x})[k] == db[k] && (db - {k})[x] == db[x]
  {
  }

  lemma SumSwap(a: multiset<Value>, b: multiset<Value>, c: multiset<Value>)
    ensures a + (b + c) == b + (a + c)
  {
  }

  lemma {:induction false} TotalWithout(db: map<Key, Obj>, k: Key)
    requires k in db
    ensures Total(db) == ItemsOf(db[k]) + Total(db - {k})
    decreases |db|
  {
    var x := TotalPick(db);
    hide Total, ItemsOf;
    if x != k {
      Fewer(db, x);
      Fewer(db, k);
      MinusSwap(db, x, k);
      TotalWithout(db - {x}, k);
      TotalWithout(db - {k}, x);
      SumSwap(ItemsOf(db[x]), ItemsOf(db[k]), Total(db - {x} - {k}));
    }
  }

  /** The total after one key changes. */
  lemma TotalUpdate(db: map<Key, Obj>, k: Key, o: Obj)
    ensures Total(db[k := o]) == Total(db - {k}) + ItemsOf(o)
    ensures k in db ==> Total(db) == Total(db - {k}) + ItemsOf(db[k])
  {
    TotalWithout(db[k := o], k);
    assert db[k := o] - {k} == db - {k};
    if k in db {
      TotalWithout(db, k);
    }
  }

  function Values(given: seq<(Client, Value)>): multiset<Value> {
    multiset(seq(|given|, i requires 0 <= i < |given| => given[i].1))
  }

  /** Items in the database and items handed out. */
  ghost function AllItems(s: State): multiset<Value> {
    Total(s.db) + Values(s.given)
  }

  lemma ValuesPush(given: seq<(Client, Value)>, c: Client, v: Value)
    ensures Values(given + [(c, v)]) == Values(given) + multiset{v}
  {
    var vs := seq(|given|, i requires 0 <= i < |given| => given[i].1);
    assert seq(|given| + 1, i requires 0 <= i < |given| + 1 => (given + [(c, v)])[i].1) == vs + [v];
  }

  lemma PushItemAdds(items: seq<Value>, v: Value, where: Where)
    ensures multiset(PushItem(items, v, where)) == multiset(items) + multiset{v}
  {
  }

  lemma PushOneAdds(s: State, k: Key, v: Value, where: Where)
    requires k in s.db ==> s.db[k].List?
    ensures Total(PushOne(s, k, v, where).db) == Total(s.db) + multiset{v}
  {
    var items := if k in s.db then s.db[k].items else [];
    var now := s.db[k := List(PushItem(items, v, where))];
    assert PushOne(s, k, v, where).db == now;
    assert k !in s.db ==> s.db - {k} == s.db;
    hide PushOne, Total;
    PushItemAdds(items, v, where);
    TotalUpdate(s.db, k, List(PushItem(items, v, where)));
  }

  // ----- serving conserves items

  /** The item a client is given, and what remains. */
  lemma TakeItem(items: seq<Value>, where: Where) returns (v: Value, rest: seq<Value>)
    requires items != []
    ensures v == (if where == Head then items[0] else items[|items| - 1])
    ensures rest == (if where == Head then items[1..] else items[..|items| - 1])
    ensures multiset(items) == multiset(rest) + multiset{v}
  {
    if where == Head {
      v, rest := items[0], items[1..];
      assert items == [v] + rest;
    } else {
      v, rest := items[|items| - 1], items[..|items| - 1];
      assert items == rest + [v];
    }
  }

  lemma TakenConserves(db: map<Key, Obj>, k: Key, v: Value, rest: seq<Value>, items: seq<Value>)
    requires k in db && db[k] == List(items) && multiset(items) == multiset(rest) + multiset{v}
    ensures Total(db[k := List(rest)]) + multiset{v} == Total(db)
  {
    hide Total;
    TotalUpdate(db, k, List(rest));
  }

  lemma UndoConserves(db: map<Key, Obj>, k: Key, v: Value, rest: seq<Value>, where: Where)
    ensures Total(db[k := List(rest)][k := List(PushItem(rest, v, where))]) == Total(db[k := List(rest)]) + multiset{v}
  {
    hide Total;
    var taken := db[k := List(rest)];
    PushItemAdds(rest, v, where);
    TotalUpdate(taken, k, List(PushItem(rest, v, where)));
  }

  lemma ServeHeadConserves(s: State, k: Key)
    requires Queue(s, k) != [] && Items(s, k) != [] && Queue(s, k)[0].client in s.clients
    ensures AllItems(ServeHead(s, k)) == AllItems(s)
  {
    hide Total, DropNodes, Values, PushItem, PushOne;
    var c := Queue(s, k)[0].client;
    var w := s.clients[c];
    var v, rest := TakeItem(Items(s, k), w.where);
    var t := Unblock(s.(db := s.db[k := List(rest)], served := s.served + [c]), c);
    TakenConserves(s.db, k, v, rest, Items(s, k));
    if w.target.None? {
      ValuesPush(s.given, c, v);
    } else if w.target.value in t.db && t.db[w.target.value].Other? {
      UndoConserves(s.db, k, v, rest, w.where);
    } else {
      PushOneAdds(t, w.target.value, v, Head);
      PushGiven(t, w.target.value, v, Head);
    }
  }

  lemma PushGiven(s: State, k: Key, v: Value, where: Where)
    requires k in s.db ==> s.db[k].List?
    ensures PushOne(s, k, v, where).given == s.given
  {
  }

  lemma {:induction false} ServeLoopConserves(s: State, k: Key, n: nat)
    ensures AllItems(ServeLoop(s, k, n)) == AllItems(s)
    decreases n
  {
    if PassGoesOn(s, k, n) {
      if s.clients[Queue(s, k)[0].client].onList {
        ServeHeadConserves(s, k);
      }
      hide ServeHead;
      ServeLoopConserves(PassRound(s, k), k, n - 1);
    }
  }

  lemma HandleKeyConserves(s: State, k: Key)
    ensures AllItems(HandleKey(s, k)) == AllItems(s)
  {
    var t := s.(readyDb := s.readyDb - {k});
    var u := ServeLoop(t, k, |Queue(t, k)|);
    ServeLoopConserves(t, k, |Queue(t, k)|);
    hide ServeLoop, Total;
    if k in u.db && u.db[k] == List([]) {
      TotalWithout(u.db, k);
    }
  }

  lemma {:induction false} DrainSavedConserves(s: State, l: seq<Key>)
    ensures AllItems(DrainSaved(s, l)) == AllItems(s)
    decreases l
  {
    if l != [] {
      hide AllItems, HandleKey;
      HandleKeyConserves(s, l[0]);
      DrainSavedConserves(HandleKey(s, l[0]), l[1..]);
    }
  }

  /** Draining neither loses nor repeats an item: what is in the database and what was handed to
      clients stays the same collection. */
  lemma {:induction false} DrainConserves(s: State)
    ensures AllItems(Drain(s)) == AllItems(s)
    decreases |s.clients|, |s.ready|
  {
    if s.ready != [] {
      var t := s.(ready := []);
      hide DrainSaved;
      DrainSavedConserves(t, s.ready);
      DrainConserves(DrainSaved(t, s.ready));
    }
  }

  // ----- who gets which item

  /** The items in the order they are handed out from one end. */
  function HandOut(items: seq<Value>, where: Where): seq<Value>
    decreases |items|
  {
    if items == [] then []
    else if where == Head then [items[0]] + HandOut(items[1..], where)
    else [items[|items| - 1]] + HandOut(items[..|items| - 1], where)
  }

  /** From the head that is the list itself, from the tail the list reversed. */
  lemma {:induction false} HandOutAt(items: seq<Value>, where: Where, i: nat)
    requires i < |items|
    ensures |HandOut(items, where)| == |items|
    ensures HandOut(items, where)[i] == if where == Head then items[i] else items[|items| - 1 - i]
    decreases |items|
  {
    var rest := if where == Head then items[1..] else items[..|items| - 1];
    if rest != [] {
      HandOutAt(rest, where, if i == 0 then 0 else i - 1);
    }
  }

  /** Clients paired with items, as far as both go. */
  function Zip(names: seq<Client>, values: seq<Value>): seq<(Client, Value)> {
    if names == [] || values == [] then [] else [(names[0], values[0])] + Zip(names[1..], values[1..])
  }

  function Drop(values: seq<Value>, n: nat): seq<Value> {
    if n == 0 || values == [] then values else Drop(values[1..], n - 1)
  }

  /** The clients of `names` got the items in order, as far as either goes. */
  ghost predicate Paired(s: State, t: State, k: Key, names: seq<Client>, where: Where) {
    var h := HandOut(Items(s, k), where);
    t.given == s.given + Zip(names, h) && HandOut(Items(t, k), where) == Drop(h, |names|)
  }

  /** Every list client in `r` pops from the same end and keeps the item. */
  ghost predicate Plain(all: map<Client, Wait>, r: seq<Entry>, where: Where) {
    forall e :: e in r && IsList(all, e) ==> all[e.client].where == where && all[e.client].target.None?
  }

  lemma ServeHeadGives(s: State, k: Key, where: Where)
    requires Queue(s, k) != [] && Items(s, k) != [] && Queue(s, k)[0].client in s.clients
    requires s.clients[Queue(s, k)[0].client].where == where && s.clients[Queue(s, k)[0].client].target.None?
    ensures var t, h := ServeHead(s, k), HandOut(Items(s, k), where);
      && h != [] && t.given == s.given + [(Queue(s, k)[0].client, h[0])]
      && HandOut(Items(t, k), where) == h[1..]
  {
    hide DropNodes;
  }

  lemma PlainTail(all: map<Client, Wait>, r: seq<Entry>, where: Where)
    requires Plain(all, r, where) && r != []
    ensures Plain(all, r[1..], where)
  {
  }

  /** A round that serves a client hands it the next item. */
  lemma RoundGives(s: State, k: Key, all: map<Client, Wait>, r: seq<Entry>, done: seq<Entry>, where: Where)
    requires PassGoesOn(s, k, 1) && Queue(s, k) == r + done && Part(s.clients, all) && Plain(all, r, where)
    requires r != [] && IsList(s.clients, r[0]) && Items(s, k) != []
    ensures IsList(all, r[0])
    ensures var m, h := PassRound(s, k), HandOut(Items(s, k), where);
      && h != [] && m.given == s.given + [(r[0].client, h[0])] && HandOut(Items(m, k), where) == h[1..]
  {
    hide ServeHead;
    ServeHeadGives(s, k, where);
  }

  lemma RoundKeepsItems(s: State, k: Key, r: seq<Entry>, done: seq<Entry>)
    requires PassGoesOn(s, k, 1) && Queue(s, k) == r + done && r != [] && !IsList(s.clients, r[0])
    ensures PassRound(s, k).given == s.given && Items(PassRound(s, k), k) == Items(s, k)
  {
  }

  lemma PairedNone(s: State, k: Key, names: seq<Client>, where: Where)
    requires names == [] || Items(s, k) == []
    ensures Paired(s, s, k, names, where)
  {
  }

  lemma PairedMore(s: State, m: State, t: State, k: Key, names: seq<Client>, where: Where)
    requires names != [] && HandOut(Items(s, k), where) != [] && Paired(m, t, k, names[1..], where)
    requires m.given == s.given + [(names[0], HandOut(Items(s, k), where)[0])]
    requires HandOut(Items(m, k), where) == HandOut(Items(s, k), where)[1..]
    ensures Paired(s, t, k, names, where)
  {
    hide HandOut, Items;
  }

  lemma PairedSame(s: State, m: State, t: State, k: Key, names: seq<Client>, where: Where)
    requires Paired(m, t, k, names, where) && m.given == s.given && Items(m, k) == Items(s, k)
    ensures Paired(s, t, k, names, where)
  {
  }

  lemma SelectFirst(all: map<Client, Wait>, r: seq<Entry>)
    requires r != []
    ensures var names := Names(Select(all, r, true));
      if IsList(all, r[0]) then names != [] && names[0] == r[0].client && names[1..] == Names(Select(all, r[1..], true))
      else names == Names(Select(all, r[1..], true))
  {
    var rest := Select(all, r[1..], true);
    NamesCons(r[0], rest);
    assert Select(all, r, true) == (if IsList(all, r[0]) then [r[0]] else []) + rest;
    hide Names, Select;
  }

  lemma {:induction false} PassPairs(s: State, k: Key, all: map<Client, Wait>, r: seq<Entry>, done: seq<Entry>,
                                     where: Where)
    requires IndexOk(s) && Queue(s, k) == r + done && Part(s.clients, all) && Plain(all, r, where)
    ensures Paired(s, ServeLoop(s, k, |r|), k, Names(Select(all, r, true)), where)
    decreases |r|, 1
  {
    if r != [] {
      HeadKnown(s, k);
    }
    hide Paired, IndexOk;
    if r == [] || (IsList(s.clients, r[0]) && Items(s, k) == []) {
      assert ServeLoop(s, k, |r|) == s;
      hide ServeLoop;
      assert r == [] ==> Names(Select(all, r, true)) == [];
      PairedNone(s, k, Names(Select(all, r, true)), where);
    } else if IsList(s.clients, r[0]) {
      hide ServeLoop;
      ServePairs(s, k, all, r, done, where);
    } else {
      hide ServeLoop;
      RotatePairs(s, k, all, r, done, where);
    }
  }

  lemma {:induction false} ServePairs(s: State, k: Key, all: map<Client, Wait>, r: seq<Entry>, done: seq<Entry>,
                                      where: Where)
    requires IndexOk(s) && Queue(s, k) == r + done && Part(s.clients, all) && Plain(all, r, where)
    requires r != [] && IsList(s.clients, r[0]) && Items(s, k) != []
    ensures Paired(s, ServeLoop(s, k, |r|), k, Names(Select(all, r, true)), where)
    decreases |r|, 0
  {
    hide *;
    RoundServes(s, k, r, done);
    RoundGives(s, k, all, r, done, where);
    var m := PassRound(s, k);
    PartTrans(m.clients, s.clients, all, r[0]);
    SelectFirst(all, r);
    PlainTail(all, r, where);
    PassPairs(m, k, all, r[1..], done, where);
    PairedMore(s, m, ServeLoop(m, k, |r| - 1), k, Names(Select(all, r, true)), where);
  }

  lemma {:induction false} RotatePairs(s: State, k: Key, all: map<Client, Wait>, r: seq<Entry>, done: seq<Entry>,
                                       where: Where)
    requires IndexOk(s) && Queue(s, k) == r + done && Part(s.clients, all) && Plain(all, r, where)
    requires r != [] && !IsList(s.clients, r[0])
    ensures Paired(s, ServeLoop(s, k, |r|), k, Names(Select(all, r, true)), where)
    decreases |r|, 0
  {
    hide *;
    RoundRotates(s, k, r, done);
    RoundKeepsItems(s, k, r, done);
    var m := PassRound(s, k);
    PartTrans(m.clients, s.clients, all, r[0]);
    SelectFirst(all, r);
    PlainTail(all, r, where);
    PassPairs(m, k, all, r[1..], done + [r[0]], where);
    PairedSame(s, m, ServeLoop(m, k, |r| - 1), k, Names(Select(all, r, true)), where);
  }

  /** When the list clients waiting for a key all pop from the same end and keep what they get,
      one pass gives the i-th of them the i-th item from that end. */
  lemma ItemsInOrder(s: State, k: Key, where: Where)
    requires IndexOk(s) && Plain(s.clients, Queue(s, k), where)
    ensures var q := Queue(s, k);
      Paired(s, ServeLoop(s, k, |q|), k, Names(Select(s.clients, q, true)), where)
  {
    assert Queue(s, k) == Queue(s, k) + [];
    PassPairs(s, k, s.clients, Queue(s, k), [], where);
  }
}
