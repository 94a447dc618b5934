/** Where the values go: which end a push, a pop or a move works on, and what a served
    client takes. */
module BlockedOrder {
  import opened Common
  import opened Blocked
  import opened BlockedIndex
  import opened BlockedDrain
  import opened BlockedRuns

  // ----- pushes and pops

  ghost predicate SameAt(s: State, t: State, x: Key) {
    (x in t.db <==> x in s.db) && (x in s.db ==> t.db[x] == s.db[x])
  }

  /** Only these keys differ. */
  ghost predicate SameBut(s: State, t: State, keys: set<Key>) {
    forall x :: x !in keys ==> SameAt(s, t, x)
  }

  /** LPUSH of v1 .. vn reads vn .. v1 and then the old items, RPUSH the old items and then v1 .. vn. */
  ghost predicate Pushed(was: seq<Value>, values: seq<Value>, where: Where, items: seq<Value>) {
    var n := |values|;
    && |items| == |was| + n
    && (where == Tail ==> items == was + values)
    && (where == Head ==> items[n..] == was && forall i :: 0 <= i < n ==> items[i] == values[n - 1 - i])
  }

  lemma PushedMore(was: seq<Value>, values: seq<Value>, where: Where, items: seq<Value>)
    requires values != [] && Pushed(PushItem(was, values[0], where), values[1..], where, items)
    ensures Pushed(was, values, where, items)
  {
    var n, one := |values|, PushItem(was, values[0], where);
    if where == Tail {
      assert was + values == one + values[1..];
    } else {
      assert items[n..] == items[n - 1..][1..] == one[1..];
      assert items[n - 1] == items[n - 1..][0] == one[0];
      assert forall i :: 0 <= i < n - 1 ==> items[i] == values[1..][n - 2 - i];
    }
  }

  lemma PushOneReads(s: State, k: Key, v: Value, where: Where)
    requires k in s.db ==> s.db[k].List?
    ensures var t := PushOne(s, k, v, where);
      k in t.db && t.db[k] == List(PushItem(Items(s, k), v, where)) && SameBut(s, t, {k})
  {
  }

  lemma SameButTransitive(s: State, m: State, t: State, keys: set<Key>)
    requires SameBut(s, m, keys) && SameBut(m, t, keys)
    ensures SameBut(s, t, keys)
  {
    assert forall x :: x !in keys ==> SameAt(s, m, x) && SameAt(m, t, x);
  }

  lemma {:induction false} PushAllReads(s: State, k: Key, values: seq<Value>, where: Where)
    requires k in s.db ==> s.db[k].List?
    ensures var t := PushAll(s, k, values, where);
      && Pushed(Items(s, k), values, where, Items(t, k)) && SameBut(s, t, {k})
      && (k in t.db <==> k in s.db || values != [])
    decreases values
  {
    if values != [] {
      hide Pushed, PushItem, PushOne, SameBut;
      PushOneReads(s, k, values[0], where);
      var m := PushOne(s, k, values[0], where);
      PushAllReads(m, k, values[1..], where);
      var t := PushAll(m, k, values[1..], where);
      PushedMore(Items(s, k), values, where, Items(t, k));
      SameButTransitive(s, m, t, {k});
    }
  }

  lemma PushReads(s: State, k: Key, values: seq<Value>, where: Where)
    ensures var t := Perform(s, Push(k, values, where));
      if k in s.db && s.db[k].Other? then t == s
      else Pushed(Items(s, k), values, where, Items(t, k)) && SameBut(s, t, {k})
  {
    hide Pushed, PushAll, SameBut;
    if !(k in s.db && s.db[k].Other?) { PushAllReads(s, k, values, where); }
  }

  /** Taking `v` from one end of `items` leaves `rest`. */
  ghost predicate Taken(items: seq<Value>, where: Where, v: Value, rest: seq<Value>) {
    items == if where == Head then [v] + rest else rest + [v]
  }

  /** A pop removes the item at its end and nothing else; a list that runs empty is deleted. */
  lemma PopTakes(s: State, k: Key, where: Where)
    ensures var t := Perform(s, Pop(k, where));
      if Items(s, k) == [] then t == s
      else (&& (exists v :: Taken(Items(s, k), where, v, Items(t, k))) && SameBut(s, t, {k})
            && (k in t.db <==> |Items(s, k)| > 1))
  {
    var items, t := Items(s, k), Perform(s, Pop(k, where));
    if items != [] {
      var v := if where == Head then items[0] else items[|items| - 1];
      assert Taken(items, where, v, Items(t, k));
    }
  }

  /** DEL, SET and STORE replace the value of their key and nothing else; storing nothing deletes. */
  lemma StoresAreExact(s: State, k: Key, items: seq<Value>, signals: bool)
    ensures var t := Perform(s, Store(k, items));
      SameBut(s, t, {k}) && (k in t.db <==> items != []) && (k in t.db ==> t.db[k] == List(items))
    ensures var t := Perform(s, SetOther(k, signals)); SameBut(s, t, {k}) && k in t.db && t.db[k] == Other
    ensures var t := Perform(s, Remove(k)); SameBut(s, t, {k}) && k !in t.db
  {
  }

  // ----- moves

  /** `v` went from the tail of `source` to the head of `target`; on one key that is a rotation. */
  ghost predicate Moved(s: State, t: State, source: Key, target: Key, where: Where, v: Value) {
    && SameBut(s, t, {source, target})
    && (source != target ==>
          && Taken(Items(s, source), where, v, Items(t, source))
          && Items(t, target) == [v] + Items(s, target))
    && (source == target ==>
          && Items(t, source) != [] && Items(t, source)[0] == v
          && Taken(Items(s, source), where, v, Items(t, source)[1..]))
  }

  lemma SplitsAtEnd(items: seq<Value>, where: Where, v: Value, rest: seq<Value>)
    requires items != [] && v == if where == Head then items[0] else items[|items| - 1]
    requires rest == if where == Head then items[1..] else items[..|items| - 1]
    ensures Taken(items, where, v, rest) && PushItem(rest, v, where) == items
  {
  }

  lemma PushOneAtHead(s: State, k: Key, v: Value)
    requires k in s.db ==> s.db[k].List?
    ensures var t := PushOne(s, k, v, Head);
      && Items(t, k) == [v] + Items(s, k) && SameBut(s, t, {k}) && t.given == s.given
  {
  }

  lemma PushMoves(s: State, m: State, k: Key, target: Key, where: Where, v: Value, rest: seq<Value>)
    requires k in s.db && s.db[k].List? && Taken(s.db[k].items, where, v, rest)
    requires m.db == s.db[k := List(rest)] && (target in s.db ==> s.db[target].List?)
    ensures Moved(s, PushOne(m, target, v, Head), k, target, where, v)
  {
    PushOneAtHead(m, target, v);
    var t := PushOne(m, target, v, Head);
    hide PushOne, Taken;
    assert ([v] + rest)[1..] == rest;
    assert forall x :: x != target ==> SameAt(m, t, x);
  }

  lemma DropKeepsMoved(s: State, t: State, source: Key, target: Key, where: Where, v: Value)
    requires Moved(s, t, source, target, where, v)
    ensures Moved(s, DropIfEmpty(t, source), source, target, where, v)
  {
    hide Taken;
    var d := DropIfEmpty(t, source);
    assert Items(d, source) == Items(t, source) && Items(d, target) == Items(t, target);
    forall x | x !in {source, target} ensures SameAt(s, d, x) {
      assert SameAt(s, t, x);
    }
  }

  /** RPOPLPUSH, and BRPOPLPUSH on a source that is there: a destination of the wrong type changes
      nothing, otherwise the last item of the source becomes the first of the destination. */
  lemma MoveMoves(s: State, source: Key, target: Key)
    ensures var t := Perform(s, PopPush(source, target));
      if Items(s, source) == [] || (target in s.db && s.db[target].Other?) then t == s
      else (&& (exists v :: Moved(s, t, source, target, Tail, v))
            && (source in t.db <==> source == target || |Items(s, source)| > 1))
  {
    var items, t := Items(s, source), Perform(s, PopPush(source, target));
    if items != [] && !(target in s.db && s.db[target].Other?) {
      MoveItemMoves(s, source, target);
      assert Moved(s, t, source, target, Tail, items[|items| - 1]);
    }
  }

  lemma MoveItemMoves(s: State, source: Key, target: Key)
    requires Items(s, source) != [] && (target in s.db ==> s.db[target].List?)
    ensures var items, t := Items(s, source), MoveItem(s, source, target);
      && Moved(s, t, source, target, Tail, items[|items| - 1])
      && (source in t.db <==> source == target || |items| > 1)
  {
    var items := Items(s, source);
    var v, rest := items[|items| - 1], items[..|items| - 1];
    SplitsAtEnd(items, Tail, v, rest);
    var m := s.(db := s.db[source := List(rest)]);
    var t := PushOne(m, target, v, Head);
    PushOneAtHead(m, target, v);
    assert source != target ==> SameAt(m, t, source);
    PushMoves(s, m, source, target, Tail, v, rest);
    hide PushOne, Taken, Moved, SameBut;
    DropKeepsMoved(s, t, source, target, Tail, v);
  }

  /** What the client at the head of a waiting list is served. Without a destination it takes the
      item at its end; with one of the wrong type the database is as before; otherwise the item is
      moved to the head of the destination. */
  ghost predicate Delivered(s: State, t: State, k: Key)
    requires Queue(s, k) != [] && Queue(s, k)[0].client in s.clients
  {
    var c := Queue(s, k)[0].client;
    var w := s.clients[c];
    if w.target.None? then
      exists v :: Taken(Items(s, k), w.where, v, Items(t, k)) && t.given == s.given + [(c, v)] && SameBut(s, t, {k})
    else if w.target.value in s.db && s.db[w.target.value].Other? then t.db == s.db && t.given == s.given
    else t.given == s.given && exists v :: Moved(s, t, k, w.target.value, w.where, v)
  }

  lemma ServeHeadDelivers(s: State, k: Key)
    requires Queue(s, k) != [] && Items(s, k) != [] && Queue(s, k)[0].client in s.clients
    ensures Delivered(s, ServeHead(s, k), k)
  {
    hide DropNodes, PushItem, PushOne;
    var c, t, items := Queue(s, k)[0].client, ServeHead(s, k), Items(s, k);
    var w := s.clients[c];
    var v := if w.where == Head then items[0] else items[|items| - 1];
    var rest := if w.where == Head then items[1..] else items[..|items| - 1];
    SplitsAtEnd(items, w.where, v, rest);
    hide Taken;
    if w.target.None? {
      assert Taken(items, w.where, v, Items(t, k));
    } else if w.target.value in s.db && s.db[w.target.value].Other? {
      assert t.db == s.db;
    } else {
      var m := Unblock(s.(db := s.db[k := List(rest)], served := s.served + [c]), c);
      PushOneAtHead(m, w.target.value, v);
      PushMoves(s, m, k, w.target.value, w.where, v, rest);
      assert Moved(s, t, k, w.target.value, w.where, v);
    }
  }

  // ----- blocking

  /** The first key of the list that is there decides: BLPOP and BRPOP pop from it, or refuse it. */
  lemma BlockingPopTakes(s: State, c: Client, names: seq<Key>, where: Where, multi: bool, i: nat)
    requires c !in s.clients && i < |names| && names[i] in s.db && s.db[names[i]] != List([])
    requires forall j :: 0 <= j < i ==> names[j] !in s.db || s.db[names[j]] == List([])
    ensures Perform(s, BlockingPop(c, names, where, multi)) == Perform(s, Pop(names[i], where))
  {
    FirstPresentAt(s, names, i);
  }

  lemma {:induction false} FirstPresentAt(s: State, names: seq<Key>, i: nat)
    requires i < |names| && names[i] in s.db && s.db[names[i]] != List([])
    requires forall j :: 0 <= j < i ==> names[j] !in s.db || s.db[names[j]] == List([])
    ensures FirstPresent(s, names) == Some(names[i])
  {
    if i > 0 { FirstPresentAt(s, names[1..], i - 1); }
  }
}
