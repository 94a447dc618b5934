/** The generic doubly linked list: nodes relinked in place, proved to hold a sequence. */
module Adlist {
  import opened Common

  class Node<T> {
    var value: T
    var prev: Node?<T>
    var next: Node?<T>

    constructor (v: T)
      ensures value == v && prev == null && next == null
    {
      value, prev, next := v, null, null;
    }
  }

  ghost function At<T>(ns: seq<Node<T>>, i: int): Node?<T> {
    if 0 <= i < |ns| then ns[i] else null
  }

  ghost predicate Distinct<T>(ns: seq<Node<T>>) {
    forall i, j :: 0 <= i < j < |ns| ==> ns[i] != ns[j]
  }

  lemma Apart<T>(ns: seq<Node<T>>, i: int, j: int)
    requires Distinct(ns)
    ensures At(ns, i) == At(ns, j) != null ==> i == j
  {
  }

  /** The node at `i` holds `v` and points to its neighbours in the sequence. */
  ghost predicate NodeOk<T>(ns: seq<Node<T>>, i: nat, v: T)
    requires i < |ns|
    reads ns
  {
    ns[i].value == v && ns[i].prev == At(ns, i - 1) && ns[i].next == At(ns, i + 1)
  }

  ghost predicate Holds<T>(ns: seq<Node<T>>, vs: seq<T>)
    reads ns
  {
    |ns| == |vs| && forall i :: 0 <= i < |ns| ==> NodeOk(ns, i, vs[i])
  }

  lemma NoneHolds<T>()
    ensures var none: seq<Node<T>> := []; Distinct(none) && Holds(none, [])
  {
  }

  lemma HoldsLength<T>(ns: seq<Node<T>>, vs: seq<T>)
    requires Holds(ns, vs)
    ensures |ns| == |vs|
  {
  }

  // ----- node sequences

  function Removed<X>(s: seq<X>, i: nat): seq<X>
    requires i < |s|
  {
    s[..i] + s[i + 1..]
  }

  function Inserted<X>(s: seq<X>, i: nat, x: X): seq<X>
    requires i <= |s|
  {
    s[..i] + [x] + s[i..]
  }

  function Rotated<X>(s: seq<X>): seq<X> {
    if s == [] then s else s[1..] + [s[0]]
  }

  lemma RemovedDistinct<T>(ns: seq<Node<T>>, i: nat)
    requires Distinct(ns) && i < |ns|
    ensures Distinct(Removed(ns, i)) && ns[i] !in Removed(ns, i)
  {
    var r := Removed(ns, i);
    assert forall j :: 0 <= j < |r| ==> r[j] == ns[if j < i then j else j + 1];
  }

  lemma InsertedDistinct<T>(ns: seq<Node<T>>, i: nat, n: Node<T>)
    requires Distinct(ns) && i <= |ns| && n !in ns
    ensures Distinct(Inserted(ns, i, n))
  {
    var r := Inserted(ns, i, n);
    assert forall j :: 0 <= j < |r| ==> r[j] == if j < i then ns[j] else if j == i then n else ns[j - 1];
  }

  lemma InsertedAt<T>(ns: seq<Node<T>>, i: nat, n: Node<T>, j: int)
    requires i <= |ns|
    ensures |Inserted(ns, i, n)| == |ns| + 1
    ensures At(Inserted(ns, i, n), j) == if j == i then n else At(ns, if j < i then j else j - 1)
  {
  }

  lemma RotatedDistinct<T>(ns: seq<Node<T>>)
    requires Distinct(ns)
    ensures Distinct(Rotated(ns))
  {
    if ns != [] {
      var r := Rotated(ns);
      assert forall j :: 0 <= j < |r| ==> r[j] == if j == |ns| - 1 then ns[0] else ns[j + 1];
    }
  }

  lemma RotatedAt<T>(ns: seq<Node<T>>, j: int)
    requires ns != []
    ensures At(Rotated(ns), j) == if j == |ns| - 1 then ns[0] else if j < 0 then null else At(ns, j + 1)
  {
  }

  function RotatedBack<X>(s: seq<X>): (r: seq<X>)
    ensures |r| == |s|
  {
    if s == [] then s else [s[|s| - 1]] + s[..|s| - 1]
  }

  lemma RotatedBackDistinct<T>(ns: seq<Node<T>>)
    requires Distinct(ns)
    ensures Distinct(RotatedBack(ns))
  {
    if ns != [] {
      var r := RotatedBack(ns);
      assert forall j :: 0 <= j < |r| ==> r[j] == if j == 0 then ns[|ns| - 1] else ns[j - 1];
    }
  }

  lemma RotatedBackAt<T>(ns: seq<Node<T>>, j: int)
    requires ns != []
    ensures At(RotatedBack(ns), j) == if j == 0 then ns[|ns| - 1] else if j >= |ns| then null else At(ns, j - 1)
  {
  }

  lemma RotatedBackShort<X>(s: seq<X>)
    requires |s| <= 1
    ensures RotatedBack(s) == s
  {
  }

  /** The two rotations undo each other. */
  lemma RotationsUndo<X>(s: seq<X>)
    ensures RotatedBack(Rotated(s)) == s && Rotated(RotatedBack(s)) == s
  {
  }

  lemma ConcatDistinct<T>(ns: seq<Node<T>>, ms: seq<Node<T>>)
    requires Distinct(ns) && Distinct(ms) && forall n :: n in ns ==> n !in ms
    ensures Distinct(ns + ms)
  {
    assert forall j :: 0 <= j < |ns| ==> ns[j] in ns;
  }

  lemma ConcatAt<T>(ns: seq<Node<T>>, ms: seq<Node<T>>, j: int)
    ensures At(ns + ms, j) == if j < |ns| then At(ns, j) else At(ms, j - |ns|)
  {
  }

  /** Point the neighbours of a new node at it. */
  method LinkBetween<T>(node: Node<T>)
    requires node.prev != node && node.next != node
    modifies if node.prev == null then {} else {node.prev}, if node.next == null then {} else {node.next}
    ensures node.prev == old(node.prev) && node.next == old(node.next) && node.value == old(node.value)
    ensures node.prev != null ==> node.prev.next == node && node.prev.value == old(node.prev.value)
    ensures node.prev != null && node.prev != node.next ==> node.prev.prev == old(node.prev.prev)
    ensures node.next != null ==> node.next.prev == node && node.next.value == old(node.next.value)
    ensures node.next != null && node.prev != node.next ==> node.next.next == old(node.next.next)
  {
    if node.prev != null {
      node.prev.next := node;
    }
    if node.next != null {
      node.next.prev := node;
    }
  }

  lemma JoinedLeft<T>(ns: seq<Node<T>>, ms: seq<Node<T>>, j: nat)
    requires j < |ns|
    ensures (ns + ms)[j] == ns[j] && At(ns + ms, j - 1) == At(ns, j - 1)
    ensures At(ns + ms, j + 1) == if j == |ns| - 1 then At(ms, 0) else At(ns, j + 1)
  {
  }

  lemma JoinedRight<T>(ns: seq<Node<T>>, ms: seq<Node<T>>, j: nat)
    requires |ns| <= j < |ns| + |ms|
    ensures var i := j - |ns|;
      && (ns + ms)[j] == ms[i] && At(ns + ms, j + 1) == At(ms, i + 1)
      && At(ns + ms, j - 1) == if i == 0 then At(ns, |ns| - 1) else At(ms, i - 1)
  {
  }

  class List<T> {
    var head: Node?<T>
    var tail: Node?<T>
    var len: nat
    ghost var nodes: seq<Node<T>>
    ghost var contents: seq<T>

    ghost predicate Valid()
      reads this, nodes
    {
      && len == |nodes| && head == At(nodes, 0) && tail == At(nodes, |nodes| - 1)
      && Distinct(nodes) && Holds(nodes, contents)
    }

    constructor ()
      ensures Valid() && nodes == [] && contents == []
    {
      head, tail, len, nodes, contents := null, null, 0, [], [];
    }

    /** The pointer updates that take the node at position `i` out. */
    method Unlink(node: Node<T>, ghost i: nat)
      requires Valid() && i < |nodes| && nodes[i] == node
      modifies `head, `tail, nodes
      ensures head == At(Removed(nodes, i), 0) && tail == At(Removed(nodes, i), |nodes| - 2)
      ensures |nodes| == |contents| && Holds(Removed(nodes, i), Removed(contents, i))
    {
      ghost var ns, vs := nodes, contents;
      assert NodeOk(ns, i, vs[i]);
      hide Distinct;
      if node.prev != null {
        node.prev.next := node.next;
      } else {
        head := node.next;
      }
      Apart(ns, i, i + 1);
      Apart(ns, i - 1, i + 1);
      if node.next != null {
        node.next.prev := node.prev;
      } else {
        tail := node.prev;
      }
      ghost var rs, us := Removed(ns, i), Removed(vs, i);
      forall j | 0 <= j < |rs|
        ensures NodeOk(rs, j, us[j])
      {
        var o := if j < i then j else j + 1;
        assert old(NodeOk(ns, o, vs[o]));
        assert rs[j] == ns[o] && us[j] == vs[o];
        assert At(rs, j - 1) == At(ns, if j - 1 < i then j - 1 else j);
        assert At(rs, j + 1) == At(ns, if j + 1 < i then j + 1 else j + 2);
        Apart(ns, o, i - 1);
        Apart(ns, o, i + 1);
      }
    }

    /** Unlink the node at position `i`; the other nodes keep their order. */
    method DelNode(node: Node<T>, ghost i: nat)
      requires Valid() && i < |nodes| && nodes[i] == node
      modifies this, nodes
      ensures Valid() && nodes == Removed(old(nodes), i) && contents == Removed(old(contents), i)
    {
      hide Distinct, Holds;
      RemovedDistinct(nodes, i);
      Unlink(node, i);
      len := len - 1;
      nodes, contents := Removed(nodes, i), Removed(contents, i);
    }

    method AddNodeHead(v: T)
      requires Valid()
      modifies this, nodes
      ensures Valid() && contents == [v] + old(contents)
      ensures |nodes| == |old(nodes)| + 1 && nodes == [nodes[0]] + old(nodes) && fresh(nodes[0])
    {
      ghost var ns, vs := nodes, contents;
      var node := new Node(v);
      InsertedDistinct(ns, 0, node);
      if len == 0 {
        head, tail := node, node;
      } else {
        assert NodeOk(ns, 0, vs[0]);
        node.next := head;
        head.prev := node;
        head := node;
      }
      hide Distinct;
      len := len + 1;
      nodes, contents := Inserted(ns, 0, node), Inserted(vs, 0, v);
      forall j | 0 <= j < |nodes|
        ensures NodeOk(nodes, j, contents[j])
      {
        if j > 0 {
          assert old(NodeOk(ns, j - 1, vs[j - 1]));
          Apart(ns, 0, j - 1);
        }
      }
    }

    method AddNodeTail(v: T)
      requires Valid()
      modifies this, nodes
      ensures Valid() && contents == old(contents) + [v]
      ensures |nodes| == |old(nodes)| + 1 && nodes == old(nodes) + [nodes[|nodes| - 1]] && fresh(nodes[|nodes| - 1])
    {
      ghost var ns, vs := nodes, contents;
      var node := new Node(v);
      InsertedDistinct(ns, |ns|, node);
      if len == 0 {
        head, tail := node, node;
      } else {
        assert NodeOk(ns, |ns| - 1, vs[|ns| - 1]);
        node.prev := tail;
        tail.next := node;
        tail := node;
      }
      hide Distinct;
      len := len + 1;
      nodes, contents := Inserted(ns, |ns|, node), Inserted(vs, |ns|, v);
      forall j | 0 <= j < |nodes|
        ensures NodeOk(nodes, j, contents[j])
      {
        if j < |ns| {
          assert old(NodeOk(ns, j, vs[j]));
          Apart(ns, |ns| - 1, j);
        }
      }
    }

    /** Link a new node, whose own pointers are set, into position `at`. */
    method Splice(node: Node<T>, ghost at: nat)
      requires Distinct(nodes) && Holds(nodes, contents) && len == |nodes| && at <= |nodes| && node !in nodes
      requires node.prev == At(nodes, at - 1) && node.next == At(nodes, at)
      modifies this`len, this`nodes, this`contents, nodes
      ensures len == |nodes| && Distinct(nodes) && Holds(nodes, contents)
      ensures nodes == Inserted(old(nodes), at, node) && contents == Inserted(old(contents), at, node.value)
    {
      ghost var ns, vs := nodes, contents;
      InsertedDistinct(ns, at, node);
      hide Distinct;
      LinkBetween(node);
      len := len + 1;
      nodes, contents := Inserted(ns, at, node), Inserted(vs, at, node.value);
      forall j | 0 <= j < |nodes|
        ensures NodeOk(nodes, j, contents[j])
      {
        InsertedAt(ns, at, node, j - 1);
        InsertedAt(ns, at, node, j);
        InsertedAt(ns, at, node, j + 1);
        if j != at {
          var o := if j < at then j else j - 1;
          assert contents[j] == vs[o];
          hide Inserted;
          assert old(NodeOk(ns, o, vs[o]));
          Apart(ns, o, at - 1);
          Apart(ns, o, at);
        }
      }
    }

    /** Insert before or after the node at position `i`. */
    method InsertNode(oldNode: Node<T>, v: T, after: bool, ghost i: nat)
      requires Valid() && i < |nodes| && nodes[i] == oldNode
      modifies this, nodes
      ensures Valid()
      ensures var at := if after then i + 1 else i;
        && contents == Inserted(old(contents), at, v)
        && |nodes| == |old(nodes)| + 1 && nodes == Inserted(old(nodes), at, nodes[at]) && fresh(nodes[at])
    {
      hide Distinct;
      ghost var ns := nodes;
      ghost var at := if after then i + 1 else i;
      var node := NewNeighbour(oldNode, v, after, i);
      Splice(node, at);
      InsertedAt(ns, at, node, at);
      InsertedAt(ns, at, node, 0);
      InsertedAt(ns, at, node, |ns|);
    }

    /** A new node that points to its neighbours to be; it becomes the first or last at an end. */
    method NewNeighbour(oldNode: Node<T>, v: T, after: bool, ghost i: nat) returns (node: Node<T>)
      requires Valid() && i < |nodes| && nodes[i] == oldNode
      modifies `head, `tail
      ensures fresh(node) && node.value == v
      ensures var at := if after then i + 1 else i;
        && node.prev == At(nodes, at - 1) && node.next == At(nodes, at)
        && head == (if at == 0 then node else old(head)) && tail == (if at == |nodes| then node else old(tail))
    {
      ghost var ns := nodes;
      node := new Node(v);
      assert NodeOk(ns, i, contents[i]);
      hide Distinct, Holds;
      Apart(ns, i, 0);
      Apart(ns, i, |ns| - 1);
      if after {
        node.prev := oldNode;
        node.next := oldNode.next;
        if tail == oldNode {
          tail := node;
        }
      } else {
        node.next := oldNode;
        node.prev := oldNode.prev;
        if head == oldNode {
          head := node;
        }
      }
    }

    /** Move the first node behind the last. The node itself moves, so a pointer to any node still
        points to a node of the list with the same value. */
    method RotateHeadToTail()
      requires Valid()
      modifies this, nodes
      ensures Valid() && nodes == Rotated(old(nodes)) && contents == Rotated(old(contents))
    {
      ghost var ns, vs := nodes, contents;
      if len <= 1 {
        assert Rotated(ns) == ns && Rotated(vs) == vs;
        return;
      }
      RotatedDistinct(ns);
      hide Distinct;
      assert NodeOk(ns, 0, vs[0]);
      Apart(ns, 0, 1);
      Apart(ns, 0, |ns| - 1);
      var first := head;
      head := first.next;
      head.prev := null;
      tail.next := first;
      first.next := null;
      first.prev := tail;
      tail := first;
      nodes, contents := Rotated(ns), Rotated(vs);
      forall j | 0 <= j < |nodes|
        ensures NodeOk(nodes, j, contents[j])
      {
        RotatedAt(ns, j - 1);
        RotatedAt(ns, j);
        RotatedAt(ns, j + 1);
        var o := if j == |ns| - 1 then 0 else j + 1;
        assert contents[j] == vs[o];
        assert old(NodeOk(ns, o, vs[o]));
        Apart(ns, o, 0);
        Apart(ns, o, 1);
        Apart(ns, o, |ns| - 1);
      }
    }

    /** The pointer updates that move the last node before the first. */
    method LastToFront()
      requires Valid() && len > 1
      modifies `head, `tail, nodes
      ensures head == old(nodes)[|nodes| - 1] && tail == old(nodes)[|nodes| - 2]
      ensures Holds(RotatedBack(nodes), RotatedBack(contents))
    {
      ghost var ns, vs := nodes, contents;
      hide Distinct;
      assert NodeOk(ns, |ns| - 1, vs[|ns| - 1]);
      Apart(ns, |ns| - 1, |ns| - 2);
      Apart(ns, 0, |ns| - 1);
      var last := tail;
      tail := last.prev;
      tail.next := null;
      head.prev := last;
      last.prev := null;
      last.next := head;
      head := last;
      ghost var rs, us := RotatedBack(ns), RotatedBack(vs);
      forall j | 0 <= j < |rs|
        ensures NodeOk(rs, j, us[j])
      {
        RotatedBackAt(ns, j - 1);
        RotatedBackAt(ns, j);
        RotatedBackAt(ns, j + 1);
        var o := if j == 0 then |ns| - 1 else j - 1;
        assert us[j] == vs[o];
        assert old(NodeOk(ns, o, vs[o]));
        Apart(ns, o, 0);
        Apart(ns, o, |ns| - 2);
        Apart(ns, o, |ns| - 1);
      }
    }

    /** Move the last node before the first. */
    method RotateTailToHead()
      requires Valid()
      modifies this, nodes
      ensures Valid() && nodes == RotatedBack(old(nodes)) && contents == RotatedBack(old(contents))
    {
      hide Distinct, Holds, RotatedBack;
      if len <= 1 {
        HoldsLength(nodes, contents);
        RotatedBackShort(nodes);
        RotatedBackShort(contents);
        return;
      }
      RotatedBackDistinct(nodes);
      RotatedBackAt(nodes, 0);
      RotatedBackAt(nodes, |nodes| - 1);
      LastToFront();
      nodes, contents := RotatedBack(nodes), RotatedBack(contents);
    }

    /** Tie the last node of this list to the first node of another. */
    method Bridge(o: List<T>)
      requires Valid() && o.Valid() && o != this && forall n :: n in nodes ==> n !in o.nodes
      modifies `head, `tail, nodes, o.nodes
      ensures head == (if old(tail) == null then o.head else old(head))
      ensures tail == (if o.tail == null then old(tail) else o.tail)
      ensures forall n :: n in nodes ==>
        && n.prev == old(n.prev) && n.value == old(n.value)
        && n.next == (if n == old(tail) then o.head else old(n.next))
      ensures forall n :: n in o.nodes ==>
        && n.next == old(n.next) && n.value == old(n.value)
        && n.prev == (if n == o.head then old(tail) else old(n.prev))
    {
      if o.head != null {
        o.head.prev := tail;
      }
      if tail != null {
        tail.next := o.head;
      } else {
        head := o.head;
      }
      if o.tail != null {
        tail := o.tail;
      }
    }

    /** After the bridge the nodes of both lists, one after the other, hold the values of both. */
    method Chain(o: List<T>)
      requires Valid() && o.Valid() && o != this && forall n :: n in nodes ==> n !in o.nodes
      modifies `head, `tail, nodes, o.nodes
      ensures head == At(nodes + o.nodes, 0) && tail == At(nodes + o.nodes, |nodes| + |o.nodes| - 1)
      ensures Holds(nodes + o.nodes, contents + o.contents)
    {
      ghost var ns, vs, ms, ws := nodes, contents, o.nodes, o.contents;
      hide Distinct;
      ConcatAt(ns, ms, 0);
      ConcatAt(ns, ms, |ns| + |ms| - 1);
      Bridge(o);
      forall j | 0 <= j < |ns + ms|
        ensures NodeOk(ns + ms, j, (vs + ws)[j])
      {
        if j < |ns| {
          assert old(NodeOk(ns, j, vs[j]));
          assert ns[j] in ns;
          Apart(ns, j, |ns| - 1);
          JoinedLeft(ns, ms, j);
        } else {
          assert old(NodeOk(ms, j - |ns|, ws[j - |ns|]));
          assert ms[j - |ns|] in ms;
          Apart(ms, j - |ns|, 0);
          JoinedRight(ns, ms, j);
        }
      }
    }

    /** Append all nodes of another list, which is left empty. */
    method Join(o: List<T>)
      requires Valid() && o.Valid() && o != this && forall n :: n in nodes ==> n !in o.nodes
      modifies this, nodes, o, o.nodes
      ensures Valid() && nodes == old(nodes) + old(o.nodes) && contents == old(contents) + old(o.contents)
      ensures o.Valid() && o.nodes == [] && o.contents == []
    {
      hide Distinct, Holds;
      ghost var none: seq<Node<T>> := [];
      NoneHolds<T>();
      ConcatDistinct(nodes, o.nodes);
      Chain(o);
      len := len + o.len;
      o.head, o.tail, o.len := null, null, 0;
      nodes, contents := nodes + o.nodes, contents + o.contents;
      o.nodes, o.contents := none, [];
    }
  }

  // ----- iteration

  class Iter<T> {
    var next: Node?<T>
    var fromHead: bool

    constructor (l: List<T>, fromHead: bool)
      ensures next == (if fromHead then l.head else l.tail) && this.fromHead == fromHead
    {
      next, this.fromHead := if fromHead then l.head else l.tail, fromHead;
    }

    /** Return the current node, having already stepped past it. */
    method Next() returns (current: Node?<T>)
      modifies this
      ensures current == old(next) && fromHead == old(fromHead)
      ensures current != null ==> next == if fromHead then old(current.next) else old(current.prev)
      ensures current == null ==> next == null
    {
      current := next;
      if current != null {
        next := if fromHead then current.next else current.prev;
      }
    }
  }

  /** The elements at positions not in `doomed`. */
  function Kept<X>(s: seq<X>, doomed: set<nat>): seq<X> {
    if s == [] then []
    else Kept(s[..|s| - 1], doomed) + if |s| - 1 in doomed then [] else [s[|s| - 1]]
  }

  /** The list in the middle of the walk: what was kept so far, then the rest. */
  function Midway<X>(s: seq<X>, doomed: set<nat>, i: nat): seq<X>
    requires i <= |s|
  {
    Kept(s[..i], doomed) + s[i..]
  }

  lemma MidwayStep<X>(s: seq<X>, doomed: set<nat>, i: nat)
    requires i < |s|
    ensures var p, m := |Kept(s[..i], doomed)|, Midway(s, doomed, i);
      && p < |m| && m[p] == s[i] && |m| - p == |s| - i && (i + 1 < |s| ==> m[p + 1] == s[i + 1])
      && Midway(s, doomed, i + 1) == if i in doomed then Removed(m, p) else m
  {
    assert s[..i + 1][..i] == s[..i];
    var k := Kept(s[..i], doomed);
    assert s[i..] == [s[i]] + s[i + 1..];
  }

  lemma MidwayEnds<X>(s: seq<X>, doomed: set<nat>)
    ensures Midway(s, doomed, 0) == s && Midway(s, doomed, |s|) == Kept(s, doomed)
  {
    assert s[..|s|] == s && s[..0] == [];
  }

  lemma {:induction false} KeptLength<X, Y>(s: seq<X>, t: seq<Y>, doomed: set<nat>)
    requires |s| == |t|
    ensures |Kept(s, doomed)| == |Kept(t, doomed)|
  {
    if s != [] {
      KeptLength(s[..|s| - 1], t[..|s| - 1], doomed);
    }
  }

  /** Take the next node from the iterator and, if asked to, delete it. */
  method Visit<T>(l: List<T>, iter: Iter<T>, delete: bool, ghost p: nat) returns (v: T)
    requires l.Valid() && p < |l.nodes| && iter.next == l.nodes[p]
    modifies l, l.nodes, iter
    ensures l.Valid() && v == old(l.contents)[p] && iter.fromHead == old(iter.fromHead)
    ensures iter.next == At(old(l.nodes), if iter.fromHead then p + 1 else p - 1)
    ensures l.nodes == if delete then Removed(old(l.nodes), p) else old(l.nodes)
    ensures l.contents == if delete then Removed(old(l.contents), p) else old(l.contents)
  {
    assert NodeOk(l.nodes, p, l.contents[p]);
    var node := iter.Next();
    v := node.value;
    if delete {
      l.DelNode(node, p);
    }
  }

  /** The list after the first `i` of the original nodes have been visited. */
  ghost predicate Walked<T>(nodes: seq<Node<T>>, contents: seq<T>, ns: seq<Node<T>>, vs: seq<T>, doomed: set<nat>,
                            i: nat) {
    && |ns| == |vs| && i <= |ns|
    && nodes == Midway(ns, doomed, i) && contents == Midway(vs, doomed, i)
    && forall k :: 0 <= k < |nodes| ==> nodes[k] in ns
  }

  lemma WalkStep<T>(nodes: seq<Node<T>>, contents: seq<T>, ns: seq<Node<T>>, vs: seq<T>, doomed: set<nat>, i: nat)
      returns (p: nat)
    requires Walked(nodes, contents, ns, vs, doomed, i) && i < |ns|
    ensures p < |nodes| == |contents| && nodes[p] == ns[i] && contents[p] == vs[i] && At(nodes, p + 1) == At(ns, i + 1)
    ensures i in doomed ==> Walked(Removed(nodes, p), Removed(contents, p), ns, vs, doomed, i + 1)
    ensures i !in doomed ==> Walked(nodes, contents, ns, vs, doomed, i + 1)
  {
    hide Midway, Kept;
    p := |Kept(ns[..i], doomed)|;
    KeptLength(ns[..i], vs[..i], doomed);
    MidwayStep(ns, doomed, i);
    MidwayStep(vs, doomed, i);
  }

  lemma WalkStarts<T>(ns: seq<Node<T>>, vs: seq<T>, doomed: set<nat>)
    requires |ns| == |vs|
    ensures Walked(ns, vs, ns, vs, doomed, 0)
  {
    MidwayEnds(ns, doomed);
    MidwayEnds(vs, doomed);
  }

  lemma WalkEnds<T>(nodes: seq<Node<T>>, contents: seq<T>, ns: seq<Node<T>>, vs: seq<T>, doomed: set<nat>, i: nat)
    requires Walked(nodes, contents, ns, vs, doomed, i) && At(ns, i) == null
    ensures nodes == Kept(ns, doomed) && contents == Kept(vs, doomed) && |vs| == i
  {
    MidwayEnds(ns, doomed);
    MidwayEnds(vs, doomed);
  }

  /** One round of the walk; `region` is the original nodes. */
  method Advance<T>(l: List<T>, iter: Iter<T>, doomed: set<nat>, i: nat, ghost ns: seq<Node<T>>, ghost vs: seq<T>,
                    ghost region: set<Node<T>>) returns (v: T)
    requires l.Valid() && iter.fromHead && Walked(l.nodes, l.contents, ns, vs, doomed, i)
    requires iter.next != null && iter.next == At(ns, i) && region == set n | n in ns
    modifies l, region, iter
    ensures l.Valid() && iter.fromHead && Walked(l.nodes, l.contents, ns, vs, doomed, i + 1)
    ensures iter.next == At(ns, i + 1) && i < |vs| == |ns| && v == vs[i]
  {
    ghost var p := WalkStep(l.nodes, l.contents, ns, vs, doomed, i);
    assert forall k :: 0 <= k < |l.nodes| ==> l.nodes[k] in region;
    hide Walked, Removed, Holds, Distinct;
    v := Visit(l, iter, i in doomed, p);
  }

  method WalkAll<T>(l: List<T>, iter: Iter<T>, doomed: set<nat>, ghost ns: seq<Node<T>>, ghost vs: seq<T>,
                    ghost region: set<Node<T>>) returns (seen: seq<T>)
    requires l.Valid() && iter.fromHead && Walked(l.nodes, l.contents, ns, vs, doomed, 0)
    requires iter.next == At(ns, 0) && region == set n | n in ns
    modifies l, region, iter
    ensures l.Valid() && seen == vs && Walked(l.nodes, l.contents, ns, vs, doomed, |ns|)
  {
    assert |ns| == |vs|;
    hide Walked, Midway, Kept, Holds, Distinct;
    var i := 0;
    seen := [];
    while iter.next != null
      invariant l.Valid() && iter.fromHead && i <= |ns| == |vs|
      invariant Walked(l.nodes, l.contents, ns, vs, doomed, i)
      invariant iter.next == At(ns, i) && seen == vs[..i]
      decreases |ns| - i
    {
      var v := Advance(l, iter, doomed, i, ns, vs, region);
      seen := seen + [v];
      i := i + 1;
    }
  }

  // ----- from the tail

  /** What is kept of the elements from position `i` on. */
  function KeptFrom<X>(s: seq<X>, doomed: set<nat>, i: nat): seq<X>
    requires i <= |s|
    decreases |s| - i
  {
    if i == |s| then [] else (if i in doomed then [] else [s[i]]) + KeptFrom(s, doomed, i + 1)
  }

  lemma {:induction false} KeptSplits<X>(s: seq<X>, doomed: set<nat>, i: nat)
    requires i <= |s|
    ensures Kept(s, doomed) == Kept(s[..i], doomed) + KeptFrom(s, doomed, i)
    decreases |s| - i
  {
    if i == |s| {
      assert s[..i] == s && Kept(s, doomed) + [] == Kept(s, doomed);
    } else {
      KeptSplits(s, doomed, i + 1);
      assert s[..i + 1][..i] == s[..i];
      var a, b, c := Kept(s[..i], doomed), if i in doomed then [] else [s[i]], KeptFrom(s, doomed, i + 1);
      assert (a + b) + c == a + (b + c);
    }
  }

  lemma KeptAll<X>(s: seq<X>, doomed: set<nat>)
    ensures KeptFrom(s, doomed, 0) == Kept(s, doomed)
  {
    KeptSplits(s, doomed, 0);
    assert s[..0] == [];
  }

  /** The list when the nodes from position `i` on have been visited, from the tail. */
  ghost predicate WalkedBack<T>(nodes: seq<Node<T>>, contents: seq<T>, ns: seq<Node<T>>, vs: seq<T>, doomed: set<nat>,
                                i: nat) {
    && i <= |ns| == |vs|
    && nodes == ns[..i] + KeptFrom(ns, doomed, i) && contents == vs[..i] + KeptFrom(vs, doomed, i)
    && forall k :: 0 <= k < |nodes| ==> nodes[k] in ns
  }

  lemma KeptFromStep<X>(s: seq<X>, doomed: set<nat>, i: nat)
    requires 0 < i <= |s|
    ensures var m := s[..i] + KeptFrom(s, doomed, i);
      && i - 1 < |m| && m[i - 1] == s[i - 1]
      && s[..i - 1] + KeptFrom(s, doomed, i - 1) == if i - 1 in doomed then Removed(m, i - 1) else m
  {
    hide KeptFrom;
    assert s[..i] == s[..i - 1] + [s[i - 1]];
    TakeOut(s[..i - 1], s[i - 1], KeptFrom(s, doomed, i));
    KeptFromUnfolds(s, doomed, i - 1);
  }

  lemma KeptFromUnfolds<X>(s: seq<X>, doomed: set<nat>, i: nat)
    requires i < |s|
    ensures KeptFrom(s, doomed, i) ==
      if i in doomed then KeptFrom(s, doomed, i + 1) else [s[i]] + KeptFrom(s, doomed, i + 1)
  {
    assert [] + KeptFrom(s, doomed, i + 1) == KeptFrom(s, doomed, i + 1);
  }

  lemma KeptFromEnds<X>(s: seq<X>, doomed: set<nat>)
    ensures KeptFrom(s, doomed, |s|) == []
  {
  }

  lemma TakeOut<X>(a: seq<X>, x: X, b: seq<X>)
    ensures (a + [x] + b)[|a|] == x && Removed(a + [x] + b, |a|) == a + b && a + ([x] + b) == a + [x] + b
  {
  }

  lemma WalkBackStep<T>(nodes: seq<Node<T>>, contents: seq<T>, ns: seq<Node<T>>, vs: seq<T>, doomed: set<nat>, i: nat)
    requires WalkedBack(nodes, contents, ns, vs, doomed, i) && 0 < i
    ensures i <= |nodes| == |contents| && nodes[i - 1] == ns[i - 1] && contents[i - 1] == vs[i - 1]
    ensures At(nodes, i - 2) == At(ns, i - 2)
    ensures i - 1 in doomed ==> WalkedBack(Removed(nodes, i - 1), Removed(contents, i - 1), ns, vs, doomed, i - 1)
    ensures i - 1 !in doomed ==> WalkedBack(nodes, contents, ns, vs, doomed, i - 1)
  {
    KeptFromStep(ns, doomed, i);
    KeptFromStep(vs, doomed, i);
    KeptFromLength(ns, vs, doomed, i);
    hide KeptFrom;
  }

  lemma {:induction false} KeptFromLength<X, Y>(s: seq<X>, t: seq<Y>, doomed: set<nat>, i: nat)
    requires i <= |s| == |t|
    ensures |KeptFrom(s, doomed, i)| == |KeptFrom(t, doomed, i)|
    decreases |s| - i
  {
    hide KeptFrom;
    if i < |s| {
      KeptFromLength(s, t, doomed, i + 1);
      KeptFromUnfolds(s, doomed, i);
      KeptFromUnfolds(t, doomed, i);
    } else {
      KeptFromEnds(s, doomed);
      KeptFromEnds(t, doomed);
    }
  }

  lemma WalkBackEnds<T>(nodes: seq<Node<T>>, contents: seq<T>, ns: seq<Node<T>>, vs: seq<T>, doomed: set<nat>)
    requires WalkedBack(nodes, contents, ns, vs, doomed, 0)
    ensures nodes == Kept(ns, doomed) && contents == Kept(vs, doomed)
  {
    KeptAll(ns, doomed);
    KeptAll(vs, doomed);
  }

  method Retreat<T>(l: List<T>, iter: Iter<T>, doomed: set<nat>, i: nat, ghost ns: seq<Node<T>>, ghost vs: seq<T>,
                    ghost region: set<Node<T>>) returns (v: T)
    requires l.Valid() && !iter.fromHead && WalkedBack(l.nodes, l.contents, ns, vs, doomed, i) && 0 < i
    requires iter.next == At(ns, i - 1) && region == set n | n in ns
    modifies l, region, iter
    ensures l.Valid() && !iter.fromHead && WalkedBack(l.nodes, l.contents, ns, vs, doomed, i - 1)
    ensures iter.next == At(ns, i - 2) && i <= |vs| == |ns| && v == vs[i - 1]
  {
    hide Removed, Holds, Distinct, KeptFrom;
    assert i <= |ns| == |vs| && forall k :: 0 <= k < |l.nodes| ==> l.nodes[k] in region;
    hide WalkedBack;
    WalkBackStep(l.nodes, l.contents, ns, vs, doomed, i);
    var delete := i - 1 in doomed;
    v := Visit(l, iter, delete, i - 1);
  }

  method WalkBack<T>(l: List<T>, iter: Iter<T>, doomed: set<nat>, ghost ns: seq<Node<T>>, ghost vs: seq<T>,
                     ghost region: set<Node<T>>) returns (seen: seq<T>)
    requires l.Valid() && !iter.fromHead && |ns| == |vs| == l.len
      && WalkedBack(l.nodes, l.contents, ns, vs, doomed, |ns|)
    requires iter.next == At(ns, |ns| - 1) && region == set n | n in ns
    modifies l, region, iter
    ensures l.Valid() && seen == Backwards(vs) && WalkedBack(l.nodes, l.contents, ns, vs, doomed, 0)
  {
    hide WalkedBack, KeptFrom, Holds, Distinct;
    var i := l.len;
    seen := [];
    assert vs[|vs|..] == [];
    while iter.next != null
      invariant l.Valid() && !iter.fromHead && 0 <= i <= |ns| == |vs|
      invariant WalkedBack(l.nodes, l.contents, ns, vs, doomed, i)
      invariant iter.next == At(ns, i - 1) && seen == Backwards(vs[i..])
      decreases i
    {
      assert i > 0;
      var v := Retreat(l, iter, doomed, i, ns, vs, region);
      BackwardsStep(vs, i);
      seen := seen + [v];
      i := i - 1;
    }
    assert vs[0..] == vs;
  }

  function Backwards<X>(s: seq<X>): seq<X> {
    if s == [] then [] else Backwards(s[1..]) + [s[0]]
  }

  lemma BackwardsStep<X>(s: seq<X>, i: nat)
    requires 0 < i <= |s|
    ensures Backwards(s[i - 1..]) == Backwards(s[i..]) + [s[i - 1]]
  {
    assert s[i - 1..][1..] == s[i..];
  }

  /** The same from the tail: every element is visited once, in reverse order. */
  method DeleteWhileIteratingBack<T>(l: List<T>, doomed: set<nat>) returns (seen: seq<T>)
    requires l.Valid()
    modifies l, l.nodes
    ensures l.Valid() && seen == Backwards(old(l.contents))
    ensures l.contents == Kept(old(l.contents), doomed) && l.nodes == Kept(old(l.nodes), doomed)
  {
    hide WalkedBack, Kept, Distinct, Holds;
    ghost var ns, vs, region := l.nodes, l.contents, set n | n in l.nodes;
    HoldsLength(ns, vs);
    WalkBackStarts(ns, vs, doomed);
    var iter := new Iter(l, false);
    seen := WalkBack(l, iter, doomed, ns, vs, region);
    WalkBackEnds(l.nodes, l.contents, ns, vs, doomed);
  }

  lemma WalkBackStarts<T>(ns: seq<Node<T>>, vs: seq<T>, doomed: set<nat>)
    requires |ns| == |vs|
    ensures WalkedBack(ns, vs, ns, vs, doomed, |ns|)
  {
  }

  // ----- copying

  /** The copies of the first `i` values. */
  ghost predicate Copied<T>(dup: T -> Option<T>, vs: seq<T>, us: seq<T>, i: nat) {
    i == |us| <= |vs| && forall k :: 0 <= k < i ==> dup(vs[k]) == Some(us[k])
  }

  /** listDup: copy every value with `dup`, which just shares it when the list has no such method;
      when a copy fails there is no list. The original is not touched. */
  method Dup<T>(l: List<T>, dup: T -> Option<T>) returns (copy: List?<T>)
    requires l.Valid()
    ensures copy == null <==> exists k :: 0 <= k < |l.contents| && dup(l.contents[k]).None?
    ensures copy != null ==>
      copy.Valid() && fresh(copy) && Copied(dup, l.contents, copy.contents, |l.contents|)
      && forall k :: 0 <= k < |copy.nodes| ==> fresh(copy.nodes[k])
  {
    hide Distinct;
    ghost var ns, vs := l.nodes, l.contents;
    var made := new List<T>();
    copy := made;
    var iter := new Iter(l, true);
    var i := 0;
    while iter.next != null
      invariant copy == made && made.Valid() && fresh(made) && fresh(iter) && iter.fromHead
      invariant i <= |ns| == |vs| && iter.next == At(ns, i) && Copied(dup, vs, made.contents, i)
      invariant forall k :: 0 <= k < |made.nodes| ==> fresh(made.nodes[k])
      decreases |ns| - i
    {
      assert old(NodeOk(ns, i, vs[i]));
      var node := iter.Next();
      var value := dup(node.value);
      if value.None? { return null; }
      made.AddNodeTail(value.value);
      i := i + 1;
    }
  }

  /** Walk the list from its head, deleting some of the nodes just returned, as the iterator
      allows: every element is visited once, in order, and exactly the chosen ones disappear. */
  method DeleteWhileIterating<T>(l: List<T>, doomed: set<nat>) returns (seen: seq<T>)
    requires l.Valid()
    modifies l, l.nodes
    ensures l.Valid() && seen == old(l.contents)
    ensures l.contents == Kept(old(l.contents), doomed) && l.nodes == Kept(old(l.nodes), doomed)
  {
    hide Walked, Midway, Kept, Distinct, Holds;
    ghost var ns, vs, region := l.nodes, l.contents, set n | n in l.nodes;
    HoldsLength(ns, vs);
    WalkStarts(ns, vs, doomed);
    var iter := new Iter(l, true);
    seen := WalkAll(l, iter, doomed, ns, vs, region);
    WalkEnds(l.nodes, l.contents, ns, vs, doomed, |ns|);
  }
}
