/** The channel queue: a ring buffer with two growing counters, and the list-based queue it must
    behave like. Each method is one step taken under the queue's lock. */
module Chan {
  import BitNumbers

  datatype Policy = Blocking | DiscardOld | Discard

  // ----- the queue as a value

  /** `rendezvous` is a channel made with capacity 0: one slot, and close takes back its value. */
  datatype Queue<T> = Queue(items: seq<T>, closed: bool, capacity: nat, rendezvous: bool)

  predicate QueueOk<T>(q: Queue<T>) {
    q.capacity >= 1 && |q.items| <= q.capacity && (q.rendezvous ==> q.capacity == 1)
  }

  /** Whether a waiting push may go on. */
  predicate PushReady<T>(q: Queue<T>, policy: Policy) {
    policy != Blocking || |q.items| < q.capacity || q.closed
  }

  predicate PopReady<T>(q: Queue<T>) {
    q.items != [] || q.closed
  }

  function PushSpec<T>(q: Queue<T>, policy: Policy, v: T): (Queue<T>, bool)
    requires PushReady(q, policy)
  {
    if q.closed then (q, false)
    else if |q.items| < q.capacity then (q.(items := q.items + [v]), true)
    else if policy == DiscardOld && q.items != [] then (q.(items := q.items[1..] + [v]), true)
    else (q, false)
  }

  function CloseSpec<T>(q: Queue<T>): Queue<T> {
    q.(closed := true, items := if q.rendezvous && q.items != [] then q.items[..|q.items| - 1] else q.items)
  }

  // ----- positions in the ring

  /** Two positions less than a lap apart are in different slots. */
  lemma SlotsDiffer(a: nat, b: nat, m: nat)
    requires m > 0 && a < b < a + m
    ensures a % m != b % m
  {
    var d := b / m - a / m;
    assert a == (a / m) * m + a % m && b == (b / m) * m + b % m;
    assert d * m == (b - b % m) - (a - a % m);
    assert d >= 1 ==> d * m >= m;
    assert d <= 0 ==> d * m <= 0;
  }

  /** Reducing the first counter modulo the capacity keeps every slot. */
  lemma SlotKept(first: nat, i: nat, m: nat)
    requires m > 0
    ensures (first % m + i) % m == (first + i) % m
  {
    var r := (first % m + i) % m;
    assert first % m + i == ((first % m + i) / m) * m + r;
    assert first + i == (first / m + (first % m + i) / m) * m + r;
    BitNumbers.DivModUnique(first + i, m, first / m + (first % m + i) / m, r);
  }

  class RingQueue<T(0)> {
    const limit: nat
    const policy: Policy
    const rendezvous: bool
    var closed: bool
    var first: nat
    var next: nat
    const data: array<T>

    ghost predicate Valid()
      reads this
    {
      data.Length >= 1 && first <= next <= first + data.Length && (rendezvous ==> data.Length == 1)
    }

    /** The counters stay below the limit, or below two laps when the limit is smaller. */
    ghost predicate InRange()
      reads this
    {
      next < limit || next < 2 * data.Length
    }

    ghost function Items(): seq<T>
      requires Valid()
      reads this, data
    {
      seq(next - first, i requires 0 <= i < next - first reads this, data => data[(first + i) % data.Length])
    }

    ghost function View(): Queue<T>
      requires Valid()
      reads this, data
    {
      Queue(Items(), closed, data.Length, rendezvous)
    }

    constructor (capacity: nat, policy: Policy, limit: nat)
      ensures Valid() && InRange() && fresh(data) && this.policy == policy
      ensures View() == Queue([], false, if capacity == 0 then 1 else capacity, capacity == 0 && policy == Blocking)
    {
      this.limit, this.policy := limit, policy;
      rendezvous := capacity == 0 && policy == Blocking;
      closed, first, next := false, 0, 0;
      data := new T[if capacity == 0 then 1 else capacity];
    }

    /** Bring the counters back to one lap without moving an item. */
    method ResetPos()
      requires Valid()
      modifies `first, `next
      ensures Valid() && Items() == old(Items()) && InRange()
    {
      var newFirst := first % data.Length;
      ghost var was, lap := first, data.Length;
      next := next - (first - newFirst);
      first := newFirst;
      forall i | 0 <= i < |Items()|
        ensures Items()[i] == old(Items())[i]
      {
        SlotKept(was, i, lap);
      }
    }

    /** Store a value in the slot after the last item. */
    method Store(v: T)
      requires Valid() && next < first + data.Length
      modifies `next, data
      ensures Valid() && Items() == old(Items()) + [v]
    {
      ghost var lap := data.Length;
      data[next % data.Length] := v;
      next := next + 1;
      forall i | 0 <= i < |Items()| - 1
        ensures Items()[i] == old(Items())[i]
      {
        SlotsDiffer(first + i, next - 1, lap);
      }
    }

    method PushUnsafe(v: T) returns (ok: bool)
      requires Valid() && InRange() && !closed && PushReady(View(), policy)
      modifies `first, `next, data
      ensures Valid() && InRange() && (View(), ok) == PushSpec(old(View()), policy, v)
    {
      if first + data.Length - next > 0 {
        Store(v);
      } else if policy == DiscardOld {
        DropFirst();
        Store(v);
      } else {
        assert policy == Discard;
        return false;
      }
      if next >= limit {
        ResetPos();
      }
      ok := true;
    }

    method DropFirst()
      requires Valid() && first < next
      modifies `first
      ensures Valid() && Items() == old(Items())[1..] && first == old(first) + 1
    {
      first := first + 1;
      forall i | 0 <= i < |Items()|
        ensures Items()[i] == old(Items())[i + 1]
      {
        assert first + i == old(first) + (i + 1);
      }
    }

    /** A push, once it need not wait any longer. */
    method Push(v: T) returns (ok: bool)
      requires Valid() && InRange() && PushReady(View(), policy)
      modifies `first, `next, data
      ensures Valid() && InRange() && (View(), ok) == PushSpec(old(View()), policy, v)
    {
      if closed {
        return false;
      }
      ok := PushUnsafe(v);
    }

    /** A pop, once it need not wait any longer: the oldest item, or none when closed and empty. */
    method Pop() returns (ok: bool, v: T)
      requires Valid() && PopReady(View())
      modifies `first
      ensures Valid() && ok == (old(Items()) != []) && closed == old(closed)
      ensures if ok then v == old(Items())[0] && Items() == old(Items())[1..] else Items() == []
    {
      if first >= next {
        v := data[0];
        return false, v;
      }
      v := data[first % data.Length];
      DropFirst();
      ok := true;
    }

    method Close()
      requires Valid()
      modifies `closed, `next
      ensures Valid() && View() == CloseSpec(old(View()))
    {
      closed := true;
      if rendezvous && first < next {
        ghost var items := Items();
        next := next - 1;
        assert Items() == items[..|items| - 1];
      }
    }
  }

  /** The list-based queue. */
  class ListQueue<T(0)> {
    var items: seq<T>
    var closed: bool
    const capacity: nat
    const rendezvous: bool
    var popCount: nat

    ghost function View(): Queue<T>
      reads this
    {
      Queue(items, closed, capacity, rendezvous)
    }

    constructor (capacity: nat)
      ensures View() == Queue([], false, if capacity == 0 then 1 else capacity, capacity == 0)
    {
      items, closed, popCount := [], false, 0;
      this.capacity := if capacity == 0 then 1 else capacity;
      rendezvous := capacity == 0;
    }

    method Push(v: T) returns (ok: bool)
      requires QueueOk(View()) && PushReady(View(), Blocking)
      modifies `items
      ensures (View(), ok) == PushSpec(old(View()), Blocking, v) && QueueOk(View())
    {
      if closed {
        return false;
      }
      items := items + [v];
      ok := true;
    }

    method Pop() returns (ok: bool, v: T)
      requires QueueOk(View()) && PopReady(View())
      modifies `items, `popCount
      ensures QueueOk(View()) && ok == (old(items) != []) && closed == old(closed)
      ensures if ok then v == old(items)[0] && items == old(items)[1..] else items == []
    {
      if |items| == 0 {
        v := *;
        return false, v;
      }
      v := items[0];
      items := items[1..];
      popCount := popCount + 1;
      ok := true;
    }

    method Close()
      requires QueueOk(View())
      modifies `closed, `items
      ensures View() == CloseSpec(old(View())) && QueueOk(View())
    {
      closed := true;
      if rendezvous && |items| >= capacity {
        items := items[..|items| - 1];
      }
    }
  }

  // ----- the two queues side by side

  datatype Step<T> = Push(value: T) | Pop | Close

  /** What a step gives back: whether it succeeded, and the value popped. Skipped means the step
      would have to wait. */
  datatype Out<T> = Skipped | Pushed(ok: bool) | Popped(value: T) | Nothing | Closed

  /** One step on the ring. */
  method StepRing<T(0)>(ring: RingQueue<T>, step: Step<T>) returns (out: Out<T>)
    requires ring.Valid() && ring.InRange() && ring.policy == Blocking
    modifies ring, ring.data
    ensures ring.Valid() && ring.InRange() && (ring.View(), out) == Effect(old(ring.View()), step)
  {
    match step
    case Push(v) =>
      if ring.first + ring.data.Length > ring.next || ring.closed {
        var ok := ring.Push(v);
        out := Pushed(ok);
      } else {
        out := Skipped;
      }
    case Pop =>
      if ring.first < ring.next || ring.closed {
        var ok, v := ring.Pop();
        out := if ok then Popped(v) else Nothing;
      } else {
        out := Skipped;
      }
    case Close =>
      ring.Close();
      out := Closed;
  }

  method StepList<T(0)>(list: ListQueue<T>, step: Step<T>) returns (out: Out<T>)
    requires QueueOk(list.View())
    modifies list
    ensures QueueOk(list.View()) && (list.View(), out) == Effect(old(list.View()), step)
  {
    match step
    case Push(v) =>
      if |list.items| < list.capacity || list.closed {
        var ok := list.Push(v);
        out := Pushed(ok);
      } else {
        out := Skipped;
      }
    case Pop =>
      if |list.items| > 0 || list.closed {
        var ok, v := list.Pop();
        out := if ok then Popped(v) else Nothing;
      } else {
        out := Skipped;
      }
    case Close =>
      list.Close();
      out := Closed;
  }

  function Effect<T>(q: Queue<T>, step: Step<T>): (Queue<T>, Out<T>) {
    match step
    case Push(v) =>
      if PushReady(q, Blocking) then var (r, ok) := PushSpec(q, Blocking, v); (r, Pushed(ok)) else (q, Skipped)
    case Pop =>
      if q.items != [] then (q.(items := q.items[1..]), Popped(q.items[0]))
      else if q.closed then (q, Nothing)
      else (q, Skipped)
    case Close => (CloseSpec(q), Closed)
  }

  /** Every sequence of steps has the same outcome on the ring buffer and on the list. */
  method RunBoth<T(0)>(ring: RingQueue<T>, list: ListQueue<T>, steps: seq<Step<T>>)
      returns (outs: seq<Out<T>>, louts: seq<Out<T>>)
    requires ring.Valid() && ring.InRange() && ring.policy == Blocking && ring.View() == list.View()
    modifies ring, ring.data, list
    ensures ring.Valid() && ring.View() == list.View() && outs == louts
    ensures (ring.View(), outs) == Run(old(ring.View()), steps)
  {
    outs, louts := [], [];
    ghost var start := ring.View();
    var i := 0;
    while i < |steps|
      invariant i <= |steps| && ring.Valid() && ring.InRange() && ring.View() == list.View()
      invariant outs == louts && (ring.View(), outs) == Run(start, steps[..i])
    {
      var out := StepRing(ring, steps[i]);
      var lout := StepList(list, steps[i]);
      outs, louts := outs + [out], louts + [lout];
      assert steps[..i + 1][..i] == steps[..i];
      i := i + 1;
    }
    assert steps[..i] == steps;
  }

  function Run<T>(q: Queue<T>, steps: seq<Step<T>>): (Queue<T>, seq<Out<T>>) {
    if steps == [] then (q, [])
    else
      var (m, outs) := Run(q, steps[..|steps| - 1]);
      var (r, out) := Effect(m, steps[|steps| - 1]);
      (r, outs + [out])
  }

  // ----- first in, first out

  /** The values of the pushes that succeeded, in order. */
  function Accepted<T>(steps: seq<Step<T>>, outs: seq<Out<T>>): seq<T>
    requires |steps| == |outs|
  {
    if steps == [] then []
    else
      var n := |steps| - 1;
      Accepted(steps[..n], outs[..n]) + if steps[n].Push? && outs[n] == Pushed(true) then [steps[n].value] else []
  }

  function Delivered<T>(outs: seq<Out<T>>): seq<T> {
    if outs == [] then []
    else Delivered(outs[..|outs| - 1]) + if outs[|outs| - 1].Popped? then [outs[|outs| - 1].value] else []
  }

  lemma {:induction false} RunLength<T>(q: Queue<T>, steps: seq<Step<T>>)
    ensures |Run(q, steps).1| == |steps| && Run(q, steps).0.rendezvous == q.rendezvous
  {
    if steps != [] {
      RunLength(q, steps[..|steps| - 1]);
    }
  }

  /** A buffered blocking channel delivers every accepted value exactly once, in order; what is
      not delivered yet is still queued, even after close. */
  lemma {:induction false} FirstInFirstOut<T>(q: Queue<T>, steps: seq<Step<T>>)
    requires q.items == [] && !q.rendezvous
    ensures |Run(q, steps).1| == |steps|
    ensures Accepted(steps, Run(q, steps).1) == Delivered(Run(q, steps).1) + Run(q, steps).0.items
  {
    RunLength(q, steps);
    if steps != [] {
      var n := |steps| - 1;
      FirstInFirstOut(q, steps[..n]);
      RunLength(q, steps[..n]);
      var (m, outs) := Run(q, steps[..n]);
      var (r, out) := Effect(m, steps[n]);
      assert (outs + [out])[..n] == outs;
      FifoStep(m, steps[n], Accepted(steps[..n], outs), Delivered(outs));
    }
  }

  lemma FifoStep<T>(m: Queue<T>, step: Step<T>, accepted: seq<T>, delivered: seq<T>)
    requires accepted == delivered + m.items && !m.rendezvous
    ensures var (r, out) := Effect(m, step);
      var more := if step.Push? && out == Pushed(true) then [step.value] else [];
      var popped := if out.Popped? then [out.value] else [];
      accepted + more == delivered + popped + r.items
  {
  }

  // ----- when a step goes on, and what it does then

  /** A push waits exactly while the channel is open and full, and fails exactly when it is closed; a
      pop waits exactly while it is open and empty, and gives nothing exactly when closed and empty. */
  lemma StepsWaitExactly<T>(q: Queue<T>, v: T)
    requires QueueOk(q)
    ensures var out := Effect(q, Push(v)).1;
      && (out == Skipped <==> !q.closed && |q.items| == q.capacity)
      && (out == Pushed(false) <==> q.closed)
      && (out == Pushed(true) <==> !q.closed && |q.items| < q.capacity)
    ensures var out := Effect(q, Pop).1;
      && (out == Skipped <==> !q.closed && q.items == [])
      && (out == Nothing <==> q.closed && q.items == [])
      && (out.Popped? <==> q.items != [])
  {
  }

  /** A closed channel accepts nothing more and still delivers what it holds, in order. */
  lemma {:induction false} ClosedOnlyDrains<T>(q: Queue<T>, steps: seq<Step<T>>)
    requires q.closed && !q.rendezvous
    ensures |Run(q, steps).1| == |steps| && Run(q, steps).0.closed
    ensures Accepted(steps, Run(q, steps).1) == [] && Delivered(Run(q, steps).1) + Run(q, steps).0.items == q.items
  {
    RunLength(q, steps);
    if steps != [] {
      var n := |steps| - 1;
      ClosedOnlyDrains(q, steps[..n]);
      var (m, outs) := Run(q, steps[..n]);
      RunLength(q, steps[..n]);
      var out := Effect(m, steps[n]).1;
      assert (outs + [out])[..n] == outs;
      if out.Popped? { assert m.items == [m.items[0]] + m.items[1..]; }
    }
  }

  /** The value a channel of capacity 0 took back when it was closed before it was received. */
  ghost predicate TookBack<T>(accepted: seq<T>, delivered: seq<T>, m: Queue<T>, lost: seq<T>) {
    && accepted == delivered + m.items + lost && |m.items| <= 1
    && |lost| <= 1 && (lost != [] ==> m.closed) && (m.closed ==> m.items == [])
  }

  lemma TakesBackStep<T>(m: Queue<T>, step: Step<T>, accepted: seq<T>, delivered: seq<T>, lost: seq<T>)
    requires m.rendezvous && m.capacity == 1 && TookBack(accepted, delivered, m, lost)
    ensures var (r, out) := Effect(m, step);
      var more := if step.Push? && out == Pushed(true) then [step.value] else [];
      var popped := if out.Popped? then [out.value] else [];
      exists l :: TookBack(accepted + more, delivered + popped, r, l)
  {
    var (r, out) := Effect(m, step);
    var more := if step.Push? && out == Pushed(true) then [step.value] else [];
    var popped := if out.Popped? then [out.value] else [];
    var l := if step.Close? && m.items != [] then m.items else lost;
    assert more == [] ==> accepted + more == accepted;
    assert popped == [] ==> delivered + popped == delivered;
    assert lost == [] ==> accepted == delivered + m.items;
    assert TookBack(accepted + more, delivered + popped, r, l);
  }

  /** A channel of capacity 0 delivers what it accepted, in order, but for at most one value, taken
      back by the close that came before its receiver. */
  lemma {:induction false} RendezvousTakesBack<T>(q: Queue<T>, steps: seq<Step<T>>)
    requires q.items == [] && q.rendezvous && q.capacity == 1
    ensures |Run(q, steps).1| == |steps| && Run(q, steps).0.capacity == 1
    ensures exists lost :: TookBack(Accepted(steps, Run(q, steps).1), Delivered(Run(q, steps).1), Run(q, steps).0, lost)
  {
    RunLength(q, steps);
    if steps == [] {
      var outs := Run(q, steps).1;
      assert TookBack(Accepted(steps, outs), Delivered(outs), Run(q, steps).0, []);
    } else {
      var n := |steps| - 1;
      RendezvousTakesBack(q, steps[..n]);
      RunLength(q, steps[..n]);
      var (m, outs) := Run(q, steps[..n]);
      var (r, out) := Effect(m, steps[n]);
      assert (outs + [out])[..n] == outs;
      var lost :| TookBack(Accepted(steps[..n], outs), Delivered(outs), m, lost);
      hide TookBack, Effect;
      TakesBackStep(m, steps[n], Accepted(steps[..n], outs), Delivered(outs), lost);
      var more := if steps[n].Push? && out == Pushed(true) then [steps[n].value] else [];
      var popped := if out.Popped? then [out.value] else [];
      assert Run(q, steps) == (r, outs + [out]);
      assert Accepted(steps, outs + [out]) == Accepted(steps[..n], outs) + more;
      assert Delivered(outs + [out]) == Delivered(outs) + popped;
    }
  }

  // ----- channels that never block

  /** Pushes in a row. */
  function PushRow<T>(q: Queue<T>, policy: Policy, values: seq<T>): Queue<T>
    requires policy != Blocking
  {
    if values == [] then q
    else PushSpec(PushRow(q, policy, values[..|values| - 1]), policy, values[|values| - 1]).0
  }

  /** With the policy that discards old values the newest stay, as many as fit; with the other the
      oldest do. */
  ghost function Kept<T>(policy: Policy, all: seq<T>, n: nat): seq<T> {
    if |all| <= n then all else if policy == DiscardOld then all[|all| - n..] else all[..n]
  }

  lemma KeptStep<T>(q: Queue<T>, policy: Policy, all: seq<T>, v: T)
    requires policy != Blocking && q.capacity >= 1 && !q.closed && q.items == Kept(policy, all, q.capacity)
    ensures PushSpec(q, policy, v).0 == q.(items := Kept(policy, all + [v], q.capacity))
  {
    var n, more := q.capacity, all + [v];
    if |all| < n {
      assert Kept(policy, more, n) == q.items + [v];
    } else if policy == DiscardOld {
      assert more[|more| - n..] == all[|all| - n..][1..] + [v];
    } else {
      assert more[..n] == all[..n];
    }
  }

  lemma {:induction false} DiscardKeeps<T>(q: Queue<T>, policy: Policy, values: seq<T>)
    requires policy != Blocking && QueueOk(q) && !q.closed
    ensures PushRow(q, policy, values) == q.(items := Kept(policy, q.items + values, q.capacity))
  {
    if values == [] {
      assert q.items + values == q.items;
    } else {
      var some, v := values[..|values| - 1], values[|values| - 1];
      DiscardKeeps(q, policy, some);
      assert q.items + values == (q.items + some) + [v];
      hide PushSpec, Kept;
      KeptStep(PushRow(q, policy, some), policy, q.items + some, v);
    }
  }
}
