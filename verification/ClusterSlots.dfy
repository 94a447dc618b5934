/** The mutable cluster state of a server: the slot owner table together with the bitmap and
    the slot count that every node record caches. Each method keeps the three in agreement
    and is proved against the function on values that specifies it. */
module ClusterSlots {
  import opened Common
  import opened Cluster

  datatype ClusterNode = ClusterNode(view: NodeView, slots: Bitmap, numslots: int)

  type Table = seq<Option<NodeName>>

  /** A node's cached bitmap and count say what the owner table says. */
  ghost predicate NodeAgrees(n: NodeName, r: ClusterNode, owner: Table) {
    && |r.slots| == |owner|
    && (forall j :: 0 <= j < |owner| ==> (r.slots[j] <==> owner[j] == Some(n)))
    && r.numslots == |Owned(owner, n)|
  }

  ghost predicate Agrees(nodes: map<NodeName, ClusterNode>, owner: Table) {
    && (forall n :: n in nodes ==> NodeAgrees(n, nodes[n], owner))
    && (forall j :: 0 <= j < |owner| && owner[j].Some? ==> owner[j].value in nodes)
  }

  /** The master of every replica is a known node. */
  ghost predicate MastersKnown(nodes: map<NodeName, ClusterNode>) {
    forall n :: n in nodes && nodes[n].view.slaveof.Some? ==> nodes[n].view.slaveof.value in nodes
  }

  ghost function Views(nodes: map<NodeName, ClusterNode>): map<NodeName, NodeView> {
    map n | n in nodes :: nodes[n].view
  }

  function SetSlotBit(r: ClusterNode, j: nat): ClusterNode
    requires j < |r.slots|
  {
    r.(slots := r.slots[j := true], numslots := if r.slots[j] then r.numslots else r.numslots + 1)
  }

  function ClearSlotBit(r: ClusterNode, j: nat): ClusterNode
    requires j < |r.slots|
  {
    r.(slots := r.slots[j := false], numslots := if r.slots[j] then r.numslots - 1 else r.numslots)
  }

  // ----- agreement after each kind of change

  /** Changing the owner of slot `j` changes the slots of the two nodes concerned only. */
  lemma OwnedAfterUpdate(owner: Table, j: nat, o: Option<NodeName>, n: NodeName)
    requires j < |owner|
    ensures Owned(owner[j := o], n) == if o == Some(n) then Owned(owner, n) + {j} else Owned(owner, n) - {j}
  {
  }

  lemma BystanderAgrees(n: NodeName, r: ClusterNode, owner: Table, j: nat, o: Option<NodeName>)
    requires NodeAgrees(n, r, owner) && j < |owner| && owner[j] != Some(n) && o != Some(n)
    ensures NodeAgrees(n, r, owner[j := o])
  {
    OwnedAfterUpdate(owner, j, o, n);
    assert j !in Owned(owner, n);
    assert Owned(owner[j := o], n) == Owned(owner, n);
  }

  lemma NewOwnerAgrees(n: NodeName, r: ClusterNode, owner: Table, j: nat)
    requires NodeAgrees(n, r, owner) && j < |owner| && owner[j].None?
    ensures NodeAgrees(n, SetSlotBit(r, j), owner[j := Some(n)])
  {
    OwnedAfterUpdate(owner, j, Some(n), n);
    assert j !in Owned(owner, n);
  }

  lemma OldOwnerAgrees(n: NodeName, r: ClusterNode, owner: Table, j: nat)
    requires NodeAgrees(n, r, owner) && j < |owner| && owner[j] == Some(n)
    ensures NodeAgrees(n, ClearSlotBit(r, j), owner[j := None])
  {
    OwnedAfterUpdate(owner, j, None, n);
    assert j in Owned(owner, n);
  }

  lemma AddAgrees(nodes: map<NodeName, ClusterNode>, owner: Table, n: NodeName, j: nat)
    requires Agrees(nodes, owner) && n in nodes && j < |owner| && owner[j].None?
    ensures Agrees(nodes[n := SetSlotBit(nodes[n], j)], owner[j := Some(n)])
    ensures Views(nodes[n := SetSlotBit(nodes[n], j)]) == Views(nodes)
  {
    hide NodeAgrees;
    NewOwnerAgrees(n, nodes[n], owner, j);
    forall m | m in nodes && m != n
      ensures NodeAgrees(m, nodes[m], owner[j := Some(n)])
    {
      BystanderAgrees(m, nodes[m], owner, j, Some(n));
    }
  }

  lemma DelAgrees(nodes: map<NodeName, ClusterNode>, owner: Table, n: NodeName, j: nat)
    requires Agrees(nodes, owner) && j < |owner| && owner[j] == Some(n)
    ensures n in nodes && nodes[n].slots[j]
    ensures Agrees(nodes[n := ClearSlotBit(nodes[n], j)], owner[j := None])
    ensures Views(nodes[n := ClearSlotBit(nodes[n], j)]) == Views(nodes)
  {
    OldOwnerAgrees(n, nodes[n], owner, j);
    forall m | m in nodes && m != n
      ensures NodeAgrees(m, nodes[m], owner[j := None])
    {
      BystanderAgrees(m, nodes[m], owner, j, None);
    }
  }

  lemma ViewAside(n: NodeName, r: ClusterNode, owner: Table, v: NodeView)
    requires NodeAgrees(n, r, owner)
    ensures NodeAgrees(n, r.(view := v), owner)
  {
  }

  lemma ViewChangeAgrees(nodes: map<NodeName, ClusterNode>, owner: Table, n: NodeName, v: NodeView)
    requires Agrees(nodes, owner) && n in nodes
    ensures Agrees(nodes[n := nodes[n].(view := v)], owner)
    ensures Views(nodes[n := nodes[n].(view := v)]) == Views(nodes)[n := v]
  {
    hide NodeAgrees;
    ViewAside(n, nodes[n], owner, v);
  }

  /** A node's cached count is positive exactly when the table gives it a slot. */
  lemma CountMeansServes(nodes: map<NodeName, ClusterNode>, s: Server, n: NodeName)
    requires Agrees(nodes, s.owner) && n in nodes
    ensures nodes[n].numslots > 0 <==> ServesSlots(s, n)
    ensures nodes[n].numslots >= 0
  {
    assert NodeAgrees(n, nodes[n], s.owner);
    if ServesSlots(s, n) {
      var j: nat :| j < |s.owner| && s.owner[j] == Some(n);
      assert j in Owned(s.owner, n);
    }
    if |Owned(s.owner, n)| > 0 {
      var j :| j in Owned(s.owner, n);
    }
  }

  lemma CountIs(nodes: map<NodeName, ClusterNode>, owner: Table, n: NodeName)
    requires Agrees(nodes, owner) && n in nodes
    ensures nodes[n].numslots == |Owned(owner, n)|
  {
    assert NodeAgrees(n, nodes[n], owner);
  }

  lemma OneFewer(owner: Table, n: NodeName, j: nat)
    requires j < |owner| && owner[j] == Some(n)
    ensures |Owned(owner[j := None], n)| == |Owned(owner, n)| - 1
  {
    OwnedAfterUpdate(owner, j, None, n);
    assert j in Owned(owner, n);
  }

  lemma NoneLeft(n: NodeName, r: ClusterNode, owner: Table)
    requires NodeAgrees(n, r, owner) && forall j :: 0 <= j < |owner| ==> owner[j] != Some(n)
    ensures r.numslots == 0
  {
    assert Owned(owner, n) == {};
  }

  ghost predicate Unused(owner: Table, n: NodeName) {
    forall j :: 0 <= j < |owner| ==> owner[j] != Some(n)
  }

  /** The table halfway through a loop over the slots: done below `j`, untouched from `j` on. */
  ghost function Mix(done: Table, todo: Table, j: nat): Table
    requires j <= |done| == |todo|
  {
    done[..j] + todo[j..]
  }

  lemma MixStep(done: Table, todo: Table, j: nat)
    requires j < |done| == |todo|
    ensures Mix(done, todo, j)[j] == todo[j]
    ensures Mix(done, todo, j)[j := done[j]] == Mix(done, todo, j + 1)
    ensures done[j] == todo[j] ==> Mix(done, todo, j) == Mix(done, todo, j + 1)
  {
  }

  lemma MixStarts(done: Table, todo: Table)
    requires |done| == |todo|
    ensures Mix(done, todo, 0) == todo
  {
  }

  lemma MixEnds(done: Table, todo: Table)
    requires |done| == |todo|
    ensures Mix(done, todo, |done|) == done
  {
  }

  /** The table after `me` takes every slot of `n`. */
  function Claimed(owner: Table, n: NodeName, me: NodeName): (t: Table)
    ensures |t| == |owner|
  {
    seq(|owner|, j requires 0 <= j < |owner| => if owner[j] == Some(n) then Some(me) else owner[j])
  }

  lemma ClaimStep(owner: Table, n: NodeName, me: NodeName, j: nat)
    requires j < |owner|
    ensures var goal := Claimed(owner, n, me);
      && Mix(goal, owner, j)[j] == owner[j]
      && Mix(goal, owner, j + 1) ==
        if owner[j] == Some(n) then Mix(goal, owner, j)[j := Some(me)] else Mix(goal, owner, j)
  {
    MixStep(Claimed(owner, n, me), owner, j);
  }

  lemma ReleaseStep(was: Server, n: NodeName, j: nat)
    requires j < |was.owner|
    ensures var goal := ReleaseSlots(was, n).owner;
      && |goal| == |was.owner| && Mix(goal, was.owner, j)[j] == was.owner[j]
      && Mix(goal, was.owner, j + 1) ==
        if was.owner[j] == Some(n) then Mix(goal, was.owner, j)[j := None] else Mix(goal, was.owner, j)
  {
    MixStep(ReleaseSlots(was, n).owner, was.owner, j);
  }

  /** Some slot below `j` is taken from `cur`. */
  ghost predicate TakesBelow(s: Server, sender: NodeName, epoch: nat, claimed: Bitmap, cur: Option<NodeName>, j: nat)
    requires Fits(s, claimed) && j <= |s.owner|
  {
    exists i :: 0 <= i < j && Rebinds(s, sender, epoch, claimed, i) && s.owner[i] == cur
  }

  lemma TakesStep(s: Server, sender: NodeName, epoch: nat, claimed: Bitmap, cur: Option<NodeName>, j: nat)
    requires Fits(s, claimed) && j < |s.owner|
    ensures TakesBelow(s, sender, epoch, claimed, cur, j + 1)
       <==> TakesBelow(s, sender, epoch, claimed, cur, j)
            || (Rebinds(s, sender, epoch, claimed, j) && s.owner[j] == cur)
  {
  }

  lemma TakesAll(s: Server, sender: NodeName, epoch: nat, claimed: Bitmap, cur: Option<NodeName>)
    requires Fits(s, claimed)
    ensures TakesBelow(s, sender, epoch, claimed, cur, |s.owner|) <==> TakesFrom(s, sender, epoch, claimed, cur)
  {
  }

  /** Halfway through the loop a slot still rebinds as it would have at the start. */
  lemma RebindStep(was: Server, sender: NodeName, epoch: nat, claimed: Bitmap, j: nat)
    requires Fits(was, claimed) && j < |was.owner|
    ensures var goal := Rebound(was, sender, epoch, claimed);
      var s := was.(owner := Mix(goal, was.owner, j));
      && |goal| == |s.owner| == |was.owner| && s.owner[j] == was.owner[j]
      && Rebinds(s, sender, epoch, claimed, j) == Rebinds(was, sender, epoch, claimed, j)
      && Mix(goal, was.owner, j + 1) ==
        if Rebinds(s, sender, epoch, claimed, j) then s.owner[j := Some(sender)] else s.owner
  {
    var goal := Rebound(was, sender, epoch, claimed);
    MixStep(goal, was.owner, j);
    assert goal[j] == if Rebinds(was, sender, epoch, claimed, j) then Some(sender) else was.owner[j];
    hide Rebound, Mix;
  }

  lemma MaxEpochIsUnique(s: Server, m: nat, k: nat)
    requires IsMaxEpoch(s, m)
    ensures IsMaxEpoch(s, k) <==> k == m
  {
  }

  class ClusterState {
    var myself: NodeName
    var nodes: map<NodeName, ClusterNode>
    const slots: array<Option<NodeName>>
    var importing: seq<Option<NodeName>>
    var currentEpoch: nat
    var lastVoteEpoch: nat
    var authSent: bool
    var authEpoch: nat
    var authCount: nat
    var authTime: int
    var size: nat

    ghost predicate Valid()
      reads this, slots
    {
      && myself in nodes
      && |importing| == slots.Length
      && Agrees(nodes, slots[..])
      && MastersKnown(nodes)
    }

    ghost function View(): Server
      reads this, slots
    {
      Server(myself, Views(nodes), slots[..], importing,
             currentEpoch, lastVoteEpoch, authSent, authEpoch, authCount, authTime, size)
    }

    constructor (me: NodeName, slotCount: nat)
      ensures Valid() && fresh(slots) && slots.Length == slotCount
      ensures View() == Server(me, map[me := NodeView(0, true, None, false, 0)], seq(slotCount, _ => None),
                               seq(slotCount, _ => None), 0, 0, false, 0, 0, 0, 1)
    {
      myself := me;
      nodes := map[me := ClusterNode(NodeView(0, true, None, false, 0), seq(slotCount, _ => false), 0)];
      slots := new Option<NodeName>[slotCount](_ => None);
      importing := seq(slotCount, _ => None);
      currentEpoch, lastVoteEpoch, authSent, authEpoch, authCount, authTime, size := 0, 0, false, 0, 0, 0, 1;
      new;
      assert Owned(slots[..], me) == {};
    }

    /** Replace what this server records about a node, slots aside. */
    method SetView(n: NodeName, v: NodeView)
      requires Valid() && n in nodes && (v.slaveof.Some? ==> v.slaveof.value in nodes)
      modifies this`nodes
      ensures Valid() && nodes.Keys == old(nodes.Keys) && View() == SetNode(old(View()), n, v)
    {
      ViewChangeAgrees(nodes, slots[..], n, v);
      nodes := nodes[n := nodes[n].(view := v)];
    }

    // ----- single slots

    method AddSlot(n: NodeName, j: nat) returns (ok: bool)
      requires Valid() && n in nodes && j < slots.Length
      modifies this`nodes, slots
      ensures Valid() && nodes.Keys == old(nodes.Keys) && ok == old(slots[j]).None?
      ensures View() == if ok then old(View()).(owner := old(View()).owner[j := Some(n)]) else old(View())
    {
      if slots[j].Some? { return false; }
      AddAgrees(nodes, slots[..], n, j);
      ghost var was := slots[..];
      nodes := nodes[n := SetSlotBit(nodes[n], j)];
      slots[j] := Some(n);
      assert slots[..] == was[j := Some(n)];
      ok := true;
    }

    method DelSlot(j: nat) returns (ok: bool)
      requires Valid() && j < slots.Length
      modifies this`nodes, slots
      ensures Valid() && nodes.Keys == old(nodes.Keys) && ok == old(slots[j]).Some?
      ensures View() == old(View()).(owner := old(View()).owner[j := None])
    {
      if slots[j].None? {
        assert slots[..] == slots[..][j := None];
        return false;
      }
      var n := slots[j].value;
      ghost var was := slots[..];
      DelAgrees(nodes, slots[..], n, j);
      // the program aborts when the bit was not set
      assert nodes[n].slots[j];
      nodes := nodes[n := ClearSlotBit(nodes[n], j)];
      slots[j] := None;
      assert slots[..] == was[j := None];
      ok := true;
    }

    // ----- loops over the slots

    method DelNodeSlots(n: NodeName) returns (deleted: nat)
      requires Valid() && n in nodes
      modifies this`nodes, slots
      ensures Valid() && nodes.Keys == old(nodes.Keys) && View() == ReleaseSlots(old(View()), n)
      ensures deleted == old(nodes[n].numslots) && nodes[n].numslots == 0
    {
      hide Agrees, Mix, Views, MastersKnown;
      deleted := 0;
      ghost var was := View();
      ghost var goal := ReleaseSlots(was, n).owner;
      MixStarts(goal, was.owner);
      hide ReleaseSlots;
      for j := 0 to slots.Length
        invariant Valid() && nodes.Keys == old(nodes.Keys) && View() == was.(owner := Mix(goal, was.owner, j))
        invariant deleted + nodes[n].numslots == old(nodes[n].numslots)
      {
        ReleaseStep(was, n, j);
        var bit := ReleaseIfOwned(n, j);
        deleted := deleted + if bit then 1 else 0;
      }
      MixEnds(goal, was.owner);
      NothingLeft(n);
    }

    lemma NothingLeft(n: NodeName)
      requires Valid() && n in nodes && exists s :: slots[..] == ReleaseSlots(s, n).owner
      ensures nodes[n].numslots == 0
    {
      assert NodeAgrees(n, nodes[n], slots[..]);
      NoneLeft(n, nodes[n], slots[..]);
    }

    method ReleaseIfOwned(n: NodeName, j: nat) returns (bit: bool)
      requires Valid() && n in nodes && j < slots.Length
      modifies this`nodes, slots
      ensures Valid() && nodes.Keys == old(nodes.Keys) && bit == (old(slots[j]) == Some(n))
      ensures View() == if bit then old(View()).(owner := old(View()).owner[j := None]) else old(View())
      ensures nodes[n].numslots == old(nodes[n].numslots) - if bit then 1 else 0
    {
      hide Agrees, Views, MastersKnown;
      bit := TestSlotBit(n, j);
      if bit {
        ReleaseOne(n, j);
      }
    }

    /** clusterNodeGetSlotBit: the cached bit is the table's answer. */
    method TestSlotBit(n: NodeName, j: nat) returns (bit: bool)
      requires Valid() && n in nodes && j < slots.Length
      ensures bit <==> slots[j] == Some(n)
    {
      assert NodeAgrees(n, nodes[n], slots[..]);
      bit := nodes[n].slots[j];
    }

    method ReleaseOne(n: NodeName, j: nat)
      requires Valid() && n in nodes && j < slots.Length && slots[j] == Some(n)
      modifies this`nodes, slots
      ensures Valid() && nodes.Keys == old(nodes.Keys) && View() == old(View()).(owner := old(View()).owner[j := None])
      ensures nodes[n].numslots == old(nodes[n].numslots) - 1
    {
      hide Agrees, Views, MastersKnown;
      CountIs(nodes, slots[..], n);
      ghost var before := slots[..];
      var _ := DelSlot(j);
      CountIs(nodes, slots[..], n);
      OneFewer(before, n, j);
    }

    /** clusterDelSlot followed by clusterAddSlot. */
    method MoveSlot(n: NodeName, j: nat)
      requires Valid() && n in nodes && j < slots.Length
      modifies this`nodes, slots
      ensures Valid() && nodes.Keys == old(nodes.Keys)
      ensures View() == old(View()).(owner := old(View()).owner[j := Some(n)])
    {
      hide Agrees, Views, MastersKnown;
      ghost var before := slots[..];
      var _ := DelSlot(j);
      var _ := AddSlot(n, j);
      assert before[j := None][j := Some(n)] == before[j := Some(n)];
    }

    /** clusterUpdateSlotsConfigWith. */
    method UpdateSlotsConfigWith(sender: NodeName, epoch: nat, claimed: Bitmap)
      requires Valid() && sender in nodes && |claimed| == slots.Length
      requires !Aborts(View(), sender, epoch, claimed)
      modifies this`nodes, this`importing, slots
      ensures Valid() && View() == UpdateSlots(old(View()), sender, epoch, claimed)
    {
      if sender == myself { return; }
      ghost var was := View();
      var curmaster := if nodes[myself].view.master then Some(myself) else nodes[myself].view.slaveof;
      var newmaster := RebindSlots(sender, epoch, claimed, curmaster);
      if newmaster {
        CountMeansServes(nodes, View(), curmaster.value);
        if nodes[curmaster.value].numslots == 0 { SetMyMaster(sender); }
      }
    }

    /** The loop of clusterUpdateSlotsConfigWith; reports whether `curmaster` lost a slot. */
    method RebindSlots(sender: NodeName, epoch: nat, claimed: Bitmap, curmaster: Option<NodeName>)
        returns (newmaster: bool)
      requires Valid() && sender in nodes && |claimed| == slots.Length
      modifies this`nodes, slots
      ensures Valid() && nodes.Keys == old(nodes.Keys)
      ensures View() == old(View()).(owner := Rebound(old(View()), sender, epoch, claimed))
      ensures newmaster <==> TakesFrom(old(View()), sender, epoch, claimed, curmaster)
    {
      newmaster := false;
      ghost var was := View();
      ghost var goal := Rebound(was, sender, epoch, claimed);
      assert Fits(was, claimed) && |goal| == slots.Length && Mix(goal, was.owner, 0) == was.owner;
      assert !TakesBelow(was, sender, epoch, claimed, curmaster, 0);
      hide Agrees, Rebound, Mix, Rebinds, Views, TakesBelow, TakesFrom, Fits, MastersKnown;
      for j := 0 to slots.Length
        invariant Valid() && nodes.Keys == old(nodes.Keys) && View() == was.(owner := Mix(goal, was.owner, j))
        invariant newmaster <==> TakesBelow(was, sender, epoch, claimed, curmaster, j)
      {
        RebindStep(was, sender, epoch, claimed, j);
        TakesStep(was, sender, epoch, claimed, curmaster, j);
        var lost := RebindOne(sender, epoch, claimed, curmaster, j);
        newmaster := newmaster || lost;
      }
      MixEnds(goal, was.owner);
      TakesAll(was, sender, epoch, claimed, curmaster);
    }

    /** One slot of that loop. */
    method RebindOne(sender: NodeName, epoch: nat, claimed: Bitmap, curmaster: Option<NodeName>, j: nat)
        returns (lost: bool)
      requires Valid() && sender in nodes && j < slots.Length == |claimed|
      modifies this`nodes, slots
      ensures Valid() && nodes.Keys == old(nodes.Keys)
      ensures var s := old(View()); var moves := Rebinds(s, sender, epoch, claimed, j);
        && lost == (moves && s.owner[j] == curmaster)
        && View() == if moves then s.(owner := s.owner[j := Some(sender)]) else s
    {
      var moves := SlotRebinds(sender, epoch, claimed, j);
      lost := moves && slots[j] == curmaster;
      hide Agrees, Rebinds, MastersKnown;
      if moves {
        MoveSlot(sender, j);
      }
    }

    method SlotRebinds(sender: NodeName, epoch: nat, claimed: Bitmap, j: nat) returns (moves: bool)
      requires Valid() && j < slots.Length == |claimed|
      ensures moves == Rebinds(View(), sender, epoch, claimed, j)
    {
      moves := claimed[j] && slots[j] != Some(sender) && importing[j].None?
               && (slots[j].None? || nodes[slots[j].value].view.configEpoch < epoch);
    }

    /** clusterSetMaster. Its two assertions are the preconditions of `SetMaster`. */
    method SetMyMaster(n: NodeName)
      requires Valid() && n in nodes
      requires n != myself && !ServesSlots(View(), myself)
      modifies this`nodes, this`importing
      ensures Valid() && View() == SetMaster(old(View()), n)
    {
      CountMeansServes(nodes, View(), myself);
      assert n != myself && nodes[myself].numslots == 0;
      var me := nodes[myself].view;
      if me.master {
        importing := seq(|importing|, _ => None);
      }
      SetView(myself, me.(master := false, slaveof := Some(n)));
    }

    /** clusterFailoverReplaceYourMaster. */
    method FailoverReplaceYourMaster()
      requires Valid()
      modifies this`nodes, slots
      ensures Valid() && View() == ReplaceMaster(old(View()))
      ensures var me := old(nodes[myself].view);
        if me.master || me.slaveof.None? then slots[..] == old(slots[..])
        else
          && nodes[myself].view.master && nodes[myself].view.slaveof.None?
          && forall j :: 0 <= j < slots.Length ==>
               slots[j] == if old(slots[j]) == me.slaveof then Some(myself) else old(slots[j])
    {
      var me := nodes[myself].view;
      if me.master || me.slaveof.None? { return; }
      var oldmaster := me.slaveof.value;
      SetView(myself, me.(master := true, slaveof := None));
      ghost var was := slots[..];
      ClaimSlotsOf(oldmaster);
      assert slots[..] == Claimed(was, oldmaster, myself);
      ViewOfMe();
    }

    lemma ViewOfMe()
      requires Valid()
      ensures View().Me() == nodes[myself].view
    {
    }

    method ClaimSlotsOf(n: NodeName)
      requires Valid() && n in nodes
      modifies this`nodes, slots
      ensures Valid() && View() == old(View()).(owner := Claimed(old(View()).owner, n, old(myself)))
    {
      hide Agrees, Views, Mix, Claimed, MastersKnown;
      ghost var was := View();
      ghost var goal := Claimed(was.owner, n, myself);
      MixStarts(goal, was.owner);
      for j := 0 to slots.Length
        invariant Valid() && n in nodes && View() == was.(owner := Mix(goal, was.owner, j))
      {
        ClaimStep(was.owner, n, was.myself, j);
        ClaimOne(n, j);
      }
      MixEnds(goal, was.owner);
    }

    method ClaimOne(n: NodeName, j: nat)
      requires Valid() && n in nodes && j < slots.Length
      modifies this`nodes, slots
      ensures Valid() && nodes.Keys == old(nodes.Keys)
      ensures var s := old(View());
        View() == if s.owner[j] == Some(n) then s.(owner := s.owner[j := Some(s.myself)]) else s
    {
      hide Agrees, Views, MastersKnown;
      var bit := TestSlotBit(n, j);
      if bit {
        MoveSlot(myself, j);
      }
    }

    /** clusterDelNode. */
    method DelNode(n: NodeName)
      requires Valid() && n in nodes && n != myself
      modifies this`nodes, this`importing, slots
      ensures Valid() && View() == Forget(old(View()), n)
    {
      ghost var was := View();
      hide Agrees, Views, MastersKnown, Unused;
      ReleaseKeepsRest(was, n);
      var _ := DelNodeSlots(n);
      DropReferences(n);
    }

    /** Forget a node that owns no slot, and every pointer to it. */
    method DropReferences(n: NodeName)
      requires Valid() && n in nodes && n != myself && Unused(slots[..], n)
      modifies this`nodes, this`importing
      ensures Valid() && View() == Forgotten(old(View()), n)
    {
      hide Agrees, Forgotten, WithoutNode, Views, MastersKnown, ForgetImports, Unused;
      ForgetAgrees(nodes, slots[..], n);
      ForgetMasters(nodes, n);
      ForgetViews(View(), nodes, n);
      importing := ForgetImports(importing, n);
      nodes := WithoutNode(nodes, n);
    }

    // ----- elections

    /** clusterSendFailoverAuthIfNeeded; the packet's epochs were already seen. */
    method SendFailoverAuthIfNeeded(h: Header, now: int, nodeTimeout: nat) returns (granted: bool)
      requires Valid() && Linked(View()) && h.sender in nodes && |h.slots| == slots.Length
      modifies this`nodes, this`lastVoteEpoch
      ensures Valid() && granted == MayVote(old(View()), h, now, nodeTimeout)
      ensures View() == if granted then CastVote(old(View()), h.sender, now) else old(View())
    {
      hide Agrees, ClaimsCurrent;
      var candidate := nodes[h.sender].view;
      CountMeansServes(nodes, View(), myself);
      if !nodes[myself].view.master || nodes[myself].numslots == 0 { return false; }
      if h.currentEpoch < currentEpoch { return false; }
      if lastVoteEpoch == currentEpoch { return false; }
      if candidate.master || candidate.slaveof.None? ||
         (!nodes[candidate.slaveof.value].view.failed && !h.forceAck) { return false; }
      var m := candidate.slaveof.value;
      if now - nodes[m].view.votedTime < nodeTimeout * 2 { return false; }
      ClaimsCurrentMeans(View(), nodes, h);
      var ok := ClaimsAreCurrent(h);
      if !ok { return false; }
      lastVoteEpoch := currentEpoch;
      SetView(m, nodes[m].view.(votedTime := now));
      granted := true;
    }

    /** No claimed slot is served under a greater configEpoch than the request's. */
    method ClaimsAreCurrent(h: Header) returns (ok: bool)
      requires Valid() && |h.slots| == slots.Length
      ensures ok <==> ClaimsCurrent(nodes, slots[..], h, slots.Length)
    {
      hide Agrees, MastersKnown, ClaimsCurrent;
      ClaimsCurrentStarts(nodes, slots[..], h);
      for j := 0 to slots.Length
        invariant ClaimsCurrent(nodes, slots[..], h, j)
      {
        ClaimsCurrentStep(nodes, slots[..], h, j);
        OwnerIsKnown(nodes, slots[..], j);
        if h.slots[j] && slots[j].Some? && nodes[slots[j].value].view.configEpoch > h.configEpoch { return false; }
      }
      ok := true;
    }

    /** The FAILOVER_AUTH_ACK branch of clusterProcessPacket. */
    method ProcessAck(h: Header)
      requires Valid() && h.sender in nodes
      modifies this`authCount
      ensures Valid() && View() == HandleAck(old(View()), h)
    {
      hide MastersKnown, ServesSlots, Agrees;
      CountMeansServes(nodes, View(), h.sender);
      if nodes[h.sender].view.master && nodes[h.sender].numslots > 0 && h.currentEpoch >= authEpoch {
        authCount := authCount + 1;
      }
    }

    /** clusterHandleSlaveFailover. */
    method HandleFailover(e: Env) returns (o: Outcome)
      requires Valid() && Linked(View())
      modifies this, slots
      ensures Valid() && (View(), o) == HandleSlaveFailover(old(View()), e)
    {
      hide Agrees, ReplaceMaster, Views, MastersKnown;
      var may := CanFailover(e);
      if !may { return Idle; }
      var age := e.now - authTime;
      if age > 2 * AuthTimeout(e) {
        authTime := e.now + e.delay;
        authCount, authSent := 0, false;
        if e.mfEnd { authTime := e.now; }
        return Scheduled;
      }
      if !authSent && !e.mfEnd {
        authTime := authTime + e.extraDelay;
      }
      if e.now < authTime { return Waiting; }
      if age > AuthTimeout(e) { return Waiting; }
      if !authSent {
        currentEpoch := currentEpoch + 1;
        authEpoch := currentEpoch;
        authSent := true;
        return Requested;
      }
      if authCount < size / 2 + 1 { return Waiting; }
      TakeOver();
      o := Won;
    }

    /** The promotion of a winner: first the epoch, then the role and the slots. */
    method TakeOver()
      requires Valid()
      modifies this`nodes, slots
      ensures Valid()
      ensures var s := old(View()); var v := s.Me();
        var epoch := if v.configEpoch < s.authEpoch then s.authEpoch else v.configEpoch;
        View() == ReplaceMaster(SetNode(s, s.myself, v.(configEpoch := epoch)))
    {
      hide Agrees, ReplaceMaster, Views, MastersKnown;
      TakeElectionEpoch();
      FailoverReplaceYourMaster();
    }

    method CanFailover(e: Env) returns (may: bool)
      requires Valid() && Linked(View())
      ensures may == MayFailover(View(), e)
    {
      var me := nodes[myself].view;
      if me.master || me.slaveof.None? { return false; }
      CountMeansServes(nodes, View(), me.slaveof.value);
      if (!nodes[me.slaveof.value].view.failed && !e.Manual()) ||
         (e.noFailover && !e.Manual()) || nodes[me.slaveof.value].numslots == 0 { return false; }
      may := e.dataOk || e.Manual();
    }

    method TakeElectionEpoch()
      requires Valid()
      modifies this`nodes
      ensures Valid()
      ensures var s := old(View()); var v := s.Me();
        View() == SetNode(s, s.myself,
          v.(configEpoch := if v.configEpoch < s.authEpoch then s.authEpoch else v.configEpoch))
    {
      var me := nodes[myself].view;
      if me.configEpoch < authEpoch {
        SetView(myself, me.(configEpoch := authEpoch));
      } else {
        assert Views(nodes)[myself := me] == Views(nodes);
      }
    }

    // ----- epochs

    method GetMaxEpoch() returns (max: nat)
      requires Valid()
      ensures IsMaxEpoch(View(), max)
    {
      max := 0;
      var todo := nodes.Keys;
      ghost var s := View();
      while todo != {}
        invariant todo <= nodes.Keys
        invariant forall n :: n in s.nodes && n !in todo ==> s.nodes[n].configEpoch <= max
        invariant max == 0 || exists n :: n in s.nodes && s.nodes[n].configEpoch == max
        decreases todo
      {
        var n :| n in todo;
        if nodes[n].view.configEpoch > max {
          max := nodes[n].view.configEpoch;
          assert n in s.nodes && s.nodes[n].configEpoch == max;
        }
        todo := todo - {n};
      }
      if max < currentEpoch { max := currentEpoch; }
    }

    method BumpConfigEpochWithoutConsensus() returns (ok: bool)
      requires Valid()
      modifies this`nodes, this`currentEpoch
      ensures Valid() && View() == BumpEpoch(old(View()))
      ensures ok <==> currentEpoch > old(currentEpoch)
    {
      hide Agrees, IsMaxEpoch, MastersKnown;
      ok := NeedsNewEpoch();
      if ok { AssignNextEpoch(); }
    }

    method NeedsNewEpoch() returns (needed: bool)
      requires Valid()
      ensures var s := View(); needed <==> s.Me().configEpoch == 0 || !IsMaxEpoch(s, s.Me().configEpoch)
    {
      var max := GetMaxEpoch();
      var epoch := nodes[myself].view.configEpoch;
      MaxEpochIsUnique(View(), max, epoch);
      needed := epoch == 0 || epoch != max;
    }

    method AssignNextEpoch()
      requires Valid()
      modifies this`nodes, this`currentEpoch
      ensures Valid()
      ensures var s := old(View());
        View() == SetNode(s, s.myself, s.Me().(configEpoch := s.currentEpoch + 1)).(currentEpoch := s.currentEpoch + 1)
    {
      hide Agrees;
      currentEpoch := currentEpoch + 1;
      SetView(myself, nodes[myself].view.(configEpoch := currentEpoch));
    }
  }

  ghost predicate ClaimIsCurrent(nodes: map<NodeName, ClusterNode>, o: Option<NodeName>, claimed: bool, epoch: nat) {
    claimed && o.Some? && o.value in nodes ==> nodes[o.value].view.configEpoch <= epoch
  }

  /** Below slot `j` no claimed slot has an owner with a greater configEpoch than `h` carries. */
  ghost predicate ClaimsCurrent(nodes: map<NodeName, ClusterNode>, owner: Table, h: Header, j: nat)
    requires j <= |owner| == |h.slots|
  {
    forall i :: 0 <= i < j ==> ClaimIsCurrent(nodes, owner[i], h.slots[i], h.configEpoch)
  }

  lemma OwnerIsKnown(nodes: map<NodeName, ClusterNode>, owner: Table, j: nat)
    requires Agrees(nodes, owner) && j < |owner|
    ensures owner[j].Some? ==> owner[j].value in nodes
  {
  }

  lemma ClaimsCurrentStarts(nodes: map<NodeName, ClusterNode>, owner: Table, h: Header)
    requires |owner| == |h.slots|
    ensures ClaimsCurrent(nodes, owner, h, 0)
  {
  }

  lemma ClaimsCurrentStep(nodes: map<NodeName, ClusterNode>, owner: Table, h: Header, j: nat)
    requires j < |owner| == |h.slots| && ClaimsCurrent(nodes, owner, h, j)
    ensures var now := ClaimIsCurrent(nodes, owner[j], h.slots[j], h.configEpoch);
      (now ==> ClaimsCurrent(nodes, owner, h, j + 1)) && (!now ==> !ClaimsCurrent(nodes, owner, h, |owner|))
  {
    hide ClaimIsCurrent;
  }

  lemma ClaimsCurrentMeans(s: Server, nodes: map<NodeName, ClusterNode>, h: Header)
    requires Agrees(nodes, s.owner) && Views(nodes) == s.nodes && |s.owner| == |h.slots|
    ensures ClaimsCurrent(nodes, s.owner, h, |s.owner|) <==>
      forall j :: 0 <= j < |s.owner| && h.slots[j] ==>
        s.owner[j].None? || s.nodes[s.owner[j].value].configEpoch <= h.configEpoch
  {
    hide NodeAgrees;
    assert forall n :: n in nodes ==> s.nodes[n] == nodes[n].view;
    assert forall j :: 0 <= j < |s.owner| && s.owner[j].Some? ==> s.owner[j].value in nodes;
  }

  function WithoutNode(nodes: map<NodeName, ClusterNode>, n: NodeName): map<NodeName, ClusterNode> {
    map m | m in nodes && m != n ::
      if nodes[m].view.slaveof == Some(n) then nodes[m].(view := nodes[m].view.(slaveof := None)) else nodes[m]
  }

  function ForgetImports(importing: seq<Option<NodeName>>, n: NodeName): (r: seq<Option<NodeName>>)
    ensures |r| == |importing|
  {
    seq(|importing|, j requires 0 <= j < |importing| => if importing[j] == Some(n) then None else importing[j])
  }

  /** Forgetting a node, its slots aside. */
  function Forgotten(s: Server, n: NodeName): Server {
    s.(nodes := map x | x in s.nodes && x != n ::
         if s.nodes[x].slaveof == Some(n) then s.nodes[x].(slaveof := None) else s.nodes[x],
       importing := ForgetImports(s.importing, n))
  }

  lemma ReleaseKeepsRest(s: Server, n: NodeName)
    requires n != s.myself
    ensures Forgotten(ReleaseSlots(s, n), n) == Forget(s, n) && Unused(ReleaseSlots(s, n).owner, n)
  {
  }

  lemma ForgetViews(s: Server, nodes: map<NodeName, ClusterNode>, n: NodeName)
    requires Views(nodes) == s.nodes
    ensures Forgotten(s, n) == s.(nodes := Views(WithoutNode(nodes, n)), importing := ForgetImports(s.importing, n))
    ensures forall m :: m in WithoutNode(nodes, n) <==> m in nodes && m != n
  {
    assert forall m :: m in nodes ==> s.nodes[m] == nodes[m].view;
    assert s.nodes.Keys == nodes.Keys;
  }

  lemma ForgetMasters(nodes: map<NodeName, ClusterNode>, n: NodeName)
    requires MastersKnown(nodes)
    ensures MastersKnown(WithoutNode(nodes, n))
  {
  }

  lemma ForgetAgrees(nodes: map<NodeName, ClusterNode>, owner: Table, n: NodeName)
    requires Agrees(nodes, owner) && Unused(owner, n)
    ensures Agrees(WithoutNode(nodes, n), owner)
  {
    forall m | m in nodes && m != n
      ensures NodeAgrees(m, WithoutNode(nodes, n)[m], owner)
    {
      assert NodeAgrees(m, nodes[m], owner);
    }
  }
}
