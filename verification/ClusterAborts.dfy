/** When a claim of slots ends the program. clusterUpdateSlotsConfigWith dereferences the master of
    this server, and clusterSetMaster asserts that this server owns no slot. The first never fails;
    the second fails on a replica that was given slots by CLUSTER ADDSLOTS. */
module ClusterAborts {
  import opened Common
  import opened Cluster
  import opened ClusterEpochs
  import opened ClusterRuns

  /** The master of this replica owns slots and loses all of them to the claim. */
  ghost predicate StripsMaster(s: Server, sender: NodeName, epoch: nat, claimed: Bitmap)
    requires Linked(s) && Fits(s, claimed)
  {
    && !s.Me().master && ServesSlots(s, s.Me().slaveof.value)
    && forall j :: 0 <= j < |s.owner| && s.owner[j] == s.Me().slaveof ==> Rebinds(s, sender, epoch, claimed, j)
  }

  /** This server owns a slot that the claim leaves to it. */
  ghost predicate StillOwns(s: Server, sender: NodeName, epoch: nat, claimed: Bitmap)
    requires Fits(s, claimed)
  {
    exists j: nat :: j < |s.owner| && s.owner[j] == Some(s.myself) && !Rebinds(s, sender, epoch, claimed, j)
  }

  lemma LosesAll(s: Server, n: NodeName, sender: NodeName, epoch: nat, claimed: Bitmap)
    requires Linked(s) && Fits(s, claimed) && n in s.nodes && sender != n
    ensures ServesSlots(s.(owner := Rebound(s, sender, epoch, claimed)), n) <==>
      exists j: nat :: j < |s.owner| && s.owner[j] == Some(n) && !Rebinds(s, sender, epoch, claimed, j)
  {
    var t := s.(owner := Rebound(s, sender, epoch, claimed));
    hide Rebinds;
    assert forall j: nat :: j < |s.owner| ==>
      (t.owner[j] == Some(n) <==> s.owner[j] == Some(n) && !Rebinds(s, sender, epoch, claimed, j));
    if ServesSlots(t, n) {
      var j: nat :| j < |t.owner| && t.owner[j] == Some(n);
      assert s.owner[j] == Some(n) && !Rebinds(s, sender, epoch, claimed, j);
    }
    if j: nat :| j < |s.owner| && s.owner[j] == Some(n) && !Rebinds(s, sender, epoch, claimed, j) {
      assert t.owner[j] == Some(n);
    }
  }

  /** A claim of another node aborts the server exactly when the server is a replica whose master
      loses all its slots to the claim while the replica keeps one of its own. */
  lemma AbortIsExact(s: Server, sender: NodeName, epoch: nat, claimed: Bitmap)
    requires Linked(s) && Fits(s, claimed) && sender != s.myself
    ensures Aborts(s, sender, epoch, claimed) <==>
      StripsMaster(s, sender, epoch, claimed) && StillOwns(s, sender, epoch, claimed)
  {
    LosesAll(s, s.myself, sender, epoch, claimed);
    if !s.Me().master {
      var m := s.Me().slaveof.value;
      if m == sender {
        assert !TakesFrom(s, sender, epoch, claimed, Some(m));
      } else {
        LosesAll(s, m, sender, epoch, claimed);
      }
    }
  }

  // ----- over whole runs

  /** No administrator gives a slot to a replica. */
  ghost predicate NoReplicaArmed(g: System, e: Event)
    requires Enabled(g, e)
  {
    e.Local? ==> !ArmsReplica(g.servers[e.n], e.admin)
  }

  ghost predicate AllOwnAsMasters(g: System) {
    forall n :: n in g.servers ==> g.servers[n].myself in g.servers[n].nodes && OwnsAsMaster(g.servers[n])
  }

  lemma AfterKeepsRole(g: System, e: Event, n: NodeName)
    requires Enabled(g, e) && n in g.servers && ServersLinked(g) && NoReplicaArmed(g, e)
    ensures KeepsRole(g.servers[n], After(g, e, n))
  {
    hide Handle, HandleSlaveFailover, RunAdmin, OwnsAsMaster;
    if Actor(e) == Some(n) {
      match e
      case Deliver(p, now, nt) => HandleKeeps(g.servers[n], p, now, nt);
      case Tick(_, env) => FailoverKeeps(g.servers[n], env);
      case Local(_, a) => AdminKeeps(g.servers[n], a);
    }
  }

  lemma StepKeepsRoles(g: System, e: Event)
    requires Enabled(g, e) && ServersLinked(g) && AllOwnAsMasters(g) && NoReplicaArmed(g, e)
    ensures AllOwnAsMasters(Next(g, e))
  {
    hide After, Next, OwnsAsMaster, Linked, Enabled, NoReplicaArmed;
    NextServers(g, e);
    forall n | n in g.servers
      ensures KeepsRole(g.servers[n], After(g, e, n))
    {
      AfterKeepsRole(g, e, n);
    }
  }

  lemma {:induction false} RunKeepsRoles(run: seq<System>, events: seq<Event>, i: nat)
    requires IsRun(run, events) && i < |run| && ServersLinked(run[0]) && AllOwnAsMasters(run[0])
    requires forall k :: 0 <= k < |events| ==> NoReplicaArmed(run[k], events[k])
    ensures ServersLinked(run[i]) && AllOwnAsMasters(run[i])
  {
    hide Next, Enabled, ServersLinked, AllOwnAsMasters, NoReplicaArmed;
    if i > 0 {
      RunKeepsRoles(run, events, i - 1);
      StepKeepsServers(run[i - 1], events[i - 1]);
      StepKeepsRoles(run[i - 1], events[i - 1]);
    }
  }

  /** In every run in which no administrator gives a slot to a replica, no claim, whatever its
      sender, epoch and slots, would abort any server at any moment. */
  lemma NeverAborts(run: seq<System>, events: seq<Event>, i: nat, n: NodeName,
                    sender: NodeName, epoch: nat, claimed: Bitmap)
    requires IsRun(run, events) && i < |run| && ServersLinked(run[0]) && AllOwnAsMasters(run[0])
    requires forall k :: 0 <= k < |events| ==> NoReplicaArmed(run[k], events[k])
    requires n in run[i].servers && Fits(run[i].servers[n], claimed)
    ensures run[i].servers[n].myself in run[i].servers[n].nodes
    ensures !Aborts(run[i].servers[n], sender, epoch, claimed)
  {
    RunKeepsRoles(run, events, i);
    ClaimIsSafe(run[i].servers[n], sender, epoch, claimed);
  }

  lemma {:induction false} RunKeepsLinked(run: seq<System>, events: seq<Event>, i: nat)
    requires IsRun(run, events) && i < |run| && ServersLinked(run[0])
    ensures ServersLinked(run[i])
  {
    hide Next, Enabled, ServersLinked;
    if i > 0 {
      RunKeepsLinked(run, events, i - 1);
      StepKeepsServers(run[i - 1], events[i - 1]);
    }
  }

  /** In every run, a server's master is at every moment a node that it knows, so the program never
      dereferences a missing one. */
  lemma MasterIsAlwaysKnown(run: seq<System>, events: seq<Event>, i: nat, n: NodeName)
    requires IsRun(run, events) && i < |run| && ServersLinked(run[0]) && n in run[i].servers
    ensures run[i].servers[n].myself in run[i].servers[n].nodes
    ensures CurMaster(run[i].servers[n]).Some? && CurMaster(run[i].servers[n]).value in run[i].servers[n].nodes
  {
    RunKeepsLinked(run, events, i);
  }

  // ----- a run that reaches the abort

  const FREE: seq<Option<NodeName>> := [None, None]

  function Fresh(n: NodeName): Server {
    Server(n, map[n := NodeView(0, true, None, false, 0)], FREE, FREE, 0, 0, false, 0, 0, 0, 1)
  }

  function Other(epoch: nat): NodeView {
    NodeView(epoch, true, None, false, 0)
  }

  /** Server 1, still a master, after it learnt of nodes 2 and 3 and of node 2's slot 0. */
  function Acquainted(): Server {
    Server(1, map[1 := Other(0), 2 := Other(0), 3 := Other(0)], [Some(2), None], FREE, 0, 0, false, 0, 0, 0, 1)
  }

  /** Server 1 as a replica of node 2, with slot 1 added to it. */
  function Replica(): Server {
    Server(1, map[1 := NodeView(0, false, Some(2), false, 0), 2 := Other(0), 3 := Other(0)],
           [Some(2), Some(1)], FREE, 0, 0, false, 0, 0, 0, 1)
  }

  /** Server 3, a master of slot 0 under configEpoch 1. */
  function Claimant(): Server {
    Server(3, map[1 := Other(0), 3 := Other(1)], [Some(3), None], FREE, 1, 0, false, 0, 0, 0, 1)
  }

  ghost predicate Follow(s: Server, admins: seq<Admin>, t: Server)
    decreases |admins|
  {
    if admins == [] then s == t
    else AdminEnabled(s, admins[0]) && Follow(RunAdmin(s, admins[0]), admins[1..], t)
  }

  lemma BuildsAcquainted()
    ensures Follow(Fresh(1), [Learn(2, true), Learn(3, true), SetSlotNode(0, 2)], Acquainted())
  {
    var a := RunAdmin(Fresh(1), Learn(2, true));
    var b := RunAdmin(a, Learn(3, true));
    assert RunAdmin(b, SetSlotNode(0, 2)) == Acquainted();
  }

  lemma BuildsReplica()
    ensures Follow(Acquainted(), [Replicate(2), AddSlot(1)], Replica())
  {
    var a := RunAdmin(Acquainted(), Replicate(2));
    assert RunAdmin(a, AddSlot(1)) == Replica();
  }

  lemma BuildsClaimant()
    ensures Follow(Fresh(3), [SetEpoch(1), Learn(1, true), AddSlot(0)], Claimant())
  {
    var a := RunAdmin(Fresh(3), SetEpoch(1));
    var b := RunAdmin(a, Learn(1, true));
    assert RunAdmin(b, AddSlot(0)) == Claimant();
  }

  /** One more event at the end of a run. */
  lemma Extend(run: seq<System>, events: seq<Event>, e: Event) returns (r: seq<System>, es: seq<Event>)
    requires IsRun(run, events) && Enabled(Last(run), e)
    ensures IsRun(r, es) && r[0] == run[0] && Last(r) == Next(Last(run), e)
  {
    hide Enabled, Next;
    r, es := run + [Next(Last(run), e)], events + [e];
  }

  /** A run continued by administrator commands at server `n`. */
  lemma {:induction false} Administer(run: seq<System>, events: seq<Event>, n: NodeName, admins: seq<Admin>, t: Server)
    returns (r: seq<System>, es: seq<Event>)
    requires IsRun(run, events) && n in Last(run).servers && Follow(Last(run).servers[n], admins, t)
    ensures IsRun(r, es) && r[0] == run[0] && Last(r) == Last(run).(servers := Last(run).servers[n := t])
    decreases |admins|
  {
    hide AdminEnabled, RunAdmin;
    if admins == [] {
      r, es := run, events;
      assert Last(run).servers[n := t] == Last(run).servers;
    } else {
      var g := Last(run);
      r, es := Extend(run, events, Local(n, admins[0]));
      assert Last(r) == g.(servers := g.servers[n := RunAdmin(g.servers[n], admins[0])]);
      r, es := Administer(r, es, n, admins[1..], t);
    }
  }

  ghost function Start(): System {
    System(map[1 := Fresh(1), 3 := Fresh(3)], multiset{}, {}, {}, map[], {})
  }

  function ClaimHeader(): Header {
    Header(3, 1, 1, [true, false], None, false)
  }

  lemma ClaimAborts()
    ensures var t := SeeRole(SeeHeader(Replica(), ClaimHeader()), ClaimHeader());
      && t.myself in t.nodes && 3 in t.nodes && Fits(t, [true, false])
      && t.nodes[3].master && SlotBitmap(t.owner, 3) != [true, false]
      && Aborts(t, 3, 1, [true, false])
  {
    var t := SeeRole(SeeHeader(Replica(), ClaimHeader()), ClaimHeader());
    assert t.nodes == Replica().nodes[3 := Other(1)];
    assert t.owner[0] == Some(2) && t.owner[1] == Some(1);
    assert Linked(t);
    assert Rebinds(t, 3, 1, [true, false], 0) && !Rebinds(t, 3, 1, [true, false], 1);
    AbortIsExact(t, 3, 1, [true, false]);
  }

  lemma FreshStart()
    ensures Init(Start())
  {
    assert Linked(Fresh(1)) && Linked(Fresh(3));
  }

  /** From two fresh servers, administrator commands alone lead to a state in which the heartbeat of
      server 3, which is on the wire, would abort server 1. */
  lemma ReachesAbort() returns (run: seq<System>, events: seq<Event>)
    ensures IsRun(run, events) && Init(run[0])
    ensures var g := Last(run); var p := Packet(1, ClaimHeader(), Ping);
      && p in g.net && 1 in g.servers && Linked(g.servers[1]) && 3 in g.servers[1].nodes
      && var t := SeeRole(SeeHeader(g.servers[1], p.hdr), p.hdr);
         && t.myself in t.nodes && Fits(t, p.hdr.slots) && 3 in t.nodes && t.nodes[3].master
         && SlotBitmap(t.owner, 3) != p.hdr.slots
         && Aborts(t, 3, p.hdr.configEpoch, p.hdr.slots)
  {
    FreshStart();
    BuildsAcquainted();
    BuildsReplica();
    BuildsClaimant();
    ClaimAborts();
    ClaimIsBuilt();
    hide Follow, Aborts, Init, SeeRole, SeeHeader, Acquainted, Replica, Claimant, Fresh, SlotBitmap, Fits, Linked,
      BuildHeader;
    run, events := [Start()], [];
    run, events := Administer(run, events, 1, [Learn(2, true), Learn(3, true), SetSlotNode(0, 2)], Acquainted());
    run, events := Administer(run, events, 1, [Replicate(2), AddSlot(1)], Replica());
    run, events := Administer(run, events, 3, [SetEpoch(1), Learn(1, true), AddSlot(0)], Claimant());
    run, events := Extend(run, events, Send(3, 1, SayPing));
  }

  lemma ClaimIsBuilt()
    ensures Linked(Claimant()) && BuildHeader(Claimant(), false) == ClaimHeader()
    ensures Linked(Replica()) && 3 in Replica().nodes
  {
    assert Claimant().owner[0] == Some(3);
    assert Replica().owner[0] == Some(2) && Replica().owner[1] == Some(1);
    assert SlotBitmap(Claimant().owner, 3) == [true, false];
  }
}
