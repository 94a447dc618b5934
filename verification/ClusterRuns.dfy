/** A cluster as a state machine: servers, packets in flight and, as history, the votes
    granted, the votes counted by candidates, the votes in the counter of each candidate and
    the elections won.

    Packets can be delayed, reordered and lost but not duplicated. A server may send a
    PING, PONG, FAIL or UPDATE at any moment, which covers every place where the program
    sends one. A packet whose handling would abort the server is never handled. */
module ClusterRuns {
  import opened Common
  import opened Cluster
  import opened ClusterEpochs

  datatype Body =
    | Ping
    | AuthRequest
    | AuthAck
    | Update(about: NodeName, epoch: nat, slots: Bitmap)
    | Fail(about: NodeName)

  datatype Packet = Packet(to: NodeName, hdr: Header, body: Body)

  datatype Vote = Vote(voter: NodeName, epoch: nat, candidate: NodeName)

  /** A won election, with the votes that were in the winner's counter. */
  datatype Win = Win(epoch: nat, winner: NodeName, tally: set<Vote>)

  type Tallies = map<NodeName, set<Vote>>

  datatype System = System(
    servers: map<NodeName, Server>,
    net: multiset<Packet>,
    votes: set<Vote>,
    counted: set<Vote>,
    tallies: Tallies,
    wins: set<Win>)

  /** The votes counted by `n` since its counter was last reset. */
  function TallyOf(tallies: Tallies, n: NodeName): set<Vote> {
    if n in tallies then tallies[n] else {}
  }

  datatype Talk = SayPing | SayFail(failing: NodeName) | SayUpdate(node: NodeName)

  /** Administrative commands and local bookkeeping of one server. */
  datatype Admin =
    | Bump
    | SetEpoch(epoch: nat)
    | UpdateState
    | SetFailed(node: NodeName, failed: bool)
    | AddSlot(slot: nat)
    | DelSlot(slot: nat)
    | SetSlotNode(slot: nat, node: NodeName)
    | SetImporting(slot: nat, from: Option<NodeName>)
    | Learn(node: NodeName, master: bool)
    | ForgetNode(node: NodeName)
    | Replicate(node: NodeName)
    | Takeover

  datatype Event =
    | Deliver(p: Packet, now: int, nodeTimeout: nat)
    | Lose(p: Packet)
    | Send(from: NodeName, to: NodeName, talk: Talk)
    | Tick(n: NodeName, env: Env)
    | Local(n: NodeName, admin: Admin)

  // ----- one server handling one packet

  ghost predicate Ready(s: Server, p: Packet) {
    && Linked(s)
    && p.to == s.myself != p.hdr.sender && |p.hdr.slots| == |s.owner|
    && (p.hdr.sender in s.nodes ==>
          match p.body
          case Ping => PingEnabled(s, p.hdr)
          case Update(n, e, b) => UpdateEnabled(SeeHeader(s, p.hdr), n, e, b)
          case _ => true)
  }

  ghost predicate Grants(s: Server, p: Packet, now: int, nodeTimeout: nat)
    requires Ready(s, p)
  {
    && p.hdr.sender in s.nodes && p.body.AuthRequest?
    && (SeeHeaderKeeps(s, p.hdr); MayVote(SeeHeader(s, p.hdr), p.hdr, now, nodeTimeout))
  }

  ghost predicate Counts(s: Server, p: Packet)
    requires Ready(s, p)
  {
    p.hdr.sender in s.nodes && p.body.AuthAck? && CountsAck(SeeHeader(s, p.hdr), p.hdr)
  }

  ghost function Handle(s: Server, p: Packet, now: int, nodeTimeout: nat): Server
    requires Ready(s, p)
  {
    if p.hdr.sender !in s.nodes then s
    else
      SeeHeaderKeeps(s, p.hdr);
      var t := SeeHeader(s, p.hdr);
      match p.body
      case Ping => HandlePing(s, p.hdr)
      case AuthRequest => if MayVote(t, p.hdr, now, nodeTimeout) then CastVote(t, p.hdr.sender, now) else t
      case AuthAck => HandleAck(t, p.hdr)
      case Update(n, e, b) => HandleUpdate(t, n, e, b)
      case Fail(n) => if n in t.nodes && n != t.myself then SetNode(t, n, t.nodes[n].(failed := true)) else t
  }

  predicate PacketOk(p: Packet) {
    HeaderOk(p.hdr) && (p.body.Update? ==> p.body.epoch <= p.hdr.currentEpoch)
  }

  /** Handling a packet keeps the server linked and dominated and moves no epoch back; a packet
      that is neither granted nor counted leaves the election fields alone. */
  lemma HandleKeeps(s: Server, p: Packet, now: int, nodeTimeout: nat)
    requires Ready(s, p)
    ensures var t := Handle(s, p, now, nodeTimeout);
      && Linked(t) && t.myself == s.myself && |t.owner| == |s.owner| && KeepsRole(s, t)
      && (!Grants(s, p, now, nodeTimeout) && !Counts(s, p) ==> SameElection(s, t))
      && t.authEpoch == s.authEpoch && t.authSent == s.authSent
      && (Dominated(s) && PacketOk(p) ==> Grows(s, t))
  {
    hide MayVote, HandlePing, HandleUpdate, UpdateEnabled, PingEnabled;
    if p.hdr.sender in s.nodes {
      var a := SeeHeader(s, p.hdr);
      SeeHeaderKeeps(s, p.hdr);
      var t := Handle(s, p, now, nodeTimeout);
      match p.body
      case Ping => PingKeeps(s, p.hdr);
      case AuthRequest =>
        if MayVote(a, p.hdr, now, nodeTimeout) { VoteKeeps(a, p.hdr, now, nodeTimeout); }
      case AuthAck => AckKeeps(a, p.hdr);
      case Update(n, e, b) => UpdateKeeps(a, n, e, b);
      case Fail(n) =>
        if n in a.nodes && n != a.myself { RoleChangeKeeps(a, n, a.nodes[n].(failed := true)); }
      if Dominated(s) && PacketOk(p) && !p.body.Ping? { GrowsTransitive(s, a, t); }
    }
  }

  // ----- local steps

  ghost predicate AdminEnabled(s: Server, a: Admin) {
    && Linked(s)
    && match a
       case SetFailed(n, _) => n in s.nodes
       case AddSlot(j) => j < |s.owner| && s.owner[j].None?
       case DelSlot(j) => j < |s.owner| && s.owner[j].Some?
       case SetSlotNode(j, n) => j < |s.owner| && n in s.nodes && s.Me().master
       case SetImporting(j, from) =>
         && j < |s.importing| && s.Me().master
         && (from.Some? ==> from.value in s.nodes && s.owner[j] != Some(s.myself))
       case Learn(n, _) => n !in s.nodes
       case ForgetNode(n) => n in s.nodes && n != s.myself && CurMaster(s) != Some(n)
       case Replicate(n) => n in s.nodes && n != s.myself && s.nodes[n].master && !ServesSlots(s, s.myself)
       case Takeover => !s.Me().master
       case _ => true
  }

  ghost function RunAdmin(s: Server, a: Admin): Server
    requires AdminEnabled(s, a)
  {
    match a
    case Bump => BumpEpoch(s)
    case SetEpoch(e) => SetConfigEpoch(s, e)
    case UpdateState => s.(size := |set n | n in s.nodes && s.nodes[n].master && ServesSlots(s, n)|)
    case SetFailed(n, f) => SetNode(s, n, s.nodes[n].(failed := f))
    case AddSlot(j) => s.(owner := s.owner[j := Some(s.myself)], importing := s.importing[j := None])
    case DelSlot(j) => s.(owner := s.owner[j := None], importing := s.importing[j := None])
    case SetSlotNode(j, n) => AssignSlot(s, j, n)
    case SetImporting(j, from) => s.(importing := s.importing[j := from])
    case Learn(n, m) => SetNode(s, n, NodeView(0, m, None, false, 0))
    case ForgetNode(n) => Forget(s, n)
    case Replicate(n) => SetMaster(s, n)
    case Takeover => ReplaceMaster(BumpEpoch(s))
  }

  /** CLUSTER SETSLOT NODE: a slot imported by this server comes with a new configEpoch. */
  ghost function AssignSlot(s: Server, j: nat, n: NodeName): Server
    requires Linked(s) && j < |s.owner|
  {
    var t := if n == s.myself && s.importing[j].Some? then BumpEpoch(s).(importing := s.importing[j := None]) else s;
    t.(owner := t.owner[j := Some(n)])
  }

  /** A slot assigned by the administrator to a server that is a replica. */
  ghost predicate ArmsReplica(s: Server, a: Admin)
    requires s.myself in s.nodes
  {
    a.AddSlot? && !s.Me().master
  }

  lemma SlotEntryKeeps(s: Server, j: nat, o: Option<NodeName>)
    requires Linked(s) && j < |s.owner| && (o.Some? ==> o.value in s.nodes)
    ensures var t := s.(owner := s.owner[j := o], importing := s.importing[j := None]);
      && Linked(t) && ((o == Some(s.myself) && !s.Me().master) || KeepsRole(s, t))
      && (Dominated(s) ==> Grows(s, t))
  {
  }

  lemma AssignSlotKeeps(s: Server, j: nat, n: NodeName)
    requires Linked(s) && j < |s.owner| && n in s.nodes && s.Me().master
    ensures Quiet(s, AssignSlot(s, j, n))
    ensures Dominated(s) ==> Grows(s, AssignSlot(s, j, n))
  {
    BumpKeeps(s);
  }

  /** What the commands that only touch records keep. */
  lemma RecordKeeps(s: Server, a: Admin)
    requires AdminEnabled(s, a) && (a.UpdateState? || a.SetFailed? || a.SetImporting? || a.Learn?)
    ensures Linked(RunAdmin(s, a)) && KeepsRole(s, RunAdmin(s, a))
    ensures Dominated(s) ==> Grows(s, RunAdmin(s, a))
  {
    assert RunAdmin(s, a).owner == s.owner;
  }

  /** An administrator command keeps the server linked, leaves the election fields alone and moves
      no epoch back; unless it assigns a slot to a replica, no replica comes to own one. */
  lemma AdminKeeps(s: Server, a: Admin)
    requires AdminEnabled(s, a)
    ensures var t := RunAdmin(s, a);
      && Linked(t) && t.myself == s.myself && SameElection(s, t) && |t.owner| == |s.owner|
      && (!ArmsReplica(s, a) ==> KeepsRole(s, t))
      && (Dominated(s) ==> Grows(s, t))
  {
    hide BumpEpoch, SetConfigEpoch, Forget, SetMaster, ReplaceMaster, AssignSlot, OwnsAsMaster, Dominated, ServesSlots;
    match a
    case Bump => BumpKeeps(s);
    case SetEpoch(e) => SetConfigEpochKeeps(s, e);
    case AddSlot(j) => SlotEntryKeeps(s, j, Some(s.myself));
    case DelSlot(j) => SlotEntryKeeps(s, j, None);
    case SetSlotNode(j, n) => AssignSlotKeeps(s, j, n);
    case ForgetNode(n) => ForgetKeeps(s, n);
    case Replicate(n) => SetMasterKeeps(s, n);
    case Takeover =>
      BumpKeeps(s);
      ReplaceMasterKeeps(BumpEpoch(s));
    case _ => RecordKeeps(s, a);
  }

  // ----- the whole system

  ghost predicate ServersLinked(g: System) {
    forall n :: n in g.servers ==> Linked(g.servers[n]) && g.servers[n].myself == n
  }

  ghost predicate ServersDominated(g: System) {
    forall n :: n in g.servers ==> Dominated(g.servers[n])
  }

  /** No packet in flight carries a configuration newer than the epoch of its header. */
  ghost predicate NetOk(g: System) {
    forall p :: p in g.net ==> PacketOk(p)
  }

  ghost predicate Enabled(g: System, e: Event) {
    match e
    case Deliver(p, now, nt) => p in g.net && p.to in g.servers && Ready(g.servers[p.to], p)
    case Lose(p) => p in g.net
    case Send(from, to, talk) =>
      && from in g.servers && to != from && Linked(g.servers[from])
      && (talk.SayUpdate? ==> talk.node in g.servers[from].nodes)
    case Tick(n, env) => n in g.servers && Linked(g.servers[n])
    case Local(n, a) => n in g.servers && AdminEnabled(g.servers[n], a)
  }

  function TalkBody(s: Server, talk: Talk): Body
    requires talk.SayUpdate? ==> talk.node in s.nodes
  {
    match talk
    case SayPing => Ping
    case SayFail(n) => Fail(n)
    case SayUpdate(n) => Update(n, s.nodes[n].configEpoch, SlotBitmap(s.owner, n))
  }

  ghost function Broadcast(s: Server, force: bool): multiset<Packet>
    requires Linked(s)
  {
    multiset(set n | n in s.nodes && n != s.myself :: Packet(n, BuildHeader(s, force), AuthRequest))
  }

  ghost function Next(g: System, e: Event): System
    requires Enabled(g, e)
  {
    match e
    case Deliver(p, now, nt) =>
      var s := g.servers[p.to];
      HandleKeeps(s, p, now, nt);
      var t := Handle(s, p, now, nt);
      var h := g.(servers := g.servers[p.to := t], net := g.net - multiset{p});
      if Grants(s, p, now, nt) then
        h.(net := h.net + multiset{Packet(p.hdr.sender, BuildHeader(t, false), AuthAck)},
           votes := h.votes + {Vote(p.to, t.currentEpoch, p.hdr.sender)})
      else if Counts(s, p) then
        var v := Vote(p.hdr.sender, p.hdr.currentEpoch, p.to);
        h.(counted := h.counted + {v}, tallies := h.tallies[p.to := TallyOf(h.tallies, p.to) + {v}])
      else h
    case Lose(p) => g.(net := g.net - multiset{p})
    case Send(from, to, talk) =>
      var s := g.servers[from];
      g.(net := g.net + multiset{Packet(to, BuildHeader(s, false), TalkBody(s, talk))})
    case Tick(n, env) =>
      FailoverKeeps(g.servers[n], env);
      var r := HandleSlaveFailover(g.servers[n], env);
      var h := g.(servers := g.servers[n := r.0]);
      if r.1 == Requested then h.(net := h.net + Broadcast(r.0, env.mfEnd))
      else if r.1 == Scheduled then h.(tallies := h.tallies[n := {}])
      else if r.1 == Won then h.(wins := h.wins + {Win(g.servers[n].authEpoch, n, TallyOf(h.tallies, n))})
      else h
    case Local(n, a) => g.(servers := g.servers[n := RunAdmin(g.servers[n], a)])
  }

  /** The server that an event changes, if any. */
  function Actor(e: Event): Option<NodeName> {
    match e
    case Deliver(p, _, _) => Some(p.to)
    case Tick(n, _) => Some(n)
    case Local(n, _) => Some(n)
    case _ => None
  }

  /** The state of server `n` after event `e`. */
  ghost function After(g: System, e: Event, n: NodeName): Server
    requires Enabled(g, e) && n in g.servers
  {
    if Actor(e) != Some(n) then g.servers[n]
    else
      match e
      case Deliver(p, now, nt) => Handle(g.servers[n], p, now, nt)
      case Tick(_, env) => HandleSlaveFailover(g.servers[n], env).0
      case Local(_, a) => RunAdmin(g.servers[n], a)
      case _ => g.servers[n]
  }

  lemma OneServerChanges(g: System, e: Event)
    requires Enabled(g, e)
    ensures Actor(e).Some? ==> Actor(e).value in g.servers
    ensures Next(g, e).servers ==
      if Actor(e).None? then g.servers else g.servers[Actor(e).value := After(g, e, Actor(e).value)]
  {
    hide Handle, HandleSlaveFailover, RunAdmin, BuildHeader, Broadcast, TalkBody, Linked, Ready, Grants, Counts;
    hide AdminEnabled, TallyOf;
    match e
    case Deliver(p, now, nt) =>
    case Tick(n, env) =>
    case Local(n, a) =>
    case _ =>
  }

  lemma NextServers(g: System, e: Event)
    requires Enabled(g, e)
    ensures Next(g, e).servers.Keys == g.servers.Keys
    ensures forall n :: n in g.servers ==> Next(g, e).servers[n] == After(g, e, n)
  {
    hide Enabled, Next, Handle, HandleSlaveFailover, RunAdmin;
    OneServerChanges(g, e);
  }

  lemma AfterKeeps(g: System, e: Event, n: NodeName)
    requires Enabled(g, e) && n in g.servers && ServersLinked(g)
    ensures Linked(After(g, e, n)) && After(g, e, n).myself == n
    ensures ServersDominated(g) && NetOk(g) ==> Grows(g.servers[n], After(g, e, n))
  {
    if Actor(e) == Some(n) {
      match e
      case Deliver(p, now, nt) => HandleKeeps(g.servers[n], p, now, nt);
      case Tick(_, env) => FailoverKeeps(g.servers[n], env);
      case Local(_, a) => AdminKeeps(g.servers[n], a);
    }
  }

  lemma StepKeepsServers(g: System, e: Event)
    requires Enabled(g, e) && ServersLinked(g)
    ensures ServersLinked(Next(g, e)) && Next(g, e).servers.Keys == g.servers.Keys
    ensures ServersDominated(g) && NetOk(g) ==> ServersDominated(Next(g, e))
  {
    hide Linked, Next, After, Enabled, NetOk, Dominated, Advances;
    NextServers(g, e);
    forall n | n in g.servers
      ensures Linked(After(g, e, n)) && After(g, e, n).myself == n
      ensures ServersDominated(g) && NetOk(g) ==> Grows(g.servers[n], After(g, e, n))
    {
      AfterKeeps(g, e, n);
    }
  }

  lemma DeliverKeepsNet(g: System, e: Event)
    requires e.Deliver? && Enabled(g, e) && ServersLinked(g) && ServersDominated(g) && NetOk(g)
    ensures NetOk(Next(g, e))
  {
    var t := Handle(g.servers[e.p.to], e.p, e.now, e.nodeTimeout);
    AfterKeeps(g, e, e.p.to);
    HeaderBuiltIsOk(t, false);
    hide Handle, BuildHeader, Linked, Grows;
  }

  lemma SendKeepsNet(g: System, e: Event)
    requires e.Send? && Enabled(g, e) && ServersLinked(g) && ServersDominated(g) && NetOk(g)
    ensures NetOk(Next(g, e))
  {
    HeaderBuiltIsOk(g.servers[e.from], false);
    hide BuildHeader, Linked;
  }

  lemma TickKeepsNet(g: System, e: Event)
    requires e.Tick? && Enabled(g, e) && ServersLinked(g) && ServersDominated(g) && NetOk(g)
    ensures NetOk(Next(g, e))
  {
    AfterKeeps(g, e, e.n);
    HeaderBuiltIsOk(HandleSlaveFailover(g.servers[e.n], e.env).0, e.env.mfEnd);
    hide HandleSlaveFailover, BuildHeader, Linked, Grows;
  }

  /** Every packet an event puts on the wire was built by a dominated server. */
  lemma StepKeepsNet(g: System, e: Event)
    requires Enabled(g, e) && ServersLinked(g) && ServersDominated(g) && NetOk(g)
    ensures NetOk(Next(g, e))
  {
    if e.Deliver? {
      DeliverKeepsNet(g, e);
    } else if e.Send? {
      SendKeepsNet(g, e);
    } else if e.Tick? {
      TickKeepsNet(g, e);
    }
  }

  // ----- runs

  ghost predicate IsRun(run: seq<System>, events: seq<Event>) {
    && |run| == |events| + 1
    && forall i :: 0 <= i < |events| ==> Enabled(run[i], events[i]) && run[i + 1] == Next(run[i], events[i])
  }

  ghost function Last(run: seq<System>): System
    requires run != []
  {
    run[|run| - 1]
  }

  /** Epoch dominance over whole runs, for servers and for packets in flight. */
  lemma {:induction false} EpochDominance(run: seq<System>, events: seq<Event>, i: nat)
    requires IsRun(run, events) && i < |run|
    requires ServersLinked(run[0]) && ServersDominated(run[0]) && NetOk(run[0])
    ensures ServersLinked(run[i]) && ServersDominated(run[i]) && NetOk(run[i])
  {
    if i > 0 {
      EpochDominance(run, events, i - 1);
      StepKeepsServers(run[i - 1], events[i - 1]);
      StepKeepsNet(run[i - 1], events[i - 1]);
    }
  }

  /** Between any two points of a run the current, vote and election epochs of a server do not go
      back, nor does the configEpoch it records for any node it knows all along, itself included. */
  lemma {:induction false} EpochsNeverDecrease(run: seq<System>, events: seq<Event>, i: nat, k: nat, n: NodeName)
    requires IsRun(run, events) && i <= k < |run|
    requires ServersLinked(run[0]) && ServersDominated(run[0]) && NetOk(run[0])
    requires n in run[i].servers
    ensures n in run[k].servers && n in run[k].servers[n].nodes
    ensures var s, t := run[i].servers[n], run[k].servers[n];
      && s.currentEpoch <= t.currentEpoch && s.lastVoteEpoch <= t.lastVoteEpoch && s.authEpoch <= t.authEpoch
      && forall m :: KnownAllAlong(run, i, k, n, m) ==> s.nodes[m].configEpoch <= t.nodes[m].configEpoch
    decreases k - i
  {
    EpochDominance(run, events, i);
    if i < k {
      NextServers(run[i], events[i]);
      AfterKeeps(run[i], events[i], n);
      EpochDominance(run, events, i + 1);
      EpochsNeverDecrease(run, events, i + 1, k, n);
      forall m | KnownAllAlong(run, i, k, n, m)
        ensures run[i].servers[n].nodes[m].configEpoch <= run[k].servers[n].nodes[m].configEpoch
      {
        assert Knows(run[i], n, m) && Knows(run[i + 1], n, m) && KnownAllAlong(run, i + 1, k, n, m);
      }
    }
  }

  ghost predicate Knows(g: System, n: NodeName, m: NodeName) {
    n in g.servers && m in g.servers[n].nodes
  }

  ghost predicate KnownAllAlong(run: seq<System>, i: nat, k: nat, n: NodeName, m: NodeName)
    requires i <= k < |run|
    ensures KnownAllAlong(run, i, k, n, m) ==> Knows(run[i], n, m) && Knows(run[k], n, m)
  {
    forall j :: i <= j <= k ==> Knows(run[j], n, m)
  }

  /** At the start there are no packets in flight and no election has been asked for. */
  ghost predicate Init(g: System) {
    && ServersLinked(g) && ServersDominated(g)
    && g.net == multiset{} && g.votes == {} && g.counted == {} && g.tallies == map[] && g.wins == {}
    && forall n :: n in g.servers ==> !g.servers[n].authSent && g.servers[n].authCount == 0
  }
}
