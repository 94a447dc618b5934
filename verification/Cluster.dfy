/** The state one Redis Cluster server keeps about the cluster, and its packet handlers,
    as functions on values.

    A server records every node it knows (`nodes`), the owner of every hash slot (`owner`)
    and the epochs that order configurations. Bitmaps and slot counts per node are not
    part of the value: class `ClusterState` keeps them and proves that they always agree
    with `owner`. */
module Cluster {
  import opened Common

  // Node names are compared only for equality and by memcmp order.
  type NodeName = nat

  type Bitmap = seq<bool>

  datatype NodeView = NodeView(
    configEpoch: nat,
    master: bool,
    slaveof: Option<NodeName>,
    failed: bool,
    votedTime: int)

  datatype Server = Server(
    myself: NodeName,
    nodes: map<NodeName, NodeView>,
    owner: seq<Option<NodeName>>,
    importing: seq<Option<NodeName>>,
    currentEpoch: nat,
    lastVoteEpoch: nat,
    authSent: bool,
    authEpoch: nat,
    authCount: nat,
    authTime: int,
    size: nat)
  {
    function Me(): NodeView
      requires myself in nodes
    {
      nodes[myself]
    }
  }

  /** The part of a message header that the handlers read. */
  datatype Header = Header(
    sender: NodeName,
    currentEpoch: nat,
    configEpoch: nat,
    slots: Bitmap,
    slaveof: Option<NodeName>,
    forceAck: bool)

  // ----- slot ownership

  /** The slots that table `owner` assigns to node `n`. */
  ghost function Owned(owner: seq<Option<NodeName>>, n: NodeName): (r: set<nat>)
  {
    set j: nat | j < |owner| && owner[j] == Some(n)
  }

  ghost predicate ServesSlots(s: Server, n: NodeName) {
    exists j: nat :: j < |s.owner| && s.owner[j] == Some(n)
  }

  function SlotBitmap(owner: seq<Option<NodeName>>, n: NodeName): (r: Bitmap) {
    seq(|owner|, j requires 0 <= j < |owner| => owner[j] == Some(n))
  }

  // ----- well-formed servers

  /** Every name a server stores is a node it knows, and a replica has a master. */
  ghost predicate Linked(s: Server) {
    && s.myself in s.nodes
    && |s.importing| == |s.owner|
    && (forall j :: 0 <= j < |s.owner| && s.owner[j].Some? ==> s.owner[j].value in s.nodes)
    && (forall n :: n in s.nodes && s.nodes[n].slaveof.Some? ==> s.nodes[n].slaveof.value in s.nodes)
    && (!s.nodes[s.myself].master ==> s.nodes[s.myself].slaveof.Some? && s.nodes[s.myself].slaveof != Some(s.myself))
  }

  /** This server owns slots only as a master. */
  ghost predicate OwnsAsMaster(s: Server)
    requires s.myself in s.nodes
  {
    !s.Me().master ==> !ServesSlots(s, s.myself)
  }

  /** Epoch dominance: the current epoch bounds every other epoch the server records. */
  ghost predicate Dominated(s: Server) {
    && (forall n :: n in s.nodes ==> s.nodes[n].configEpoch <= s.currentEpoch)
    && s.lastVoteEpoch <= s.currentEpoch
    && s.authEpoch <= s.currentEpoch
  }

  /** `t` may follow `s` at the same server: no epoch goes back. */
  ghost predicate Advances(s: Server, t: Server) {
    && t.myself == s.myself
    && s.currentEpoch <= t.currentEpoch
    && s.lastVoteEpoch <= t.lastVoteEpoch
    && s.authEpoch <= t.authEpoch
    && (forall n :: n in s.nodes && n in t.nodes ==> s.nodes[n].configEpoch <= t.nodes[n].configEpoch)
  }

  /** The fields that elections use are those of `s`. */
  ghost predicate SameElection(s: Server, t: Server) {
    && t.lastVoteEpoch == s.lastVoteEpoch
    && t.authSent == s.authSent
    && t.authEpoch == s.authEpoch
    && t.authCount == s.authCount
  }

  // ----- roles and slots

  function SetNode(s: Server, n: NodeName, v: NodeView): Server {
    s.(nodes := s.nodes[n := v])
  }

  function SetNodeAsMaster(s: Server, n: NodeName): Server
    requires n in s.nodes
  {
    if s.nodes[n].master then s
    else SetNode(s, n, s.nodes[n].(master := true, slaveof := None))
  }

  function ReleaseSlots(s: Server, n: NodeName): Server {
    s.(owner := seq(|s.owner|, j requires 0 <= j < |s.owner| =>
      if s.owner[j] == Some(n) then None else s.owner[j]))
  }

  /** Turn this server into a replica of `n`; a master also closes its open slots. The program
      aborts when this server would follow itself or still owns a slot. */
  function SetMaster(s: Server, n: NodeName): Server
    requires s.myself in s.nodes
    requires n != s.myself && !ServesSlots(s, s.myself)
  {
    var importing := if s.Me().master then seq(|s.importing|, _ => None) else s.importing;
    SetNode(s, s.myself, s.Me().(master := false, slaveof := Some(n))).(importing := importing)
  }

  function CurMaster(s: Server): Option<NodeName>
    requires s.myself in s.nodes
  {
    if s.Me().master then Some(s.myself) else s.Me().slaveof
  }

  predicate Rebinds(s: Server, sender: NodeName, epoch: nat, claimed: Bitmap, j: nat)
    requires j < |s.owner| == |s.importing| == |claimed|
    requires s.owner[j].Some? ==> s.owner[j].value in s.nodes
  {
    && claimed[j]
    && s.owner[j] != Some(sender)
    && s.importing[j].None?
    && (s.owner[j].None? || s.nodes[s.owner[j].value].configEpoch < epoch)
  }

  predicate Fits(s: Server, claimed: Bitmap)
  {
    && |s.owner| == |s.importing| == |claimed|
    && (forall j :: 0 <= j < |s.owner| && s.owner[j].Some? ==> s.owner[j].value in s.nodes)
  }

  function Rebound(s: Server, sender: NodeName, epoch: nat, claimed: Bitmap): (r: seq<Option<NodeName>>)
    requires Fits(s, claimed)
  {
    seq(|s.owner|, j requires 0 <= j < |s.owner| =>
      if Rebinds(s, sender, epoch, claimed, j) then Some(sender) else s.owner[j])
  }

  /** Some rebound slot was owned by `cur`; an unknown master compares equal to "no owner". */
  predicate TakesFrom(s: Server, sender: NodeName, epoch: nat, claimed: Bitmap, cur: Option<NodeName>)
    requires Fits(s, claimed)
  {
    exists j :: 0 <= j < |s.owner| && Rebinds(s, sender, epoch, claimed, j) && s.owner[j] == cur
  }

  /** Handling the claim ends the program: our master is unknown and dereferenced, or it is left
      without slots while this server, which must now follow `sender`, owns one. */
  ghost predicate Aborts(s: Server, sender: NodeName, epoch: nat, claimed: Bitmap)
    requires Fits(s, claimed) && s.myself in s.nodes
  {
    var t := s.(owner := Rebound(s, sender, epoch, claimed));
    var cur := CurMaster(s);
    && sender != s.myself
    && TakesFrom(s, sender, epoch, claimed, cur)
    && (cur.None? || (!ServesSlots(t, cur.value) && ServesSlots(t, s.myself)))
  }

  /** clusterUpdateSlotsConfigWith: rebind the claimed slots whose owner has an older
      configuration, and follow the new owner when our master is left without slots. */
  ghost function UpdateSlots(s: Server, sender: NodeName, epoch: nat, claimed: Bitmap): Server
    requires Fits(s, claimed) && s.myself in s.nodes
    requires !Aborts(s, sender, epoch, claimed)
  {
    if sender == s.myself then s
    else
      var t := s.(owner := Rebound(s, sender, epoch, claimed));
      var cur := CurMaster(s);
      if TakesFrom(s, sender, epoch, claimed, cur) && !ServesSlots(t, cur.value)
      then SetMaster(t, sender) else t
  }

  // ----- packets

  /** Epoch bookkeeping done for every packet of a known sender. */
  function SeeHeader(s: Server, h: Header): Server
    requires h.sender in s.nodes
  {
    var v := s.nodes[h.sender];
    var t := s.(currentEpoch := if h.currentEpoch > s.currentEpoch then h.currentEpoch else s.currentEpoch);
    if h.configEpoch > v.configEpoch then SetNode(t, h.sender, v.(configEpoch := h.configEpoch)) else t
  }

  /** The role a PING, PONG or MEET header announces for its sender. */
  function SeeRole(s: Server, h: Header): Server
    requires h.sender in s.nodes
  {
    if h.slaveof.None? then SetNodeAsMaster(s, h.sender)
    else
      var t := if s.nodes[h.sender].master
               then SetNode(ReleaseSlots(s, h.sender), h.sender, s.nodes[h.sender].(master := false))
               else s;
      if h.slaveof.value in t.nodes
      then SetNode(t, h.sender, t.nodes[h.sender].(slaveof := h.slaveof)) else t
  }

  function Collide(s: Server, sender: NodeName): Server
    requires s.myself in s.nodes && sender in s.nodes
  {
    if s.nodes[sender].configEpoch != s.Me().configEpoch || !s.nodes[sender].master || !s.Me().master
       || sender <= s.myself
    then s
    else SetNode(s, s.myself, s.Me().(configEpoch := s.currentEpoch + 1)).(currentEpoch := s.currentEpoch + 1)
  }

  /** A PING of another known node whose handling does not abort the server. */
  ghost predicate PingEnabled(s: Server, h: Header) {
    && Linked(s)
    && h.sender in s.nodes && h.sender != s.myself
    && |h.slots| == |s.owner|
    && var t := SeeRole(SeeHeader(s, h), h);
       t.myself in t.nodes && Fits(t, h.slots) &&
       (t.nodes[h.sender].master ==> !Aborts(t, h.sender, h.configEpoch, h.slots))
  }

  ghost function HandlePing(s: Server, h: Header): Server
    requires PingEnabled(s, h)
  {
    var t := SeeRole(SeeHeader(s, h), h);
    var u := if t.nodes[h.sender].master && SlotBitmap(t.owner, h.sender) != h.slots
             then UpdateSlots(t, h.sender, h.configEpoch, h.slots) else t;
    if u.Me().master && u.nodes[h.sender].master && h.configEpoch == u.Me().configEpoch
    then Collide(u, h.sender) else u
  }

  ghost predicate UpdateEnabled(s: Server, n: NodeName, epoch: nat, claimed: Bitmap) {
    && s.myself in s.nodes && Fits(s, claimed)
    && (n in s.nodes && s.nodes[n].configEpoch < epoch ==> !Aborts(Adopt(s, n, epoch), n, epoch, claimed))
  }

  function Adopt(s: Server, n: NodeName, epoch: nat): Server
    requires n in s.nodes
  {
    var t := SetNodeAsMaster(s, n);
    SetNode(t, n, t.nodes[n].(configEpoch := epoch))
  }

  /** An UPDATE packet: node `n` announces `claimed` under `epoch`. */
  ghost function HandleUpdate(s: Server, n: NodeName, epoch: nat, claimed: Bitmap): Server
    requires UpdateEnabled(s, n, epoch, claimed)
  {
    if n !in s.nodes || s.nodes[n].configEpoch >= epoch then s
    else UpdateSlots(Adopt(s, n, epoch), n, epoch, claimed)
  }

  /** The conditions of clusterSendFailoverAuthIfNeeded. */
  ghost predicate MayVote(s: Server, h: Header, now: int, nodeTimeout: nat)
    requires Linked(s) && h.sender in s.nodes && |h.slots| == |s.owner|
  {
    var candidate := s.nodes[h.sender];
    && s.Me().master && ServesSlots(s, s.myself)
    && h.currentEpoch >= s.currentEpoch
    && s.lastVoteEpoch != s.currentEpoch
    && !candidate.master && candidate.slaveof.Some?
    && (s.nodes[candidate.slaveof.value].failed || h.forceAck)
    && now - s.nodes[candidate.slaveof.value].votedTime >= 2 * nodeTimeout
    && forall j :: 0 <= j < |s.owner| && h.slots[j] ==>
         s.owner[j].None? || s.nodes[s.owner[j].value].configEpoch <= h.configEpoch
  }

  function CastVote(s: Server, candidate: NodeName, now: int): Server
    requires candidate in s.nodes && s.nodes[candidate].slaveof.Some?
    requires s.nodes[candidate].slaveof.value in s.nodes
  {
    var m := s.nodes[candidate].slaveof.value;
    SetNode(s, m, s.nodes[m].(votedTime := now)).(lastVoteEpoch := s.currentEpoch)
  }

  ghost predicate CountsAck(s: Server, h: Header)
    requires h.sender in s.nodes
  {
    s.nodes[h.sender].master && ServesSlots(s, h.sender) && h.currentEpoch >= s.authEpoch
  }

  ghost function HandleAck(s: Server, h: Header): Server
    requires h.sender in s.nodes
  {
    if CountsAck(s, h) then s.(authCount := s.authCount + 1) else s
  }

  // ----- the replica side of an election

  /** What the handler reads from the clock, the replication link and the configuration:
      `delay` is the fixed, random and rank delay of a scheduled election, `extraDelay` the
      penalty when our rank got worse since, `mfEnd` and `mfCanStart` the manual failover state. */
  datatype Env = Env(
    now: int, delay: nat, extraDelay: nat, mfEnd: bool, mfCanStart: bool,
    dataOk: bool, noFailover: bool, nodeTimeout: nat)
  {
    predicate Manual() { mfEnd && mfCanStart }
  }

  datatype Outcome = Idle | Scheduled | Waiting | Requested | Won

  function AuthTimeout(e: Env): nat {
    if 2 * e.nodeTimeout < 2000 then 2000 else 2 * e.nodeTimeout
  }

  ghost predicate MayFailover(s: Server, e: Env)
    requires Linked(s)
  {
    && !s.Me().master
    && s.Me().slaveof.Some?
    && (s.nodes[s.Me().slaveof.value].failed || e.Manual())
    && (!e.noFailover || e.Manual())
    && ServesSlots(s, s.Me().slaveof.value)
    && (e.dataOk || e.Manual())
  }

  /** clusterFailoverReplaceYourMaster: become a master and take over every slot of the old one. */
  function ReplaceMaster(s: Server): Server
    requires s.myself in s.nodes
  {
    if s.Me().master || s.Me().slaveof.None? then s
    else
      var oldMaster := s.Me().slaveof.value;
      SetNodeAsMaster(s, s.myself).(owner := seq(|s.owner|, j requires 0 <= j < |s.owner| =>
        if s.owner[j] == Some(oldMaster) then Some(s.myself) else s.owner[j]))
  }

  function Quorum(s: Server): nat {
    s.size / 2 + 1
  }

  /** clusterHandleSlaveFailover: schedule an election, ask for votes, or take over. */
  ghost function HandleSlaveFailover(s: Server, e: Env): (r: (Server, Outcome))
    requires Linked(s)
  {
    var age := e.now - s.authTime;
    if !MayFailover(s, e) then (s, Idle)
    else if age > 2 * AuthTimeout(e) then
      (s.(authTime := if e.mfEnd then e.now else e.now + e.delay, authCount := 0, authSent := false), Scheduled)
    else
      var t := if !s.authSent && !e.mfEnd then s.(authTime := s.authTime + e.extraDelay) else s;
      if e.now < t.authTime || age > AuthTimeout(e) then (t, Waiting)
      else if !t.authSent then
        (t.(currentEpoch := t.currentEpoch + 1, authEpoch := t.currentEpoch + 1, authSent := true), Requested)
      else if t.authCount >= Quorum(t) then
        var v := t.Me();
        var epoch := if v.configEpoch < t.authEpoch then t.authEpoch else v.configEpoch;
        (ReplaceMaster(SetNode(t, t.myself, v.(configEpoch := epoch))), Won)
      else (t, Waiting)
  }

  // ----- epochs assigned without an election

  /** `m` is the greatest of the current epoch and all recorded configEpochs. */
  ghost predicate IsMaxEpoch(s: Server, m: nat) {
    && s.currentEpoch <= m
    && (forall n :: n in s.nodes ==> s.nodes[n].configEpoch <= m)
    && (m == s.currentEpoch || exists n :: n in s.nodes && s.nodes[n].configEpoch == m)
  }

  /** Take a new configEpoch without an election, unless ours is already the greatest. */
  ghost function BumpEpoch(s: Server): Server
    requires s.myself in s.nodes
  {
    if s.Me().configEpoch == 0 || !IsMaxEpoch(s, s.Me().configEpoch)
    then SetNode(s, s.myself, s.Me().(configEpoch := s.currentEpoch + 1)).(currentEpoch := s.currentEpoch + 1)
    else s
  }

  /** CLUSTER SET-CONFIG-EPOCH, allowed only on a server that knows no other node. */
  function SetConfigEpoch(s: Server, epoch: nat): Server
    requires s.myself in s.nodes
  {
    if |s.nodes| > 1 || s.Me().configEpoch != 0 then s
    else
      SetNode(s, s.myself, s.Me().(configEpoch := epoch))
        .(currentEpoch := if s.currentEpoch < epoch then epoch else s.currentEpoch)
  }

  /** Forget node `n`: release its slots and everything that points at it. */
  function Forget(s: Server, n: NodeName): Server
    requires n != s.myself
  {
    var t := ReleaseSlots(s, n);
    t.(nodes := map x | x in s.nodes && x != n ::
           if s.nodes[x].slaveof == Some(n) then s.nodes[x].(slaveof := None) else s.nodes[x],
       importing := seq(|s.importing|, j requires 0 <= j < |s.importing| =>
           if s.importing[j] == Some(n) then None else s.importing[j]))
  }

  /** clusterBuildMessageHdr: a replica advertises its master's slots and configEpoch. */
  function BuildHeader(s: Server, force: bool): (h: Header)
    requires s.myself in s.nodes
    requires s.Me().slaveof.Some? ==> s.Me().slaveof.value in s.nodes
  {
    var m := if !s.Me().master && s.Me().slaveof.Some? then s.Me().slaveof.value else s.myself;
    Header(s.myself, s.currentEpoch, s.nodes[m].configEpoch, SlotBitmap(s.owner, m), s.Me().slaveof, force)
  }
}
