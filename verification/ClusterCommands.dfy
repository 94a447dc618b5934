/** What the administrator commands do to slots, roles and epochs, each said for every slot. */
module ClusterCommands {
  import opened Common
  import opened Cluster
  import opened ClusterEpochs
  import opened ClusterRuns
  import opened ClusterTakeover

  /** The owner of slot `j` after the command: ADDSLOTS, DELSLOTS and SETSLOT NODE change the slot they
      name, a takeover the slots of the master, FORGET those of the node, and the others none. */
  ghost function OwnerAfter(s: Server, a: Admin, j: nat): Option<NodeName>
    requires AdminEnabled(s, a) && j < |s.owner|
  {
    match a
    case AddSlot(k) => if j == k then Some(s.myself) else s.owner[j]
    case DelSlot(k) => if j == k then None else s.owner[j]
    case SetSlotNode(k, n) => if j == k then Some(n) else s.owner[j]
    case ForgetNode(n) => if s.owner[j] == Some(n) then None else s.owner[j]
    case Takeover => if s.owner[j] == s.Me().slaveof then Some(s.myself) else s.owner[j]
    case _ => s.owner[j]
  }

  /** The import of slot `j` after the command: closed when the slot gets or loses an owner here, when
      its source is forgotten, and all of them when a master becomes a replica. */
  ghost function ImportAfter(s: Server, a: Admin, j: nat): Option<NodeName>
    requires AdminEnabled(s, a) && j < |s.owner|
  {
    match a
    case AddSlot(k) => if j == k then None else s.importing[j]
    case DelSlot(k) => if j == k then None else s.importing[j]
    case SetSlotNode(k, n) => if j == k && n == s.myself then None else s.importing[j]
    case SetImporting(k, from) => if j == k then from else s.importing[j]
    case ForgetNode(n) => if s.importing[j] == Some(n) then None else s.importing[j]
    case Replicate(_) => if s.Me().master then None else s.importing[j]
    case _ => s.importing[j]
  }

  lemma BumpKeepsSlots(s: Server)
    requires s.myself in s.nodes
    ensures var t := BumpEpoch(s); t.owner == s.owner && t.importing == s.importing && t.myself == s.myself
    ensures s.myself in BumpEpoch(s).nodes && BumpEpoch(s).Me() == s.Me().(configEpoch := BumpEpoch(s).Me().configEpoch)
  {
  }

  /** Every administrator command, on every slot. */
  lemma AdminSlotsAreExact(s: Server, a: Admin, j: nat)
    requires AdminEnabled(s, a) && j < |s.owner|
    ensures var t := RunAdmin(s, a);
      && |t.owner| == |t.importing| == |s.owner|
      && t.owner[j] == OwnerAfter(s, a, j) && t.importing[j] == ImportAfter(s, a, j)
  {
    hide ServesSlots, IsMaxEpoch;
    if a.Bump? || a.Takeover? || a.SetSlotNode? {
      BumpKeepsSlots(s);
      hide BumpEpoch;
    }
  }

  /** REPLICATE makes this server a replica of that node and tells nothing else about any node. */
  lemma ReplicateFollows(s: Server, n: NodeName)
    requires AdminEnabled(s, Replicate(n))
    ensures var t := RunAdmin(s, Replicate(n));
      && s.myself in t.nodes && !t.nodes[s.myself].master && t.nodes[s.myself].slaveof == Some(n)
      && t.nodes[s.myself].configEpoch == s.Me().configEpoch
      && forall x :: x != s.myself ==> (x in t.nodes <==> x in s.nodes) && (x in s.nodes ==> t.nodes[x] == s.nodes[x])
  {
  }

  /** SETSLOT NODE that ends an import here: the slot is ours, under the greatest configEpoch we know, so
      that the announcement overrides the former owner's. */
  lemma ImportEndsInLead(s: Server, j: nat)
    requires AdminEnabled(s, SetSlotNode(j, s.myself)) && Dominated(s) && s.importing[j].Some?
    ensures var t := RunAdmin(s, SetSlotNode(j, s.myself));
      && t.myself == s.myself && t.myself in t.nodes && Leads(t) && t.Me().configEpoch > 0
      && |t.owner| == |t.importing| == |s.owner| && t.owner[j] == Some(s.myself) && t.importing[j].None?
      && (s.Me().configEpoch == 0 || !IsMaxEpoch(s, s.Me().configEpoch) ==> LeadsAlone(t))
  {
    BumpLeads(s);
    BumpKeepsSlots(s);
    var b := BumpEpoch(s);
    assert s.Me().configEpoch == 0 || !IsMaxEpoch(s, s.Me().configEpoch) ==> b.currentEpoch != s.currentEpoch;
    hide BumpEpoch, IsMaxEpoch;
    assert forall n :: n in b.nodes ==> n in RunAdmin(s, SetSlotNode(j, s.myself)).nodes;
  }

  /** SET-CONFIG-EPOCH works only on a server that is alone and has no epoch yet; otherwise nothing
      changes. */
  lemma SetEpochIsExact(s: Server, epoch: nat)
    requires AdminEnabled(s, SetEpoch(epoch))
    ensures var t := RunAdmin(s, SetEpoch(epoch));
      if s.Me().configEpoch == 0 && s.nodes.Keys == {s.myself}
      then t.myself == s.myself && t.nodes == map[s.myself := s.Me().(configEpoch := epoch)]
           && t.currentEpoch == (if s.currentEpoch < epoch then epoch else s.currentEpoch)
      else t == s
  {
    assert |s.nodes| == |s.nodes.Keys|;
    if |s.nodes| <= 1 {
      assert s.nodes.Keys == {s.myself} by {
        assert |s.nodes.Keys - {s.myself}| == 0;
      }
    }
  }
}
