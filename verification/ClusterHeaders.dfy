/** What a server says in its headers, what another one records of them, and what it forgets. */
module ClusterHeaders {
  import opened Common
  import opened Cluster
  import opened ClusterEpochs

  function Max(a: nat, b: nat): nat {
    if a < b then b else a
  }

  /** Epochs are taken from a header when they are greater; nothing else is touched. */
  lemma SeeHeaderIsMax(s: Server, h: Header)
    requires h.sender in s.nodes
    ensures var t := SeeHeader(s, h);
      && t.currentEpoch == Max(s.currentEpoch, h.currentEpoch)
      && t.nodes.Keys == s.nodes.Keys && (forall n :: n in s.nodes && n != h.sender ==> t.nodes[n] == s.nodes[n])
      && t.nodes[h.sender] ==
         s.nodes[h.sender].(configEpoch := Max(s.nodes[h.sender].configEpoch, h.configEpoch))
      && t == s.(currentEpoch := t.currentEpoch, nodes := t.nodes)
  {
  }

  /** The role a header announces: a master that turned replica loses its slots, and only it does. */
  lemma RoleIsTaken(s: Server, h: Header, j: nat)
    requires h.sender in s.nodes && j < |s.owner|
    ensures var t := SeeRole(s, h);
      && t.nodes.Keys == s.nodes.Keys && (forall n :: n in s.nodes && n != h.sender ==> t.nodes[n] == s.nodes[n])
      && |t.owner| == |s.owner| && t == s.(nodes := t.nodes, owner := t.owner)
      && (t.nodes[h.sender].master <==> h.slaveof.None?)
      && t.nodes[h.sender].configEpoch == s.nodes[h.sender].configEpoch
      && (h.slaveof.Some? && h.slaveof.value in s.nodes ==> t.nodes[h.sender].slaveof == h.slaveof)
      && t.owner[j] == if h.slaveof.Some? && s.nodes[h.sender].master && s.owner[j] == Some(h.sender) then None
                       else s.owner[j]
  {
  }

  /** A heartbeat of a replica frees the slots it had as a master, and moves no other slot. */
  lemma ReplicaPing(s: Server, h: Header, j: nat)
    requires PingEnabled(s, h) && h.slaveof.Some? && j < |s.owner|
    ensures var t := HandlePing(s, h);
      && |t.owner| == |s.owner|
      && t.owner[j] == (if s.nodes[h.sender].master && s.owner[j] == Some(h.sender) then None else s.owner[j])
      && h.sender in t.nodes && !t.nodes[h.sender].master
      && (h.slaveof.value in s.nodes ==> t.nodes[h.sender].slaveof == h.slaveof)
      && t.currentEpoch == Max(s.currentEpoch, h.currentEpoch)
      && t.nodes[h.sender].configEpoch == Max(s.nodes[h.sender].configEpoch, h.configEpoch)
      && (forall n :: n in s.nodes && n != h.sender ==> n in t.nodes && t.nodes[n] == s.nodes[n])
  {
    var a := SeeHeader(s, h);
    SeeHeaderIsMax(s, h);
    RoleIsTaken(a, h, j);
    hide SeeHeader, SeeRole, Max, Aborts;
  }

  /** A master announces its own slots and configEpoch; a replica those of its master, in whose name
      it will ask for votes. */
  lemma HeaderSays(s: Server, force: bool, j: nat)
    requires Linked(s) && j < |s.owner|
    ensures var h, me := BuildHeader(s, force), s.nodes[s.myself];
      && h.sender == s.myself && h.currentEpoch == s.currentEpoch && h.slaveof == me.slaveof && h.forceAck == force
      && |h.slots| == |s.owner|
      && (me.master ==> h.configEpoch == me.configEpoch && (h.slots[j] <==> s.owner[j] == Some(s.myself)))
      && (!me.master ==> h.configEpoch == s.nodes[me.slaveof.value].configEpoch
                         && (h.slots[j] <==> s.owner[j] == me.slaveof))
  {
  }

  /** Two servers that agree on the table: what the replica announces is what the other has recorded
      for its master, so its request for votes is not refused for a stale configuration. */
  lemma AgreedClaimIsCurrent(s: Server, u: Server, j: nat)
    requires Linked(s) && Linked(u) && !s.Me().master && u.owner == s.owner && j < |s.owner|
    requires s.Me().slaveof.value in u.nodes
    requires u.nodes[s.Me().slaveof.value].configEpoch <= s.nodes[s.Me().slaveof.value].configEpoch
    ensures var h := BuildHeader(s, false);
      && |h.slots| == |u.owner|
      && (h.slots[j] ==> u.owner[j].Some? && u.nodes[u.owner[j].value].configEpoch <= h.configEpoch)
  {
    HeaderSays(s, false, j);
  }

  /** After forgetting `n` nothing names it, and everything that did not name it is as it was. */
  lemma ForgetIsExact(s: Server, n: NodeName, j: nat, x: NodeName)
    requires n != s.myself && j < |s.owner| && |s.importing| == |s.owner|
    ensures var t := Forget(s, n);
      && |t.owner| == |t.importing| == |s.owner|
      && t.owner[j] == (if s.owner[j] == Some(n) then None else s.owner[j])
      && t.importing[j] == (if s.importing[j] == Some(n) then None else s.importing[j])
      && (x in t.nodes <==> x in s.nodes && x != n)
      && (x in t.nodes ==>
            && t.nodes[x].slaveof == (if s.nodes[x].slaveof == Some(n) then None else s.nodes[x].slaveof)
            && t.nodes[x] == s.nodes[x].(slaveof := t.nodes[x].slaveof))
      && t == s.(nodes := t.nodes, owner := t.owner, importing := t.importing)
  {
  }
}
