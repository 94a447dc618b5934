/** Every handler of a cluster server keeps its tables linked, keeps epoch dominance and
    never moves an epoch back. */
module ClusterEpochs {
  import opened Common
  import opened Cluster

  /** A header that a dominated server could have built. */
  predicate HeaderOk(h: Header) {
    h.configEpoch <= h.currentEpoch
  }

  /** If the server owned slots only as a master in `s`, so it does in `t`. */
  ghost predicate KeepsRole(s: Server, t: Server) {
    s.myself in s.nodes && t.myself in t.nodes && (OwnsAsMaster(s) ==> OwnsAsMaster(t))
  }

  /** `t` is linked and no election field, known node or slot count changed. */
  ghost predicate Quiet(s: Server, t: Server) {
    && Linked(t) && SameElection(s, t) && KeepsRole(s, t)
    && t.myself == s.myself && t.nodes.Keys == s.nodes.Keys && |t.owner| == |s.owner|
  }

  ghost predicate Grows(s: Server, t: Server) {
    Dominated(t) && Advances(s, t)
  }

  lemma GrowsTransitive(s: Server, t: Server, u: Server)
    requires Grows(s, t) && Grows(t, u) && s.nodes.Keys <= t.nodes.Keys
    ensures Grows(s, u)
  {
  }

  lemma SeeHeaderKeeps(s: Server, h: Header)
    requires Linked(s) && h.sender in s.nodes
    ensures Quiet(s, SeeHeader(s, h)) && SeeHeader(s, h).owner == s.owner
    ensures Dominated(s) && HeaderOk(h) ==> Grows(s, SeeHeader(s, h))
    ensures SeeHeader(s, h).currentEpoch >= h.currentEpoch
  {
    var t := SeeHeader(s, h);
    assert t.nodes[t.myself].master == s.nodes[s.myself].master;
  }

  lemma SetMasterKeeps(s: Server, n: NodeName)
    requires Linked(s) && n in s.nodes && n != s.myself
    requires !ServesSlots(s, s.myself)
    ensures Quiet(s, SetMaster(s, n))
    ensures Dominated(s) ==> Grows(s, SetMaster(s, n))
  {
    assert SetMaster(s, n).owner == s.owner;
  }

  /** Rebinding slots to another node never gives this server a slot. */
  lemma ReboundGivesSender(s: Server, sender: NodeName, epoch: nat, claimed: Bitmap)
    requires Linked(s) && Fits(s, claimed) && sender in s.nodes && sender != s.myself
    ensures Quiet(s, s.(owner := Rebound(s, sender, epoch, claimed)))
  {
    var t := s.(owner := Rebound(s, sender, epoch, claimed));
    if ServesSlots(t, s.myself) {
      var j: nat :| j < |t.owner| && t.owner[j] == Some(s.myself);
      assert s.owner[j] == Some(s.myself);
    }
  }

  /** A server that owns slots only as a master survives every claim. */
  lemma ClaimIsSafe(s: Server, sender: NodeName, epoch: nat, claimed: Bitmap)
    requires Linked(s) && OwnsAsMaster(s) && Fits(s, claimed)
    ensures !Aborts(s, sender, epoch, claimed)
  {
    assert forall j :: 0 <= j < |s.owner| && sender != s.myself ==>
      (Rebound(s, sender, epoch, claimed)[j] == Some(s.myself) ==> s.owner[j] == Some(s.myself));
  }

  lemma UpdateSlotsKeeps(s: Server, sender: NodeName, epoch: nat, claimed: Bitmap)
    requires Linked(s) && Fits(s, claimed) && sender in s.nodes
    requires !Aborts(s, sender, epoch, claimed)
    ensures Quiet(s, UpdateSlots(s, sender, epoch, claimed))
    ensures Dominated(s) ==> Grows(s, UpdateSlots(s, sender, epoch, claimed))
  {
    if sender != s.myself {
      ReboundGivesSender(s, sender, epoch, claimed);
      var t := s.(owner := Rebound(s, sender, epoch, claimed));
      var cur := CurMaster(s);
      if TakesFrom(s, sender, epoch, claimed, cur) && !ServesSlots(t, cur.value) {
        SetMasterKeeps(t, sender);
      }
    }
  }

  lemma RoleChangeKeeps(s: Server, n: NodeName, v: NodeView)
    requires Linked(s) && n in s.nodes && n != s.myself
    requires v.configEpoch == s.nodes[n].configEpoch
    requires v.slaveof.Some? ==> v.slaveof.value in s.nodes
    ensures Quiet(s, SetNode(s, n, v))
    ensures Dominated(s) ==> Grows(s, SetNode(s, n, v))
  {
    assert SetNode(s, n, v).owner == s.owner;
  }

  lemma ReleaseKeeps(s: Server, n: NodeName)
    requires Linked(s)
    ensures Quiet(s, ReleaseSlots(s, n))
    ensures Dominated(s) ==> Grows(s, ReleaseSlots(s, n))
  {
    var t := ReleaseSlots(s, n);
    assert forall j :: 0 <= j < |t.owner| && t.owner[j].Some? ==> t.owner[j] == s.owner[j];
  }

  lemma SeeRoleKeeps(s: Server, h: Header)
    requires Linked(s) && h.sender in s.nodes && h.sender != s.myself
    ensures Quiet(s, SeeRole(s, h))
    ensures Dominated(s) ==> Grows(s, SeeRole(s, h))
  {
    var n := h.sender;
    if h.slaveof.None? {
      RoleChangeKeeps(s, n, s.nodes[n].(master := true, slaveof := None));
    } else {
      var r := ReleaseSlots(s, n);
      ReleaseKeeps(s, n);
      RoleChangeKeeps(r, n, s.nodes[n].(master := false));
      var t := if s.nodes[n].master then SetNode(r, n, s.nodes[n].(master := false)) else s;
      assert Quiet(s, t) && (Dominated(s) ==> Grows(s, t));
      if h.slaveof.value in t.nodes {
        RoleChangeKeeps(t, n, t.nodes[n].(slaveof := h.slaveof));
      }
    }
  }

  lemma CollideKeeps(s: Server, sender: NodeName)
    requires Linked(s) && sender in s.nodes
    ensures Quiet(s, Collide(s, sender))
    ensures Dominated(s) ==> Grows(s, Collide(s, sender))
  {
    assert Collide(s, sender).owner == s.owner;
  }

  /** `t` may follow `s`: quiet, and without moving an epoch back when `h` is well formed. */
  ghost predicate Follows(s: Server, h: Header, t: Server) {
    Quiet(s, t) && (Dominated(s) && HeaderOk(h) ==> Grows(s, t))
  }

  lemma FollowsTransitive(s: Server, h: Header, t: Server, u: Server)
    requires Follows(s, h, t) && Follows(t, h, u)
    ensures Follows(s, h, u)
  {
  }

  lemma PingKeeps(s: Server, h: Header)
    requires PingEnabled(s, h)
    ensures Quiet(s, HandlePing(s, h))
    ensures Dominated(s) && HeaderOk(h) ==> Grows(s, HandlePing(s, h))
  {
    var a := SeeHeader(s, h);
    SeeHeaderKeeps(s, h);
    var t := SeeRole(a, h);
    SeeRoleKeeps(a, h);
    var claims := t.nodes[h.sender].master && SlotBitmap(t.owner, h.sender) != h.slots;
    var u := if claims then UpdateSlots(t, h.sender, h.configEpoch, h.slots) else t;
    if claims { UpdateSlotsKeeps(t, h.sender, h.configEpoch, h.slots); }
    CollideKeeps(u, h.sender);
    hide Quiet, Grows, Dominated, SeeHeader, SeeRole, UpdateSlots, Collide, Linked, Aborts;
    FollowsTransitive(s, h, a, t);
    if claims { FollowsTransitive(s, h, t, u); }
    if HandlePing(s, h) != u { FollowsTransitive(s, h, u, Collide(u, h.sender)); }
  }

  lemma AdoptKeeps(s: Server, n: NodeName, epoch: nat)
    requires Linked(s) && n in s.nodes && s.nodes[n].configEpoch <= epoch
    ensures Quiet(s, Adopt(s, n, epoch)) && Adopt(s, n, epoch).owner == s.owner
    ensures Dominated(s) && epoch <= s.currentEpoch ==> Grows(s, Adopt(s, n, epoch))
  {
    assert Adopt(s, n, epoch).owner == s.owner;
  }

  lemma UpdateKeeps(s: Server, n: NodeName, epoch: nat, claimed: Bitmap)
    requires Linked(s) && UpdateEnabled(s, n, epoch, claimed)
    ensures Quiet(s, HandleUpdate(s, n, epoch, claimed))
    ensures Dominated(s) && epoch <= s.currentEpoch ==> Grows(s, HandleUpdate(s, n, epoch, claimed))
  {
    if n in s.nodes && s.nodes[n].configEpoch < epoch {
      var t := Adopt(s, n, epoch);
      AdoptKeeps(s, n, epoch);
      UpdateSlotsKeeps(t, n, epoch, claimed);
      if Dominated(s) && epoch <= s.currentEpoch {
        GrowsTransitive(s, t, HandleUpdate(s, n, epoch, claimed));
      }
    }
  }

  /** A vote uses up the current epoch: the voter's last vote moves strictly forward to it. */
  lemma VoteKeeps(s: Server, h: Header, now: int, nodeTimeout: nat)
    requires Linked(s) && h.sender in s.nodes && |h.slots| == |s.owner|
    requires MayVote(s, h, now, nodeTimeout)
    ensures var t := CastVote(s, h.sender, now);
      && Linked(t) && t.owner == s.owner && t.nodes.Keys == s.nodes.Keys && KeepsRole(s, t)
      && (Dominated(s) ==> Grows(s, t) && s.lastVoteEpoch < t.lastVoteEpoch == s.currentEpoch == t.currentEpoch)
  {
    assert CastVote(s, h.sender, now).owner == s.owner;
  }

  lemma AckKeeps(s: Server, h: Header)
    requires Linked(s) && h.sender in s.nodes
    ensures var t := HandleAck(s, h);
      && Linked(t) && KeepsRole(s, t) && t.owner == s.owner && t.nodes == s.nodes && t.authEpoch == s.authEpoch
      && (Dominated(s) ==> Grows(s, t))
  {
    assert HandleAck(s, h).owner == s.owner;
  }

  lemma ReplaceMasterKeeps(s: Server)
    requires Linked(s)
    ensures Quiet(s, ReplaceMaster(s))
    ensures Dominated(s) ==> Grows(s, ReplaceMaster(s))
  {
    var t := ReplaceMaster(s);
    assert forall n :: n in t.nodes ==> n in s.nodes && s.nodes[n].configEpoch == t.nodes[n].configEpoch;
  }

  /** The winner takes the epoch of the election, its master's role and its slots. */
  lemma WinKeeps(s: Server, epoch: nat)
    requires Linked(s) && s.Me().configEpoch <= epoch
    ensures var t := ReplaceMaster(SetNode(s, s.myself, s.Me().(configEpoch := epoch)));
      Quiet(s, t) && (Dominated(s) && epoch <= s.currentEpoch ==> Grows(s, t))
  {
    var u := SetNode(s, s.myself, s.Me().(configEpoch := epoch));
    assert u.owner == s.owner && Quiet(s, u);
    ReplaceMasterKeeps(u);
  }

  lemma FailoverKeeps(s: Server, e: Env)
    requires Linked(s)
    ensures var t := HandleSlaveFailover(s, e).0;
      && Linked(t) && t.myself == s.myself && t.lastVoteEpoch == s.lastVoteEpoch
      && t.nodes.Keys == s.nodes.Keys && |t.owner| == |s.owner| && KeepsRole(s, t)
      && (Dominated(s) ==> Grows(s, t))
  {
    hide ReplaceMaster, MayFailover;
    var r := HandleSlaveFailover(s, e);
    var t := if !s.authSent && !e.mfEnd then s.(authTime := s.authTime + e.extraDelay) else s;
    assert t.owner == s.owner && t.nodes == s.nodes;
    assert Linked(t);
    if r.1 == Won {
      WinKeeps(t, if t.Me().configEpoch < t.authEpoch then t.authEpoch else t.Me().configEpoch);
    } else {
      assert r.0.owner == s.owner && r.0.nodes == s.nodes;
    }
  }

  lemma BumpKeeps(s: Server)
    requires Linked(s)
    ensures Quiet(s, BumpEpoch(s))
    ensures Dominated(s) ==> Grows(s, BumpEpoch(s))
  {
    assert BumpEpoch(s).owner == s.owner;
  }

  lemma SetConfigEpochKeeps(s: Server, epoch: nat)
    requires Linked(s)
    ensures Quiet(s, SetConfigEpoch(s, epoch))
    ensures Dominated(s) ==> Grows(s, SetConfigEpoch(s, epoch))
  {
    assert SetConfigEpoch(s, epoch).owner == s.owner;
  }

  lemma ForgetKeeps(s: Server, n: NodeName)
    requires Linked(s) && n != s.myself && CurMaster(s) != Some(n)
    ensures var t := Forget(s, n);
      && Linked(t) && SameElection(s, t) && t.myself == s.myself && |t.owner| == |s.owner| && KeepsRole(s, t)
      && (Dominated(s) ==> Grows(s, t))
  {
    var t := Forget(s, n);
    assert forall j :: 0 <= j < |t.owner| && t.owner[j].Some? ==> t.owner[j] == s.owner[j] && t.owner[j] != Some(n);
    assert t.nodes[t.myself].master == s.nodes[s.myself].master;
  }

  lemma HeaderBuiltIsOk(s: Server, force: bool)
    requires Linked(s) && Dominated(s)
    ensures HeaderOk(BuildHeader(s, force)) && |BuildHeader(s, force).slots| == |s.owner|
  {
  }
}
