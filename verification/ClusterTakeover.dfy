/** What a failover is for: the winner serves the slots of its master under a newer configuration,
    every server that hears it records so, and the old master becomes a replica of the winner. */
module ClusterTakeover {
  import opened Common
  import opened Cluster
  import opened ClusterEpochs
  import opened ClusterRuns

  // ----- taking over

  /** `t` is `s` after this server took the place of node `m`: it owns exactly what `m` and it owned,
      `m` owns nothing, and every other slot and node is as before. */
  ghost predicate TookOver(s: Server, t: Server, m: NodeName) {
    && t.myself == s.myself && t.nodes.Keys == s.nodes.Keys && t.myself in t.nodes && |t.owner| == |s.owner|
    && t.Me().master && t.Me().slaveof.None?
    && (forall j :: 0 <= j < |s.owner| ==>
          (t.owner[j] == Some(s.myself) <==> s.owner[j] == Some(m) || s.owner[j] == Some(s.myself)))
    && (forall j :: 0 <= j < |s.owner| && s.owner[j] != Some(m) ==> t.owner[j] == s.owner[j])
    && !ServesSlots(t, m)
    && (forall n :: n in s.nodes && n != s.myself ==> t.nodes[n] == s.nodes[n])
  }

  lemma ReplaceMasterTakesOver(s: Server)
    requires Linked(s) && !s.Me().master
    ensures TookOver(s, ReplaceMaster(s), s.Me().slaveof.value)
    ensures ReplaceMaster(s).Me().configEpoch == s.Me().configEpoch && ReplaceMaster(s).importing == s.importing
  {
    var t, m := ReplaceMaster(s), s.Me().slaveof.value;
    assert forall j :: 0 <= j < |t.owner| ==> t.owner[j] != Some(m);
  }

  /** The winner with its new configEpoch, before the takeover. */
  ghost function Promoted(s: Server, e: Env): Server
    requires Linked(s)
  {
    var a := if !s.authSent && !e.mfEnd then s.(authTime := s.authTime + e.extraDelay) else s;
    var mine := s.Me().configEpoch;
    SetNode(a, a.myself, a.Me().(configEpoch := if mine < s.authEpoch then s.authEpoch else mine))
  }

  lemma WinnerIsPromoted(s: Server, e: Env)
    requires Linked(s) && HandleSlaveFailover(s, e).1 == Won
    ensures !s.Me().master && Linked(Promoted(s, e)) && HandleSlaveFailover(s, e).0 == ReplaceMaster(Promoted(s, e))
    ensures Promoted(s, e).owner == s.owner && Promoted(s, e).nodes.Keys == s.nodes.Keys
  {
    hide ReplaceMaster, ServesSlots;
    assert Promoted(s, e).owner == s.owner;
  }

  /** A won election: the master's slots move to the winner, whose configEpoch is now the greater of
      its own and that of the election. */
  lemma WinnerTakesOver(s: Server, e: Env)
    requires Linked(s) && HandleSlaveFailover(s, e).1 == Won
    ensures !s.Me().master
    ensures var t := HandleSlaveFailover(s, e).0;
      && TookOver(s, t, s.Me().slaveof.value) && t.currentEpoch == s.currentEpoch
      && t.Me().configEpoch >= s.authEpoch && t.Me().configEpoch >= s.Me().configEpoch
      && (t.Me().configEpoch == s.authEpoch || t.Me().configEpoch == s.Me().configEpoch)
  {
    WinnerIsPromoted(s, e);
    hide HandleSlaveFailover;
    var u := Promoted(s, e);
    ReplaceMasterTakesOver(u);
    assert ReplaceMaster(u).currentEpoch == s.currentEpoch;
    hide ReplaceMaster, Linked, ServesSlots;
    assert forall n :: n in s.nodes && n != s.myself ==> u.nodes[n] == s.nodes[n];
  }

  /** Any other outcome of the handler leaves nodes and slots alone. */
  lemma OnlyWinnersTakeOver(s: Server, e: Env)
    requires Linked(s) && HandleSlaveFailover(s, e).1 != Won
    ensures var t := HandleSlaveFailover(s, e).0; t.nodes == s.nodes && t.owner == s.owner && t.importing == s.importing
  {
  }

  // ----- epochs taken without an election

  /** This server's configEpoch is at least that of every node it knows. */
  ghost predicate Leads(s: Server)
    requires s.myself in s.nodes
  {
    forall n :: n in s.nodes ==> s.nodes[n].configEpoch <= s.Me().configEpoch
  }

  /** It is greater than that of every other node. */
  ghost predicate LeadsAlone(s: Server)
    requires s.myself in s.nodes
  {
    forall n :: n in s.nodes && n != s.myself ==> s.nodes[n].configEpoch < s.Me().configEpoch
  }

  /** A bump makes this server's configEpoch the greatest it knows and not 0; a server that was not
      already leading then leads alone. */
  lemma BumpLeads(s: Server)
    requires Linked(s) && Dominated(s)
    ensures var t := BumpEpoch(s);
      && t.myself == s.myself && t.myself in t.nodes && Leads(t) && t.Me().configEpoch > 0
      && t.Me().configEpoch >= t.currentEpoch
      && (t != s ==> LeadsAlone(t))
      && (forall n :: n in s.nodes && n != s.myself ==> n in t.nodes && t.nodes[n] == s.nodes[n])
      && t.owner == s.owner && t.Me() == s.Me().(configEpoch := t.Me().configEpoch)
  {
  }

  /** CLUSTER FAILOVER TAKEOVER: the same takeover, under the greatest epoch this server knows. */
  lemma TakeoverTakesOver(s: Server)
    requires AdminEnabled(s, Takeover) && Dominated(s)
    ensures var t := RunAdmin(s, Takeover);
      TookOver(s, t, s.Me().slaveof.value) && Leads(t) && t.Me().configEpoch > 0
  {
    var a := BumpEpoch(s);
    BumpLeads(s);
    BumpKeeps(s);
    ReplaceMasterTakesOver(a);
    hide ReplaceMaster, BumpEpoch;
    var t := RunAdmin(s, Takeover);
    assert forall n :: n in s.nodes && n != s.myself ==> a.nodes[n] == s.nodes[n] && t.nodes[n] == a.nodes[n];
  }

  /** A master that collides with one of a greater name gets an epoch of its own; the other one stays. */
  lemma CollisionMovesSmaller(s: Server, n: NodeName)
    requires Linked(s) && Dominated(s) && n in s.nodes && s.Me().master && s.nodes[n].master
    requires s.nodes[n].configEpoch == s.Me().configEpoch && n != s.myself
    ensures var t := Collide(s, n);
      && t.myself == s.myself && t.myself in t.nodes && n in t.nodes && t.nodes[n] == s.nodes[n]
      && (s.myself < n ==> LeadsAlone(t)) && (n < s.myself ==> t == s)
  {
  }

  /** Two masters that know each other under one epoch have different ones after each has seen the other. */
  lemma CollisionEnds(a: Server, b: Server)
    requires Linked(a) && Linked(b) && Dominated(a) && Dominated(b) && a.myself != b.myself
    requires a.Me().master && b.Me().master && a.Me().configEpoch == b.Me().configEpoch
    requires b.myself in a.nodes && a.nodes[b.myself].master && a.nodes[b.myself].configEpoch == b.Me().configEpoch
    requires a.myself in b.nodes && b.nodes[a.myself].master && b.nodes[a.myself].configEpoch == a.Me().configEpoch
    ensures Collide(a, b.myself).Me().configEpoch != Collide(b, a.myself).Me().configEpoch
  {
  }

  // ----- claims and roles

  /** The master of this server, possibly itself, owns slots and loses every one of them to the claim. */
  ghost predicate LosesAll(s: Server, sender: NodeName, epoch: nat, claimed: Bitmap)
    requires Linked(s) && Fits(s, claimed)
  {
    var m := CurMaster(s).value;
    && ServesSlots(s, m) && m != sender && s.nodes[m].configEpoch < epoch
    && forall j :: 0 <= j < |s.owner| && s.owner[j] == Some(m) ==> claimed[j] && s.importing[j].None?
  }

  lemma LosesAllMeans(s: Server, sender: NodeName, epoch: nat, claimed: Bitmap)
    requires Linked(s) && Fits(s, claimed) && sender != s.myself
    ensures var cur := CurMaster(s);
      LosesAll(s, sender, epoch, claimed) <==>
      TakesFrom(s, sender, epoch, claimed, cur) &&
      !ServesSlots(s.(owner := Rebound(s, sender, epoch, claimed)), cur.value)
  {
    var cur := CurMaster(s);
    var t := s.(owner := Rebound(s, sender, epoch, claimed));
    assert forall j :: 0 <= j < |s.owner| ==>
      t.owner[j] == if Rebinds(s, sender, epoch, claimed, j) then Some(sender) else s.owner[j];
    if LosesAll(s, sender, epoch, claimed) {
      var j: nat :| j < |s.owner| && s.owner[j] == cur;
      assert Rebinds(s, sender, epoch, claimed, j);
    }
    if TakesFrom(s, sender, epoch, claimed, cur) && !ServesSlots(t, cur.value) {
      var j :| 0 <= j < |s.owner| && Rebinds(s, sender, epoch, claimed, j) && s.owner[j] == cur;
      assert sender != cur.value;
      forall i | 0 <= i < |s.owner| && s.owner[i] == cur
        ensures claimed[i] && s.importing[i].None?
      {
        assert t.owner[i] != cur;
      }
    }
  }

  /** A claim makes this server a replica of the claimant exactly when its master, possibly itself,
      loses every slot to it; otherwise no role changes. */
  lemma FollowsExactly(s: Server, sender: NodeName, epoch: nat, claimed: Bitmap)
    requires Linked(s) && Fits(s, claimed) && sender in s.nodes && sender != s.myself
    requires !Aborts(s, sender, epoch, claimed)
    ensures var t := UpdateSlots(s, sender, epoch, claimed);
      if LosesAll(s, sender, epoch, claimed) then
        && t.myself in t.nodes && !t.Me().master && t.Me().slaveof == Some(sender) && !ServesSlots(t, t.myself)
        && (s.Me().master ==> forall j :: 0 <= j < |t.importing| ==> t.importing[j].None?)
        && (forall n :: n in s.nodes && n != s.myself ==> n in t.nodes && t.nodes[n] == s.nodes[n])
      else t.nodes == s.nodes && t.importing == s.importing
  {
    LosesAllMeans(s, sender, epoch, claimed);
    hide LosesAll, Rebound, TakesFrom;
  }

  // ----- a master's heartbeat at another server

  /** Slot `j` after server `u` heard the heartbeat `h` of a master. */
  ghost function Recorded(u: Server, h: Header, j: nat): Option<NodeName>
    requires Linked(u) && j < |u.owner| == |h.slots|
  {
    if h.slots[j] && u.importing[j].None? && (u.owner[j].None? || u.nodes[u.owner[j].value].configEpoch < h.configEpoch)
    then Some(h.sender) else u.owner[j]
  }

  lemma SeesMaster(u: Server, h: Header)
    requires Linked(u) && h.sender in u.nodes && h.sender != u.myself && h.slaveof.None?
    ensures var t := SeeRole(SeeHeader(u, h), h);
      && t.owner == u.owner && t.importing == u.importing && t.myself == u.myself && t.nodes.Keys == u.nodes.Keys
      && t.nodes[h.sender].master && t.nodes[h.sender].configEpoch >= h.configEpoch
      && (u.nodes[h.sender].configEpoch <= h.configEpoch ==> t.nodes[h.sender].configEpoch == h.configEpoch)
      && (forall n :: n in u.nodes && n != h.sender ==> t.nodes[n] == u.nodes[n])
      && (Dominated(u) && HeaderOk(h) ==> Dominated(t)) && Linked(t)
  {
    SeeHeaderKeeps(u, h);
    SeeRoleKeeps(SeeHeader(u, h), h);
  }

  lemma ReboundIsRecorded(u: Server, t: Server, h: Header, j: nat)
    requires Linked(u) && Linked(t) && |u.owner| == |h.slots| && j < |u.owner|
    requires t.owner == u.owner && t.importing == u.importing && t.nodes.Keys == u.nodes.Keys
    requires forall n :: n in u.nodes && n != h.sender ==> t.nodes[n] == u.nodes[n]
    ensures Rebound(t, h.sender, h.configEpoch, h.slots)[j] == Recorded(u, h, j)
  {
  }

  /** The heartbeat of a master, whatever was known of it: the claimed slots that are free or have an
      owner with an older epoch, and are not being imported, are recorded as its own; no others move. */
  lemma PingSpreads(u: Server, h: Header, j: nat)
    requires PingEnabled(u, h) && h.slaveof.None? && j < |u.owner|
    ensures |HandlePing(u, h).owner| == |u.owner| && HandlePing(u, h).owner[j] == Recorded(u, h, j)
  {
    hide SeeRole, Aborts, Linked, Recorded;
    var t := SeeRole(SeeHeader(u, h), h);
    SeesMaster(u, h);
    ReboundIsRecorded(u, t, h, j);
    if SlotBitmap(t.owner, h.sender) == h.slots { NothingNew(u, h, j); }
  }

  /** A heartbeat that announces what is recorded already moves nothing. */
  lemma NothingNew(u: Server, h: Header, j: nat)
    requires Linked(u) && j < |u.owner| == |h.slots| && SlotBitmap(u.owner, h.sender) == h.slots
    ensures Recorded(u, h, j) == u.owner[j]
  {
    assert h.slots[j] == (u.owner[j] == Some(h.sender));
  }

  /** A heartbeat under this master's own configEpoch, from a greater name, makes it take an epoch
      greater than that of every other node it knows. */
  lemma PingResolvesCollision(u: Server, h: Header)
    requires PingEnabled(u, h) && h.slaveof.None? && Dominated(u) && HeaderOk(h) && u.Me().master
    requires u.nodes[h.sender].configEpoch <= h.configEpoch == u.Me().configEpoch && u.myself < h.sender
    ensures HandlePing(u, h).myself in HandlePing(u, h).nodes && LeadsAlone(HandlePing(u, h))
  {
    var t := SeeRole(SeeHeader(u, h), h);
    SeesMaster(u, h);
    var claims := SlotBitmap(t.owner, h.sender) != h.slots;
    if claims { FollowsExactly(t, h.sender, h.configEpoch, h.slots); }
    var a := if claims then UpdateSlots(t, h.sender, h.configEpoch, h.slots) else t;
    if claims { UpdateSlotsKeeps(t, h.sender, h.configEpoch, h.slots); }
    hide SeeRole, SeeHeader, Aborts, Rebound, UpdateSlots, SlotBitmap, TakesFrom;
    assert a.nodes == t.nodes && a.myself == t.myself;
    CollisionMovesSmaller(a, h.sender);
    hide Collide;
  }

  // ----- a whole failover

  /** The heartbeat of a winner claims exactly the slots that its master and it owned, as a master. */
  lemma WinnerAnnounces(w: Server, e: Env)
    requires Linked(w) && HandleSlaveFailover(w, e).1 == Won
    ensures !w.Me().master
    ensures var t := HandleSlaveFailover(w, e).0;
      && t.myself in t.nodes && t.Me().slaveof.None?
      && var h := BuildHeader(t, false);
         && h.sender == w.myself && h.slaveof.None? && |h.slots| == |w.owner|
         && h.configEpoch == t.Me().configEpoch >= w.authEpoch
         && forall j :: 0 <= j < |w.owner| ==>
              (h.slots[j] <==> w.owner[j] == w.Me().slaveof || w.owner[j] == Some(w.myself))
  {
    hide HandleSlaveFailover;
    WinnerTakesOver(w, e);
  }

  /** Every server that hears the winner records the old master's slots as the winner's, unless it is
      importing the slot or knows an owner with an epoch that is not older. */
  lemma FailoverIsHeard(w: Server, e: Env, u: Server, j: nat)
    requires Linked(w) && HandleSlaveFailover(w, e).1 == Won
    requires var t := HandleSlaveFailover(w, e).0;
      && t.myself in t.nodes && t.Me().slaveof.None? && PingEnabled(u, BuildHeader(t, false))
      && j < |u.owner| == |w.owner| && w.owner[j] == w.Me().slaveof && u.importing[j].None?
      && (u.owner[j].None? || u.owner[j] == Some(w.myself) ||
          u.nodes[u.owner[j].value].configEpoch < t.Me().configEpoch)
    ensures var v := HandlePing(u, BuildHeader(HandleSlaveFailover(w, e).0, false));
      |v.owner| == |u.owner| && v.owner[j] == Some(w.myself)
  {
    hide HandleSlaveFailover, BuildHeader, HandlePing, PingEnabled;
    WinnerAnnounces(w, e);
    var h := BuildHeader(HandleSlaveFailover(w, e).0, false);
    PingSpreads(u, h, j);
    PingIsLinked(u, h);
  }

  lemma PingIsLinked(u: Server, h: Header)
    requires PingEnabled(u, h)
    ensures Linked(u) && h.sender in u.nodes && h.sender != u.myself && |h.slots| == |u.owner|
  {
  }

  /** The old master, when it comes back, and its other replicas follow the winner: each server whose
      master is the old one, and knows no slot of it that the winner did not take, becomes a replica
      of the winner when it hears it. */
  lemma OldMasterFollows(w: Server, e: Env, u: Server)
    requires Linked(w) && HandleSlaveFailover(w, e).1 == Won
    requires var t := HandleSlaveFailover(w, e).0;
      && t.myself in t.nodes && t.Me().slaveof.None? && PingEnabled(u, BuildHeader(t, false))
      && CurMaster(u) == w.Me().slaveof && CurMaster(u) != Some(w.myself) && ServesSlots(u, CurMaster(u).value)
      && u.nodes[CurMaster(u).value].configEpoch < t.Me().configEpoch
    requires forall j :: 0 <= j < |u.owner| && u.owner[j] == CurMaster(u) ==>
      j < |w.owner| && w.owner[j] == w.Me().slaveof && u.importing[j].None?
    ensures var v := HandlePing(u, BuildHeader(HandleSlaveFailover(w, e).0, false));
      v.myself == u.myself && v.myself in v.nodes && !v.Me().master && v.Me().slaveof == Some(w.myself)
  {
    hide HandleSlaveFailover, BuildHeader, HandlePing, PingEnabled;
    WinnerAnnounces(w, e);
    var h := BuildHeader(HandleSlaveFailover(w, e).0, false);
    PingIsLinked(u, h);
    StrippedFollows(u, h);
  }

  /** A heartbeat of a master that takes every slot of this server's master. */
  lemma StrippedFollows(u: Server, h: Header)
    requires PingEnabled(u, h) && h.slaveof.None? && CurMaster(u) != Some(h.sender)
    requires LosesAll(u, h.sender, h.configEpoch, h.slots)
    ensures var v := HandlePing(u, h);
      v.myself == u.myself && v.myself in v.nodes && !v.Me().master && v.Me().slaveof == Some(h.sender)
  {
    hide SeeRole, Aborts, Rebound, TakesFrom, SlotBitmap;
    var t := SeeRole(SeeHeader(u, h), h);
    SeesMaster(u, h);
    assert CurMaster(t) == CurMaster(u);
    var j: nat :| j < |u.owner| && u.owner[j] == CurMaster(u);
    assert ServesSlots(t, CurMaster(t).value);
    assert LosesAll(t, h.sender, h.configEpoch, h.slots);
    BitmapDiffers(t.owner, h.sender, h.slots, j);
    FollowsExactly(t, h.sender, h.configEpoch, h.slots);
    UpdateSlotsKeeps(t, h.sender, h.configEpoch, h.slots);
    hide UpdateSlots, LosesAll;
  }

  lemma BitmapDiffers(owner: seq<Option<NodeName>>, n: NodeName, claimed: Bitmap, j: nat)
    requires j < |owner| == |claimed| && claimed[j] && owner[j] != Some(n)
    ensures SlotBitmap(owner, n) != claimed
  {
    assert SlotBitmap(owner, n)[j] != claimed[j];
  }
}
