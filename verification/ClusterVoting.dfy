/** Who votes, for whom and when; whose votes are counted; and when a replica asks for votes. Each rule
    is stated on the server before the packet or the timer, and for votes over whole runs. */
module ClusterVoting {
  import opened Common
  import opened Cluster
  import opened ClusterEpochs
  import opened ClusterRuns

  // ----- granting

  /** The master, as server `s` records it, of the replica that sent `p`. */
  ghost predicate AsksAbout(s: Server, p: Packet, m: NodeName) {
    && p.body.AuthRequest? && p.hdr.sender in s.nodes && !s.nodes[p.hdr.sender].master
    && s.nodes[p.hdr.sender].slaveof == Some(m) && m in s.nodes
  }

  /** The voting rule: a master that serves slots votes once per epoch, for a replica of a master that
      it records as failed unless the request is forced, not again about that master for twice the
      node timeout, and never against a newer owner of a claimed slot. */
  ghost predicate Lawful(s: Server, p: Packet, now: int, nodeTimeout: nat)
    requires Linked(s) && |p.hdr.slots| == |s.owner|
  {
    && s.Me().master && ServesSlots(s, s.myself)
    && p.hdr.currentEpoch >= s.currentEpoch && s.lastVoteEpoch != p.hdr.currentEpoch
    && (exists m ::
          && AsksAbout(s, p, m)
          && (s.nodes[m].failed || p.hdr.forceAck)
          && s.nodes[m].votedTime + 2 * nodeTimeout <= now)
    && !exists j ::
          && 0 <= j < |s.owner| && p.hdr.slots[j] && s.owner[j].Some?
          && s.nodes[s.owner[j].value].configEpoch > p.hdr.configEpoch
  }

  /** What the rule reads is the same before and after the packet's epochs were recorded. */
  lemma SeenSame(s: Server, h: Header)
    requires Linked(s) && h.sender in s.nodes && |h.slots| == |s.owner|
    ensures var t := SeeHeader(s, h);
      && Linked(t) && t.owner == s.owner && t.myself == s.myself && t.nodes.Keys == s.nodes.Keys
      && t.lastVoteEpoch == s.lastVoteEpoch && t.authEpoch == s.authEpoch
      && (h.currentEpoch >= s.currentEpoch ==> t.currentEpoch == h.currentEpoch)
      && (h.currentEpoch < s.currentEpoch ==> t.currentEpoch == s.currentEpoch)
      && (forall n :: n in s.nodes ==>
            && t.nodes[n].(configEpoch := 0) == s.nodes[n].(configEpoch := 0)
            && (t.nodes[n].configEpoch <= h.configEpoch <==> s.nodes[n].configEpoch <= h.configEpoch))
  {
    SeeHeaderKeeps(s, h);
  }

  /** A vote is granted exactly when the rule allows it. */
  lemma GrantIsExact(s: Server, p: Packet, now: int, nodeTimeout: nat)
    requires Ready(s, p)
    ensures Grants(s, p, now, nodeTimeout) <==> Lawful(s, p, now, nodeTimeout)
  {
    if p.hdr.sender in s.nodes && p.body.AuthRequest? {
      SeenSame(s, p.hdr);
      var t := SeeHeader(s, p.hdr);
      assert ServesSlots(t, t.myself) <==> ServesSlots(s, s.myself);
      hide SeeHeader, ServesSlots;
      var c := s.nodes[p.hdr.sender];
      assert t.nodes[p.hdr.sender].slaveof == c.slaveof && t.nodes[p.hdr.sender].master == c.master;
      if c.slaveof.Some? && !c.master { assert AsksAbout(s, p, c.slaveof.value); }
    }
  }

  /** Step `e` at `g` casts vote `v`, and lawfully. */
  ghost predicate CastAt(g: System, e: Event, v: Vote)
    requires Enabled(g, e)
  {
    && e.Deliver? && Lawful(g.servers[e.p.to], e.p, e.now, e.nodeTimeout)
    && v == Vote(e.p.to, e.p.hdr.currentEpoch, e.p.hdr.sender)
  }

  lemma GrantedEpoch(s: Server, p: Packet, now: int, nodeTimeout: nat)
    requires Ready(s, p) && Grants(s, p, now, nodeTimeout)
    ensures var t := Handle(s, p, now, nodeTimeout);
      && t.currentEpoch == p.hdr.currentEpoch == t.lastVoteEpoch && t.myself == s.myself && Linked(t)
      && BuildHeader(t, false).sender == p.to && BuildHeader(t, false).currentEpoch == p.hdr.currentEpoch
  {
    SeeHeaderKeeps(s, p.hdr);
    VoteKeeps(SeeHeader(s, p.hdr), p.hdr, now, nodeTimeout);
  }

  lemma NewVote(g: System, e: Event, v: Vote)
    requires Enabled(g, e) && v in Next(g, e).votes && v !in g.votes
    ensures CastAt(g, e, v)
  {
    hide Handle, Lawful, Linked, HandleSlaveFailover, RunAdmin, TalkBody, BuildHeader, Broadcast;
    assert e.Deliver? && Grants(g.servers[e.p.to], e.p, e.now, e.nodeTimeout);
    GrantIsExact(g.servers[e.p.to], e.p, e.now, e.nodeTimeout);
    GrantedEpoch(g.servers[e.p.to], e.p, e.now, e.nodeTimeout);
  }

  /** Every vote of every run was cast at some step by a voter that the rule allowed to. */
  lemma {:induction false} VotesAreLawful(run: seq<System>, events: seq<Event>, i: nat, v: Vote)
    requires IsRun(run, events) && Init(run[0]) && i < |run| && v in run[i].votes
    ensures exists k :: 0 <= k < i && CastAt(run[k], events[k], v)
  {
    hide Enabled, Next, CastAt;
    if i > 0 {
      if v in run[i - 1].votes {
        VotesAreLawful(run, events, i - 1, v);
      } else {
        NewVote(run[i - 1], events[i - 1], v);
      }
    }
  }

  /** A request that the rule allows is granted: the vote is recorded, and an acknowledgement in the
      epoch of the request is on its way to the replica. */
  lemma LawfulIsGranted(g: System, e: Event)
    requires Enabled(g, e) && e.Deliver? && Lawful(g.servers[e.p.to], e.p, e.now, e.nodeTimeout)
    ensures Vote(e.p.to, e.p.hdr.currentEpoch, e.p.hdr.sender) in Next(g, e).votes
    ensures exists q :: q in Next(g, e).net && q.to == e.p.hdr.sender && q.body.AuthAck?
                        && q.hdr.sender == e.p.to && q.hdr.currentEpoch == e.p.hdr.currentEpoch
    ensures Next(g, e).servers[e.p.to].lastVoteEpoch == e.p.hdr.currentEpoch
  {
    GrantIsExact(g.servers[e.p.to], e.p, e.now, e.nodeTimeout);
    GrantedEpoch(g.servers[e.p.to], e.p, e.now, e.nodeTimeout);
    hide Handle, Lawful, Linked, BuildHeader;
    var t := Handle(g.servers[e.p.to], e.p, e.now, e.nodeTimeout);
    assert Packet(e.p.hdr.sender, BuildHeader(t, false), AuthAck) in Next(g, e).net;
  }

  // ----- two votes about one master

  /** The same nodes, each with the time of the last vote about it. */
  ghost predicate TimesKept(s: Server, t: Server) {
    t.nodes.Keys == s.nodes.Keys && forall n :: n in s.nodes ==> t.nodes[n].votedTime == s.nodes[n].votedTime
  }

  lemma UpdateSlotsTimes(s: Server, sender: NodeName, epoch: nat, claimed: Bitmap)
    requires s.myself in s.nodes && Fits(s, claimed) && !Aborts(s, sender, epoch, claimed)
    ensures TimesKept(s, UpdateSlots(s, sender, epoch, claimed))
  {
  }

  lemma RoleTimes(s: Server, h: Header)
    requires h.sender in s.nodes
    ensures TimesKept(s, SeeRole(SeeHeader(s, h), h))
  {
  }

  lemma CollideTimes(s: Server, n: NodeName)
    requires s.myself in s.nodes && n in s.nodes
    ensures TimesKept(s, Collide(s, n))
  {
  }

  lemma PingTimes(s: Server, h: Header)
    requires PingEnabled(s, h)
    ensures TimesKept(s, HandlePing(s, h))
  {
    hide SeeRole, UpdateSlots, SlotBitmap, Aborts, Collide, Linked;
    var t := SeeRole(SeeHeader(s, h), h);
    RoleTimes(s, h);
    var claims := t.nodes[h.sender].master && SlotBitmap(t.owner, h.sender) != h.slots;
    if claims { UpdateSlotsTimes(t, h.sender, h.configEpoch, h.slots); }
    var u := if claims then UpdateSlots(t, h.sender, h.configEpoch, h.slots) else t;
    PingIsUpdate(s, h);
    CollideTimes(u, h.sender);
  }

  lemma PingIsUpdate(s: Server, h: Header)
    requires PingEnabled(s, h)
    ensures var t := SeeRole(SeeHeader(s, h), h);
      var u := if t.nodes[h.sender].master && SlotBitmap(t.owner, h.sender) != h.slots
               then UpdateSlots(t, h.sender, h.configEpoch, h.slots) else t;
      u.myself in u.nodes && h.sender in u.nodes && (HandlePing(s, h) == u || HandlePing(s, h) == Collide(u, h.sender))
  {
    hide Collide, SlotBitmap, Rebound, TakesFrom;
  }

  lemma UpdateTimes(s: Server, n: NodeName, epoch: nat, claimed: Bitmap)
    requires UpdateEnabled(s, n, epoch, claimed)
    ensures TimesKept(s, HandleUpdate(s, n, epoch, claimed))
  {
    if n in s.nodes && s.nodes[n].configEpoch < epoch {
      UpdateSlotsTimes(Adopt(s, n, epoch), n, epoch, claimed);
      hide UpdateSlots, Aborts;
    }
  }

  lemma FailoverTimes(s: Server, e: Env)
    requires Linked(s)
    ensures TimesKept(s, HandleSlaveFailover(s, e).0)
  {
  }

  lemma AdminTimes(s: Server, a: Admin, m: NodeName)
    requires AdminEnabled(s, a) && m in s.nodes && m in RunAdmin(s, a).nodes
    ensures RunAdmin(s, a).nodes[m].votedTime == s.nodes[m].votedTime
  {
  }

  /** A packet moves the time of the last vote only when it is granted, and then to now. */
  lemma HandleTimes(s: Server, p: Packet, now: int, nodeTimeout: nat)
    requires Ready(s, p)
    ensures var t := Handle(s, p, now, nodeTimeout);
      if !Grants(s, p, now, nodeTimeout) then TimesKept(s, t)
      else
        && t.nodes.Keys == s.nodes.Keys
        && forall m :: m in s.nodes ==>
             t.nodes[m].votedTime == if AsksAbout(s, p, m) then now else s.nodes[m].votedTime
  {
    if p.hdr.sender in s.nodes {
      SeenSame(s, p.hdr);
      var a := SeeHeader(s, p.hdr);
      match p.body
      case Ping => PingTimes(s, p.hdr);
      case Update(n, e, b) => UpdateTimes(a, n, e, b);
      case AuthRequest => assert a.nodes[p.hdr.sender].slaveof == s.nodes[p.hdr.sender].slaveof;
      case _ =>
    }
  }

  /** Along a run the time of the last vote about a node never goes back. */
  lemma StepTimes(g: System, e: Event, n: NodeName, m: NodeName)
    requires Enabled(g, e) && n in g.servers && ServersLinked(g)
    requires m in g.servers[n].nodes && m in After(g, e, n).nodes
    ensures var was, now := g.servers[n].nodes[m].votedTime, After(g, e, n).nodes[m].votedTime;
      && was <= now
      && (e.Deliver? && e.p.to == n && Grants(g.servers[n], e.p, e.now, e.nodeTimeout)
          && AsksAbout(g.servers[n], e.p, m) ==>
            was + 2 * e.nodeTimeout <= e.now == now)
  {
    var s := g.servers[n];
    if Actor(e) == Some(n) {
      match e
      case Deliver(p, now, nt) =>
        GrantIsExact(s, p, now, nt);
        hide Handle;
        HandleTimes(s, p, now, nt);
      case Tick(_, env) => FailoverTimes(s, env);
      case Local(_, a) => AdminTimes(s, a, m);
    }
  }

  lemma {:induction false} TimesNeverGoBack(run: seq<System>, events: seq<Event>, i: nat, k: nat, n: NodeName,
                                            m: NodeName)
    requires IsRun(run, events) && i <= k < |run| && ServersLinked(run[i]) && KnownAllAlong(run, i, k, n, m)
    ensures run[i].servers[n].nodes[m].votedTime <= run[k].servers[n].nodes[m].votedTime && ServersLinked(run[k])
    decreases k - i
  {
    hide Enabled, Next, After, ServersLinked;
    if i < k {
      TimesNeverGoBack(run, events, i, k - 1, n, m);
      var g, e := run[k - 1], events[k - 1];
      assert Knows(g, n, m) && Knows(run[k], n, m);
      StepKeepsServers(g, e);
      NextServers(g, e);
      StepTimes(g, e, n, m);
    }
  }

  /** Step `e` at `g` is a vote of server `n` about master `m`. */
  ghost predicate VotesAbout(g: System, e: Event, n: NodeName, m: NodeName)
    requires Enabled(g, e)
  {
    e.Deliver? && e.p.to == n && Grants(g.servers[n], e.p, e.now, e.nodeTimeout) && AsksAbout(g.servers[n], e.p, m)
  }

  /** Two votes of one server about one master that it knows all the time in between are at least
      twice the node timeout apart, on whatever clock it has. */
  lemma VotesAreSpaced(run: seq<System>, events: seq<Event>, i: nat, k: nat, n: NodeName, m: NodeName)
    requires IsRun(run, events) && i < k < |events| && ServersLinked(run[i]) && KnownAllAlong(run, i, k + 1, n, m)
    requires VotesAbout(run[i], events[i], n, m) && VotesAbout(run[k], events[k], n, m)
    ensures events[i].now + 2 * events[k].nodeTimeout <= events[k].now
  {
    assert Knows(run[i], n, m) && Knows(run[i + 1], n, m) && Knows(run[k], n, m) && Knows(run[k + 1], n, m);
    assert KnownAllAlong(run, i + 1, k, n, m);
    hide Next, After, Grants, Ready;
    StepKeepsServers(run[i], events[i]);
    NextServers(run[i], events[i]);
    StepTimes(run[i], events[i], n, m);
    TimesNeverGoBack(run, events, i + 1, k, n, m);
    NextServers(run[k], events[k]);
    StepTimes(run[k], events[k], n, m);
  }

  /** Forgetting a master forgets when it was voted about. */
  lemma ForgettingResets(s: Server, m: NodeName, master: bool)
    requires AdminEnabled(s, ForgetNode(m))
    ensures var t := RunAdmin(s, ForgetNode(m));
      AdminEnabled(t, Learn(m, master)) && RunAdmin(t, Learn(m, master)).nodes[m].votedTime == 0
  {
    ForgetKeeps(s, m);
  }

  // ----- counting

  /** An acknowledgement is counted exactly when its sender is recorded as a master that serves slots
      and its epoch is not older than that of the last request. */
  lemma CountIsExact(s: Server, p: Packet)
    requires Ready(s, p)
    ensures Counts(s, p) <==>
      && p.body.AuthAck? && p.hdr.sender in s.nodes && s.nodes[p.hdr.sender].master
      && ServesSlots(s, p.hdr.sender) && p.hdr.currentEpoch >= s.authEpoch
  {
    if p.hdr.sender in s.nodes {
      SeenSame(s, p.hdr);
      var t := SeeHeader(s, p.hdr);
      assert ServesSlots(t, p.hdr.sender) <==> ServesSlots(s, p.hdr.sender);
      assert t.nodes[p.hdr.sender].master == s.nodes[p.hdr.sender].master;
    }
  }

  /** Step `e` at `g` counts vote `v`: the candidate takes the voter for a master that serves slots. */
  ghost predicate CountedAt(g: System, e: Event, v: Vote)
    requires Enabled(g, e)
  {
    && e.Deliver? && e.p.body.AuthAck? && v == Vote(e.p.hdr.sender, e.p.hdr.currentEpoch, e.p.to)
    && var s := g.servers[e.p.to];
       v.voter in s.nodes && s.nodes[v.voter].master && ServesSlots(s, v.voter) && v.epoch >= s.authEpoch
  }

  lemma NewCount(g: System, e: Event, v: Vote)
    requires Enabled(g, e) && v in Next(g, e).counted && v !in g.counted
    ensures CountedAt(g, e, v)
  {
    hide Handle, Linked, HandleSlaveFailover, RunAdmin, TalkBody, BuildHeader, Broadcast;
    assert e.Deliver? && Counts(g.servers[e.p.to], e.p);
    CountIsExact(g.servers[e.p.to], e.p);
  }

  /** Every vote counted in a run was counted by its candidate as that of a master serving slots. */
  lemma {:induction false} CountsAreLawful(run: seq<System>, events: seq<Event>, i: nat, v: Vote)
    requires IsRun(run, events) && Init(run[0]) && i < |run| && v in run[i].counted
    ensures exists k :: 0 <= k < i && CountedAt(run[k], events[k], v)
  {
    hide Enabled, Next, CountedAt;
    if i > 0 {
      if v in run[i - 1].counted {
        CountsAreLawful(run, events, i - 1, v);
      } else {
        NewCount(run[i - 1], events[i - 1], v);
      }
    }
  }

  // ----- asking

  /** A replica of a master that serves slots, which it records as failed or which an administrator
      replaces by hand; without that hand also failover must be allowed and the data fresh. */
  ghost predicate Concerned(s: Server, e: Env)
    requires Linked(s)
  {
    && !s.Me().master && ServesSlots(s, s.Me().slaveof.value)
    && (e.Manual() || (s.nodes[s.Me().slaveof.value].failed && !e.noFailover && e.dataOk))
  }

  /** How late an attempt starts: its time, put off once more when this replica fell behind. */
  function StartTime(s: Server, e: Env): int {
    s.authTime + if !s.authSent && !e.mfEnd then e.extraDelay else 0
  }

  /** When the handler schedules, asks and wins, on the state before the call: it reschedules an attempt
      older than twice the timeout, asks once between its start and the timeout, and wins in that
      window with more than half of the cluster behind it. */
  lemma OutcomeIsExact(s: Server, e: Env)
    requires Linked(s)
    ensures var o := HandleSlaveFailover(s, e).1;
      var open := StartTime(s, e) <= e.now <= s.authTime + AuthTimeout(e);
      && (o == Idle <==> !Concerned(s, e))
      && (o == Scheduled <==> Concerned(s, e) && e.now > s.authTime + 2 * AuthTimeout(e))
      && (o == Requested <==> Concerned(s, e) && open && !s.authSent)
      && (o == Won <==> Concerned(s, e) && open && s.authSent && 2 * s.authCount > s.size)
  {
  }
}
