/** A run in which a late acknowledgement lets two replicas win the same epoch.

    Node 1 is a failed master; 2 and 3 are masters; 4 and 5 are replicas of 1. Each master
    serves one slot. Replica 4 asks for votes in epoch 1, its attempt times out, and the two
    acknowledgements arrive after the counter was reset: they count for its attempt in epoch 2,
    in which 2 and 3 vote for replica 5. */
module ClusterLateAck {
  import opened Common
  import opened Cluster
  import opened ClusterEpochs
  import opened ClusterRuns
  import opened ClusterElection

  const NODES: map<NodeName, NodeView> := map[
    1 := NodeView(0, true, None, true, 0),
    2 := NodeView(0, true, None, false, 0),
    3 := NodeView(0, true, None, false, 0),
    4 := NodeView(0, false, Some(1), false, 0),
    5 := NodeView(0, false, Some(1), false, 0)]

  const OWNER: seq<Option<NodeName>> := [Some(1), Some(2), Some(3)]

  function Srv(n: NodeName, cur: nat, vote: nat, sent: bool, epoch: nat, count: nat, time: int): Server {
    Server(n, NODES, OWNER, [None, None, None], cur, vote, sent, epoch, count, time, 3)
  }

  /** The header of replica `n`, which advertises the slots of its master. */
  function ReplicaHeader(n: NodeName, cur: nat): Header {
    Header(n, cur, 0, [true, false, false], Some(1), false)
  }

  function MasterHeader(n: NodeName, cur: nat): Header {
    Header(n, cur, 0, [false, n == 2, n == 3], None, false)
  }

  function At(now: int): Env {
    Env(now, 500, 0, false, false, true, false, 0)
  }

  function Request(to: NodeName, from: NodeName, epoch: nat): Packet {
    Packet(to, ReplicaHeader(from, epoch), AuthRequest)
  }

  function Ack(to: NodeName, from: NodeName, epoch: nat): Packet {
    Packet(to, MasterHeader(from, epoch), AuthAck)
  }

  lemma SrvOk(n: NodeName, cur: nat, vote: nat, sent: bool, epoch: nat, count: nat, time: int)
    requires 2 <= n <= 5 && vote <= cur && epoch <= cur
    ensures var s := Srv(n, cur, vote, sent, epoch, count, time);
      && Linked(s) && Dominated(s)
      && ServesSlots(s, 1) && ServesSlots(s, 2) && ServesSlots(s, 3)
      && (n >= 4 ==> BuildHeader(s, false) == ReplicaHeader(n, cur))
      && (n <= 3 ==> BuildHeader(s, false) == MasterHeader(n, cur))
  {
    var s := Srv(n, cur, vote, sent, epoch, count, time);
    assert s.owner[0] == Some(1) && s.owner[1] == Some(2) && s.owner[2] == Some(3);
    var m := if n >= 4 then 1 else n;
    assert SlotBitmap(OWNER, m) == [m == 1, m == 2, m == 3];
  }

  function Masters(epoch: nat): set<NodeName> {
    {1, 2, 3}
  }

  ghost function Start(): System {
    System(map[2 := Srv(2, 0, 0, false, 0, 0, 0), 3 := Srv(3, 0, 0, false, 0, 0, 0),
               4 := Srv(4, 0, 0, false, 0, 0, 0), 5 := Srv(5, 0, 0, false, 0, 0, 0)], multiset{}, {}, {}, map[], {})
  }

  /** A run under way: each step is enabled and respects the electorate. */
  ghost predicate Running(run: seq<System>, events: seq<Event>) {
    && |run| == |events| + 1 && run[0] == Start()
    && forall k :: 0 <= k < |events| ==> GoodStep(run[k], events[k], run[k + 1])
  }

  ghost predicate GoodStep(g: System, e: Event, g': System) {
    Enabled(g, e) && g' == Next(g, e) && ElectorateOk(g, e, Masters)
  }

  lemma Append(run: seq<System>, events: seq<Event>, e: Event, g': System) returns (r: seq<System>, es: seq<Event>)
    requires Running(run, events) && GoodStep(Last(run), e, g')
    ensures Running(r, es) && Last(r) == g'
  {
    r, es := run + [g'], events + [e];
  }

  lemma Extend(run: seq<System>, events: seq<Event>, e: Event) returns (r: seq<System>, es: seq<Event>)
    requires Running(run, events)
    requires Enabled(Last(run), e) && ElectorateOk(Last(run), e, Masters)
    ensures Running(r, es) && Last(r) == Next(Last(run), e)
  {
    var g := Last(run);
    var g' := Next(g, e);
    assert GoodStep(g, e, g');
    r, es := Append(run, events, e, g');
  }

  lemma MasterMayVote(n: NodeName, vote: nat, c: NodeName, epoch: nat)
    requires 2 <= n <= 3 && 4 <= c <= 5 && vote < epoch
    ensures var t := Srv(n, epoch, vote, false, 0, 0, 0);
      Linked(t) && MayVote(t, ReplicaHeader(c, epoch), 0, 0)
        && CastVote(t, c, 0) == Srv(n, epoch, epoch, false, 0, 0, 0)
  {
    SrvOk(n, epoch, vote, false, 0, 0, 0);
    assert NODES[1 := NODES[1].(votedTime := 0)] == NODES;
  }

  lemma RequestSeen(n: NodeName, cur: nat, vote: nat, c: NodeName, epoch: nat)
    requires 2 <= n <= 3 && 4 <= c <= 5 && vote <= cur <= epoch
    ensures var s := Srv(n, cur, vote, false, 0, 0, 0);
      && Linked(s) && Ready(s, Request(n, c, epoch))
      && SeeHeader(s, ReplicaHeader(c, epoch)) == Srv(n, epoch, vote, false, 0, 0, 0)
  {
    SrvOk(n, cur, vote, false, 0, 0, 0);
  }

  lemma GrantHandled(s: Server, n: NodeName, cur: nat, vote: nat, c: NodeName, epoch: nat)
    requires 2 <= n <= 3 && 4 <= c <= 5 && vote <= cur <= epoch && vote < epoch
    requires s == Srv(n, cur, vote, false, 0, 0, 0)
    ensures var p := Request(n, c, epoch);
      Ready(s, p) && Grants(s, p, 0, 0) && Handle(s, p, 0, 0) == Srv(n, epoch, epoch, false, 0, 0, 0)
  {
    RequestSeen(n, cur, vote, c, epoch);
    MasterMayVote(n, vote, c, epoch);
    hide Linked, MayVote, CastVote, SeeHeader;
  }

  /** Master `n` votes for replica `c` in an epoch it has not voted in yet. */
  lemma Grant(run: seq<System>, events: seq<Event>, n: NodeName, cur: nat, vote: nat, c: NodeName, epoch: nat)
    returns (r: seq<System>, es: seq<Event>)
    requires Running(run, events)
    requires 2 <= n <= 3 && 4 <= c <= 5 && vote <= cur <= epoch && vote < epoch
    requires n in Last(run).servers && Last(run).servers[n] == Srv(n, cur, vote, false, 0, 0, 0)
    requires Request(n, c, epoch) in Last(run).net
    ensures Running(r, es)
    ensures var g := Last(run);
      Last(r) == g.(servers := g.servers[n := Srv(n, epoch, epoch, false, 0, 0, 0)],
                    net := g.net - multiset{Request(n, c, epoch)} + multiset{Ack(c, n, epoch)},
                    votes := g.votes + {Vote(n, epoch, c)})
  {
    var g := Last(run);
    GrantHandled(g.servers[n], n, cur, vote, c, epoch);
    SrvOk(n, epoch, epoch, false, 0, 0, 0);
    r, es := Extend(run, events, Deliver(Request(n, c, epoch), 0, 0));
  }

  lemma CountHandled(s: Server, n: NodeName, cur: nat, sent: bool, epoch: nat, count: nat, time: int, m: NodeName)
    requires 4 <= n <= 5 && 2 <= m <= 3 && epoch <= cur
    requires s == Srv(n, cur, 0, sent, epoch, count, time)
    ensures var p := Ack(n, m, epoch);
      Ready(s, p) && !Grants(s, p, 0, 0) && Counts(s, p)
        && Handle(s, p, 0, 0) == Srv(n, cur, 0, sent, epoch, count + 1, time)
  {
    SrvOk(n, cur, 0, sent, epoch, count, time);
    assert SeeHeader(s, MasterHeader(m, epoch)) == s;
  }

  /** Replica `n` counts the acknowledgement of master `m`, whether or not it has asked for votes. */
  lemma Count(run: seq<System>, events: seq<Event>,
              n: NodeName, cur: nat, sent: bool, epoch: nat, count: nat, time: int, m: NodeName)
    returns (r: seq<System>, es: seq<Event>)
    requires Running(run, events)
    requires 4 <= n <= 5 && 2 <= m <= 3 && epoch <= cur
    requires n in Last(run).servers && Last(run).servers[n] == Srv(n, cur, 0, sent, epoch, count, time)
    requires Ack(n, m, epoch) in Last(run).net
    ensures Running(r, es)
    ensures var g := Last(run);
      Last(r) == g.(servers := g.servers[n := Srv(n, cur, 0, sent, epoch, count + 1, time)],
                    net := g.net - multiset{Ack(n, m, epoch)},
                    counted := g.counted + {Vote(m, epoch, n)},
                    tallies := g.tallies[n := TallyOf(g.tallies, n) + {Vote(m, epoch, n)}])
  {
    CountHandled(Last(run).servers[n], n, cur, sent, epoch, count, time, m);
    r, es := Extend(run, events, Deliver(Ack(n, m, epoch), 0, 0));
  }

  lemma Reaches(n: NodeName, t: Server, epoch: nat)
    requires 4 <= n <= 5 && t.nodes == NODES && t.myself == n && Linked(t)
      && BuildHeader(t, false) == ReplicaHeader(n, epoch)
    ensures forall m :: 2 <= m <= 5 && m != n ==> Request(m, n, epoch) in Broadcast(t, false)
  {
    forall m | 2 <= m <= 5 && m != n
      ensures Request(m, n, epoch) in Broadcast(t, false)
    {
      assert m in t.nodes;
    }
  }

  lemma AskOutcome(n: NodeName, epoch: nat, last: nat, count: nat, time: int)
    requires 4 <= n <= 5 && last < epoch
    ensures var s := Srv(n, epoch - 1, 0, false, last, count, time);
      Linked(s) && HandleSlaveFailover(s, At(time)) == (Srv(n, epoch, 0, true, epoch, count, time), Requested)
  {
    SrvOk(n, epoch - 1, 0, false, last, count, time);
    hide Dominated, BuildHeader, ReplaceMaster;
  }

  lemma AskHandled(n: NodeName, epoch: nat, last: nat, count: nat, time: int)
    requires 4 <= n <= 5 && last < epoch
    ensures var s, t := Srv(n, epoch - 1, 0, false, last, count, time), Srv(n, epoch, 0, true, epoch, count, time);
      && Linked(s) && Linked(t) && HandleSlaveFailover(s, At(time)) == (t, Requested)
      && forall m :: 2 <= m <= 5 && m != n ==> Request(m, n, epoch) in Broadcast(t, false)
  {
    AskOutcome(n, epoch, last, count, time);
    SrvOk(n, epoch, 0, true, epoch, count, time);
    hide HandleSlaveFailover, BuildHeader, Dominated;
    Reaches(n, Srv(n, epoch, 0, true, epoch, count, time), epoch);
  }

  /** Replica `n` asks everybody for votes in a new epoch. */
  lemma Ask(run: seq<System>, events: seq<Event>, n: NodeName, epoch: nat, last: nat, count: nat, time: int)
    returns (r: seq<System>, es: seq<Event>)
    requires Running(run, events)
    requires 4 <= n <= 5 && last < epoch
    requires n in Last(run).servers && Last(run).servers[n] == Srv(n, epoch - 1, 0, false, last, count, time)
    ensures Running(r, es)
    ensures var g := Last(run);
      && Last(r) == g.(servers := g.servers[n := Srv(n, epoch, 0, true, epoch, count, time)], net := Last(r).net)
      && (forall p :: p in g.net ==> p in Last(r).net)
      && (forall m :: 2 <= m <= 5 && m != n ==> Request(m, n, epoch) in Last(r).net)
  {
    AskHandled(n, epoch, last, count, time);
    hide Running, Linked, HandleSlaveFailover, Broadcast, Srv;
    r, es := Extend(run, events, Tick(n, At(time)));
  }

  lemma Wins(run: seq<System>, events: seq<Event>, n: NodeName, cur: nat, time: int)
    returns (r: seq<System>, es: seq<Event>)
    requires Running(run, events)
    requires 4 <= n <= 5
    requires n in Last(run).servers && Last(run).servers[n] == Srv(n, cur, 0, true, cur, 2, time)
    ensures Running(r, es)
    ensures var g := Last(run);
      && n in Last(r).servers
      && Last(r) ==
        g.(servers := g.servers[n := Last(r).servers[n]], wins := g.wins + {Win(cur, n, TallyOf(g.tallies, n))})
  {
    SrvOk(n, cur, 0, true, cur, 2, time);
    assert HandleSlaveFailover(Last(run).servers[n], At(time)).1 == Won;
    r, es := Extend(run, events, Tick(n, At(time)));
  }

  /** The attempt of replica 4 expires: its counter is reset and a new attempt is scheduled. */
  lemma Expire(run: seq<System>, events: seq<Event>) returns (r: seq<System>, es: seq<Event>)
    requires Running(run, events)
    requires 4 in Last(run).servers && Last(run).servers[4] == Srv(4, 1, 0, true, 1, 0, 0)
    ensures Running(r, es)
    ensures var g := Last(run);
      Last(r) == g.(servers := g.servers[4 := Srv(4, 1, 0, false, 1, 0, 4501)], tallies := g.tallies[4 := {}])
  {
    SrvOk(4, 1, 0, true, 1, 0, 0);
    r, es := Extend(run, events, Tick(4, At(4001)));
  }

  /** Replica 5 learns of epoch 1 from the request of replica 4. */
  lemma Hear(run: seq<System>, events: seq<Event>) returns (r: seq<System>, es: seq<Event>)
    requires Running(run, events)
    requires 5 in Last(run).servers && Last(run).servers[5] == Srv(5, 0, 0, false, 0, 0, 0)
    requires Request(5, 4, 1) in Last(run).net
    ensures Running(r, es)
    ensures var g := Last(run);
      Last(r) == g.(servers := g.servers[5 := Srv(5, 1, 0, false, 0, 0, 0)], net := g.net - multiset{Request(5, 4, 1)})
  {
    SrvOk(5, 0, 0, false, 0, 0, 0);
    SrvOk(5, 1, 0, false, 0, 0, 0);
    assert SeeHeader(Last(run).servers[5], ReplicaHeader(4, 1)) == Srv(5, 1, 0, false, 0, 0, 0);
    r, es := Extend(run, events, Deliver(Request(5, 4, 1), 0, 0));
  }

  ghost predicate Has(g: System, n: NodeName, s: Server) {
    n in g.servers && g.servers[n] == s
  }

  /** Replica 4 asks for votes in epoch 1, which replica 5 hears of. */
  lemma FirstRequest() returns (run: seq<System>, events: seq<Event>)
    ensures Running(run, events)
    ensures var g := Last(run);
      && Has(g, 2, Srv(2, 0, 0, false, 0, 0, 0)) && Has(g, 3, Srv(3, 0, 0, false, 0, 0, 0))
      && Has(g, 4, Srv(4, 1, 0, true, 1, 0, 0)) && Has(g, 5, Srv(5, 1, 0, false, 0, 0, 0))
      && Request(2, 4, 1) in g.net && Request(3, 4, 1) in g.net && g.tallies == map[]
  {
    hide Srv, NODES, OWNER;
    run, events := [Start()], [];
    run, events := Ask(run, events, 4, 1, 0, 0, 0);
    run, events := Hear(run, events);
  }

  /** Masters 2 and 3 vote for replica 4 in epoch 1. */
  lemma FirstVotes() returns (run: seq<System>, events: seq<Event>)
    ensures Running(run, events)
    ensures var g := Last(run);
      && Has(g, 2, Srv(2, 1, 1, false, 0, 0, 0)) && Has(g, 3, Srv(3, 1, 1, false, 0, 0, 0))
      && Has(g, 4, Srv(4, 1, 0, true, 1, 0, 0)) && Has(g, 5, Srv(5, 1, 0, false, 0, 0, 0))
      && Ack(4, 2, 1) in g.net && Ack(4, 3, 1) in g.net && g.tallies == map[]
  {
    hide Running, Srv, NODES, OWNER;
    run, events := FirstRequest();
    run, events := Grant(run, events, 2, 0, 0, 4, 1);
    run, events := Grant(run, events, 3, 0, 0, 4, 1);
  }

  /** The attempt of replica 4 expires, and its counter then takes the two acknowledgements. */
  lemma LateAcks() returns (run: seq<System>, events: seq<Event>)
    ensures Running(run, events)
    ensures var g := Last(run);
      && Has(g, 2, Srv(2, 1, 1, false, 0, 0, 0)) && Has(g, 3, Srv(3, 1, 1, false, 0, 0, 0))
      && Has(g, 4, Srv(4, 1, 0, false, 1, 2, 4501)) && Has(g, 5, Srv(5, 1, 0, false, 0, 0, 0))
      && TallyOf(g.tallies, 4) == {Vote(2, 1, 4), Vote(3, 1, 4)} && 5 !in g.tallies
  {
    hide Running, Srv, NODES, OWNER;
    run, events := FirstVotes();
    run, events := Expire(run, events);
    run, events := Count(run, events, 4, 1, false, 1, 0, 4501, 2);
    run, events := Count(run, events, 4, 1, false, 1, 1, 4501, 3);
  }

  /** Replica 4 asks in epoch 2 and wins at once. */
  lemma FirstWinner() returns (run: seq<System>, events: seq<Event>)
    ensures Running(run, events)
    ensures var g := Last(run);
      && Has(g, 2, Srv(2, 1, 1, false, 0, 0, 0)) && Has(g, 3, Srv(3, 1, 1, false, 0, 0, 0))
      && Has(g, 5, Srv(5, 1, 0, false, 0, 0, 0)) && 5 !in g.tallies
      && Win(2, 4, {Vote(2, 1, 4), Vote(3, 1, 4)}) in g.wins
  {
    hide Running, Srv, NODES, OWNER;
    run, events := LateAcks();
    run, events := Ask(run, events, 4, 2, 1, 2, 4501);
    run, events := Wins(run, events, 4, 2, 4501);
  }

  lemma SecondVotes() returns (run: seq<System>, events: seq<Event>)
    ensures Running(run, events)
    ensures var g := Last(run);
      && Has(g, 5, Srv(5, 2, 0, true, 2, 0, 0)) && Ack(5, 2, 2) in g.net && Ack(5, 3, 2) in g.net
      && 5 !in g.tallies && Win(2, 4, {Vote(2, 1, 4), Vote(3, 1, 4)}) in g.wins
  {
    hide Running, Srv, NODES, OWNER;
    run, events := FirstWinner();
    run, events := Ask(run, events, 5, 2, 0, 0, 0);
    run, events := Grant(run, events, 2, 1, 1, 5, 2);
    run, events := Grant(run, events, 3, 1, 1, 5, 2);
  }

  /** Replica 5 then wins epoch 2 as well, with the votes that 2 and 3 cast in that epoch; those that
      replica 4 won with were cast in epoch 1. */
  lemma TwoWinners() returns (run: seq<System>, events: seq<Event>)
    ensures Elects(run, events, Masters)
    ensures Win(2, 4, {Vote(2, 1, 4), Vote(3, 1, 4)}) in Last(run).wins
    ensures Win(2, 5, {Vote(2, 2, 5), Vote(3, 2, 5)}) in Last(run).wins
  {
    hide Running, Elects, Srv, NODES, OWNER;
    run, events := SecondVotes();
    run, events := Count(run, events, 5, 2, true, 2, 0, 0, 2);
    run, events := Count(run, events, 5, 2, true, 2, 1, 0, 3);
    assert TallyOf(Last(run).tallies, 5) == {Vote(2, 2, 5), Vote(3, 2, 5)};
    run, events := Wins(run, events, 5, 2, 0);
    RunningElects(run, events);
  }

  lemma RunningElects(run: seq<System>, events: seq<Event>)
    requires Running(run, events)
    ensures Elects(run, events, Masters)
  {
    StartIsInit();
    hide Init, Start, Enabled, Next, ElectorateOk;
    forall k | 0 <= k < |events|
      ensures Enabled(run[k], events[k]) && run[k + 1] == Next(run[k], events[k])
        && ElectorateOk(run[k], events[k], Masters)
    {
      assert GoodStep(run[k], events[k], run[k + 1]);
    }
  }

  lemma StartIsInit()
    ensures Init(Start())
  {
    hide Linked, Dominated;
    forall n | 2 <= n <= 5
      ensures Linked(Srv(n, 0, 0, false, 0, 0, 0)) && Dominated(Srv(n, 0, 0, false, 0, 0, 0))
    {
      SrvOk(n, 0, 0, false, 0, 0, 0);
    }
  }
}
