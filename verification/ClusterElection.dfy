/** Election safety. The program promises at most one winner per epoch. That holds in every run that
    counts no late acknowledgement; and in every run, if two replicas win one epoch, a winning
    counter held a vote of an earlier epoch. */
module ClusterElection {
  import opened Cluster
  import opened ClusterEpochs
  import opened ClusterRuns

  /** The electorate of an epoch: the masters serving slots that may vote in it. */
  type Electorate = nat -> set<NodeName>

  /** Only the electorate of an epoch votes in it, and a winner's cluster size is not below
      the size of that electorate. */
  ghost predicate ElectorateOk(g: System, e: Event, electorate: Electorate)
    requires Enabled(g, e)
  {
    match e
    case Deliver(p, now, nt) =>
      Grants(g.servers[p.to], p, now, nt) ==>
        p.to in electorate(Handle(g.servers[p.to], p, now, nt).currentEpoch)
    case Tick(n, env) =>
      HandleSlaveFailover(g.servers[n], env).1 == Won ==>
        |electorate(g.servers[n].authEpoch)| <= g.servers[n].size
    case _ => true
  }

  /** No vote is counted between the reset of the counter and the next request for votes. */
  ghost predicate NoLateAck(g: System, e: Event)
    requires Enabled(g, e)
  {
    e.Deliver? && Counts(g.servers[e.p.to], e.p) ==> g.servers[e.p.to].authSent
  }

  // ----- the invariant, on the part of a system that elections use

  datatype Ballot = Ballot(lastVote: nat, sent: bool, epoch: nat, count: nat)

  datatype Poll = Poll(
    ballots: map<NodeName, Ballot>, net: multiset<Packet>,
    votes: set<Vote>, counted: set<Vote>, tallies: Tallies, wins: set<Win>)

  function BallotOf(s: Server): Ballot {
    Ballot(s.lastVoteEpoch, s.authSent, s.authEpoch, s.authCount)
  }

  ghost function PollOf(g: System): Poll {
    Poll(map n | n in g.servers :: BallotOf(g.servers[n]), g.net, g.votes, g.counted, g.tallies, g.wins)
  }

  ghost predicate RequestsOk(g: Poll) {
    forall p :: p in g.net && p.body.AuthRequest? ==>
      p.hdr.sender in g.ballots && p.hdr.currentEpoch <= g.ballots[p.hdr.sender].epoch
  }

  ghost predicate VotesOk(g: Poll, electorate: Electorate) {
    && (forall v :: v in g.votes ==>
          && v.voter in g.ballots && v.candidate in g.ballots
          && v.epoch <= g.ballots[v.voter].lastVote
          && v.epoch <= g.ballots[v.candidate].epoch
          && v.voter in electorate(v.epoch))
    && g.counted <= g.votes
  }

  /** One vote per voter and epoch. */
  ghost predicate OneVote(votes: set<Vote>) {
    forall v, w :: v in votes && w in votes && v.voter == w.voter && v.epoch == w.epoch ==> v == w
  }

  function AckVote(p: Packet): Vote {
    Vote(p.hdr.sender, p.hdr.currentEpoch, p.to)
  }

  /** Each acknowledgement in flight stands for one vote not yet counted. */
  ghost predicate AcksOk(net: multiset<Packet>, votes: set<Vote>, counted: set<Vote>) {
    && (forall p :: p in net && p.body.AuthAck? ==>
          net[p] == 1 && AckVote(p) in votes && AckVote(p) !in counted)
    && (forall p, q :: p in net && q in net && p.body.AuthAck? && q.body.AuthAck? && AckVote(p) == AckVote(q) ==>
          p == q)
  }

  /** The counter of a candidate is the number of votes in its tally, each of them cast for it in
      its current epoch or an earlier one and counted once. */
  ghost predicate CandidateOk(n: NodeName, b: Ballot, tally: set<Vote>, counted: set<Vote>) {
    && b.count == |tally| && tally <= counted
    && forall v :: v in tally ==> v.candidate == n && v.epoch <= b.epoch
  }

  ghost predicate CountsOk(g: Poll) {
    forall n :: n in g.ballots ==> CandidateOk(n, g.ballots[n], TallyOf(g.tallies, n), g.counted)
  }

  /** A win has behind it more votes than half of the electorate, all cast for the winner. */
  ghost predicate WinOk(w: Win, votes: set<Vote>, electorate: Electorate) {
    && 2 * |w.tally| > |electorate(w.epoch)| && w.tally <= votes
    && forall v :: v in w.tally ==> v.candidate == w.winner && v.epoch <= w.epoch
  }

  ghost predicate WinsOk(g: Poll, electorate: Electorate) {
    forall w :: w in g.wins ==> WinOk(w, g.votes, electorate)
  }

  ghost predicate PollOk(g: Poll, electorate: Electorate) {
    && RequestsOk(g) && VotesOk(g, electorate) && OneVote(g.votes)
    && AcksOk(g.net, g.votes, g.counted) && CountsOk(g) && WinsOk(g, electorate)
  }

  ghost predicate AllOf(tally: set<Vote>, epoch: nat) {
    forall v :: v in tally ==> v.epoch == epoch
  }

  /** A counter holds votes of the attempt it is used for. */
  ghost predicate OnTime(b: Ballot, tally: set<Vote>) {
    if b.sent then AllOf(tally, b.epoch) else tally == {}
  }

  /** Every counter holds votes of the current attempt only, and so did every counter that won. */
  ghost predicate Punctual(g: Poll) {
    && (forall n :: n in g.ballots ==> OnTime(g.ballots[n], TallyOf(g.tallies, n)))
    && forall w :: w in g.wins ==> AllOf(w.tally, w.epoch)
  }

  ghost predicate SafeServers(g: System) {
    ServersLinked(g) && ServersDominated(g) && NetOk(g)
  }

  ghost predicate Inv(g: System, electorate: Electorate) {
    SafeServers(g) && PollOk(PollOf(g), electorate)
  }

  // ----- counting

  lemma SubsetSize<T>(a: set<T>, b: set<T>)
    requires a <= b
    ensures |a| <= |b|
  {
    assert b == a + (b - a);
  }

  lemma MajoritiesMeet(a: set<NodeName>, b: set<NodeName>, all: set<NodeName>)
    requires a <= all && b <= all && 2 * |a| > |all| && 2 * |b| > |all|
    ensures a * b != {}
  {
    SubsetSize(a + b, all);
    assert |a + b| + |a * b| == |a| + |b|;
  }

  ghost function Voters(tally: set<Vote>): set<NodeName> {
    set v | v in tally :: v.voter
  }

  /** Votes for one candidate in one epoch come from as many voters. */
  lemma {:induction false} VotersCount(tally: set<Vote>, epoch: nat, candidate: NodeName)
    requires forall v :: v in tally ==> v.candidate == candidate && v.epoch == epoch
    ensures |Voters(tally)| == |tally|
  {
    if tally != {} {
      var v :| v in tally;
      VotersCount(tally - {v}, epoch, candidate);
      assert v.voter !in Voters(tally - {v}) by {
        assert v == Vote(v.voter, epoch, candidate);
      }
      assert Voters(tally) == Voters(tally - {v}) + {v.voter};
    }
  }

  /** Two winners of one epoch whose votes are all of that epoch share a voter, who voted once. */
  lemma OneWinner(g: Poll, electorate: Electorate, w1: Win, w2: Win)
    requires PollOk(g, electorate) && w1 in g.wins && w2 in g.wins && w1.epoch == w2.epoch
    requires AllOf(w1.tally, w1.epoch) && AllOf(w2.tally, w2.epoch)
    ensures w1.winner == w2.winner
  {
    assert WinOk(w1, g.votes, electorate) && WinOk(w2, g.votes, electorate);
    VotersCount(w1.tally, w1.epoch, w1.winner);
    VotersCount(w2.tally, w2.epoch, w2.winner);
    MajoritiesMeet(Voters(w1.tally), Voters(w2.tally), electorate(w1.epoch));
    var voter :| voter in Voters(w1.tally) * Voters(w2.tally);
    var v1 :| v1 in w1.tally && v1.voter == voter;
    var v2 :| v2 in w2.tally && v2.voter == voter;
    assert v1 == v2;
  }

  // ----- steps

  /** Changes that neither grant nor count a vote, nor move an election forward. */
  lemma QuietPreserves(g: Poll, g': Poll, electorate: Electorate)
    requires PollOk(g, electorate)
    requires g' == g.(net := g'.net)
    requires forall p :: p in g'.net && (p.body.AuthAck? || p.body.AuthRequest?) ==> p in g.net && g'.net[p] <= g.net[p]
    ensures PollOk(g', electorate)
    ensures Punctual(g) ==> Punctual(g')
  {
  }

  lemma GrantKeepsAcks(g: Poll, p: Packet, ack: Packet)
    requires AcksOk(g.net, g.votes, g.counted) && g.counted <= g.votes && p.body.AuthRequest?
    requires ack.body.AuthAck? && AckVote(ack) !in g.votes
    ensures AcksOk(g.net - multiset{p} + multiset{ack}, g.votes + {AckVote(ack)}, g.counted)
  {
    assert ack !in g.net;
  }

  /** The poll after `ack` was sent for the vote that `p` asked for. */
  ghost function Granted(g: Poll, p: Packet, ack: Packet): Poll
    requires p.to in g.ballots
  {
    g.(ballots := g.ballots[p.to := g.ballots[p.to].(lastVote := p.hdr.currentEpoch)],
       net := g.net - multiset{p} + multiset{ack}, votes := g.votes + {AckVote(ack)})
  }

  ghost predicate IsVoteFor(g: Poll, p: Packet, ack: Packet, electorate: Electorate) {
    && p in g.net && p.body.AuthRequest? && p.to in g.ballots
    && ack.body.AuthAck? && AckVote(ack) == Vote(p.to, p.hdr.currentEpoch, p.hdr.sender)
    && p.to in electorate(p.hdr.currentEpoch)
    && g.ballots[p.to].lastVote < p.hdr.currentEpoch
  }

  lemma GrantKeepsVotes(g: Poll, p: Packet, ack: Packet, electorate: Electorate)
    requires RequestsOk(g) && VotesOk(g, electorate) && OneVote(g.votes) && IsVoteFor(g, p, ack, electorate)
    ensures AckVote(ack) !in g.votes
    ensures var g' := Granted(g, p, ack); RequestsOk(g') && VotesOk(g', electorate) && OneVote(g'.votes)
  {
  }

  lemma GrantKeepsCounts(g: Poll, p: Packet, ack: Packet)
    requires CountsOk(g) && p.to in g.ballots
    ensures CountsOk(Granted(g, p, ack))
    ensures Punctual(g) ==> Punctual(Granted(g, p, ack))
  {
    var g' := Granted(g, p, ack);
    forall n | n in g'.ballots
      ensures CandidateOk(n, g'.ballots[n], TallyOf(g'.tallies, n), g'.counted)
    {
      assert CandidateOk(n, g.ballots[n], TallyOf(g.tallies, n), g.counted);
    }
  }

  lemma GrantPreserves(g: Poll, p: Packet, ack: Packet, electorate: Electorate)
    requires PollOk(g, electorate) && IsVoteFor(g, p, ack, electorate)
    ensures PollOk(Granted(g, p, ack), electorate)
    ensures Punctual(g) ==> Punctual(Granted(g, p, ack))
  {
    hide AcksOk, CountsOk, CandidateOk, OneVote, RequestsOk, Punctual;
    GrantKeepsVotes(g, p, ack, electorate);
    GrantKeepsAcks(g, p, ack);
    GrantKeepsCounts(g, p, ack);
    hide VotesOk;
  }

  /** The poll after candidate `p.to` counted acknowledgement `p`. */
  ghost function Counted(g: Poll, p: Packet): Poll
    requires p.to in g.ballots
  {
    g.(ballots := g.ballots[p.to := g.ballots[p.to].(count := g.ballots[p.to].count + 1)],
       net := g.net - multiset{p}, counted := g.counted + {AckVote(p)},
       tallies := g.tallies[p.to := TallyOf(g.tallies, p.to) + {AckVote(p)}])
  }

  /** The vote behind an acknowledgement that may be counted is of the candidate's epoch. */
  lemma AckIsCurrent(g: Poll, p: Packet, electorate: Electorate)
    requires VotesOk(g, electorate) && AcksOk(g.net, g.votes, g.counted)
    requires p in g.net && p.body.AuthAck? && p.to in g.ballots && p.hdr.currentEpoch >= g.ballots[p.to].epoch
    ensures AckVote(p) in g.votes && AckVote(p) !in g.counted && AckVote(p).epoch == g.ballots[p.to].epoch
  {
  }

  lemma CountKeepsAcks(g: Poll, p: Packet)
    requires AcksOk(g.net, g.votes, g.counted) && p in g.net && p.body.AuthAck?
    ensures AcksOk(g.net - multiset{p}, g.votes, g.counted + {AckVote(p)})
  {
  }

  lemma CountKeepsVotes(g: Poll, p: Packet, electorate: Electorate)
    requires RequestsOk(g) && VotesOk(g, electorate) && WinsOk(g, electorate) && p.to in g.ballots
    requires AckVote(p) in g.votes
    ensures var g' := Counted(g, p); RequestsOk(g') && VotesOk(g', electorate) && WinsOk(g', electorate)
  {
    hide WinOk;
  }

  lemma CountKeepsCandidate(n: NodeName, b: Ballot, tally: set<Vote>, counted: set<Vote>, v: Vote)
    requires CandidateOk(n, b, tally, counted) && v !in counted && v.epoch <= b.epoch && v.candidate == n
    ensures CandidateOk(n, b.(count := b.count + 1), tally + {v}, counted + {v})
  {
  }

  lemma CountKeepsCounts(g: Poll, p: Packet)
    requires CountsOk(g) && p.to in g.ballots
    requires AckVote(p) !in g.counted && AckVote(p).epoch <= g.ballots[p.to].epoch
    ensures CountsOk(Counted(g, p))
  {
    var g' := Counted(g, p);
    forall n | n in g'.ballots
      ensures CandidateOk(n, g'.ballots[n], TallyOf(g'.tallies, n), g'.counted)
    {
      assert CandidateOk(n, g.ballots[n], TallyOf(g.tallies, n), g.counted);
      if n == p.to { CountKeepsCandidate(n, g.ballots[n], TallyOf(g.tallies, n), g.counted, AckVote(p)); }
    }
  }

  /** Counting an acknowledgement adds one new vote to the tally. */
  lemma CountPreserves(g: Poll, p: Packet, electorate: Electorate)
    requires PollOk(g, electorate)
    requires p in g.net && p.body.AuthAck? && p.to in g.ballots && p.hdr.currentEpoch >= g.ballots[p.to].epoch
    ensures PollOk(Counted(g, p), electorate)
  {
    hide AcksOk, CountsOk, OneVote, WinsOk, RequestsOk, VotesOk;
    AckIsCurrent(g, p, electorate);
    CountKeepsAcks(g, p);
    CountKeepsCounts(g, p);
    CountKeepsVotes(g, p, electorate);
  }

  lemma CountIsOnTime(b: Ballot, tally: set<Vote>, v: Vote)
    requires OnTime(b, tally) && v.epoch == b.epoch
    ensures OnTime(b.(count := b.count + 1), tally + {v}) <==> b.sent
  {
    assert v in tally + {v};
  }

  /** Only an acknowledgement counted while no votes are asked for is out of place. */
  lemma CountKeepsPunctual(g: Poll, p: Packet, electorate: Electorate)
    requires PollOk(g, electorate) && Punctual(g)
    requires p in g.net && p.body.AuthAck? && p.to in g.ballots && p.hdr.currentEpoch >= g.ballots[p.to].epoch
    ensures Punctual(Counted(g, p)) <==> g.ballots[p.to].sent
  {
    hide AcksOk, VotesOk;
    AckIsCurrent(g, p, electorate);
    hide PollOk, OnTime;
    CountIsOnTime(g.ballots[p.to], TallyOf(g.tallies, p.to), AckVote(p));
    assert TallyOf(Counted(g, p).tallies, p.to) == TallyOf(g.tallies, p.to) + {AckVote(p)};
    assert forall n :: n in g.ballots && n != p.to ==> TallyOf(Counted(g, p).tallies, n) == TallyOf(g.tallies, n);
  }

  /** A candidate resets its counter for a new attempt. */
  lemma ResetPreserves(g: Poll, g': Poll, n: NodeName, electorate: Electorate)
    requires PollOk(g, electorate) && n in g.ballots
    requires g' ==
      g.(ballots := g.ballots[n := g.ballots[n].(sent := false, count := 0)], tallies := g.tallies[n := {}])
    ensures PollOk(g', electorate)
    ensures Punctual(g) ==> Punctual(g')
  {
    forall m | m in g'.ballots
      ensures CandidateOk(m, g'.ballots[m], TallyOf(g'.tallies, m), g'.counted)
    {
      assert CandidateOk(m, g.ballots[m], TallyOf(g.tallies, m), g.counted);
    }
  }

  /** A candidate asks for votes in a new epoch; its counter keeps what it holds. */
  lemma RequestPreserves(g: Poll, g': Poll, n: NodeName, epoch: nat, sent: multiset<Packet>, electorate: Electorate)
    requires PollOk(g, electorate) && n in g.ballots && g.ballots[n].epoch <= epoch && !g.ballots[n].sent
    requires forall p :: p in sent ==> p.body.AuthRequest? && p.hdr.sender == n && p.hdr.currentEpoch <= epoch
    requires g' == g.(ballots := g.ballots[n := g.ballots[n].(sent := true, epoch := epoch)], net := g.net + sent)
    ensures PollOk(g', electorate)
    ensures Punctual(g) ==> Punctual(g')
  {
    forall m | m in g'.ballots
      ensures CandidateOk(m, g'.ballots[m], TallyOf(g'.tallies, m), g'.counted)
    {
      assert CandidateOk(m, g.ballots[m], TallyOf(g.tallies, m), g.counted);
    }
  }

  /** A quorum of counted votes is a majority of the electorate. */
  lemma WinPreserves(g: Poll, g': Poll, n: NodeName, size: nat, electorate: Electorate)
    requires PollOk(g, electorate) && n in g.ballots && g.ballots[n].sent
    requires 2 * g.ballots[n].count > size >= |electorate(g.ballots[n].epoch)|
    requires g' == g.(wins := g.wins + {Win(g.ballots[n].epoch, n, TallyOf(g.tallies, n))})
    ensures PollOk(g', electorate)
    ensures Punctual(g) ==> Punctual(g')
  {
    assert CandidateOk(n, g.ballots[n], TallyOf(g.tallies, n), g.counted);
  }

  // ----- from handlers to polls

  lemma StepIsSafe(g: System, e: Event)
    requires SafeServers(g) && Enabled(g, e)
    ensures SafeServers(Next(g, e))
  {
    StepKeepsServers(g, e);
    StepKeepsNet(g, e);
  }

  /** The effect of a granted vote on the voter and on the wire. */
  lemma GrantEffect(s: Server, p: Packet, now: int, nt: nat)
    requires Ready(s, p) && Dominated(s) && PacketOk(p) && Grants(s, p, now, nt)
    ensures var t := Handle(s, p, now, nt);
      && t.currentEpoch == p.hdr.currentEpoch > s.lastVoteEpoch
      && BallotOf(t) == BallotOf(s).(lastVote := p.hdr.currentEpoch)
      && Linked(t) && BuildHeader(t, false).sender == p.to && BuildHeader(t, false).currentEpoch == t.currentEpoch
  {
    SeeHeaderKeeps(s, p.hdr);
    VoteKeeps(SeeHeader(s, p.hdr), p.hdr, now, nt);
  }

  ghost predicate PunctualIn(g: System) {
    Punctual(PollOf(g))
  }

  lemma ServerGrants(g: System, p: Packet, t: Server, ack: Packet, electorate: Electorate)
    requires PollOk(PollOf(g), electorate) && p in g.net && p.body.AuthRequest? && p.to in g.servers
    requires ack.body.AuthAck? && AckVote(ack) == Vote(p.to, p.hdr.currentEpoch, p.hdr.sender)
    requires p.to in electorate(p.hdr.currentEpoch) && g.servers[p.to].lastVoteEpoch < p.hdr.currentEpoch
    requires BallotOf(t) == BallotOf(g.servers[p.to]).(lastVote := p.hdr.currentEpoch)
    ensures var g' := g.(servers := g.servers[p.to := t], net := g.net - multiset{p} + multiset{ack},
                         votes := g.votes + {AckVote(ack)});
      PollOk(PollOf(g'), electorate) && (PunctualIn(g) ==> PunctualIn(g'))
  {
    hide PollOk, Punctual;
    var g' := g.(servers := g.servers[p.to := t], net := g.net - multiset{p} + multiset{ack},
                 votes := g.votes + {AckVote(ack)});
    assert PollOf(g') == Granted(PollOf(g), p, ack);
    GrantPreserves(PollOf(g), p, ack, electorate);
  }

  lemma GrantStep(g: System, e: Event, electorate: Electorate)
    requires Inv(g, electorate) && Enabled(g, e) && ElectorateOk(g, e, electorate)
    requires e.Deliver? && Grants(g.servers[e.p.to], e.p, e.now, e.nodeTimeout)
    ensures PollOk(PollOf(Next(g, e)), electorate)
    ensures PunctualIn(g) ==> PunctualIn(Next(g, e))
  {
    var p := e.p;
    GrantEffect(g.servers[p.to], p, e.now, e.nodeTimeout);
    var t := Handle(g.servers[p.to], p, e.now, e.nodeTimeout);
    hide Handle, Linked, PollOk, PollOf, BuildHeader, PunctualIn;
    ServerGrants(g, p, t, Packet(p.hdr.sender, BuildHeader(t, false), AuthAck), electorate);
  }

  lemma CountEffect(s: Server, p: Packet, now: int, nt: nat)
    requires Ready(s, p) && Counts(s, p)
    ensures BallotOf(Handle(s, p, now, nt)) == BallotOf(s).(count := s.authCount + 1)
    ensures p.hdr.currentEpoch >= s.authEpoch
  {
  }

  lemma ServerCounts(g: System, p: Packet, t: Server, electorate: Electorate)
    requires PollOk(PollOf(g), electorate) && p in g.net && p.body.AuthAck? && p.to in g.servers
    requires var s := g.servers[p.to];
      p.hdr.currentEpoch >= s.authEpoch && BallotOf(t) == BallotOf(s).(count := s.authCount + 1)
    ensures var g' := g.(servers := g.servers[p.to := t], net := g.net - multiset{p},
                         counted := g.counted + {AckVote(p)},
                         tallies := g.tallies[p.to := TallyOf(g.tallies, p.to) + {AckVote(p)}]);
      PollOk(PollOf(g'), electorate) && (PunctualIn(g) ==> (PunctualIn(g') <==> g.servers[p.to].authSent))
  {
    hide PollOk, Punctual;
    var g' := g.(servers := g.servers[p.to := t], net := g.net - multiset{p}, counted := g.counted + {AckVote(p)},
                 tallies := g.tallies[p.to := TallyOf(g.tallies, p.to) + {AckVote(p)}]);
    assert PollOf(g') == Counted(PollOf(g), p);
    CountPreserves(PollOf(g), p, electorate);
    if PunctualIn(g) { CountKeepsPunctual(PollOf(g), p, electorate); }
  }

  lemma CountStep(g: System, e: Event, electorate: Electorate)
    requires Inv(g, electorate) && Enabled(g, e)
    requires e.Deliver? && Counts(g.servers[e.p.to], e.p)
    ensures PollOk(PollOf(Next(g, e)), electorate)
    ensures PunctualIn(g) ==> (PunctualIn(Next(g, e)) <==> NoLateAck(g, e))
  {
    hide Linked, PollOk, PollOf, PunctualIn;
    CountEffect(g.servers[e.p.to], e.p, e.now, e.nodeTimeout);
    assert !Grants(g.servers[e.p.to], e.p, e.now, e.nodeTimeout);
    hide Handle, Ready, Counts;
    ServerCounts(g, e.p, Handle(g.servers[e.p.to], e.p, e.now, e.nodeTimeout), electorate);
  }

  /** What the failover handler does to the election fields, by outcome. */
  lemma FailoverOutcome(s: Server, e: Env)
    requires Linked(s)
    ensures var (t, o) := HandleSlaveFailover(s, e);
      && (o.Idle? || o.Waiting? ==> BallotOf(t) == BallotOf(s))
      && (o.Scheduled? ==> BallotOf(t) == BallotOf(s).(sent := false, count := 0))
      && (o.Requested? ==> !s.authSent && t.currentEpoch == s.currentEpoch + 1
                           && BallotOf(t) == BallotOf(s).(sent := true, epoch := t.currentEpoch))
      && (o.Won? ==> BallotOf(t) == BallotOf(s) && s.authSent && 2 * s.authCount > s.size)
  {
  }

  lemma BroadcastShape(s: Server, force: bool)
    requires Linked(s)
    ensures forall p :: p in Broadcast(s, force) ==>
      p.body.AuthRequest? && p.hdr.sender == s.myself && p.hdr.currentEpoch == s.currentEpoch
  {
  }

  /** A server changes without touching its election fields or the election packets. */
  lemma ServerIsQuiet(g: System, n: NodeName, t: Server, net: multiset<Packet>, electorate: Electorate)
    requires PollOk(PollOf(g), electorate) && n in g.servers && BallotOf(t) == BallotOf(g.servers[n])
    requires forall p :: p in net && (p.body.AuthAck? || p.body.AuthRequest?) ==> p in g.net && net[p] <= g.net[p]
    ensures var g' := g.(servers := g.servers[n := t], net := net);
      PollOk(PollOf(g'), electorate) && (PunctualIn(g) ==> PunctualIn(g'))
  {
    hide PollOk, Punctual;
    QuietPreserves(PollOf(g), PollOf(g.(servers := g.servers[n := t], net := net)), electorate);
  }

  lemma ServerResets(g: System, n: NodeName, t: Server, electorate: Electorate)
    requires PollOk(PollOf(g), electorate) && n in g.servers
    requires BallotOf(t) == BallotOf(g.servers[n]).(sent := false, count := 0)
    ensures var g' := g.(servers := g.servers[n := t], tallies := g.tallies[n := {}]);
      PollOk(PollOf(g'), electorate) && (PunctualIn(g) ==> PunctualIn(g'))
  {
    hide PollOk, Punctual;
    ResetPreserves(PollOf(g), PollOf(g.(servers := g.servers[n := t], tallies := g.tallies[n := {}])), n, electorate);
  }

  lemma ServerRequests(g: System, n: NodeName, t: Server, sent: multiset<Packet>, electorate: Electorate)
    requires PollOk(PollOf(g), electorate) && n in g.servers
    requires var s := g.servers[n];
      !s.authSent && s.authEpoch <= t.authEpoch && BallotOf(t) == BallotOf(s).(sent := true, epoch := t.authEpoch)
    requires forall p :: p in sent ==> p.body.AuthRequest? && p.hdr.sender == n && p.hdr.currentEpoch <= t.authEpoch
    ensures var g' := g.(servers := g.servers[n := t], net := g.net + sent);
      PollOk(PollOf(g'), electorate) && (PunctualIn(g) ==> PunctualIn(g'))
  {
    hide PollOk, Punctual;
    var g' := g.(servers := g.servers[n := t], net := g.net + sent);
    RequestPreserves(PollOf(g), PollOf(g'), n, t.authEpoch, sent, electorate);
  }

  lemma ServerWins(g: System, n: NodeName, t: Server, electorate: Electorate)
    requires PollOk(PollOf(g), electorate) && n in g.servers && BallotOf(t) == BallotOf(g.servers[n])
    requires g.servers[n].authSent
    requires 2 * g.servers[n].authCount > g.servers[n].size >= |electorate(g.servers[n].authEpoch)|
    ensures var g' := g.(servers := g.servers[n := t],
                         wins := g.wins + {Win(g.servers[n].authEpoch, n, TallyOf(g.tallies, n))});
      PollOk(PollOf(g'), electorate) && (PunctualIn(g) ==> PunctualIn(g'))
  {
    hide PollOk, Punctual;
    var g' := g.(servers := g.servers[n := t],
                 wins := g.wins + {Win(g.servers[n].authEpoch, n, TallyOf(g.tallies, n))});
    WinPreserves(PollOf(g), PollOf(g'), n, g.servers[n].size, electorate);
  }

  lemma TickStep(g: System, e: Event, electorate: Electorate)
    requires Inv(g, electorate) && Enabled(g, e) && ElectorateOk(g, e, electorate) && e.Tick?
    ensures PollOk(PollOf(Next(g, e)), electorate)
    ensures PunctualIn(g) ==> PunctualIn(Next(g, e))
  {
    var s := g.servers[e.n];
    var (t, o) := HandleSlaveFailover(s, e.env);
    FailoverOutcome(s, e.env);
    FailoverKeeps(s, e.env);
    hide PollOk, PunctualIn, PollOf, HandleSlaveFailover;
    match o
    case Won => ServerWins(g, e.n, t, electorate);
    case Scheduled => ServerResets(g, e.n, t, electorate);
    case Requested =>
      BroadcastShape(t, e.env.mfEnd);
      ServerRequests(g, e.n, t, Broadcast(t, e.env.mfEnd), electorate);
    case _ => ServerIsQuiet(g, e.n, t, g.net, electorate);
  }

  /** Losing a packet or sending one that is not part of an election. */
  lemma WireStep(g: System, e: Event, electorate: Electorate)
    requires PollOk(PollOf(g), electorate) && Enabled(g, e) && (e.Lose? || e.Send?)
    ensures PollOk(PollOf(Next(g, e)), electorate)
    ensures PunctualIn(g) ==> PunctualIn(Next(g, e))
  {
    hide PollOk, Punctual, Linked, BuildHeader;
    QuietPreserves(PollOf(g), PollOf(Next(g, e)), electorate);
  }

  /** Every other event leaves the election fields and the election packets alone. */
  lemma OtherStep(g: System, e: Event, electorate: Electorate)
    requires Inv(g, electorate) && Enabled(g, e) && !e.Tick?
    requires e.Deliver? ==> !Grants(g.servers[e.p.to], e.p, e.now, e.nodeTimeout) && !Counts(g.servers[e.p.to], e.p)
    ensures PollOk(PollOf(Next(g, e)), electorate)
    ensures PunctualIn(g) ==> PunctualIn(Next(g, e))
  {
    hide PollOk, Punctual, PunctualIn, Handle, RunAdmin, Linked, Dominated, BuildHeader, TalkBody;
    if e.Deliver? {
      HandleKeeps(g.servers[e.p.to], e.p, e.now, e.nodeTimeout);
      ServerIsQuiet(g, e.p.to, Handle(g.servers[e.p.to], e.p, e.now, e.nodeTimeout), g.net - multiset{e.p}, electorate);
    } else if e.Local? {
      AdminKeeps(g.servers[e.n], e.admin);
      ServerIsQuiet(g, e.n, RunAdmin(g.servers[e.n], e.admin), g.net, electorate);
    } else {
      WireStep(g, e, electorate);
    }
  }

  /** Every event keeps the invariant, late acknowledgements included; exactly the late ones make a
      counter hold a vote that is not of the attempt it is used for. */
  lemma StepKeepsInv(g: System, e: Event, electorate: Electorate)
    requires Inv(g, electorate) && Enabled(g, e) && ElectorateOk(g, e, electorate)
    ensures Inv(Next(g, e), electorate)
    ensures PunctualIn(g) ==> (PunctualIn(Next(g, e)) <==> NoLateAck(g, e))
  {
    StepIsSafe(g, e);
    if e.Tick? {
      TickStep(g, e, electorate);
    } else if e.Deliver? && Grants(g.servers[e.p.to], e.p, e.now, e.nodeTimeout) {
      GrantStep(g, e, electorate);
    } else if e.Deliver? && Counts(g.servers[e.p.to], e.p) {
      CountStep(g, e, electorate);
    } else {
      OtherStep(g, e, electorate);
    }
  }

  ghost predicate Elects(run: seq<System>, events: seq<Event>, electorate: Electorate) {
    && IsRun(run, events) && Init(run[0])
    && forall k :: 0 <= k < |events| ==> ElectorateOk(run[k], events[k], electorate)
  }

  lemma StartIsSafe(g: System, electorate: Electorate)
    requires Init(g)
    ensures Inv(g, electorate) && PunctualIn(g)
  {
  }

  lemma {:induction false} RunKeepsInv(run: seq<System>, events: seq<Event>, electorate: Electorate, i: nat)
    requires Elects(run, events, electorate) && i < |run|
    ensures Inv(run[i], electorate)
    ensures (forall k :: 0 <= k < i ==> NoLateAck(run[k], events[k])) ==> PunctualIn(run[i])
  {
    hide Inv, PunctualIn, NoLateAck, Init, ElectorateOk, Enabled, Next;
    if i == 0 {
      StartIsSafe(run[0], electorate);
    } else {
      RunKeepsInv(run, events, electorate, i - 1);
      StepKeepsInv(run[i - 1], events[i - 1], electorate);
    }
  }

  /** In every run: if two replicas win one epoch, one of them had counted towards that win a vote
      of an earlier epoch. */
  lemma TwoWinnersNeedLateAck(run: seq<System>, events: seq<Event>, electorate: Electorate, i: nat, w1: Win, w2: Win)
    requires Elects(run, events, electorate) && i < |run|
    requires w1 in run[i].wins && w2 in run[i].wins && w1.epoch == w2.epoch && w1.winner != w2.winner
    ensures exists v :: v in w1.tally + w2.tally && v in run[i].votes && v.epoch < w1.epoch
  {
    hide Elects, SafeServers, RequestsOk, VotesOk, AcksOk, CountsOk, OneVote;
    RunKeepsInv(run, events, electorate, i);
    assert WinOk(w1, run[i].votes, electorate) && WinOk(w2, run[i].votes, electorate);
    if AllOf(w1.tally, w1.epoch) && AllOf(w2.tally, w2.epoch) {
      OneWinner(PollOf(run[i]), electorate, w1, w2);
    }
  }

  /** Election safety over every run that counts no late acknowledgement. */
  lemma ElectionSafety(run: seq<System>, events: seq<Event>, electorate: Electorate, i: nat, w1: Win, w2: Win)
    requires Elects(run, events, electorate) && i < |run|
    requires forall k :: 0 <= k < |events| ==> NoLateAck(run[k], events[k])
    requires w1 in run[i].wins && w2 in run[i].wins && w1.epoch == w2.epoch
    ensures w1.winner == w2.winner
  {
    RunKeepsInv(run, events, electorate, i);
    OneWinner(PollOf(run[i]), electorate, w1, w2);
  }
}
