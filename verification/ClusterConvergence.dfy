/** Slot configuration converges: claims of distinct masters under distinct epochs lead to the
    same owner table in every delivery order. */
module ClusterConvergence {
  import opened Common
  import opened Cluster
  import opened ClusterEpochs

  datatype Claim = Claim(node: NodeName, epoch: nat, slots: Bitmap)

  ghost predicate Ready(s: Server, c: Claim) {
    && Linked(s) && OwnsAsMaster(s)
    && |c.slots| == |s.owner|
    && c.node in s.nodes && c.node != s.myself
    && s.nodes[c.node].configEpoch < c.epoch
  }

  lemma ReadyIsEnabled(s: Server, c: Claim)
    requires Ready(s, c)
    ensures UpdateEnabled(s, c.node, c.epoch, c.slots)
  {
    AdoptKeeps(s, c.node, c.epoch);
    ClaimIsSafe(Adopt(s, c.node, c.epoch), c.node, c.epoch, c.slots);
  }

  ghost function Hear(s: Server, c: Claim): Server
    requires Ready(s, c)
  {
    ReadyIsEnabled(s, c);
    HandleUpdate(s, c.node, c.epoch, c.slots)
  }

  /** The claims a set of masters may announce to server `s`: none is stale, none is about a
      slot being imported, nodes and epochs are distinct, and each master claims at least the
      slots already recorded for it. */
  ghost predicate Announced(s: Server, cs: seq<Claim>) {
    && Linked(s) && OwnsAsMaster(s)
    && (forall j :: 0 <= j < |s.importing| ==> s.importing[j].None?)
    && (forall c :: c in cs ==> Ready(s, c) && Covers(s, c))
    && (forall i, k :: 0 <= i < k < |cs| ==> cs[i].node != cs[k].node && cs[i].epoch != cs[k].epoch)
  }

  ghost function Claims(cs: seq<Claim>): set<Claim> {
    set c | c in cs
  }

  predicate Covers(s: Server, c: Claim)
    requires |c.slots| == |s.owner|
  {
    forall j :: 0 <= j < |s.owner| && s.owner[j] == Some(c.node) ==> c.slots[j]
  }

  // ----- one claim

  /** What a claim does once its epoch is recorded, whether or not the server then follows it. */
  lemma FollowsClaim(a: Server, c: Claim)
    requires Fits(a, c.slots) && a.myself in a.nodes && c.node != a.myself
    requires !Aborts(a, c.node, c.epoch, c.slots)
    requires forall j :: 0 <= j < |a.importing| ==> a.importing[j].None?
    ensures var t := UpdateSlots(a, c.node, c.epoch, c.slots);
      && t.owner == Rebound(a, c.node, c.epoch, c.slots) && t.nodes.Keys == a.nodes.Keys
      && (forall n :: n in a.nodes ==> t.nodes[n].configEpoch == a.nodes[n].configEpoch)
      && forall j :: 0 <= j < |t.importing| ==> t.importing[j].None?
  {
  }

  lemma HearEffect(s: Server, c: Claim)
    requires Ready(s, c) && forall j :: 0 <= j < |s.importing| ==> s.importing[j].None?
    ensures var t := Hear(s, c);
      && Linked(t) && OwnsAsMaster(t) && t.myself == s.myself && t.nodes.Keys == s.nodes.Keys
      && |t.owner| == |s.owner| && (forall j :: 0 <= j < |t.importing| ==> t.importing[j].None?)
      && (forall n :: n in s.nodes ==>
            t.nodes[n].configEpoch == if n == c.node then c.epoch else s.nodes[n].configEpoch)
      && forall j :: 0 <= j < |s.owner| ==>
           t.owner[j] == if c.slots[j] && (s.owner[j].None? || s.nodes[s.owner[j].value].configEpoch < c.epoch)
                         then Some(c.node) else s.owner[j]
  {
    ReadyIsEnabled(s, c);
    UpdateKeeps(s, c.node, c.epoch, c.slots);
    var a := Adopt(s, c.node, c.epoch);
    AdoptKeeps(s, c.node, c.epoch);
    FollowsClaim(a, c);
    assert Hear(s, c) == UpdateSlots(a, c.node, c.epoch, c.slots);
    hide Hear, UpdateSlots, Quiet, Grows, KeepsRole, TakesFrom, Aborts;
  }

  // ----- the winner of a slot

  ghost predicate Updating(cs: set<Claim>, o: Option<NodeName>) {
    o.Some? && exists c :: c in cs && c.node == o.value
  }

  /** The initial owner, recorded with `epoch`, announced nothing and no claimant beats it. */
  ghost predicate Kept(initial: Option<NodeName>, epoch: nat, cs: set<Claim>, j: nat)
    requires forall c :: c in cs ==> j < |c.slots|
  {
    && !Updating(cs, initial)
    && forall c :: c in cs && c.slots[j] ==> initial.Some? && epoch >= c.epoch
  }

  /** Claim `c` has the greatest epoch for the slot and beats an owner that announced nothing. */
  ghost predicate Taken(initial: Option<NodeName>, epoch: nat, cs: set<Claim>, j: nat, c: Claim)
    requires forall c :: c in cs ==> j < |c.slots|
  {
    && c in cs && c.slots[j]
    && (forall d :: d in cs && d.slots[j] ==> d.epoch <= c.epoch)
    && (initial.Some? && !Updating(cs, initial) ==> epoch < c.epoch)
  }

  /** `o` owns slot `j` once the claims `cs` are known: the claimant with the greatest epoch,
      unless an owner that announced nothing has an epoch at least as great. */
  ghost predicate Winner(initial: Option<NodeName>, epoch: nat, cs: set<Claim>, j: nat, o: Option<NodeName>)
    requires forall c :: c in cs ==> j < |c.slots|
  {
    || (o == initial && Kept(initial, epoch, cs, j))
    || exists c :: Taken(initial, epoch, cs, j, c) && o == Some(c.node)
  }

  ghost predicate DistinctClaims(cs: set<Claim>) {
    forall c, d :: c in cs && d in cs && c != d ==> c.node != d.node && c.epoch != d.epoch
  }

  lemma WinnerIsUnique(initial: Option<NodeName>, epoch: nat, cs: set<Claim>, j: nat, o1: Option<NodeName>,
                       o2: Option<NodeName>)
    requires (forall c :: c in cs ==> j < |c.slots|) && DistinctClaims(cs)
    requires Winner(initial, epoch, cs, j, o1) && Winner(initial, epoch, cs, j, o2)
    ensures o1 == o2
  {
    if !Kept(initial, epoch, cs, j) {
      var c :| Taken(initial, epoch, cs, j, c) && o1 == Some(c.node);
      var d :| Taken(initial, epoch, cs, j, d) && o2 == Some(d.node);
      assert c.epoch == d.epoch;
    }
  }

  lemma UpdatingStep(cs: set<Claim>, c: Claim, o: Option<NodeName>)
    ensures Updating(cs + {c}, o) <==> Updating(cs, o) || o == Some(c.node)
  {
    assert c in cs + {c};
  }

  lemma KeptStep(initial: Option<NodeName>, epoch: nat, cs: set<Claim>, c: Claim, j: nat)
    requires forall d :: d in cs + {c} ==> j < |d.slots|
    requires initial == Some(c.node) ==> c.slots[j] && epoch < c.epoch
    requires Kept(initial, epoch, cs, j)
    ensures if initial == Some(c.node) || (c.slots[j] && (initial.None? || epoch < c.epoch))
            then Taken(initial, epoch, cs + {c}, j, c) else Kept(initial, epoch, cs + {c}, j)
  {
    UpdatingStep(cs, c, initial);
    assert forall d :: d in cs + {c} <==> d in cs || d == c;
  }

  lemma TakenStep(initial: Option<NodeName>, epoch: nat, cs: set<Claim>, c: Claim, j: nat, m: Claim)
    requires forall d :: d in cs + {c} ==> j < |d.slots|
    requires initial == Some(c.node) ==> c.slots[j] && epoch < c.epoch
    requires Taken(initial, epoch, cs, j, m) && m.epoch != c.epoch
    ensures Taken(initial, epoch, cs + {c}, j, if c.slots[j] && m.epoch < c.epoch then c else m)
  {
    UpdatingStep(cs, c, initial);
    assert forall d :: d in cs + {c} <==> d in cs || d == c;
  }

  /** How one more claim changes the winner of a slot; `now` is the configEpoch recorded at
      that time for the owner `o`. */
  lemma WinnerStep(initial: Option<NodeName>, epoch: nat, cs: set<Claim>, c: Claim, j: nat,
                   o: Option<NodeName>, now: nat, o': Option<NodeName>)
    requires forall d :: d in cs + {c} ==> j < |d.slots|
    requires forall d :: d in cs ==> d.epoch != c.epoch
    requires initial == Some(c.node) ==> c.slots[j] && epoch < c.epoch
    requires Winner(initial, epoch, cs, j, o)
    requires forall d :: d in cs && o == Some(d.node) ==> now == d.epoch
    requires o.Some? && o == initial && !Updating(cs, o) ==> now == epoch
    requires o' == if c.slots[j] && (o.None? || now < c.epoch) then Some(c.node) else o
    ensures Winner(initial, epoch, cs + {c}, j, o')
  {
    if o == initial && Kept(initial, epoch, cs, j) {
      KeptStep(initial, epoch, cs, c, j);
    } else {
      var m :| Taken(initial, epoch, cs, j, m) && o == Some(m.node);
      TakenStep(initial, epoch, cs, c, j, m);
    }
  }

  // ----- whole deliveries

  function OwnerEpoch(s: Server, j: nat): nat
    requires j < |s.owner| && (s.owner[j].Some? ==> s.owner[j].value in s.nodes)
  {
    if s.owner[j].Some? then s.nodes[s.owner[j].value].configEpoch else 0
  }

  /** Announcing nodes are recorded with the epochs they announced, all others unchanged. */
  ghost predicate EpochsHeard(s: Server, cs: seq<Claim>, t: Server)
    requires t.nodes.Keys == s.nodes.Keys && forall c :: c in cs ==> c.node in s.nodes
  {
    && (forall c :: c in cs ==> t.nodes[c.node].configEpoch == c.epoch)
    && (forall n :: n in s.nodes && !Updating(Claims(cs), Some(n)) ==> t.nodes[n].configEpoch == s.nodes[n].configEpoch)
  }

  ghost predicate SlotsHeard(s: Server, cs: seq<Claim>, t: Server)
    requires Linked(s) && |t.owner| == |s.owner| && forall c :: c in cs ==> |c.slots| == |s.owner|
  {
    forall j :: 0 <= j < |s.owner| ==> Winner(s.owner[j], OwnerEpoch(s, j), Claims(cs), j, t.owner[j])
  }

  ghost predicate Heard(s: Server, cs: seq<Claim>, t: Server)
    requires Announced(s, cs)
  {
    && Linked(t) && OwnsAsMaster(t) && t.myself == s.myself && t.nodes.Keys == s.nodes.Keys
    && |t.owner| == |s.owner| && (forall j :: 0 <= j < |t.importing| ==> t.importing[j].None?)
    && EpochsHeard(s, cs, t) && SlotsHeard(s, cs, t)
  }

  lemma AnnouncedIsDistinct(s: Server, cs: seq<Claim>)
    requires Announced(s, cs)
    ensures DistinctClaims(Claims(cs))
  {
    forall c, d | c in cs && d in cs && c != d
      ensures c.node != d.node && c.epoch != d.epoch
    {
      var i, k :| 0 <= i < |cs| && 0 <= k < |cs| && cs[i] == c && cs[k] == d;
      assert i < k || k < i;
    }
  }

  lemma LastIsNew(s: Server, cs: seq<Claim>, c: Claim)
    requires Announced(s, cs + [c])
    ensures Announced(s, cs) && c !in cs && Ready(s, c) && Covers(s, c)
    ensures Claims(cs + [c]) == Claims(cs) + {c}
  {
    var all := cs + [c];
    assert all[|cs|] == c;
    assert forall i :: 0 <= i < |cs| ==> all[i] == cs[i];
    assert forall d :: d in cs ==> d in all;
  }

  lemma NewIsDistinct(s: Server, cs: seq<Claim>, c: Claim)
    requires Announced(s, cs + [c])
    ensures forall d :: d in Claims(cs) ==> d.node != c.node && d.epoch != c.epoch
    ensures !Updating(Claims(cs), Some(c.node))
  {
    LastIsNew(s, cs, c);
    AnnouncedIsDistinct(s, cs + [c]);
    assert c in Claims(cs + [c]);
  }

  /** One more claim moves each slot to the winner among the claims heard so far. */
  lemma HeardSlot(s: Server, cs: seq<Claim>, c: Claim, t: Server, j: nat)
    requires Announced(s, cs) && Announced(s, cs + [c]) && Heard(s, cs, t) && Ready(t, c) && j < |s.owner|
    ensures |Hear(t, c).owner| == |s.owner|
    ensures Winner(s.owner[j], OwnerEpoch(s, j), Claims(cs + [c]), j, Hear(t, c).owner[j])
  {
    LastIsNew(s, cs, c);
    NewIsDistinct(s, cs, c);
    HearEffect(t, c);
    hide Hear, Winner;
    WinnerStep(s.owner[j], OwnerEpoch(s, j), Claims(cs), c, j, t.owner[j], OwnerEpoch(t, j), Hear(t, c).owner[j]);
  }

  lemma EpochsStep(s: Server, cs: seq<Claim>, c: Claim, t: Server, u: Server)
    requires t.nodes.Keys == u.nodes.Keys == s.nodes.Keys && forall d :: d in cs + [c] ==> d.node in s.nodes
    requires Claims(cs + [c]) == Claims(cs) + {c} && forall d :: d in Claims(cs) ==> d.node != c.node
    requires EpochsHeard(s, cs, t)
    requires forall n :: n in t.nodes ==>
      u.nodes[n].configEpoch == if n == c.node then c.epoch else t.nodes[n].configEpoch
    ensures EpochsHeard(s, cs + [c], u)
  {
    forall n | n in s.nodes && !Updating(Claims(cs + [c]), Some(n))
      ensures u.nodes[n].configEpoch == s.nodes[n].configEpoch
    {
      UpdatingStep(Claims(cs), c, Some(n));
    }
    forall d | d in cs + [c]
      ensures u.nodes[d.node].configEpoch == d.epoch
    {
      assert d in Claims(cs + [c]);
    }
  }

  lemma HeardEpochs(s: Server, cs: seq<Claim>, c: Claim, t: Server)
    requires Announced(s, cs) && Announced(s, cs + [c]) && Heard(s, cs, t) && Ready(t, c)
    ensures Hear(t, c).nodes.Keys == s.nodes.Keys && EpochsHeard(s, cs + [c], Hear(t, c))
  {
    hide Hear, SlotsHeard, EpochsHeard, Linked, Updating;
    LastIsNew(s, cs, c);
    NewIsDistinct(s, cs, c);
    HearEffect(t, c);
    EpochsStep(s, cs, c, t, Hear(t, c));
  }

  lemma HeardSlots(s: Server, cs: seq<Claim>, c: Claim, t: Server)
    requires Announced(s, cs) && Announced(s, cs + [c]) && Heard(s, cs, t) && Ready(t, c)
    ensures |Hear(t, c).owner| == |s.owner| && SlotsHeard(s, cs + [c], Hear(t, c))
  {
    hide Hear, Winner, EpochsHeard;
    HearEffect(t, c);
    forall j | 0 <= j < |s.owner|
      ensures Winner(s.owner[j], OwnerEpoch(s, j), Claims(cs + [c]), j, Hear(t, c).owner[j])
    {
      HeardSlot(s, cs, c, t, j);
    }
  }

  lemma HeardIsReady(s: Server, cs: seq<Claim>, c: Claim, t: Server)
    requires Announced(s, cs) && Announced(s, cs + [c]) && Heard(s, cs, t)
    ensures Ready(t, c)
  {
    LastIsNew(s, cs, c);
    NewIsDistinct(s, cs, c);
    hide Winner, SlotsHeard, Announced, Linked;
  }

  lemma HeardStep(s: Server, cs: seq<Claim>, c: Claim, t: Server)
    requires Announced(s, cs) && Announced(s, cs + [c]) && Heard(s, cs, t)
    ensures Ready(t, c) && Heard(s, cs + [c], Hear(t, c))
  {
    hide Hear, EpochsHeard, SlotsHeard;
    HeardIsReady(s, cs, c, t);
    HearEffect(t, c);
    HeardEpochs(s, cs, c, t);
    HeardSlots(s, cs, c, t);
  }

  /** The server after hearing `cs` in that order. */
  ghost function HearAll(s: Server, cs: seq<Claim>): (t: Server)
    requires Announced(s, cs)
    ensures Heard(s, cs, t)
  {
    if cs == [] then s
    else
      var front := cs[..|cs| - 1];
      assert cs == front + [cs[|cs| - 1]];
      LastIsNew(s, front, cs[|cs| - 1]);
      HeardStep(s, front, cs[|cs| - 1], HearAll(s, front));
      Hear(HearAll(s, front), cs[|cs| - 1])
  }

  /** Every slot ends with the greatest-epoch claimant, unless an owner that announced nothing
      has an epoch at least as great. */
  lemma SlotGoesToWinner(s: Server, cs: seq<Claim>, j: nat)
    requires Announced(s, cs) && j < |s.owner|
    ensures |HearAll(s, cs).owner| == |s.owner|
    ensures Winner(s.owner[j], OwnerEpoch(s, j), Claims(cs), j, HearAll(s, cs).owner[j])
  {
    assert Heard(s, cs, HearAll(s, cs));
  }

  /** Order independence. */
  lemma OrderDoesNotMatter(s: Server, cs: seq<Claim>, ds: seq<Claim>)
    requires Announced(s, cs) && Announced(s, ds)
    requires Claims(cs) == Claims(ds)
    ensures HearAll(s, cs).owner == HearAll(s, ds).owner
  {
    assert |HearAll(s, cs).owner| == |HearAll(s, ds).owner| == |s.owner|;
    forall j | 0 <= j < |s.owner|
      ensures HearAll(s, cs).owner[j] == HearAll(s, ds).owner[j]
    {
      SlotGoesToWinner(s, cs, j);
      SlotGoesToWinner(s, ds, j);
      AnnouncedIsDistinct(s, cs);
      WinnerIsUnique(s.owner[j], OwnerEpoch(s, j), Claims(cs), j, HearAll(s, cs).owner[j], HearAll(s, ds).owner[j]);
    }
  }

  /** A PING of a master spreads its slots exactly as an UPDATE about it does. */
  lemma PingSpreadsLikeUpdate(s: Server, h: Header)
    requires PingEnabled(s, h) && h.slaveof.None?
    requires Ready(s, Claim(h.sender, h.configEpoch, h.slots))
    ensures HandlePing(s, h).owner == Hear(s, Claim(h.sender, h.configEpoch, h.slots)).owner
  {
    hide Linked, SeeRole, Adopt, TakesFrom, Rebound, Aborts;
    var c := Claim(h.sender, h.configEpoch, h.slots);
    ReadyIsEnabled(s, c);
    var t := SeeRole(SeeHeader(s, h), h);
    var a := Adopt(s, h.sender, h.configEpoch);
    SeesLikeAdopt(s, h);
    SameRebound(t, a, c);
    if SlotBitmap(t.owner, h.sender) == h.slots { NothingToMove(t, c); }
  }

  lemma SeesLikeAdopt(s: Server, h: Header)
    requires h.sender in s.nodes && h.slaveof.None? && s.nodes[h.sender].configEpoch < h.configEpoch
    ensures var t, a := SeeRole(SeeHeader(s, h), h), Adopt(s, h.sender, h.configEpoch);
      t.nodes == a.nodes && t.owner == a.owner && t.importing == a.importing && t.myself == a.myself
      && h.sender in t.nodes && t.nodes[h.sender].master
  {
  }

  lemma SameRebound(t: Server, a: Server, c: Claim)
    requires t.nodes == a.nodes && t.owner == a.owner && t.importing == a.importing && Fits(t, c.slots)
    ensures Rebound(t, c.node, c.epoch, c.slots) == Rebound(a, c.node, c.epoch, c.slots)
  {
  }

  lemma NothingToMove(t: Server, c: Claim)
    requires Fits(t, c.slots) && SlotBitmap(t.owner, c.node) == c.slots
    ensures Rebound(t, c.node, c.epoch, c.slots) == t.owner
  {
    assert forall j :: 0 <= j < |t.owner| ==> c.slots[j] == (t.owner[j] == Some(c.node));
  }
}
