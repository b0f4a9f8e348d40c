/** Tailing a swarm's trail: what a client that polls while it is being written sees of it. */
module TrailTail {
  import opened FleetTypes
  import opened Ledgers
  import opened LedgerTail
  import opened Trail

  /** Polls placed anywhere among the appends of a trail hand out exactly the trail, each entry
      once and in order, if and only if the times it is stored under strictly increase. */
  lemma TrailTailed(k: Clock, c: Codec, p: Plan, rs: seq<LeafResult>, cancelled: bool, now: nat -> Time)
    requires Lossless(k)
    requires var es := SignedEntries(c, p.taskId, TrailOf(p, rs, cancelled), now); forall i :: 0 <= i < |es| ==> es[i].ts > 0
    ensures var es := SignedEntries(c, p.taskId, TrailOf(p, rs, cancelled), now); ExactAnyhow(k, es) <==> StrictTimes(es)
  {
    TailExact(k, SignedEntries(c, p.taskId, TrailOf(p, rs, cancelled), now));
  }

  predicate Unstamped(rs: seq<LeafResult>) {
    forall k, j :: 0 <= k < |rs| && 0 <= j < |rs[k].entries| ==> rs[k].entries[j].ts == 0
  }

  lemma {:induction false} SectionsUnstamped(p: Plan, rs: seq<LeafResult>, cancelled: bool)
    requires Unstamped(rs)
    ensures forall i :: 0 <= i < |Sections(p, rs, cancelled)| ==> Sections(p, rs, cancelled)[i].ts == 0
  {
    if rs != [] {
      var n := |rs| - 1;
      assert forall k :: 0 <= k < n ==> rs[..n][k] == rs[k];
      SectionsUnstamped(p, rs[..n], cancelled);
      var own := Section(p, rs[n], cancelled);
      assert forall j :: 0 <= j < |own| ==> own[j].ts == 0;
    }
  }

  /** Leaf entries that come without a time are stamped as they are merged, so on a clock that
      moves between appends the trail of any run can be tailed at any moments. */
  lemma UnstampedTailed(k: Clock, c: Codec, p: Plan, rs: seq<LeafResult>, cancelled: bool, now: nat -> Time)
    requires Lossless(k) && Unstamped(rs) && now(0) > 0 && forall i: nat :: now(i) < now(i + 1)
    ensures ExactAnyhow(k, SignedEntries(c, p.taskId, TrailOf(p, rs, cancelled), now))
  {
    var t := TrailOf(p, rs, cancelled);
    var es := SignedEntries(c, p.taskId, t, now);
    SectionsUnstamped(p, rs, cancelled);
    assert forall i :: 0 <= i < |t| ==> t[i].ts == 0;
    forall i | 0 <= i < |es|
      ensures es[i].ts == now(i) > 0
    {
      Positive(now, i);
    }
    TailExact(k, es);
  }

  lemma {:induction false} Positive(now: nat -> Time, i: nat)
    requires now(0) > 0 && forall x: nat :: now(x) < now(x + 1)
    ensures now(i) > 0
  {
    if i > 0 {
      Positive(now, i - 1);
      assert now(i - 1) < now(i - 1 + 1);
    }
  }
}
