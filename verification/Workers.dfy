/** The worker list of the health snapshot: registry hosts in file order, then the hosts
    known from heartbeats alone, sorted. */
module Workers {
  import opened Strings

  /** Five minutes in nanoseconds. */
  const HEALTHY_HEARTBEAT := 300_000_000_000

  datatype Worker = Worker(node: string, ok: bool, ageSeconds: real)

  function Seconds(ns: int): real { ns as real / 1_000_000_000.0 }

  function WorkerFor(host: string, ages: map<string, int>): Worker {
    if host in ages then Worker(host, ages[host] < HEALTHY_HEARTBEAT, Seconds(ages[host]))
    else Worker(host, false, -1.0)
  }

  function Nodes(ws: seq<Worker>): seq<string> {
    seq(|ws|, i requires 0 <= i < |ws| => ws[i].node)
  }

  /** The snapshot's promise about its worker list. */
  ghost predicate WorkerList(registry: seq<string>, ages: map<string, int>, ws: seq<Worker>) {
    && |registry| <= |ws|
    && Nodes(ws[..|registry|]) == registry
    && StrictlySorted(Nodes(ws[|registry|..]))
    && (forall h :: h in Nodes(ws[|registry|..]) <==> h in ages && h !in registry)
    && (forall i :: 0 <= i < |ws| ==> ws[i] == WorkerFor(ws[i].node, ages))
  }

  method ComputeWorkers(registry: seq<string>, ages: map<string, int>) returns (workers: seq<Worker>)
    ensures WorkerList(registry, ages, workers)
  {
    var seen: set<string> := {};
    workers := [];
    for i := 0 to |registry|
      invariant workers == seq(i, k requires 0 <= k < i => WorkerFor(registry[k], ages))
      invariant forall h :: h in seen <==> h in registry[..i]
    {
      workers := workers + [WorkerFor(registry[i], ages)];
      seen := seen + {registry[i]};
    }
    assert registry[..|registry|] == registry;
    var hosts := AnyOrder(ages.Keys);
    var extras: seq<string> := [];
    for i := 0 to |hosts|
      invariant Distinct(extras)
      invariant forall h :: h in extras <==> h in hosts[..i] && h !in seen
    {
      if hosts[i] !in seen {
        assert hosts[i] !in hosts[..i];
        extras := extras + [hosts[i]];
      }
    }
    assert hosts[..|hosts|] == hosts;
    extras := SortedCopy(extras);
    ghost var first := workers;
    for i := 0 to |extras|
      invariant workers == first + seq(i, k requires 0 <= k < i => WorkerFor(extras[k], ages))
    {
      workers := workers + [Worker(extras[i], ages[extras[i]] < HEALTHY_HEARTBEAT, Seconds(ages[extras[i]]))];
    }
    assert Nodes(workers[..|registry|]) == registry;
    assert Nodes(workers[|registry|..]) == extras;
  }

  /** The promise pins the list down: it covers exactly the union of both sources, a worker
      is ok exactly when its last heartbeat is younger than the threshold, and no map
      iteration order can show. */
  lemma WorkerListMeaning(registry: seq<string>, ages: map<string, int>, ws: seq<Worker>, ws': seq<Worker>)
    requires WorkerList(registry, ages, ws) && WorkerList(registry, ages, ws')
    ensures ws == ws'
    ensures forall h :: h in Nodes(ws) <==> h in registry || h in ages
    ensures forall w :: w in ws ==> (w.ok <==> w.node in ages && ages[w.node] < HEALTHY_HEARTBEAT)
    ensures forall w :: w in ws ==>
              if w.node in ages then w.ageSeconds * 1_000_000_000.0 == ages[w.node] as real else w.ageSeconds == -1.0
  {
    var n := |registry|;
    ListingUnique(Nodes(ws[n..]), Nodes(ws'[n..]));
    assert |ws| == n + |Nodes(ws[n..])| && |ws'| == n + |Nodes(ws'[n..])|;
    forall i | 0 <= i < |ws|
      ensures ws[i].node == ws'[i].node
    {
      if i < n {
        assert ws[i].node == Nodes(ws[..n])[i] && ws'[i].node == Nodes(ws'[..n])[i];
      } else {
        assert ws[i].node == Nodes(ws[n..])[i - n] && ws'[i].node == Nodes(ws'[n..])[i - n];
      }
    }
    assert forall i :: 0 <= i < |ws| ==> ws[i] == ws'[i];
    assert Nodes(ws) == Nodes(ws[..n]) + Nodes(ws[n..]);
  }
}
