/** The health-snapshot cache: any number of concurrent Snapshot and Refresh calls over a
    read-write lock, a refresh mutex and a clock that never goes backwards. The sections
    under the read-write lock do not block, so each is one step. */
module SnapshotCache {
  import opened Strings

  /** 30 seconds in nanoseconds. */
  const TTL := 30_000_000_000

  datatype Kind = Snapshot | Refresh

  /** A stored snapshot and when it was stored. */
  datatype Stamped = Stamped(id: nat, at: int)

  /** Where a result came from: computed by the call itself, or a stored snapshot found
      fresh at the clock reading `seen`. */
  datatype Source = Own | Cached(at: int, seen: int)

  /** `Peek` reads the cache, `Test` compares its age with the clock, `Wait` is the refresh
      mutex, `Peek2` and `Test2` are the re-check under it, `Compute` the rebuild, `Publish`
      the store, `Unlock` the deferred release. */
  datatype Pc = Begin | Peek | Test | Wait | Peek2 | Test2 | Compute | Publish | Unlock | Done

  /** `missed`, `tested` and `computed` are history: whether the first look found nothing young,
      when the re-check under the mutex looked at `local`, and whether the call rebuilt. */
  datatype Thread = Thread(
    kind: Kind, pc: Pc, began: int, local: Option<Stamped>, mine: nat, ret: nat, source: Source,
    missed: bool, tested: Option<int>, computed: bool)

  /** `stored` and `starts` are history: when each snapshot was stored, and when each
      Snapshot call decided to rebuild. */
  datatype State = State(
    now: int, cached: Option<Stamped>, holder: Option<nat>, threads: seq<Thread>,
    nextId: nat, stored: map<nat, int>, starts: seq<int>)

  datatype Act = Tick(d: nat) | Go(i: nat)

  predicate Enabled(s: State, a: Act) {
    match a
    case Tick(_) => true
    case Go(i) =>
      i < |s.threads| && s.threads[i].pc != Done && (s.threads[i].pc == Wait ==> s.holder == None)
  }

  predicate Young(c: Option<Stamped>, now: int) { c.Some? && now - c.value.at < TTL }

  function NextThread(s: State, th: Thread): Thread {
    match th.pc
    case Begin => th.(pc := if th.kind.Snapshot? then Peek else Wait, began := s.now)
    case Peek => th.(pc := Test, local := s.cached)
    case Test =>
      if Young(th.local, s.now) then th.(pc := Done, ret := th.local.value.id, source := Cached(th.local.value.at, s.now))
      else th.(pc := Wait, missed := true)
    case Wait => th.(pc := if th.kind.Snapshot? then Peek2 else Compute)
    case Peek2 => th.(pc := Test2, local := s.cached)
    case Test2 =>
      if Young(th.local, s.now)
      then th.(pc := Unlock, ret := th.local.value.id, source := Cached(th.local.value.at, s.now), tested := Some(s.now))
      else th.(pc := Compute, tested := Some(s.now))
    case Compute => th.(pc := Publish, mine := s.nextId, computed := true)
    case Publish => th.(pc := Unlock, ret := th.mine, source := Own)
    case Unlock => th.(pc := Done)
    case Done => th
  }

  function Step(s: State, a: Act): State
    requires Enabled(s, a)
  {
    match a
    case Tick(d) => s.(now := s.now + d)
    case Go(i) =>
      var th := s.threads[i];
      var s' := s.(threads := s.threads[i := NextThread(s, th)]);
      match th.pc
      case Wait => s'.(holder := Some(i))
      case Test2 => if Young(th.local, s.now) then s' else s'.(starts := s.starts + [s.now])
      case Compute => s'.(nextId := s.nextId + 1)
      case Publish => s'.(cached := Some(Stamped(th.mine, s.now)), stored := s.stored[th.mine := s.now])
      case Unlock => s'.(holder := None)
      case _ => s'
  }

  predicate Legal(s: State, acts: seq<Act>)
    decreases |acts|
  {
    acts == [] || (Enabled(s, acts[0]) && Legal(Step(s, acts[0]), acts[1..]))
  }

  function After(s: State, acts: seq<Act>): State
    requires Legal(s, acts)
    decreases |acts|
  {
    if acts == [] then s else After(Step(s, acts[0]), acts[1..])
  }

  predicate Initial(s: State) {
    && s.cached == None && s.holder == None && s.stored == map[] && s.starts == []
    && forall i :: 0 <= i < |s.threads| ==> s.threads[i].pc == Begin
  }

  // ----- the invariant

  predicate InMutex(pc: Pc) { pc in {Peek2, Test2, Compute, Publish, Unlock} }

  predicate KnownStamp(s: State, c: Option<Stamped>) {
    c.Some? ==> c.value.id in s.stored && s.stored[c.value.id] == c.value.at && c.value.at <= s.now && c.value.id < s.nextId
  }

  /** What is known of a result: it is this call's own or was stored less than TTL before a
      clock reading taken during the call. */
  predicate Provenance(s: State, th: Thread) {
    && th.ret in s.stored
    && match th.source
       case Own => th.ret == th.mine && s.stored[th.ret] >= th.began
       case Cached(at, seen) => s.stored[th.ret] == at && seen - at < TTL && th.began <= seen <= s.now
  }

  /** Whether a call rebuilds, and why: a Refresh always does; a Snapshot does exactly when its
      re-check found nothing young. */
  predicate Rebuilt(s: State, th: Thread) {
    && (th.computed <==> th.pc == Publish || ((th.pc == Unlock || th.pc == Done) && th.source.Own?))
    && (th.computed ==> th.mine < s.nextId)
    && (th.kind.Refresh? && (th.pc == Unlock || th.pc == Done) ==> th.source.Own?)
    && (th.kind.Snapshot? && (th.pc == Compute || th.computed) ==> th.tested.Some? && !Young(th.local, th.tested.value))
    && (th.pc !in {Compute, Publish, Unlock, Done} ==> th.tested == None)
    && (th.kind.Snapshot? && (InMutex(th.pc) || th.pc == Wait || th.tested.Some?) ==> th.missed)
    && (th.kind.Snapshot? && (th.pc == Unlock || th.pc == Done) ==>
          (th.computed <==> th.tested.Some? && !Young(th.local, th.tested.value)))
  }

  predicate ThreadInv(s: State, i: nat, th: Thread) {
    && (InMutex(th.pc) <==> s.holder == Some(i))
    && (th.pc != Begin ==> th.began <= s.now)
    && KnownStamp(s, th.local)
    && (th.pc == Test2 ==> th.local == s.cached)
    && (th.pc == Publish ==> th.mine < s.nextId && th.mine !in s.stored)
    && (th.pc == Unlock || th.pc == Done ==> Provenance(s, th))
    && (th.kind.Refresh? ==> th.pc !in {Peek, Test, Peek2, Test2})
    && Rebuilt(s, th)
  }

  /** A Snapshot rebuild is under way. */
  predicate Rebuilding(s: State) {
    s.holder.Some? && s.holder.value < |s.threads| &&
    s.threads[s.holder.value].kind.Snapshot? && s.threads[s.holder.value].pc in {Compute, Publish}
  }

  predicate Spaced(starts: seq<int>) {
    forall k :: 0 <= k < |starts| - 1 ==> starts[k + 1] - starts[k] >= TTL
  }

  predicate StartsInv(s: State) {
    && Spaced(s.starts)
    && (s.starts != [] ==>
          && s.starts[|s.starts| - 1] <= s.now
          && (Rebuilding(s) || (s.cached.Some? && s.cached.value.at >= s.starts[|s.starts| - 1])))
  }

  ghost predicate Inv(s: State) {
    && KnownStamp(s, s.cached)
    && (s.holder.Some? ==> s.holder.value < |s.threads|)
    && (forall id :: id in s.stored ==> id < s.nextId)
    && (forall i :: 0 <= i < |s.threads| ==> ThreadInv(s, i, s.threads[i]))
    && (forall i, j :: 0 <= i < j < |s.threads| && s.threads[i].computed && s.threads[j].computed ==>
          s.threads[i].mine != s.threads[j].mine)
    && StartsInv(s)
  }

  predicate Fresh(s: State) {
    Initial(s) && forall i :: 0 <= i < |s.threads| ==>
      s.threads[i].local == None && s.threads[i].tested == None && !s.threads[i].computed && !s.threads[i].missed
  }

  lemma OwnStep(s: State, i: nat)
    requires Inv(s) && Enabled(s, Go(i))
    ensures ThreadInv(Step(s, Go(i)), i, Step(s, Go(i)).threads[i])
  {
    assert ThreadInv(s, i, s.threads[i]);
    if InMutex(s.threads[i].pc) { HolderStep(s, i); } else { OutsideStep(s, i); }
  }

  lemma HolderStep(s: State, i: nat)
    requires Inv(s) && Enabled(s, Go(i)) && ThreadInv(s, i, s.threads[i]) && InMutex(s.threads[i].pc)
    ensures ThreadInv(Step(s, Go(i)), i, Step(s, Go(i)).threads[i])
  {
  }

  lemma OutsideStep(s: State, i: nat)
    requires Inv(s) && Enabled(s, Go(i)) && ThreadInv(s, i, s.threads[i]) && !InMutex(s.threads[i].pc)
    ensures ThreadInv(Step(s, Go(i)), i, Step(s, Go(i)).threads[i])
  {
  }

  lemma OtherStep(s: State, i: nat, j: nat)
    requires Inv(s) && Enabled(s, Go(i)) && j < |s.threads| && j != i
    ensures ThreadInv(Step(s, Go(i)), j, s.threads[j])
  {
    assert ThreadInv(s, i, s.threads[i]);
    assert ThreadInv(s, j, s.threads[j]);
  }

  lemma StartsStep(s: State, i: nat)
    requires Inv(s) && Enabled(s, Go(i))
    ensures StartsInv(Step(s, Go(i)))
  {
    assert ThreadInv(s, i, s.threads[i]);
    var t := Step(s, Go(i));
    if s.threads[i].pc == Test2 && !Young(s.threads[i].local, s.now) && s.starts != [] {
      assert s.starts + [s.now] == t.starts;
      assert !Rebuilding(s);
    }
  }

  lemma StepInv(s: State, a: Act)
    requires Inv(s) && Enabled(s, a)
    ensures Inv(Step(s, a))
  {
    var t := Step(s, a);
    match a
    case Tick(d) => TickInv(s, d);
    case Go(i) =>
      StoredStep(s, i);
      StartsStep(s, i);
      DistinctStep(s, i);
      forall j | 0 <= j < |t.threads|
        ensures ThreadInv(t, j, t.threads[j])
      {
        if j == i { OwnStep(s, i); } else { OtherStep(s, i, j); }
      }
  }

  /** No two calls compute the same snapshot. */
  lemma DistinctStep(s: State, i: nat)
    requires Inv(s) && Enabled(s, Go(i))
    ensures var t := Step(s, Go(i));
            forall x, y :: 0 <= x < y < |t.threads| && t.threads[x].computed && t.threads[y].computed ==>
              t.threads[x].mine != t.threads[y].mine
  {
    assert ThreadInv(s, i, s.threads[i]);
    assert forall j :: 0 <= j < |s.threads| && s.threads[j].computed ==> ThreadInv(s, j, s.threads[j]) && s.threads[j].mine < s.nextId;
  }

  lemma TickInv(s: State, d: nat)
    requires Inv(s)
    ensures Inv(Step(s, Tick(d)))
  {
    var t := Step(s, Tick(d));
    forall i | 0 <= i < |t.threads|
      ensures ThreadInv(t, i, t.threads[i])
    {
      assert ThreadInv(s, i, s.threads[i]);
    }
  }

  lemma StoredStep(s: State, i: nat)
    requires Inv(s) && Enabled(s, Go(i))
    ensures var t := Step(s, Go(i));
            && KnownStamp(t, t.cached) && (t.holder.Some? ==> t.holder.value < |t.threads|)
            && (forall id :: id in t.stored ==> id < t.nextId)
  {
    assert ThreadInv(s, i, s.threads[i]);
  }

  lemma {:induction false} RunInv(s: State, acts: seq<Act>)
    requires Inv(s) && Legal(s, acts)
    ensures Inv(After(s, acts))
    decreases |acts|
  {
    if acts != [] {
      StepInv(s, acts[0]);
      RunInv(Step(s, acts[0]), acts[1..]);
    }
  }

  // ----- main results

  /** In every concurrent run: two computes never overlap, successive rebuilds started by
      Snapshot are at least TTL apart (whatever Refresh does between), and every returned
      snapshot is the call's own or was stored less than TTL before a clock reading the
      call took. */
  lemma CacheContract(s: State, acts: seq<Act>)
    requires Fresh(s) && Legal(s, acts)
    ensures var t := After(s, acts);
            && (forall i, j :: 0 <= i < j < |t.threads| ==> !(t.threads[i].pc == Compute && t.threads[j].pc == Compute))
            && Spaced(t.starts)
            && (forall i :: 0 <= i < |t.threads| && t.threads[i].pc == Done ==> Provenance(t, t.threads[i]))
  {
    RunInv(s, acts);
    var t := After(s, acts);
    assert forall i :: 0 <= i < |t.threads| ==> ThreadInv(t, i, t.threads[i]);
  }

  /** How a finished call came by its result. A Refresh always computed it itself. A Snapshot
      computed exactly when its re-check under the mutex found nothing young, and else returns
      what it found. No two calls share a computed snapshot. */
  lemma RebuildsWhenDue(s: State, acts: seq<Act>)
    requires Fresh(s) && Legal(s, acts)
    ensures var t := After(s, acts);
            && (forall i :: 0 <= i < |t.threads| && t.threads[i].pc == Done ==>
                  var th := t.threads[i];
                  && (th.kind.Refresh? ==> th.computed)
                  && (th.computed <==> th.source.Own?)
                  && (th.computed ==> th.ret == th.mine && th.ret in t.stored && t.stored[th.ret] >= th.began)
                  && (th.kind.Snapshot? ==> (th.computed <==> th.tested.Some? && !Young(th.local, th.tested.value)))
                  && (th.kind.Snapshot? && th.tested.Some? ==> th.missed))
            && (forall i, j :: 0 <= i < j < |t.threads| && t.threads[i].computed && t.threads[j].computed ==>
                  t.threads[i].mine != t.threads[j].mine)
  {
    RunInv(s, acts);
    var t := After(s, acts);
    assert forall i :: 0 <= i < |t.threads| ==> ThreadInv(t, i, t.threads[i]);
  }

  /** A call that rebuilt leaves its snapshot, stamped now, in the cache as it publishes. */
  lemma PublishStores(s: State, i: nat)
    requires Inv(s) && Enabled(s, Go(i)) && s.threads[i].pc == Publish
    ensures var t := Step(s, Go(i));
            && t.cached == Some(Stamped(t.threads[i].ret, s.now)) && t.threads[i].ret == s.threads[i].mine
            && t.threads[i].ret !in s.stored && t.stored == s.stored[t.threads[i].ret := s.now]
  {
    assert ThreadInv(s, i, s.threads[i]);
  }

  lemma {:induction false} SpacedSpan(starts: seq<int>)
    requires Spaced(starts) && starts != []
    ensures starts[|starts| - 1] - starts[0] >= (|starts| - 1) * TTL
  {
    if |starts| > 1 {
      var n := |starts| - 1;
      SpacedSpan(starts[..n]);
      assert starts[n] - starts[n - 1] >= TTL;
    }
  }

  /** Hence a window of length w holds at most w / TTL + 1 of them. */
  lemma RebuildRate(s: State, acts: seq<Act>, lo: nat, hi: nat, from: int, w: nat)
    requires Fresh(s) && Legal(s, acts)
    requires lo <= hi <= |After(s, acts).starts|
    requires forall k :: lo <= k < hi ==> from <= After(s, acts).starts[k] <= from + w
    ensures hi - lo <= w / TTL + 1
  {
    CacheContract(s, acts);
    var part := After(s, acts).starts[lo..hi];
    if part != [] {
      assert Spaced(part);
      SpacedSpan(part);
      assert (|part| - 1) * TTL <= w;
    }
  }

  /** No unfinished call is ever stuck: it can move, or the holder of the mutex can. */
  lemma NeverStuck(s: State, i: nat) returns (j: nat)
    requires Inv(s) && i < |s.threads| && s.threads[i].pc != Done
    ensures Enabled(s, Go(j)) && (j == i || s.holder == Some(j))
  {
    if Enabled(s, Go(i)) {
      j := i;
    } else {
      j := s.holder.value;
      assert ThreadInv(s, j, s.threads[j]);
    }
  }
}
