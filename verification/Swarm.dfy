/** The value types shared by the ledger, the swarm and the RPC handlers. */
module FleetTypes {
  import opened Strings

  /** Nanoseconds since Go's zero time, which is therefore 0. */
  type Time = int

  /** One line of a task ledger. */
  datatype Entry = Entry(
    ts: Time, taskId: string, tenantId: string, phase: string, action: string, result: string,
    data: string, durationMs: int, stderrTail: string, stdoutTail: string, sig: string)

  datatype LeafInput = LeafInput(node: string, leafId: string)

  datatype LeafResult = LeafResult(leafId: string, node: string, entries: seq<Entry>, err: Option<string>, duration: int)

  datatype Plan = Plan(
    taskId: string, tenantId: string, parentRun: string,
    leaves: seq<LeafInput>, maxParallel: int, retryEach: int)

  /** The zero value a results slot holds until its leaf writes it. */
  const ZeroResult := LeafResult("", "", [], None, 0)
}

/** The concurrent half of Orchestrator.Execute as a step system: the dispatch loop,
    one goroutine per leaf, and a cancel that may land between any two steps. */
module Swarm {
  import opened Strings
  import opened FleetTypes

  /** What one runner call returned. */
  datatype Outcome = Outcome(entries: seq<Entry>, err: Option<string>)

  /** Where a leaf goroutine stands. `Top(k)` is the head of the retry loop with
      attempt k, `Calling(k)` is inside the runner, `Judge(k)` is the cancellation
      check after a failed attempt; then the slot store, the deferred semaphore
      receive and the deferred wait-group Done. */
  datatype LeafPc = Idle | Top(k: nat) | Calling(k: nat) | Judge(k: nat) | Store | Release | Signal | Gone

  /** `out` holds the goroutine's entries/err locals; `tried` is the history of what
      its runner calls returned. */
  datatype Leaf = Leaf(pc: LeafPc, out: Outcome, tried: seq<Outcome>)

  /** `Check` is the loop head with its cancellation test, `Send` the blocking
      semaphore send, `Spawn` the go statement. */
  datatype MainPc = Check | Send | Spawn | Waiting | Joined | Ended(sawCancel: bool)

  datatype State = State(
    main: MainPc, next: nat, leaves: seq<Leaf>, results: seq<LeafResult>,
    sem: nat, wg: int, cancelled: bool)

  /** One atomic step: of the dispatch loop, of leaf `i` (with the outcome and the
      duration the environment picks), or the arrival of the cancel. */
  datatype Act = Main | LeafAct(i: nat, o: Outcome, dur: int) | Cancel

  const NoOutcome := Outcome([], None)
  const IdleLeaf := Leaf(Idle, NoOutcome, [])

  function MaxPar(p: Plan): (m: nat)
    ensures m <= |p.leaves| && (|p.leaves| > 0 ==> m > 0)
    ensures 0 < p.maxParallel <= |p.leaves| ==> m == p.maxParallel
  {
    if p.maxParallel <= 0 || p.maxParallel > |p.leaves| then |p.leaves| else p.maxParallel
  }

  /** A plan without a limit, or with one above its leaves, may run them all at once. */
  lemma Unlimited(p: Plan)
    ensures MaxPar(p) == |p.leaves| <==> p.maxParallel <= 0 || p.maxParallel >= |p.leaves|
  {
  }

  function Init(p: Plan): State {
    State(Check, 0, seq(|p.leaves|, i => IdleLeaf), seq(|p.leaves|, i => ZeroResult), 0, 0, false)
  }

  predicate Enabled(p: Plan, s: State, a: Act) {
    match a
    case Main =>
      (match s.main
       case Check => true
       case Send => s.sem < MaxPar(p)
       case Spawn => s.next < |s.leaves|
       case Waiting => s.wg == 0
       case Joined => true
       case Ended(_) => false)
    case LeafAct(i, _, _) =>
      i < |s.leaves| && i < |s.results| && i < |p.leaves| && !s.main.Ended? &&
      s.leaves[i].pc != Idle && s.leaves[i].pc != Gone && (s.leaves[i].pc == Release ==> s.sem > 0)
    case Cancel => !s.cancelled && !s.main.Ended?
  }

  /** One step of a leaf goroutine, as far as its own variables go. */
  function LeafNext(retry: int, l: Leaf, o: Outcome, cancelled: bool): Leaf {
    match l.pc
    case Idle => l
    case Top(k) => l.(pc := if k <= retry then Calling(k) else Store)
    case Calling(k) => Leaf(if o.err.None? then Store else Judge(k), o, l.tried + [o])
    case Judge(k) => l.(pc := if cancelled then Store else Top(k + 1))
    case Store => l.(pc := Release)
    case Release => l.(pc := Signal)
    case Signal => l.(pc := Gone)
    case Gone => l
  }

  function Step(p: Plan, s: State, a: Act): State
    requires Enabled(p, s, a)
  {
    match a
    case Main =>
      (match s.main
       case Check =>
         if s.next >= |p.leaves| || s.cancelled then s.(main := Waiting)
         else s.(main := Send, wg := s.wg + 1)
       case Send => s.(main := Spawn, sem := s.sem + 1)
       case Spawn =>
         s.(main := Check, next := s.next + 1, leaves := s.leaves[s.next := Leaf(Top(0), NoOutcome, [])])
       case Waiting => s.(main := Joined)
       case Joined => s.(main := Ended(s.cancelled)))
    case LeafAct(i, o, dur) =>
      var l := s.leaves[i];
      s.(leaves := s.leaves[i := LeafNext(p.retryEach, l, o, s.cancelled)],
         results := if l.pc.Store?
                    then s.results[i := LeafResult(p.leaves[i].leafId, p.leaves[i].node, l.out.entries, l.out.err, dur)]
                    else s.results,
         sem := if l.pc.Release? then s.sem - 1 else s.sem,
         wg := if l.pc.Signal? then s.wg - 1 else s.wg)
    case Cancel => s.(cancelled := true)
  }

  /** `acts` is an interleaving the system can perform from `s`. */
  predicate Legal(p: Plan, s: State, acts: seq<Act>)
    decreases |acts|
  {
    acts == [] || (Enabled(p, s, acts[0]) && Legal(p, Step(p, s, acts[0]), acts[1..]))
  }

  function After(p: Plan, s: State, acts: seq<Act>): State
    requires Legal(p, s, acts)
    decreases |acts|
  {
    if acts == [] then s else After(p, Step(p, s, acts[0]), acts[1..])
  }

  // ----- sums over the leaves

  ghost function Sum(leaves: seq<Leaf>, f: Leaf -> nat): nat {
    if leaves == [] then 0 else f(leaves[0]) + Sum(leaves[1..], f)
  }

  lemma {:induction false} SumUpdate(leaves: seq<Leaf>, i: nat, l: Leaf, f: Leaf -> nat)
    requires i < |leaves|
    ensures Sum(leaves[i := l], f) == Sum(leaves, f) - f(leaves[i]) + f(l)
  {
    if i == 0 {
      assert leaves[0 := l][1..] == leaves[1..];
    } else {
      SumUpdate(leaves[1..], i - 1, l, f);
      assert leaves[i := l][1..] == leaves[1..][i - 1 := l];
    }
  }

  lemma {:induction false} SumZero(leaves: seq<Leaf>, f: Leaf -> nat)
    ensures Sum(leaves, f) == 0 <==> forall l :: l in leaves ==> f(l) == 0
  {
    if leaves != [] {
      SumZero(leaves[1..], f);
      assert forall l :: l in leaves <==> l == leaves[0] || l in leaves[1..];
    }
  }

  lemma {:induction false} SumConst(leaves: seq<Leaf>, f: Leaf -> nat, c: nat)
    requires forall l :: l in leaves ==> f(l) == c
    ensures Sum(leaves, f) == |leaves| * c
  {
    if leaves != [] { SumConst(leaves[1..], f, c); }
  }

  function HoldsSlot(l: Leaf): nat {
    if l.pc.Idle? || l.pc.Signal? || l.pc.Gone? then 0 else 1
  }

  function Unfinished(l: Leaf): nat {
    if l.pc.Idle? || l.pc.Gone? then 0 else 1
  }

  /** The number of leaves inside the semaphore. */
  ghost function InFlight(s: State): nat { Sum(s.leaves, HoldsSlot) }

  ghost function Live(s: State): nat { Sum(s.leaves, Unfinished) }

  // ----- the invariant

  ghost predicate AllFailed(tried: seq<Outcome>) {
    forall j :: 0 <= j < |tried| ==> tried[j].err.Some?
  }

  function LastOutcome(tried: seq<Outcome>): Outcome {
    if tried == [] then NoOutcome else tried[|tried| - 1]
  }

  /** How a leaf that left its retry loop got there. */
  ghost predicate Settled(retry: int, l: Leaf, cancelled: bool) {
    && l.out == LastOutcome(l.tried)
    && (l.tried == [] <==> retry < 0)
    && (l.tried != [] ==> |l.tried| <= retry + 1 && AllFailed(l.tried[..|l.tried| - 1]))
    && (l.out.err.Some? ==> cancelled || |l.tried| == retry + 1)
  }

  ghost predicate LeafInv(retry: int, l: Leaf, cancelled: bool) {
    match l.pc
    case Idle => l == IdleLeaf
    case Top(k) => |l.tried| == k && (k > 0 ==> k <= retry + 1) && AllFailed(l.tried) && l.out == LastOutcome(l.tried)
    case Calling(k) => |l.tried| == k <= retry && AllFailed(l.tried)
    case Judge(k) => |l.tried| == k + 1 <= retry + 1 && AllFailed(l.tried) && l.out == LastOutcome(l.tried)
    case _ => Settled(retry, l, cancelled)
  }

  ghost predicate SlotInv(inp: LeafInput, l: Leaf, r: LeafResult) {
    if l.pc.Release? || l.pc.Signal? || l.pc.Gone?
    then r == LeafResult(inp.leafId, inp.node, l.out.entries, l.out.err, r.duration)
    else r == ZeroResult
  }

  ghost predicate MainInv(p: Plan, s: State) {
    && s.next <= |p.leaves|
    && (s.main.Send? || s.main.Spawn? ==> s.next < |p.leaves|)
    && (s.main.Waiting? || s.main.Joined? || s.main.Ended? ==> s.next == |p.leaves| || s.cancelled)
    && (s.main.Joined? || s.main.Ended? ==> s.wg == 0)
    && (s.main.Ended? ==> s.main.sawCancel == s.cancelled)
  }

  ghost predicate CountInv(p: Plan, s: State) {
    && s.sem == InFlight(s) + (if s.main.Spawn? then 1 else 0)
    && s.sem <= MaxPar(p)
    && s.wg == Live(s) + (if s.main.Send? || s.main.Spawn? then 1 else 0)
  }

  ghost predicate Inv(p: Plan, s: State) {
    && |s.leaves| == |s.results| == |p.leaves|
    && MainInv(p, s)
    && CountInv(p, s)
    && (forall i :: 0 <= i < |s.leaves| ==> (s.leaves[i].pc.Idle? <==> i >= s.next))
    && (forall i :: 0 <= i < |s.leaves| ==> LeafInv(p.retryEach, s.leaves[i], s.cancelled))
    && (forall i :: 0 <= i < |s.leaves| ==> SlotInv(p.leaves[i], s.leaves[i], s.results[i]))
  }

  lemma InitInv(p: Plan)
    ensures Inv(p, Init(p))
  {
    var s := Init(p);
    SumZero(s.leaves, HoldsSlot);
    SumZero(s.leaves, Unfinished);
  }

  lemma LeafNextInv(retry: int, l: Leaf, o: Outcome, cancelled: bool)
    requires LeafInv(retry, l, cancelled)
    ensures LeafInv(retry, LeafNext(retry, l, o, cancelled), cancelled)
  {
    match l.pc
    case Calling(k) => CallingNextInv(retry, l, o, cancelled);
    case Judge(k) =>
      assert AllFailed(l.tried[..|l.tried| - 1]);
    case Top(k) =>
      if l.tried != [] { assert AllFailed(l.tried[..|l.tried| - 1]); }
    case _ =>
  }

  lemma CallingNextInv(retry: int, l: Leaf, o: Outcome, cancelled: bool)
    requires LeafInv(retry, l, cancelled) && l.pc.Calling?
    ensures LeafInv(retry, LeafNext(retry, l, o, cancelled), cancelled)
  {
    assert (l.tried + [o])[..|l.tried + [o]| - 1] == l.tried;
  }

  lemma LeafStepCounts(p: Plan, s: State, a: Act)
    requires CountInv(p, s) && a.LeafAct? && Enabled(p, s, a)
    ensures CountInv(p, Step(p, s, a))
  {
    var t := Step(p, s, a);
    SumUpdate(s.leaves, a.i, t.leaves[a.i], HoldsSlot);
    SumUpdate(s.leaves, a.i, t.leaves[a.i], Unfinished);
  }

  lemma LeafStepSlot(p: Plan, s: State, a: Act)
    requires a.LeafAct? && Enabled(p, s, a) && SlotInv(p.leaves[a.i], s.leaves[a.i], s.results[a.i])
    ensures var t := Step(p, s, a); SlotInv(p.leaves[a.i], t.leaves[a.i], t.results[a.i])
  {
  }

  lemma LeafStepInv(p: Plan, s: State, a: Act)
    requires Inv(p, s) && a.LeafAct? && Enabled(p, s, a)
    ensures Inv(p, Step(p, s, a))
  {
    var t := Step(p, s, a);
    LeafStepCounts(p, s, a);
    LeafNextInv(p.retryEach, s.leaves[a.i], a.o, s.cancelled);
    LeafStepSlot(p, s, a);
    assert !t.leaves[a.i].pc.Idle?;
    assert MainInv(p, t);
    assert forall i :: 0 <= i < |t.leaves| && i != a.i ==> t.leaves[i] == s.leaves[i] && t.results[i] == s.results[i];
  }

  lemma MainStepInv(p: Plan, s: State)
    requires Inv(p, s) && Enabled(p, s, Main)
    ensures Inv(p, Step(p, s, Main))
  {
    var t := Step(p, s, Main);
    if s.main.Spawn? {
      SumUpdate(s.leaves, s.next, t.leaves[s.next], HoldsSlot);
      SumUpdate(s.leaves, s.next, t.leaves[s.next], Unfinished);
    }
  }

  lemma StepInv(p: Plan, s: State, a: Act)
    requires Inv(p, s) && Enabled(p, s, a)
    ensures Inv(p, Step(p, s, a))
  {
    match a
    case Main => MainStepInv(p, s);
    case LeafAct(_, _, _) => LeafStepInv(p, s, a);
    case Cancel =>
  }

  lemma {:induction false} RunInv(p: Plan, s: State, acts: seq<Act>)
    requires Inv(p, s) && Legal(p, s, acts)
    ensures Inv(p, After(p, s, acts))
    decreases |acts|
  {
    if acts != [] {
      StepInv(p, s, acts[0]);
      RunInv(p, Step(p, s, acts[0]), acts[1..]);
    }
  }

  // ----- main results

  /** Every reachable state: the semaphore bounds the leaves in flight, the launched
      leaves are a prefix of the plan, and a slot is either still zero or holds exactly
      its own leaf's last outcome. */
  lemma Safety(p: Plan, acts: seq<Act>)
    requires Legal(p, Init(p), acts)
    ensures var s := After(p, Init(p), acts);
            && InFlight(s) <= MaxPar(p)
            && s.next <= |s.leaves| == |s.results| == |p.leaves|
            && (forall i :: 0 <= i < |s.leaves| ==> (s.leaves[i].pc != Idle <==> i < s.next))
            && (forall i :: 0 <= i < |s.leaves| ==>
                  s.results[i] == ZeroResult ||
                  s.results[i] == LeafResult(p.leaves[i].leafId, p.leaves[i].node,
                                             LastOutcome(s.leaves[i].tried).entries,
                                             LastOutcome(s.leaves[i].tried).err, s.results[i].duration))
  {
    InitInv(p);
    RunInv(p, Init(p), acts);
    var s := After(p, Init(p), acts);
    forall i | 0 <= i < |s.leaves|
      ensures s.results[i] == ZeroResult ||
              s.results[i] == LeafResult(p.leaves[i].leafId, p.leaves[i].node,
                                         LastOutcome(s.leaves[i].tried).entries,
                                         LastOutcome(s.leaves[i].tried).err, s.results[i].duration)
    {
      assert SlotInv(p.leaves[i], s.leaves[i], s.results[i]);
      assert LeafInv(p.retryEach, s.leaves[i], s.cancelled);
    }
  }

  /** A step changes at most one slot, and only leaf i's store changes slot i. */
  lemma SlotOwnership(p: Plan, s: State, a: Act, i: nat)
    requires Inv(p, s) && Enabled(p, s, a) && i < |s.results|
    ensures Step(p, s, a).results[i] != s.results[i] ==> a.LeafAct? && a.i == i && s.leaves[i].pc == Store
  {
  }

  /** No reachable unfinished state is stuck, even with no cancel to come. */
  lemma NeverStuck(p: Plan, s: State) returns (a: Act)
    requires Inv(p, s) && !s.main.Ended?
    ensures a != Cancel && Enabled(p, s, a)
  {
    SumZero(s.leaves, HoldsSlot);
    SumZero(s.leaves, Unfinished);
    if Enabled(p, s, Main) {
      a := Main;
    } else {
      assert Live(s) > 0;
      var l :| l in s.leaves && Unfinished(l) != 0;
      var i :| 0 <= i < |s.leaves| && s.leaves[i] == l;
      if l.pc.Release? { assert HoldsSlot(l) == 1; }
      a := LeafAct(i, NoOutcome, 0);
    }
  }

  function LeafCost(retry: int, l: Leaf): nat {
    var r := if retry < 0 then 0 else retry + 1;
    match l.pc
    case Idle => 3 * r + 5
    case Top(k) => if k <= r then 3 * (r - k) + 4 else 4
    case Calling(k) => if k <= r then 3 * (r - k) + 3 else 3
    case Judge(k) => if k <= r then 3 * (r - k) + 2 else 2
    case Store => 3
    case Release => 2
    case Signal => 1
    case Gone => 0
  }

  function Cost(retry: int): Leaf -> nat { l => LeafCost(retry, l) }

  function MainCost(p: Plan, s: State): nat {
    var left := if s.next <= |p.leaves| then |p.leaves| - s.next else 0;
    match s.main
    case Check => 3 * left + 3
    case Send => 3 * left + 2
    case Spawn => 3 * left + 1
    case Waiting => 2
    case Joined => 1
    case Ended(_) => 0
  }

  ghost function Measure(p: Plan, s: State): nat {
    MainCost(p, s) + Sum(s.leaves, Cost(p.retryEach)) + (if s.cancelled then 0 else 1)
  }

  lemma LeafCostDrops(retry: int, l: Leaf, o: Outcome, cancelled: bool)
    requires LeafInv(retry, l, cancelled) && !l.pc.Idle? && !l.pc.Gone?
    ensures LeafCost(retry, LeafNext(retry, l, o, cancelled)) < LeafCost(retry, l)
  {
  }

  /** Every step, of whatever thread, makes progress. */
  lemma StepDecreases(p: Plan, s: State, a: Act)
    requires Inv(p, s) && Enabled(p, s, a)
    ensures Measure(p, Step(p, s, a)) < Measure(p, s)
  {
    var t, f := Step(p, s, a), Cost(p.retryEach);
    if a.LeafAct? {
      SumUpdate(s.leaves, a.i, t.leaves[a.i], f);
      LeafCostDrops(p.retryEach, s.leaves[a.i], a.o, s.cancelled);
    } else if a.Main? && s.main.Spawn? {
      SumUpdate(s.leaves, s.next, t.leaves[s.next], f);
    }
  }

  lemma {:induction false} RunBound(p: Plan, s: State, acts: seq<Act>)
    requires Inv(p, s) && Legal(p, s, acts)
    ensures |acts| + Measure(p, After(p, s, acts)) <= Measure(p, s)
    decreases |acts|
  {
    if acts != [] {
      StepInv(p, s, acts[0]);
      StepDecreases(p, s, acts[0]);
      RunBound(p, Step(p, s, acts[0]), acts[1..]);
    }
  }

  /** No interleaving is longer than this; with NeverStuck, every maximal one ends Execute. */
  lemma Termination(p: Plan, acts: seq<Act>)
    requires Legal(p, Init(p), acts)
    ensures |acts| <= |p.leaves| * (3 * (if p.retryEach < 0 then 0 else p.retryEach + 1) + 8) + 4
  {
    InitInv(p);
    RunBound(p, Init(p), acts);
    var r := if p.retryEach < 0 then 0 else p.retryEach + 1;
    SumConst(Init(p).leaves, Cost(p.retryEach), 3 * r + 5);
    assert |p.leaves| * (3 * r + 8) == |p.leaves| * (3 * r + 5) + |p.leaves| * 3;
  }

  /** How Execute reports leaf `l` of a run that was not cancelled. */
  ghost predicate Reported(retry: int, inp: LeafInput, l: Leaf, r: LeafResult) {
    && r == LeafResult(inp.leafId, inp.node, LastOutcome(l.tried).entries, LastOutcome(l.tried).err, r.duration)
    && (retry >= 0 ==> 1 <= |l.tried| <= retry + 1 && AllFailed(l.tried[..|l.tried| - 1]))
    && (retry < 0 ==> l.tried == [])
    && (r.err.Some? <==> retry >= 0 && |l.tried| == retry + 1 && AllFailed(l.tried))
  }

  /** A run that ends uncancelled ran every leaf to its end: a leaf is reported failed
      exactly when all RetryEach+1 attempts failed, and what is kept is the last
      attempt's. A negative RetryEach never calls the runner and reports success. */
  lemma UncancelledRun(p: Plan, acts: seq<Act>)
    requires Legal(p, Init(p), acts)
    requires After(p, Init(p), acts).main == Ended(false)
    ensures var s := After(p, Init(p), acts);
            |s.leaves| == |s.results| == |p.leaves| &&
            forall i :: 0 <= i < |p.leaves| ==> Reported(p.retryEach, p.leaves[i], s.leaves[i], s.results[i])
  {
    InitInv(p);
    RunInv(p, Init(p), acts);
    var s := After(p, Init(p), acts);
    SumZero(s.leaves, Unfinished);
    forall i | 0 <= i < |p.leaves|
      ensures Reported(p.retryEach, p.leaves[i], s.leaves[i], s.results[i])
    {
      var l := s.leaves[i];
      assert Unfinished(l) == 0 && l.pc == Gone;
      assert LeafInv(p.retryEach, l, s.cancelled);
      assert SlotInv(p.leaves[i], l, s.results[i]);
      if l.tried != [] && l.out.err.Some? {
        assert AllFailed(l.tried);
      }
    }
  }

  /** Runner calls that leaf `l` has started. */
  function Calls(l: Leaf): nat {
    |l.tried| + if l.pc.Calling? then 1 else 0
  }

  /** Runner calls a leaf can still start once the cancel has landed. */
  function CallsLeft(l: Leaf): nat {
    if l.pc.Idle? || l.pc.Top? then 1 else 0
  }

  /** Leaves the dispatch loop can still launch once the cancel has landed. */
  function LaunchesLeft(s: State): nat {
    if s.main.Send? || s.main.Spawn? then 1 else 0
  }

  lemma CancelStep(p: Plan, s: State, a: Act, i: nat)
    requires Inv(p, s) && s.cancelled && Enabled(p, s, a) && i < |s.leaves|
    ensures var t := Step(p, s, a);
            && t.cancelled && |t.leaves| == |s.leaves|
            && s.next <= t.next && t.next + LaunchesLeft(t) <= s.next + LaunchesLeft(s)
            && Calls(t.leaves[i]) + CallsLeft(t.leaves[i]) <= Calls(s.leaves[i]) + CallsLeft(s.leaves[i])
  {
    assert LeafInv(p.retryEach, s.leaves[i], s.cancelled);
    if a.Main? && s.main.Spawn? && i == s.next { assert s.leaves[i] == IdleLeaf; }
  }

  lemma {:induction false} CancelPotential(p: Plan, s: State, acts: seq<Act>, i: nat)
    requires Inv(p, s) && s.cancelled && Legal(p, s, acts) && i < |s.leaves|
    ensures var t := After(p, s, acts);
            && |t.leaves| == |s.leaves|
            && s.next <= t.next && t.next + LaunchesLeft(t) <= s.next + LaunchesLeft(s)
            && Calls(t.leaves[i]) + CallsLeft(t.leaves[i]) <= Calls(s.leaves[i]) + CallsLeft(s.leaves[i])
    decreases |acts|
  {
    if acts != [] {
      StepInv(p, s, acts[0]);
      CancelStep(p, s, acts[0], i);
      CancelPotential(p, Step(p, s, acts[0]), acts[1..], i);
    }
  }

  /** In a run that goes on with `post` after a cancel landed, at most one more leaf is
      launched (one already past the cancellation check), and each leaf starts at most
      one more runner call (none if it was inside the runner or judging a failure). */
  lemma CancelBound(p: Plan, s: State, post: seq<Act>, i: nat)
    requires Inv(p, s) && Enabled(p, s, Cancel) && Legal(p, Step(p, s, Cancel), post) && i < |s.leaves|
    ensures var t := After(p, Step(p, s, Cancel), post);
            && |t.leaves| == |s.leaves|
            && t.next <= s.next + LaunchesLeft(s) <= s.next + 1
            && Calls(t.leaves[i]) <= Calls(s.leaves[i]) + CallsLeft(s.leaves[i]) <= Calls(s.leaves[i]) + 1
  {
    StepInv(p, s, Cancel);
    CancelPotential(p, Step(p, s, Cancel), post, i);
  }
}
