/** The process-wide table from task id to cancel func. */
module RunRegistry {
  import opened Strings

  /** A cancel func is named by the context it cancels. */
  type Ctx = nat

  /** The table, and the contexts whose cancel func was invoked through it. */
  datatype Table<K> = Table(cancels: map<K, Ctx>, fired: set<Ctx>)

  function Registered<K>(t: Table<K>, k: K, c: Ctx): Table<K> { t.(cancels := t.cancels[k := c]) }

  function Unregistered<K>(t: Table<K>, k: K): Table<K> { t.(cancels := t.cancels - {k}) }

  /** Cancel's section under the lock: look up and remove. */
  function Taken<K>(t: Table<K>, k: K): (Table<K>, Option<Ctx>) {
    if k in t.cancels then (Unregistered(t, k), Some(t.cancels[k])) else (t, None)
  }

  /** And what it does after: invoke what it took. */
  function Fired<K>(t: Table<K>, c: Ctx): Table<K> { t.(fired := t.fired + {c}) }

  class Registry {
    var cancels: map<string, Ctx>
    var fired: set<Ctx>

    ghost function Value(): Table<string>
      reads this
    {
      Table(cancels, fired)
    }

    constructor ()
      ensures Value() == Table(map[], {})
    {
      cancels, fired := map[], {};
    }

    /** An empty id or a nil func (None) is ignored. */
    method Register(taskId: string, cancel: Option<Ctx>)
      modifies this`cancels
      ensures Value() == if taskId == "" || cancel.None? then old(Value()) else Registered(old(Value()), taskId, cancel.value)
    {
      if taskId == "" || cancel.None? { return; }
      cancels := cancels[taskId := cancel.value];
    }

    method Unregister(taskId: string)
      modifies this`cancels
      ensures Value() == if taskId == "" then old(Value()) else Unregistered(old(Value()), taskId)
    {
      if taskId == "" { return; }
      cancels := cancels - {taskId};
    }

    /** Inspect and remove in one step, then invoke: a second Cancel answers false. */
    method Cancel(taskId: string) returns (ok: bool)
      modifies this
      ensures ok <==> taskId != "" && Taken(old(Value()), taskId).1.Some?
      ensures ok ==> var (t, c) := Taken(old(Value()), taskId); Value() == Fired(t, c.value) && taskId !in cancels
      ensures !ok ==> Value() == old(Value())
    {
      if taskId == "" || taskId !in cancels { return false; }
      var cancel := cancels[taskId];
      cancels := cancels - {taskId};
      fired := fired + {cancel};
      ok := true;
    }

    predicate Has(taskId: string)
      reads this
    {
      taskId != "" && taskId in cancels
    }
  }
}

/** fleet.SubmitJob and fleet.CancelTask as a step system: any number of handler calls
    and cancellers interleave, share the registry and the persisted idempotency map, and
    the process may be restarted at any point. */
module SubmitJob {
  import opened Strings
  import opened RunRegistry

  /** What Handle answered. */
  datatype Reply = Existing(id: nat) | Accepted(id: nat) | DispatchFailed | UnknownSku

  /** `Missed` after a fruitless lookup, `Minted` with a fresh task id, `Recorded` once the
      map is written, `Dispatching` once registered, `Returned` when the router is back,
      `Half` between the two clean-up actions. */
  datatype Pc =
    Idle | Missed | Minted | Recorded | Dispatching | Returned(err: bool) | Half(err: bool) | Done(reply: Reply)

  /** `router` is None for an unknown SKU, else whether the router is long-running. Task
      ids are fresh: call i mints the id i, and its dispatch context is i too. `stale`
      marks calls of a process that has been restarted; `failed` is history, whether the
      router returned an error. */
  datatype Call = Call(cloudJobId: string, router: Option<bool>, pc: Pc, stale: bool, failed: Option<bool>)

  datatype CancelPc = Waiting | Holding(ctx: nat) | Answered(ok: bool) | Lost

  datatype Canceller = Canceller(target: nat, pc: CancelPc)

  /** The persisted map as it can be read back; a file that does not exist or is empty is an
      empty map, bytes that do not parse are Torn. */
  datatype Stored = Ids(m: map<string, nat>) | Torn

  predicate Has(f: Stored, id: string) { f.Ids? && id in f.m }

  /** The map a read gives: None when the file cannot be read or parsed. */
  function ReadMap(f: Stored, read: bool): Option<map<string, nat>> {
    if read && f.Ids? then Some(f.m) else None
  }

  /** recordCloudJob on top of what it could read: an unreadable map counts as empty. */
  function Rewritten(f: Stored, read: bool, id: string, task: nat): Stored {
    var m := ReadMap(f, read);
    Ids((if m.Some? then m.value else map[])[id := task])
  }

  /** What a restart may find: the file is written without a sync, so a power loss can tear
      it, empty it or bring any earlier version back. */
  predicate Remains(s: State, found: Stored) {
    found == s.file || found.Torn? || found == Ids(map[]) || found in s.versions
  }

  /** `removed` is the history of tasks that some CancelTask took out of the registry,
      `disconnected` that of calls whose request ended, `versions` that of the maps written. */
  datatype State = State(
    calls: seq<Call>, cancellers: seq<Canceller>,
    registry: map<nat, nat>, removed: set<nat>, cancelled: set<nat>, disconnected: set<nat>,
    file: Stored, versions: seq<Stored>)

  /** `read` says whether reading the map's file works, `ok` whether writing it does; a
      restart finds the file as `found`. `Disconnect` is the end of a request's own context; `Take` and `Fire` are the two
      halves of Registry.Cancel, inside and after the lock. */
  datatype Act =
    | Lookup(i: nat, read: bool) | Mint(i: nat) | Record(i: nat, read: bool, ok: bool) | Register(i: nat)
    | Return(i: nat, err: bool) | Cleanup(i: nat) | Disconnect(i: nat) | Take(j: nat) | Fire(j: nat)
    | Restart(found: Stored)

  predicate Running(s: State, i: nat) { i < |s.calls| && !s.calls[i].stale }

  predicate Long(c: Call) { c.router == Some(true) }

  predicate Enabled(s: State, a: Act) {
    match a
    case Lookup(i, _) => Running(s, i) && s.calls[i].pc.Idle?
    case Mint(i) => Running(s, i) && s.calls[i].pc.Missed?
    case Record(i, _, _) => Running(s, i) && s.calls[i].pc.Minted?
    case Register(i) => Running(s, i) && s.calls[i].pc.Recorded?
    case Return(i, _) => Running(s, i) && s.calls[i].pc.Dispatching?
    case Cleanup(i) => Running(s, i) && (s.calls[i].pc.Returned? || s.calls[i].pc.Half?)
    case Disconnect(i) => Running(s, i)
    case Take(j) => j < |s.cancellers| && s.cancellers[j].pc.Waiting?
    case Fire(j) => j < |s.cancellers| && s.cancellers[j].pc.Holding?
    case Restart(found) => Remains(s, found)
  }

  function WithPc(s: State, i: nat, pc: Pc): State
    requires i < |s.calls|
  {
    s.(calls := s.calls[i := s.calls[i].(pc := pc)])
  }

  /** The registry as handlers and cancellers share it; task ids are never empty. */
  function Shared(s: State): Table<nat> { Table(s.registry, s.cancelled) }

  /** The deferred calls of a finite router run Unregister before cancel; the error path of
      a long-running one runs cancel before Unregister. */
  function CleanupStep(s: State, i: nat): State
    requires i < |s.calls| && (s.calls[i].pc.Returned? || s.calls[i].pc.Half?)
  {
    var c := s.calls[i];
    var err := c.pc.err;
    var reply := if err then DispatchFailed else Accepted(i);
    if Long(c) then
      if !err then WithPc(s, i, Done(reply))
      else if c.pc.Returned? then WithPc(s, i, Half(err)).(cancelled := s.cancelled + {i})
      else WithPc(s, i, Done(reply)).(registry := Unregistered(Shared(s), i).cancels)
    else
      if c.pc.Returned? then WithPc(s, i, Half(err)).(registry := Unregistered(Shared(s), i).cancels)
      else WithPc(s, i, Done(reply)).(cancelled := s.cancelled + {i})
  }

  function Step(s: State, a: Act): State
    requires Enabled(s, a)
  {
    match a
    case Lookup(i, read) =>
      var m, id := ReadMap(s.file, read), s.calls[i].cloudJobId;
      WithPc(s, i, if m.Some? && id in m.value then Done(Existing(m.value[id])) else Missed)
    case Mint(i) => WithPc(s, i, if s.calls[i].router.None? then Done(UnknownSku) else Minted)
    case Record(i, read, ok) =>
      var new' := Rewritten(s.file, read, s.calls[i].cloudJobId, i);
      if ok then WithPc(s, i, Recorded).(file := new', versions := s.versions + [new']) else WithPc(s, i, Recorded)
    case Register(i) => WithPc(s, i, Dispatching).(registry := Registered(Shared(s), i, i).cancels)
    case Return(i, err) =>
      s.(calls := s.calls[i := s.calls[i].(pc := Returned(err), failed := Some(err))])
    case Cleanup(i) => CleanupStep(s, i)
    case Disconnect(i) =>
      s.(disconnected := s.disconnected + {i}, cancelled := if Long(s.calls[i]) then s.cancelled else s.cancelled + {i})
    case Take(j) =>
      var k := s.cancellers[j].target;
      var (t, c) := Taken(Shared(s), k);
      s.(registry := t.cancels, removed := if c.Some? then s.removed + {k} else s.removed,
         cancellers := s.cancellers[j := s.cancellers[j].(pc := if c.Some? then Holding(c.value) else Answered(false))])
    case Fire(j) =>
      s.(cancelled := Fired(Shared(s), s.cancellers[j].pc.ctx).fired,
         cancellers := s.cancellers[j := s.cancellers[j].(pc := Answered(true))])
    case Restart(found) =>
      s.(file := found,
         calls := seq(|s.calls|, i requires 0 <= i < |s.calls| =>
                    if s.calls[i].pc.Idle? then s.calls[i] else s.calls[i].(stale := true)),
         cancellers := seq(|s.cancellers|, j requires 0 <= j < |s.cancellers| =>
                         if s.cancellers[j].pc.Holding? then s.cancellers[j].(pc := Lost) else s.cancellers[j]),
         registry := map[])
  }

  predicate Legal(s: State, acts: seq<Act>)
    decreases |acts|
  {
    acts == [] || (Enabled(s, acts[0]) && Legal(Step(s, acts[0]), acts[1..]))
  }

  function After(s: State, acts: seq<Act>): State
    requires Legal(s, acts)
    decreases |acts|
  {
    if acts == [] then s else After(Step(s, acts[0]), acts[1..])
  }

  /** Any number of calls and cancellers, none begun, an empty registry and map. */
  predicate Initial(s: State) {
    && (forall i :: 0 <= i < |s.calls| ==> s.calls[i].pc.Idle? && !s.calls[i].stale)
    && (forall j :: 0 <= j < |s.cancellers| ==> s.cancellers[j].pc.Waiting?)
    && s.registry == map[] && s.removed == {} && s.cancelled == {} && s.disconnected == {} && s.file == Ids(map[]) && s.versions == []
  }

  // ----- the life of a registration

  /** Between Register and the Unregister of its own clean-up. */
  predicate HoldsEntry(c: Call, i: nat) {
    || c.pc.Dispatching? || c.pc.Returned?
    || (c.pc.Half? && Long(c))
    || (c.pc == Done(Accepted(i)) && Long(c))
  }

  predicate Begun(c: Call) {
    c.pc.Dispatching? || c.pc.Returned? || c.pc.Half? || c.pc.Done?
  }

  predicate TookTarget(x: Canceller) { x.pc.Holding? || x.pc == Answered(true) || x.pc.Lost? }

  /** A task whose clean-up is over, or past its cancel, has its context cancelled. */
  predicate MustBeCancelled(c: Call) {
    || (c.pc.Half? && Long(c))
    || (c.pc.Done? && (c.pc.reply == DispatchFailed || (c.pc.reply.Accepted? && !Long(c))))
  }

  /** How call i stands to the registry, the removals and the cancelled contexts. */
  predicate CallOk(c: Call, i: nat, registered: bool, removed: bool, cancelled: bool) {
    && (registered ==> !c.stale && HoldsEntry(c, i) && !removed)
    && (!c.stale && HoldsEntry(c, i) ==> registered || removed)
    && (removed ==> Begun(c))
    && (MustBeCancelled(c) ==> cancelled)
    && (c.pc.Half? && Long(c) ==> c.pc.err)
    && (c.pc.Returned? || c.pc.Half? ==> c.failed == Some(c.pc.err))
    && (c.pc.Done? && c.pc.reply.Accepted? ==> c.failed == Some(false))
    && (c.pc.Done? && c.pc.reply == DispatchFailed ==> c.failed == Some(true))
    && (c.pc.Done? && c.pc.reply.Accepted? ==> c.pc.reply.id == i)
  }

  predicate CancellerOk(x: Canceller, removed: set<nat>, cancelled: set<nat>) {
    && (TookTarget(x) ==> x.target in removed)
    && (x.pc.Holding? ==> x.pc.ctx == x.target)
    && (x.pc == Answered(true) ==> x.target in cancelled)
  }

  ghost predicate DistinctTargets(xs: seq<Canceller>) {
    forall j, j' :: 0 <= j < j' < |xs| && TookTarget(xs[j]) && TookTarget(xs[j']) ==> xs[j].target != xs[j'].target
  }

  ghost predicate Inv(s: State) {
    && (forall k :: k in s.registry ==> k < |s.calls| && s.registry[k] == k)
    && (forall k :: k in s.removed ==> k < |s.calls|)
    && (forall i :: 0 <= i < |s.calls| ==> CallOk(s.calls[i], i, i in s.registry, i in s.removed, i in s.cancelled))
    && (forall j :: 0 <= j < |s.cancellers| ==> CancellerOk(s.cancellers[j], s.removed, s.cancelled))
    && DistinctTargets(s.cancellers)
  }

  predicate IsCallStep(a: Act) {
    a.Lookup? || a.Mint? || a.Record? || a.Register? || a.Return? || a.Cleanup? || a.Disconnect?
  }

  /** A handler's own step touches its own call, registration and context only. */
  lemma CallStepFrame(s: State, a: Act)
    requires Enabled(s, a) && IsCallStep(a)
    ensures var t := Step(s, a);
            && |t.calls| == |s.calls| && t.cancellers == s.cancellers && t.removed == s.removed
            && s.cancelled <= t.cancelled <= s.cancelled + {a.i}
            && t.registry - {a.i} == s.registry - {a.i}
            && (a.i in t.registry ==> a.i in s.registry || t.registry[a.i] == a.i)
            && (a.i in t.registry && a.i in s.registry ==> t.registry[a.i] == s.registry[a.i] || t.registry[a.i] == a.i)
            && forall x :: 0 <= x < |s.calls| && x != a.i ==> t.calls[x] == s.calls[x]
  {
  }

  lemma OwnStep(s: State, a: Act)
    requires Enabled(s, a) && IsCallStep(a)
    requires CallOk(s.calls[a.i], a.i, a.i in s.registry, a.i in s.removed, a.i in s.cancelled)
    ensures var t := Step(s, a); CallOk(t.calls[a.i], a.i, a.i in t.registry, a.i in t.removed, a.i in t.cancelled)
  {
    match a
    case Cleanup(i) =>
    case _ =>
  }

  lemma CallStepInv(s: State, a: Act)
    requires Inv(s) && Enabled(s, a) && IsCallStep(a)
    ensures Inv(Step(s, a))
  {
    var t := Step(s, a);
    CallStepFrame(s, a);
    OwnStep(s, a);
    forall x | x != a.i
      ensures (x in t.registry <==> x in s.registry) && (x in t.registry ==> t.registry[x] == s.registry[x])
    {
      assert x in t.registry <==> x in t.registry - {a.i};
      assert x in s.registry <==> x in s.registry - {a.i};
      if x in t.registry { assert (t.registry - {a.i})[x] == (s.registry - {a.i})[x]; }
    }
    forall x | 0 <= x < |t.calls|
      ensures CallOk(t.calls[x], x, x in t.registry, x in t.removed, x in t.cancelled)
    {
      assert CallOk(s.calls[x], x, x in s.registry, x in s.removed, x in s.cancelled);
    }
  }

  lemma TakeInv(s: State, j: nat)
    requires Inv(s) && Enabled(s, Take(j))
    ensures Inv(Step(s, Take(j)))
  {
    var t := Step(s, Take(j));
    forall x | 0 <= x < |t.calls|
      ensures CallOk(t.calls[x], x, x in t.registry, x in t.removed, x in t.cancelled)
    {
      assert CallOk(s.calls[x], x, x in s.registry, x in s.removed, x in s.cancelled);
    }
    forall m | 0 <= m < |t.cancellers| && m != j
      ensures TookTarget(t.cancellers[m]) && TookTarget(t.cancellers[j]) ==> t.cancellers[m].target != t.cancellers[j].target
    {
      assert CancellerOk(s.cancellers[m], s.removed, s.cancelled);
    }
  }

  lemma FireInv(s: State, j: nat)
    requires Inv(s) && Enabled(s, Fire(j))
    ensures Inv(Step(s, Fire(j)))
  {
    var t := Step(s, Fire(j));
    assert forall m :: 0 <= m < |s.cancellers| ==>
      t.cancellers[m].target == s.cancellers[m].target && TookTarget(t.cancellers[m]) == TookTarget(s.cancellers[m]);
  }

  lemma RestartInv(s: State, found: Stored)
    requires Inv(s) && Enabled(s, Restart(found))
    ensures Inv(Step(s, Restart(found)))
  {
    var t := Step(s, Restart(found));
    assert forall m :: 0 <= m < |s.cancellers| ==>
      t.cancellers[m].target == s.cancellers[m].target && TookTarget(t.cancellers[m]) == TookTarget(s.cancellers[m]);
    forall x | 0 <= x < |t.calls|
      ensures CallOk(t.calls[x], x, x in t.registry, x in t.removed, x in t.cancelled)
    {
      assert CallOk(s.calls[x], x, x in s.registry, x in s.removed, x in s.cancelled);
    }
  }

  lemma {:induction false} RunInv(s: State, acts: seq<Act>)
    requires Inv(s) && Legal(s, acts)
    ensures Inv(After(s, acts))
    decreases |acts|
  {
    if acts != [] {
      match acts[0] {
        case Take(j) => TakeInv(s, j);
        case Fire(j) => FireInv(s, j);
        case Restart(found) => RestartInv(s, found);
        case _ => CallStepInv(s, acts[0]);
      }
      RunInv(Step(s, acts[0]), acts[1..]);
    }
  }

  /** In every interleaving: CancelTask answers true at most once per task and has then
      cancelled it; only tasks in dispatch or successful long-running ones are in the
      registry; once Handle has returned, a finite or failed task is out of the registry
      with its context cancelled, and a successful long-running task of this process is
      registered exactly until a cancel removes it; the reply tells whether the router failed. */
  lemma Lifecycle(s: State, acts: seq<Act>)
    requires Initial(s) && Legal(s, acts)
    ensures var t := After(s, acts);
            && (forall j, j' :: 0 <= j < j' < |t.cancellers| && t.cancellers[j].pc == t.cancellers[j'].pc == Answered(true) ==>
                  t.cancellers[j].target != t.cancellers[j'].target)
            && (forall j :: 0 <= j < |t.cancellers| && t.cancellers[j].pc == Answered(true) ==>
                  t.cancellers[j].target in t.cancelled)
            && (forall k :: k in t.registry ==> k < |t.calls| && !t.calls[k].stale && HoldsEntry(t.calls[k], k))
            && (forall i :: 0 <= i < |t.calls| && t.calls[i].pc.Done? && !t.calls[i].stale ==>
                  var reply := t.calls[i].pc.reply;
                  if reply.Accepted? && Long(t.calls[i])
                  then reply == Accepted(i) && (i in t.registry <==> i !in t.removed)
                  else i !in t.registry && (reply == DispatchFailed || reply.Accepted? ==> i in t.cancelled))
            && (forall i :: 0 <= i < |t.calls| && t.calls[i].pc.Done? && !t.calls[i].pc.reply.Existing? && t.calls[i].pc.reply != UnknownSku ==>
                  t.calls[i].failed.Some? && t.calls[i].pc.reply == if t.calls[i].failed.value then DispatchFailed else Accepted(i))
  {
    RunInv(s, acts);
    var t := After(s, acts);
    assert forall i :: 0 <= i < |t.calls| ==> CallOk(t.calls[i], i, i in t.registry, i in t.removed, i in t.cancelled);
    assert forall j :: 0 <= j < |t.cancellers| ==> CancellerOk(t.cancellers[j], t.removed, t.cancelled);
  }

  // ----- which contexts are cancelled

  /** Some CancelTask has answered true for the task. */
  predicate CancelAnswered(s: State, i: nat) {
    exists j :: 0 <= j < |s.cancellers| && s.cancellers[j].target == i && s.cancellers[j].pc == Answered(true)
  }

  /** A canceller fired; or the dispatch failed and was torn down; or, for a finite call, its
      clean-up is over or its request ended. */
  predicate Cause(s: State, i: nat)
    requires i < |s.calls|
  {
    var c := s.calls[i];
    || CancelAnswered(s, i)
    || c.pc == Done(DispatchFailed) || (Long(c) && c.pc.Half?)
    || (!Long(c) && (i in s.disconnected || c.pc == Done(Accepted(i))))
  }

  ghost predicate CauseInv(s: State) {
    forall i :: 0 <= i < |s.calls| ==> (i in s.cancelled ==> Cause(s, i)) && (!Long(s.calls[i]) && i in s.disconnected ==> i in s.cancelled)
  }

  lemma AnswersStay(s: State, a: Act, i: nat)
    requires Enabled(s, a) && CancelAnswered(s, i)
    ensures CancelAnswered(Step(s, a), i)
  {
    var j :| 0 <= j < |s.cancellers| && s.cancellers[j].target == i && s.cancellers[j].pc == Answered(true);
    assert Step(s, a).cancellers[j] == s.cancellers[j];
  }

  /** A cause stays a cause. */
  lemma CauseStays(s: State, a: Act, i: nat)
    requires Inv(s) && Enabled(s, a) && i < |s.calls| && Cause(s, i)
    ensures Cause(Step(s, a), i)
  {
    if CancelAnswered(s, i) { AnswersStay(s, a, i); }
    assert CallOk(s.calls[i], i, i in s.registry, i in s.removed, i in s.cancelled);
  }

  /** What a step cancels has a cause. */
  lemma NewCause(s: State, a: Act, i: nat)
    requires Inv(s) && Enabled(s, a) && i < |s.calls| && i !in s.cancelled && i in Step(s, a).cancelled
    ensures Cause(Step(s, a), i)
  {
    var t := Step(s, a);
    assert CallOk(s.calls[i], i, i in s.registry, i in s.removed, i in s.cancelled);
    if a.Fire? {
      assert CancellerOk(s.cancellers[a.j], s.removed, s.cancelled);
      assert t.cancellers[a.j].target == i && t.cancellers[a.j].pc == Answered(true);
    }
  }

  lemma CauseStep(s: State, a: Act)
    requires Inv(s) && CauseInv(s) && Enabled(s, a)
    ensures CauseInv(Step(s, a))
  {
    var t := Step(s, a);
    forall i | 0 <= i < |t.calls|
      ensures i in t.cancelled ==> Cause(t, i)
      ensures !Long(t.calls[i]) && i in t.disconnected ==> i in t.cancelled
    {
      assert t.calls[i].router == s.calls[i].router;
      if i in s.cancelled { CauseStays(s, a, i); } else if i in t.cancelled { NewCause(s, a, i); }
    }
  }

  lemma {:induction false} CauseRun(s: State, acts: seq<Act>)
    requires Inv(s) && CauseInv(s) && Legal(s, acts)
    ensures CauseInv(After(s, acts))
    decreases |acts|
  {
    if acts != [] {
      CauseStep(s, acts[0]);
      RunInv(s, acts[..1]);
      assert acts[..1][1..] == [] && acts[..1][0] == acts[0];
      assert After(Step(s, acts[0]), []) == Step(s, acts[0]);
      CauseRun(Step(s, acts[0]), acts[1..]);
    }
  }

  /** In every run a context is cancelled if and only if it has a cause. So a successful
      long-running task's context lives on until, and only until, a CancelTask for it fires. */
  lemma CancelledIff(s: State, acts: seq<Act>, i: nat)
    requires Initial(s) && Legal(s, acts) && i < |After(s, acts).calls|
    ensures var t := After(s, acts);
            && (i in t.cancelled <==> Cause(t, i))
            && (Long(t.calls[i]) && t.calls[i].pc == Done(Accepted(i)) ==> (i in t.cancelled <==> CancelAnswered(t, i)))
  {
    RunInv(s, acts);
    CauseRun(s, acts);
    var t := After(s, acts);
    assert CallOk(t.calls[i], i, i in t.registry, i in t.removed, i in t.cancelled);
    if CancelAnswered(t, i) {
      var j :| 0 <= j < |t.cancellers| && t.cancellers[j].target == i && t.cancellers[j].pc == Answered(true);
      assert CancellerOk(t.cancellers[j], t.removed, t.cancelled);
    }
  }

  // ----- idempotence

  /** A call whose SKU has a router. */
  predicate Dispatchable(c: Call) { c.router.Some? }

  /** Between a fruitless lookup and the record. */
  predicate InWindow(c: Call) { !c.stale && (c.pc.Missed? || c.pc.Minted?) }

  /** A call that may still come to dispatch: not yet recorded. */
  predicate Coming(c: Call) { Dispatchable(c) && (InWindow(c) || (!c.stale && c.pc.Idle?)) }

  predicate PastRecord(c: Call, i: nat) {
    || c.pc.Recorded? || c.pc.Dispatching? || c.pc.Returned? || c.pc.Half?
    || (c.pc.Done? && (c.pc.reply == Accepted(i) || c.pc.reply == DispatchFailed))
  }

  predicate Dispatched(c: Call) {
    c.pc.Dispatching? || c.pc.Returned? || c.pc.Half? || (c.pc.Done? && (c.pc.reply.Accepted? || c.pc.reply == DispatchFailed))
  }

  predicate SameJob(s: State, i: nat, j: nat) {
    i < |s.calls| && j < |s.calls| && i != j && s.calls[i].cloudJobId == s.calls[j].cloudJobId
  }

  // What makes a step dangerous, on account of a call j.

  /** A lookup while another dispatchable call of the id is in the window. */
  predicate Overlaps(s: State, a: Act, j: nat)
    requires Enabled(s, a)
  {
    a.Lookup? && SameJob(s, a.i, j) && Dispatchable(s.calls[a.i]) && Coming(s.calls[j]) && InWindow(s.calls[j])
  }

  /** A lookup of an id that the map has, by a dispatchable call that cannot read it. */
  predicate Blind(s: State, a: Act, j: nat)
    requires Enabled(s, a)
  {
    a.Lookup? && a.i == j && !a.read && Dispatchable(s.calls[j]) && Has(s.file, s.calls[j].cloudJobId)
  }

  /** A record that fails while another dispatchable call of the id is still to come. */
  predicate Unrecorded(s: State, a: Act, j: nat)
    requires Enabled(s, a)
  {
    a.Record? && !a.ok && SameJob(s, a.i, j) && Coming(s.calls[j])
  }

  /** A blind record or a restart after which the map lacks an id it had, with a dispatchable
      call of that id still to come. */
  predicate Forgets(s: State, a: Act, j: nat)
    requires Enabled(s, a)
  {
    && j < |s.calls| && Has(s.file, s.calls[j].cloudJobId) && Coming(s.calls[j])
    && ((a.Record? && a.ok && !a.read && s.calls[a.i].cloudJobId != s.calls[j].cloudJobId)
        || (a.Restart? && s.calls[j].pc.Idle? && !Has(a.found, s.calls[j].cloudJobId)))
  }

  predicate Endangers(s: State, a: Act, j: nat)
    requires Enabled(s, a)
  {
    Overlaps(s, a, j) || Blind(s, a, j) || Unrecorded(s, a, j) || Forgets(s, a, j)
  }

  predicate Hazard(s: State, a: Act)
    requires Enabled(s, a)
  {
    exists j :: 0 <= j < |s.calls| && Endangers(s, a, j)
  }

  predicate SafeRun(s: State, acts: seq<Act>)
    requires Legal(s, acts)
    decreases |acts|
  {
    acts == [] || (!Hazard(s, acts[0]) && SafeRun(Step(s, acts[0]), acts[1..]))
  }

  /** The id call i handed back, if any. */
  function Answer(c: Call): Option<nat> {
    if c.pc.Done? && (c.pc.reply.Existing? || c.pc.reply.Accepted?) then Some(c.pc.reply.id) else None
  }

  /** Call i against the persisted map: in the window its id is unmapped; a recorded call is
      the one its id maps to, if any. */
  predicate MapOk(c: Call, i: nat, file: Stored) {
    && (InWindow(c) && Dispatchable(c) ==> !Has(file, c.cloudJobId))
    && ((c.pc.Minted? || PastRecord(c, i)) ==> Dispatchable(c))
    && (PastRecord(c, i) && Has(file, c.cloudJobId) ==> file.m[c.cloudJobId] == i)
    && (c.pc.Done? && c.pc.reply.Accepted? ==> c.pc.reply.id == i)
  }

  /** Two calls of one id: not both in the window or recorded, and once one is recorded
      another can come only if the map has the id. */
  predicate PairOk(c: Call, i: nat, d: Call, j: nat, file: Stored) {
    && !(Coming(c) && InWindow(c) && Coming(d) && InWindow(d))
    && !(PastRecord(c, i) && PastRecord(d, j))
    && (PastRecord(c, i) && Coming(d) ==> Has(file, c.cloudJobId))
  }

  /** `task` is the task that was recorded for the id. */
  predicate TaskOf(calls: seq<Call>, id: string, task: nat) {
    task < |calls| && calls[task].cloudJobId == id && PastRecord(calls[task], task)
  }

  /** Every id of the map stands for a task recorded for it. */
  ghost predicate Named(calls: seq<Call>, f: Stored) {
    forall id :: Has(f, id) ==> TaskOf(calls, id, f.m[id])
  }

  ghost predicate MapInv(s: State) {
    && (forall i :: 0 <= i < |s.calls| ==> MapOk(s.calls[i], i, s.file))
    && (forall i: nat, j: nat :: SameJob(s, i, j) ==> PairOk(s.calls[i], i, s.calls[j], j, s.file))
    && Named(s.calls, s.file) && (forall v :: v in s.versions ==> Named(s.calls, v))
    && (forall i :: 0 <= i < |s.calls| && s.calls[i].pc.Done? && s.calls[i].pc.reply.Existing? ==>
          TaskOf(s.calls, s.calls[i].cloudJobId, s.calls[i].pc.reply.id))
  }

  /** What a handler's own step does to its call and the map. */
  lemma MapOwnStep(s: State, a: Act)
    requires Enabled(s, a) && IsCallStep(a) && MapOk(s.calls[a.i], a.i, s.file)
    ensures var t := Step(s, a);
            var c, d := s.calls[a.i], t.calls[a.i];
            && (!(a.Lookup? && !a.read && Dispatchable(c) && Has(s.file, c.cloudJobId)) ==> MapOk(d, a.i, t.file))
            && d.cloudJobId == c.cloudJobId && d.router == c.router && d.stale == c.stale
            && t.file == (if a.Record? && a.ok then Rewritten(s.file, a.read, c.cloudJobId, a.i) else s.file)
            && (a.Record? ==> InWindow(c) && Dispatchable(c) && PastRecord(d, a.i))
            && (Coming(d) ==> Coming(c))
            && (Coming(d) && InWindow(d) ==> a.Lookup? || InWindow(c))
            && (PastRecord(d, a.i) <==> a.Record? || PastRecord(c, a.i))
            && (d.pc.Done? && d.pc.reply.Existing? && !(c.pc.Done? && c.pc.reply == d.pc.reply) ==>
                  Has(s.file, c.cloudJobId) && d.pc.reply.id == s.file.m[c.cloudJobId])
  {
    match a
    case Cleanup(i) =>
    case _ =>
  }

  lemma PairStep(s: State, a: Act, j: nat)
    requires MapInv(s) && Enabled(s, a) && IsCallStep(a) && !Hazard(s, a) && SameJob(s, a.i, j)
    ensures var t := Step(s, a);
            && PairOk(t.calls[a.i], a.i, s.calls[j], j, t.file)
            && PairOk(s.calls[j], j, t.calls[a.i], a.i, t.file)
  {
    MapOwnStep(s, a);
    assert SameJob(s, j, a.i);
    assert PairOk(s.calls[a.i], a.i, s.calls[j], j, s.file) && PairOk(s.calls[j], j, s.calls[a.i], a.i, s.file);
    assert MapOk(s.calls[j], j, s.file) && MapOk(s.calls[a.i], a.i, s.file);
    assert !Endangers(s, a, j);
  }

  /** The other calls against the map that a handler's step leaves. */
  lemma MapOtherStep(s: State, a: Act, x: nat)
    requires MapInv(s) && Enabled(s, a) && IsCallStep(a) && !Hazard(s, a) && x < |s.calls| && x != a.i
    ensures MapOk(s.calls[x], x, Step(s, a).file)
  {
    MapOwnStep(s, a);
    assert MapOk(s.calls[x], x, s.file);
    if a.Record? && s.calls[x].cloudJobId == s.calls[a.i].cloudJobId {
      assert SameJob(s, a.i, x);
      PairStep(s, a, x);
    }
  }

  /** Two calls of one id, neither of which moves: the map still has their id if it must. */
  lemma OtherPairs(s: State, a: Act, x: nat, y: nat)
    requires MapInv(s) && Enabled(s, a) && IsCallStep(a) && !Hazard(s, a) && SameJob(s, x, y) && x != a.i && y != a.i
    ensures PairOk(s.calls[x], x, s.calls[y], y, Step(s, a).file)
  {
    MapOwnStep(s, a);
    assert PairOk(s.calls[x], x, s.calls[y], y, s.file);
    assert !Endangers(s, a, y);
  }

  lemma OwnMapOk(s: State, a: Act)
    requires MapInv(s) && Enabled(s, a) && IsCallStep(a) && !Hazard(s, a)
    ensures MapOk(Step(s, a).calls[a.i], a.i, Step(s, a).file)
  {
    assert MapOk(s.calls[a.i], a.i, s.file);
    MapOwnStep(s, a);
    assert !Endangers(s, a, a.i);
  }

  /** Recorded tasks stay recorded, so what the map and the answers name stays named. */
  lemma NamedTasks(s: State, a: Act)
    requires MapInv(s) && Enabled(s, a) && IsCallStep(a)
    ensures var t := Step(s, a);
            && (forall id, task :: TaskOf(s.calls, id, task) ==> TaskOf(t.calls, id, task))
            && Named(t.calls, t.file) && (forall v :: v in t.versions ==> Named(t.calls, v))
            && (forall i :: 0 <= i < |t.calls| && t.calls[i].pc.Done? && t.calls[i].pc.reply.Existing? ==>
                  TaskOf(t.calls, t.calls[i].cloudJobId, t.calls[i].pc.reply.id))
  {
    var t := Step(s, a);
    assert MapOk(s.calls[a.i], a.i, s.file);
    MapOwnStep(s, a);
    CallStepFrame(s, a);
    assert forall id, task :: TaskOf(s.calls, id, task) ==> TaskOf(t.calls, id, task);
  }

  lemma MapCallStep(s: State, a: Act)
    requires MapInv(s) && Enabled(s, a) && IsCallStep(a) && !Hazard(s, a)
    ensures MapInv(Step(s, a))
  {
    var t := Step(s, a);
    CallStepFrame(s, a);
    NamedTasks(s, a);
    MapOwnStep(s, a);
    forall x | 0 <= x < |t.calls|
      ensures MapOk(t.calls[x], x, t.file)
    {
      if x == a.i { OwnMapOk(s, a); } else { MapOtherStep(s, a, x); }
    }
    forall x: nat, y: nat | SameJob(t, x, y)
      ensures PairOk(t.calls[x], x, t.calls[y], y, t.file)
    {
      assert SameJob(s, x, y);
      if x == a.i { PairStep(s, a, y); }
      else if y == a.i { assert SameJob(s, y, x); PairStep(s, a, x); }
      else { OtherPairs(s, a, x, y); }
    }
  }

  lemma MapRestart(s: State, found: Stored)
    requires MapInv(s) && Enabled(s, Restart(found)) && !Hazard(s, Restart(found))
    ensures MapInv(Step(s, Restart(found)))
  {
    var t := Step(s, Restart(found));
    assert forall id, task :: TaskOf(s.calls, id, task) ==> TaskOf(t.calls, id, task);
    forall x | 0 <= x < |t.calls|
      ensures MapOk(t.calls[x], x, t.file)
    {
      assert MapOk(s.calls[x], x, s.file);
    }
    forall x: nat, y: nat | SameJob(t, x, y)
      ensures PairOk(t.calls[x], x, t.calls[y], y, t.file)
    {
      assert SameJob(s, x, y) && PairOk(s.calls[x], x, s.calls[y], y, s.file);
      assert !Endangers(s, Restart(found), y);
    }
  }

  lemma MapStep(s: State, a: Act)
    requires MapInv(s) && Enabled(s, a) && !Hazard(s, a)
    ensures MapInv(Step(s, a))
  {
    if IsCallStep(a) {
      MapCallStep(s, a);
    } else if a.Restart? {
      MapRestart(s, a.found);
    } else {
      var t := Step(s, a);
      assert t.calls == s.calls && t.file == s.file;
      assert forall x: nat, y: nat :: SameJob(t, x, y) ==> SameJob(s, x, y);
    }
  }

  lemma {:induction false} MapRun(s: State, acts: seq<Act>)
    requires MapInv(s) && Legal(s, acts) && SafeRun(s, acts)
    ensures MapInv(After(s, acts))
    decreases |acts|
  {
    if acts != [] {
      MapStep(s, acts[0]);
      MapRun(Step(s, acts[0]), acts[1..]);
    }
  }

  /** Two tasks stand recorded for one cloud_job_id. */
  predicate Split(s: State, i: nat, j: nat) {
    SameJob(s, i, j) && PastRecord(s.calls[i], i) && PastRecord(s.calls[j], j)
  }

  /** Without a hazard, across interleavings, unreadable files and restarts, no job is split:
      each cloud_job_id is dispatched at most once and all task ids handed out for it agree. */
  lemma Idempotent(s: State, acts: seq<Act>, i: nat, j: nat)
    requires Initial(s) && Legal(s, acts) && SafeRun(s, acts)
    requires SameJob(After(s, acts), i, j)
    ensures var t := After(s, acts);
            && !Split(t, i, j)
            && !(Dispatched(t.calls[i]) && Dispatched(t.calls[j]))
            && (Answer(t.calls[i]).Some? && Answer(t.calls[j]).Some? ==> Answer(t.calls[i]) == Answer(t.calls[j]))
            && (Dispatched(t.calls[i]) && Answer(t.calls[j]).Some? ==> Answer(t.calls[j]) == Some(i))
  {
    MapRun(s, acts);
    var t := After(s, acts);
    assert MapOk(t.calls[i], i, t.file) && MapOk(t.calls[j], j, t.file);
    forall x: nat, y: nat | TaskOf(t.calls, t.calls[i].cloudJobId, x) && TaskOf(t.calls, t.calls[i].cloudJobId, y)
      ensures x == y
    {
      OneTask(t, t.calls[i].cloudJobId, x, y);
    }
  }

  /** A job has one recorded task. */
  lemma OneTask(s: State, id: string, x: nat, y: nat)
    requires MapInv(s) && TaskOf(s.calls, id, x) && TaskOf(s.calls, id, y)
    ensures x == y
  {
    if SameJob(s, x, y) { assert false; }
  }

  // ----- the persisted map grows

  /** Nothing that was in the persisted map is dropped or changed. */
  ghost predicate Grows(old': Stored, new': Stored) {
    forall id :: Has(old', id) ==> Has(new', id) && new'.m[id] == old'.m[id]
  }

  /** A record that writes without having read a map of other ids, or a restart that finds
      less than was there. */
  predicate Drops(s: State, a: Act)
    requires Enabled(s, a)
  {
    || (a.Record? && a.ok && !a.read && s.file.Ids? && exists id :: id in s.file.m && id != s.calls[a.i].cloudJobId)
    || (a.Restart? && s.file.Ids? && exists id :: id in s.file.m && !Has(a.found, id))
  }

  /** A step after a run without hazard loses entries of the map exactly if it drops them. */
  lemma GrowsIff(s: State, a: Act)
    requires MapInv(s) && Enabled(s, a)
    ensures Grows(s.file, Step(s, a).file) <==> !Drops(s, a)
  {
    var t := Step(s, a);
    if IsCallStep(a) {
      assert MapOk(s.calls[a.i], a.i, s.file);
      MapOwnStep(s, a);
    }
    if a.Record? && a.ok && !a.read && s.file.Ids? {
      assert t.file == Ids(map[][s.calls[a.i].cloudJobId := a.i]);
    }
  }

  predicate KeepingRun(s: State, acts: seq<Act>)
    requires Legal(s, acts)
    decreases |acts|
  {
    acts == [] || (!Drops(s, acts[0]) && KeepingRun(Step(s, acts[0]), acts[1..]))
  }

  lemma {:induction false} GrowsRun(s: State, acts: seq<Act>)
    requires MapInv(s) && Legal(s, acts) && SafeRun(s, acts) && KeepingRun(s, acts)
    ensures Grows(s.file, After(s, acts).file)
    decreases |acts|
  {
    if acts != [] {
      GrowsIff(s, acts[0]);
      MapStep(s, acts[0]);
      GrowsRun(Step(s, acts[0]), acts[1..]);
    }
  }

  /** So over a run that neither meets a hazard nor drops anything no entry of the persisted
      map is lost or changed, whatever else fails. */
  lemma MapGrows(s: State, pre: seq<Act>, post: seq<Act>)
    requires Initial(s) && Legal(s, pre) && SafeRun(s, pre)
    requires Legal(After(s, pre), post) && SafeRun(After(s, pre), post) && KeepingRun(After(s, pre), post)
    ensures Grows(After(s, pre).file, After(After(s, pre), post).file)
  {
    MapRun(s, pre);
    GrowsRun(After(s, pre), post);
  }

  /** No lookup starts while another call of its id is inside the window, the map is read and
      written without error, and a restart finds it as it was. */
  predicate Orderly(s: State, a: Act)
    requires Enabled(s, a)
  {
    && (a.Lookup? ==> a.read && forall j :: 0 <= j < |s.calls| && SameJob(s, a.i, j) ==> !InWindow(s.calls[j]))
    && (a.Record? ==> a.read && a.ok)
    && (a.Restart? ==> a.found == s.file)
  }

  predicate OrderlyRun(s: State, acts: seq<Act>)
    requires Legal(s, acts)
    decreases |acts|
  {
    acts == [] || (Orderly(s, acts[0]) && OrderlyRun(Step(s, acts[0]), acts[1..]))
  }

  /** The promise as documented: calls of one id that do not overlap, with persistence that
      works, run without a hazard and without a loss. */
  lemma {:induction false} OrderlyIsSafe(s: State, acts: seq<Act>)
    requires Legal(s, acts) && OrderlyRun(s, acts)
    ensures SafeRun(s, acts) && KeepingRun(s, acts)
    decreases |acts|
  {
    if acts != [] {
      assert !Hazard(s, acts[0]) && !Drops(s, acts[0]);
      OrderlyIsSafe(Step(s, acts[0]), acts[1..]);
    }
  }

  // ----- the hazards are exactly what goes wrong

  /** Persistence works from here on, and nothing is restarted. */
  ghost predicate Works(acts: seq<Act>) {
    forall x :: 0 <= x < |acts| ==>
      !acts[x].Restart? && (acts[x].Lookup? ==> acts[x].read) && (acts[x].Record? ==> acts[x].read && acts[x].ok)
  }

  lemma {:induction false} LegalConcat(s: State, a: seq<Act>, b: seq<Act>)
    requires Legal(s, a) && Legal(After(s, a), b)
    ensures Legal(s, a + b) && After(s, a + b) == After(After(s, a), b)
    ensures SafeRun(s, a) && SafeRun(After(s, a), b) ==> SafeRun(s, a + b)
    decreases |a|
  {
    if a == [] {
      assert a + b == b;
    } else {
      assert (a + b)[0] == a[0] && (a + b)[1..] == a[1..] + b;
      LegalConcat(Step(s, a[0]), a[1..], b);
    }
  }

  lemma OneStep(s: State, a: Act)
    requires Enabled(s, a)
    ensures Legal(s, [a]) && After(s, [a]) == Step(s, a) && (SafeRun(s, [a]) <==> !Hazard(s, a))
  {
    assert [a][1..] == [];
    assert Legal(Step(s, a), []) && After(Step(s, a), []) == Step(s, a) && SafeRun(Step(s, a), []);
  }

  /** What another call's progress leaves alone. */
  predicate OnlyCall(s: State, t: State, i: nat) {
    && |t.calls| == |s.calls|
    && forall x :: 0 <= x < |s.calls| && x != i ==> t.calls[x] == s.calls[x]
  }

  /** `acts` brings call i to dispatch without a further hazard. */
  ghost predicate Dispatches(s: State, acts: seq<Act>, i: nat) {
    && Legal(s, acts) && SafeRun(s, acts) && Works(acts)
    && OnlyCall(s, After(s, acts), i) && i < |s.calls| && Dispatched(After(s, acts).calls[i])
    && After(s, acts).calls[i].cloudJobId == s.calls[i].cloudJobId && PastRecord(After(s, acts).calls[i], i)
  }

  /** First one step of call i, then the rest. */
  lemma StepThenDispatch(s: State, a: Act, more: seq<Act>, i: nat)
    requires Enabled(s, a) && !Hazard(s, a) && Works([a]) && OnlyCall(s, Step(s, a), i) && i < |s.calls|
    requires Step(s, a).calls[i].cloudJobId == s.calls[i].cloudJobId && Dispatches(Step(s, a), more, i)
    ensures Dispatches(s, [a] + more, i)
  {
    OneStep(s, a);
    LegalConcat(s, [a], more);
  }

  /** A call that is recorded goes on to dispatch. */
  lemma RecordedDispatches(s: State, i: nat) returns (acts: seq<Act>)
    requires Running(s, i) && s.calls[i].pc.Recorded?
    ensures Dispatches(s, acts, i) && After(s, acts).file == s.file
  {
    acts := [Register(i)];
    assert !Hazard(s, Register(i));
    OneStep(s, Register(i));
  }

  /** And so does a call past its lookup. */
  lemma WindowDispatches(s: State, i: nat) returns (acts: seq<Act>)
    requires i < |s.calls| && InWindow(s.calls[i]) && Dispatchable(s.calls[i])
    ensures Dispatches(s, acts, i)
    decreases if i < |s.calls| && s.calls[i].pc.Missed? then 1 else 0
  {
    var a := if s.calls[i].pc.Missed? then Mint(i) else Record(i, true, true);
    assert !Hazard(s, a);
    var more: seq<Act>;
    if s.calls[i].pc.Missed? {
      more := WindowDispatches(Step(s, a), i);
    } else {
      more := RecordedDispatches(Step(s, a), i);
    }
    StepThenDispatch(s, a, more, i);
    acts := [a] + more;
  }

  /** And so does a call to come whose id is not in the map, with none of its id in the window. */
  lemma IdleDispatches(s: State, i: nat) returns (acts: seq<Act>)
    requires i < |s.calls| && Coming(s.calls[i]) && s.calls[i].pc.Idle? && !Has(s.file, s.calls[i].cloudJobId)
    requires forall j: nat :: SameJob(s, i, j) && Coming(s.calls[j]) ==> !InWindow(s.calls[j])
    ensures Dispatches(s, acts, i)
  {
    assert !Hazard(s, Lookup(i, true));
    var more := WindowDispatches(Step(s, Lookup(i, true)), i);
    StepThenDispatch(s, Lookup(i, true), more, i);
    acts := [Lookup(i, true)] + more;
  }

  /** Recorded and killed before it could dispatch. */
  predicate Killed(c: Call) { c.stale && c.pc.Recorded? }

  /** Both calls stand for the job, and both dispatched it unless one was killed in between. */
  ghost predicate Doubled(s: State, i: nat, j: nat) {
    Split(s, i, j) && (Dispatched(s.calls[i]) || Killed(s.calls[i])) && (Dispatched(s.calls[j]) || Killed(s.calls[j]))
  }

  /** A task recorded is dispatched, or goes on to it, or was killed. */
  lemma RecordedSettles(s: State, k: nat) returns (acts: seq<Act>)
    requires k < |s.calls| && PastRecord(s.calls[k], k)
    ensures Legal(s, acts) && SafeRun(s, acts) && Works(acts) && OnlyCall(s, After(s, acts), k)
    ensures var c := After(s, acts).calls[k];
            PastRecord(c, k) && (Dispatched(c) || Killed(c)) && c.cloudJobId == s.calls[k].cloudJobId
    ensures After(s, acts).file == s.file && (Dispatched(s.calls[k]) ==> Dispatched(After(s, acts).calls[k]))
  {
    if s.calls[k].pc.Recorded? && !s.calls[k].stale {
      acts := RecordedDispatches(s, k);
    } else {
      acts := [];
    }
  }

  /** First one call settles, then the other dispatches. */
  lemma BothDispatch(s: State, k: nat, j: nat, first: seq<Act>, second: seq<Act>) returns (acts: seq<Act>)
    requires SameJob(s, k, j) && Legal(s, first) && SafeRun(s, first) && Works(first) && OnlyCall(s, After(s, first), k)
    requires var c := After(s, first).calls[k];
             PastRecord(c, k) && (Dispatched(c) || Killed(c)) && c.cloudJobId == s.calls[k].cloudJobId
    requires Dispatches(After(s, first), second, j)
    ensures Legal(s, acts) && SafeRun(s, acts) && Works(acts) && Doubled(After(s, acts), k, j)
    ensures Dispatched(After(s, first).calls[k]) ==> Dispatched(After(s, acts).calls[k])
    ensures Dispatched(After(s, acts).calls[j])
  {
    LegalConcat(s, first, second);
    acts := first + second;
  }

  /** After a hazard in a state that runs without hazard reach, persistence that works and no
      further hazard still split the job. */
  lemma HazardSplits(s: State, a: Act, j: nat) returns (k: nat, acts: seq<Act>)
    requires MapInv(s) && Enabled(s, a) && j < |s.calls| && Endangers(s, a, j)
    ensures Legal(Step(s, a), acts) && SafeRun(Step(s, a), acts) && Works(acts)
    ensures Doubled(After(Step(s, a), acts), k, j) && (Overlaps(s, a, j) || Unrecorded(s, a, j) ==>
              Dispatched(After(Step(s, a), acts).calls[k]) && Dispatched(After(Step(s, a), acts).calls[j]))
  {
    if Overlaps(s, a, j) {
      k := a.i;
      acts := OverlapSplits(s, a, j);
    } else if Unrecorded(s, a, j) {
      k := a.i;
      acts := UnrecordedSplits(s, a, j);
    } else {
      k, acts := UnknownSplits(s, a, j);
    }
  }

  lemma OverlapSplits(s: State, a: Act, j: nat) returns (acts: seq<Act>)
    requires MapInv(s) && Enabled(s, a) && j < |s.calls| && Overlaps(s, a, j)
    ensures Legal(Step(s, a), acts) && SafeRun(Step(s, a), acts) && Works(acts)
    ensures var t := After(Step(s, a), acts); Doubled(t, a.i, j) && Dispatched(t.calls[a.i]) && Dispatched(t.calls[j])
  {
    var t := Step(s, a);
    assert MapOk(s.calls[j], j, s.file);
    var first := WindowDispatches(t, a.i);
    var second := WindowDispatches(After(t, first), j);
    acts := BothDispatch(t, a.i, j, first, second);
  }

  lemma UnrecordedSplits(s: State, a: Act, j: nat) returns (acts: seq<Act>)
    requires MapInv(s) && Enabled(s, a) && j < |s.calls| && Unrecorded(s, a, j)
    ensures Legal(Step(s, a), acts) && SafeRun(Step(s, a), acts) && Works(acts)
    ensures var t := After(Step(s, a), acts); Doubled(t, a.i, j) && Dispatched(t.calls[a.i]) && Dispatched(t.calls[j])
  {
    var t := Step(s, a);
    assert MapOk(s.calls[a.i], a.i, s.file);
    assert PairOk(s.calls[a.i], a.i, s.calls[j], j, s.file);
    NoneInWindow(s, a.i);
    var first := RecordedDispatches(t, a.i);
    var u := After(t, first);
    forall x: nat | SameJob(u, j, x) && Coming(u.calls[x])
      ensures !InWindow(u.calls[x])
    {
      if x != a.i { assert SameJob(s, a.i, x); }
    }
    var second := IdleDispatches(u, j);
    acts := BothDispatch(t, a.i, j, first, second);
  }

  lemma NoneInWindow(s: State, i: nat)
    requires MapInv(s) && i < |s.calls| && Coming(s.calls[i]) && InWindow(s.calls[i])
    ensures forall x: nat :: SameJob(s, i, x) && Coming(s.calls[x]) ==> !InWindow(s.calls[x])
  {
    forall x: nat | SameJob(s, i, x) && Coming(s.calls[x])
      ensures !InWindow(s.calls[x])
    {
      assert PairOk(s.calls[i], i, s.calls[x], x, s.file);
    }
  }

  /** The id is in the map, and the step makes a call to come miss it. */
  lemma UnknownSplits(s: State, a: Act, j: nat) returns (k: nat, acts: seq<Act>)
    requires MapInv(s) && Enabled(s, a) && j < |s.calls| && (Blind(s, a, j) || Forgets(s, a, j))
    ensures Legal(Step(s, a), acts) && SafeRun(Step(s, a), acts) && Works(acts)
    ensures Doubled(After(Step(s, a), acts), k, j) && k == s.file.m[s.calls[j].cloudJobId]
    ensures var t := After(Step(s, a), acts); Dispatched(t.calls[j]) && (Dispatched(s.calls[k]) ==> Dispatched(t.calls[k]))
  {
    var t, id := Step(s, a), s.calls[j].cloudJobId;
    k := s.file.m[id];
    assert TaskOf(s.calls, id, k);
    assert MapOk(s.calls[j], j, s.file) && MapOk(s.calls[k], k, s.file);
    StepKeepsIds(s, a);
    TaskStays(s, a, id, k);
    var first := RecordedSettles(t, k);
    var u := After(t, first);
    var second: seq<Act>;
    if a.Lookup? {
      second := WindowDispatches(u, j);
    } else {
      UnknownAfter(s, a, j);
      second := IdleDispatches(u, j);
    }
    acts := BothDispatch(t, k, j, first, second);
  }

  /** No step changes which job a call is for. */
  lemma StepKeepsIds(s: State, a: Act)
    requires Enabled(s, a)
    ensures |Step(s, a).calls| == |s.calls|
    ensures forall x :: 0 <= x < |s.calls| ==> Step(s, a).calls[x].cloudJobId == s.calls[x].cloudJobId
  {
  }

  /** A recorded task stays recorded. */
  lemma TaskStays(s: State, a: Act, id: string, k: nat)
    requires MapInv(s) && Enabled(s, a) && TaskOf(s.calls, id, k)
    ensures TaskOf(Step(s, a).calls, id, k)
  {
    if IsCallStep(a) { NamedTasks(s, a); }
  }

  /** When the map forgets an id, its calls to come are all before their lookup. */
  lemma UnknownAfter(s: State, a: Act, j: nat)
    requires MapInv(s) && Enabled(s, a) && j < |s.calls| && Forgets(s, a, j)
    ensures var t := Step(s, a);
            && t.calls[j] == s.calls[j] && Coming(t.calls[j]) && t.calls[j].pc.Idle? && !Has(t.file, s.calls[j].cloudJobId)
            && (forall x: nat :: SameJob(t, j, x) && Coming(t.calls[x]) ==> !InWindow(t.calls[x]))
  {
    var t := Step(s, a);
    assert MapOk(s.calls[j], j, s.file);
    StepKeepsIds(s, a);
    forall x: nat | SameJob(t, j, x) && Coming(t.calls[x])
      ensures !InWindow(t.calls[x])
    {
      assert MapOk(s.calls[x], x, s.file);
    }
  }

  lemma {:induction false} FirstHazard(s: State, acts: seq<Act>) returns (n: nat)
    requires Legal(s, acts) && !SafeRun(s, acts)
    ensures n < |acts| && Legal(s, acts[..n]) && SafeRun(s, acts[..n])
    ensures Enabled(After(s, acts[..n]), acts[n]) && Hazard(After(s, acts[..n]), acts[n])
    decreases |acts|
  {
    if Hazard(s, acts[0]) {
      n := 0;
      assert acts[..0] == [];
    } else {
      var m := FirstHazard(Step(s, acts[0]), acts[1..]);
      n := m + 1;
      assert acts[..n][0] == acts[0] && acts[..n][1..] == acts[1..][..m];
    }
  }

  lemma InitialMapInv(s: State)
    requires Initial(s)
    ensures MapInv(s)
  {
  }

  /** So the condition is exact: a run from the start without hazard never splits a job, and
      every run with one can be continued from its first hazard, with persistence that works
      and no further hazard, until a job is split. */
  lemma HazardIsExact(s: State, acts: seq<Act>) returns (n: nat, k: nat, j: nat, more: seq<Act>)
    requires Initial(s) && Legal(s, acts) && !SafeRun(s, acts)
    ensures n < |acts| && Legal(s, acts[..n + 1]) && Legal(s, acts[..n]) && SafeRun(s, acts[..n]) && Works(more)
    ensures var u := After(s, acts[..n + 1]);
            Legal(u, more) && SafeRun(u, more) && Doubled(After(u, more), k, j)
  {
    n := FirstHazard(s, acts);
    InitialMapInv(s);
    MapRun(s, acts[..n]);
    OneMore(s, acts, n);
    k, j, more := SomeSplit(After(s, acts[..n]), acts[n]);
  }

  lemma SomeSplit(s: State, a: Act) returns (k: nat, j: nat, more: seq<Act>)
    requires MapInv(s) && Enabled(s, a) && Hazard(s, a)
    ensures Legal(Step(s, a), more) && SafeRun(Step(s, a), more) && Works(more) && Doubled(After(Step(s, a), more), k, j)
  {
    j :| 0 <= j < |s.calls| && Endangers(s, a, j);
    k, more := HazardSplits(s, a, j);
  }

  lemma OneMore(s: State, acts: seq<Act>, n: nat)
    requires n < |acts| && Legal(s, acts[..n]) && Enabled(After(s, acts[..n]), acts[n])
    ensures Legal(s, acts[..n + 1]) && After(s, acts[..n + 1]) == Step(After(s, acts[..n]), acts[n])
  {
    OneStep(After(s, acts[..n]), acts[n]);
    LegalConcat(s, acts[..n], [acts[n]]);
    assert acts[..n] + [acts[n]] == acts[..n + 1];
  }

  // ----- each hazard from the start

  /** Two tasks of one id dispatched, in a run that starts with `first`. */
  ghost predicate TwiceFrom(s: State, first: seq<Act>, acts: seq<Act>, i: nat, j: nat) {
    first <= acts && Legal(s, acts) && SameJob(After(s, acts), i, j) &&
    Dispatched(After(s, acts).calls[i]) && Dispatched(After(s, acts).calls[j])
  }

  lemma Continue(s: State, first: seq<Act>, a: Act, more: seq<Act>, i: nat, j: nat)
    requires Legal(s, first) && Enabled(After(s, first), a) && Legal(Step(After(s, first), a), more)
    requires var t := After(Step(After(s, first), a), more);
             SameJob(t, i, j) && Dispatched(t.calls[i]) && Dispatched(t.calls[j])
    ensures TwiceFrom(s, first + [a], (first + [a]) + more, i, j)
  {
    OneStep(After(s, first), a);
    LegalConcat(s, first, [a]);
    LegalConcat(s, first + [a], more);
  }

  /** Two dispatchable calls of one id that overlap. */
  lemma OverlapDispatchesTwice(s: State, i: nat, j: nat) returns (acts: seq<Act>)
    requires Initial(s) && SameJob(s, i, j) && Dispatchable(s.calls[i]) && Dispatchable(s.calls[j])
    ensures TwiceFrom(s, [Lookup(j, true), Lookup(i, true)], acts, i, j)
  {
    InitialMapInv(s);
    var a := Lookup(j, true);
    assert !Hazard(s, a);
    MapStep(s, a);
    OneStep(s, a);
    var more := OverlapSplits(Step(s, a), Lookup(i, true), j);
    Continue(s, [a], Lookup(i, true), more, i, j);
    assert [a] + [Lookup(i, true)] == [a, Lookup(i, true)];
    acts := ([a] + [Lookup(i, true)]) + more;
  }

  /** Two that do not overlap, when the first one's record fails. */
  lemma FailedRecordDispatchesTwice(s: State, i: nat, j: nat) returns (acts: seq<Act>)
    requires Initial(s) && SameJob(s, i, j) && Dispatchable(s.calls[i]) && Dispatchable(s.calls[j])
    ensures TwiceFrom(s, [Lookup(i, true), Mint(i), Record(i, true, false)], acts, i, j)
  {
    var first := MintedFromStart(s, i);
    var more := UnrecordedSplits(After(s, first), Record(i, true, false), j);
    Continue(s, first, Record(i, true, false), more, i, j);
    assert first + [Record(i, true, false)] == [Lookup(i, true), Mint(i), Record(i, true, false)];
    acts := (first + [Record(i, true, false)]) + more;
  }

  lemma MintedFromStart(s: State, i: nat) returns (first: seq<Act>)
    requires Initial(s) && i < |s.calls| && Dispatchable(s.calls[i])
    ensures first == [Lookup(i, true), Mint(i)] && Legal(s, first) && MapInv(After(s, first))
    ensures OnlyCall(s, After(s, first), i) && Running(After(s, first), i) && After(s, first).file == s.file
    ensures After(s, first).calls[i] == s.calls[i].(pc := Minted)
  {
    InitialMapInv(s);
    var a, b := Lookup(i, true), Mint(i);
    assert !Hazard(s, a);
    MapStep(s, a);
    assert !Hazard(Step(s, a), b);
    MapStep(Step(s, a), b);
    OneStep(s, a);
    OneStep(Step(s, a), b);
    LegalConcat(s, [a], [b]);
    first := [a, b];
    assert [a] + [b] == first;
  }

  /** A first call recorded and dispatched without trouble. */
  lemma DispatchedFromStart(s: State, i: nat) returns (first: seq<Act>)
    requires Initial(s) && i < |s.calls| && Dispatchable(s.calls[i])
    ensures first == [Lookup(i, true), Mint(i), Record(i, true, true), Register(i)] && Legal(s, first)
    ensures var t := After(s, first);
            && MapInv(t) && OnlyCall(s, t, i) && t.calls[i] == s.calls[i].(pc := Dispatching)
            && t.file == Ids(map[s.calls[i].cloudJobId := i])
  {
    var pre := MintedFromStart(s, i);
    var u := After(s, pre);
    var a, b := Record(i, true, true), Register(i);
    assert !Hazard(u, a);
    MapStep(u, a);
    assert !Hazard(Step(u, a), b);
    MapStep(Step(u, a), b);
    OneStep(u, a);
    OneStep(Step(u, a), b);
    LegalConcat(u, [a], [b]);
    LegalConcat(s, pre, [a] + [b]);
    first := [Lookup(i, true), Mint(i), a, b];
    assert pre + ([a] + [b]) == first;
  }

  /** Two that do not overlap, when the second cannot read the map. */
  lemma BlindLookupDispatchesTwice(s: State, i: nat, j: nat) returns (acts: seq<Act>)
    requires Initial(s) && SameJob(s, i, j) && Dispatchable(s.calls[i]) && Dispatchable(s.calls[j])
    ensures TwiceFrom(s, [Lookup(i, true), Mint(i), Record(i, true, true), Register(i), Lookup(j, false)], acts, i, j)
  {
    var first := DispatchedFromStart(s, i);
    acts := LostFromStart(s, first, Lookup(j, false), i, j);
    assert first + [Lookup(j, false)] == [Lookup(i, true), Mint(i), Record(i, true, true), Register(i), Lookup(j, false)];
  }

  /** Or when a power loss has emptied the file, which is written without a sync. */
  lemma EmptiedFileDispatchesTwice(s: State, i: nat, j: nat) returns (acts: seq<Act>)
    requires Initial(s) && SameJob(s, i, j) && Dispatchable(s.calls[i]) && Dispatchable(s.calls[j])
    ensures TwiceFrom(s, [Lookup(i, true), Mint(i), Record(i, true, true), Register(i), Restart(Ids(map[]))], acts, i, j)
  {
    var first := DispatchedFromStart(s, i);
    acts := LostFromStart(s, first, Restart(Ids(map[])), i, j);
    assert first + [Restart(Ids(map[]))] == [Lookup(i, true), Mint(i), Record(i, true, true), Register(i), Restart(Ids(map[]))];
  }

  lemma LostFromStart(s: State, first: seq<Act>, a: Act, i: nat, j: nat) returns (acts: seq<Act>)
    requires SameJob(s, i, j) && Legal(s, first) && MapInv(After(s, first)) && OnlyCall(s, After(s, first), i)
    requires After(s, first).calls[i] == s.calls[i].(pc := Dispatching)
    requires Enabled(After(s, first), a) && (Blind(After(s, first), a, j) || Forgets(After(s, first), a, j))
    ensures TwiceFrom(s, first + [a], acts, i, j)
  {
    var u := After(s, first);
    var k, more := UnknownSplits(u, a, j);
    OneTask(u, u.calls[j].cloudJobId, k, i);
    Continue(s, first, a, more, i, j);
    acts := (first + [a]) + more;
  }

  /** A canceller's two halves, with nothing between, are the registry's Cancel. */
  lemma TakeAndFireIsCancel(s: State, j: nat)
    requires Enabled(s, Take(j))
    ensures var (t, c) := Taken(Shared(s), s.cancellers[j].target);
            var u := Step(s, Take(j));
            if c.None? then Shared(u) == Shared(s) && u.cancellers[j].pc == Answered(false)
            else Enabled(u, Fire(j)) && Shared(Step(u, Fire(j))) == Fired(t, c.value) && Step(u, Fire(j)).cancellers[j].pc == Answered(true)
  {
  }
}
