/** The sequential half of Orchestrator.Execute: order the leaf results and merge their
    entries into the plan's signed ledger. */
module Trail {
  import opened Strings
  import opened FleetTypes
  import opened Ledgers
  import opened Sorting
  import Swarm

  const BLANK := Entry(0, "", "", "", "", "", "", 0, "", "", "")

  datatype SwarmResult = SwarmResult(
    leaves: seq<LeafResult>, ok: bool, cancelled: bool,
    /** Phase and action of every entry whose append failed. */
    ledgerErrs: seq<(string, string)>)

  // ----- the stable sort by leaf id

  predicate ById(a: LeafResult, b: LeafResult) { Less(a.leafId, b.leafId) }

  function SortById(rs: seq<LeafResult>): seq<LeafResult> { SortBy(ById, rs) }

  ghost predicate OrderedById(s: seq<LeafResult>) { Ordered(ById, s) }

  lemma ByIdWeakOrder()
    ensures WeakOrder(ById)
  {
    forall a: LeafResult, b: LeafResult ensures ById(a, b) ==> !ById(b, a) { Trichotomy(a.leafId, b.leafId); }
    forall a: LeafResult, b: LeafResult, c: LeafResult | !ById(b, a) && !ById(c, b)
      ensures !ById(c, a)
    {
      NotLessTransitive(a.leafId, b.leafId, c.leafId);
    }
  }

  ghost function WithId(s: seq<LeafResult>, id: string): seq<LeafResult> {
    if s == [] then [] else (if s[0].leafId == id then [s[0]] else []) + WithId(s[1..], id)
  }

  lemma {:induction false} WithIdConcat(a: seq<LeafResult>, b: seq<LeafResult>, id: string)
    ensures WithId(a + b, id) == WithId(a, id) + WithId(b, id)
  {
    if a == [] {
      assert a + b == b;
    } else {
      assert (a + b)[0] == a[0] && (a + b)[1..] == a[1..] + b;
      WithIdConcat(a[1..], b, id);
      Reassociate(if a[0].leafId == id then [a[0]] else [], WithId(a[1..], id), WithId(b, id));
    }
  }

  lemma {:induction false} WithIdOf(s: seq<LeafResult>, id: string)
    ensures WithId(s, id) != [] <==> exists r :: r in s && r.leafId == id
    ensures forall r :: r in WithId(s, id) ==> r in s && r.leafId == id
  {
    if s != [] {
      WithIdOf(s[1..], id);
      assert forall r :: r in s <==> r == s[0] || r in s[1..];
      if s[0].leafId == id { assert s[0] in s; }
    }
  }

  lemma {:induction false} InsertStable(x: LeafResult, s: seq<LeafResult>, id: string)
    requires OrderedById(s)
    ensures WithId(Insert(ById, x, s), id) == WithId(s, id) + (if x.leafId == id then [x] else [])
  {
    if s == [] {
      WithIdCons(x, [], id);
    } else if ById(x, s[0]) {
      WithIdCons(x, s, id);
      if x.leafId == id { BeforeAll(x, s); }
    } else {
      var u := Insert(ById, x, s[1..]);
      assert OrderedById(s[1..]);
      InsertStable(x, s[1..], id);
      WithIdCons(s[0], u, id);
    }
  }

  lemma WithIdCons(x: LeafResult, s: seq<LeafResult>, id: string)
    ensures WithId([x] + s, id) == (if x.leafId == id then [x] else []) + WithId(s, id)
  {
    assert ([x] + s)[1..] == s;
  }

  lemma BeforeAll(x: LeafResult, s: seq<LeafResult>)
    requires OrderedById(s) && s != [] && ById(x, s[0])
    ensures WithId(s, x.leafId) == []
  {
    WithIdOf(s, x.leafId);
    Trichotomy(x.leafId, s[0].leafId);
    forall k | 0 <= k < |s|
      ensures s[k].leafId != x.leafId
    {
      assert k == 0 || !ById(s[k], s[0]);
    }
  }

  lemma SortedOrdered(rs: seq<LeafResult>)
    ensures OrderedById(SortById(rs))
  {
    ByIdWeakOrder();
    SortOrdered(ById, rs);
  }

  lemma {:induction false} SortedStable(rs: seq<LeafResult>, id: string)
    ensures WithId(SortById(rs), id) == WithId(rs, id)
  {
    if rs != [] {
      var n := |rs| - 1;
      SortedStable(rs[..n], id);
      SortedOrdered(rs[..n]);
      InsertStable(rs[n], SortById(rs[..n]), id);
      WithIdConcat(rs[..n], [rs[n]], id);
      assert rs == rs[..n] + [rs[n]];
    }
  }

  /** The sort is a permutation, ordered by leaf id, and keeps equal ids in plan order;
      those laws leave one result only, so any stable sort gives this list. */
  lemma StableSort(rs: seq<LeafResult>, t: seq<LeafResult>)
    ensures multiset(SortById(rs)) == multiset(rs)
    ensures t == SortById(rs) <==> (OrderedById(t) && SameRuns(t, rs))
  {
    SortedOrdered(rs);
    SortPermutes(ById, rs);
    forall id ensures WithId(SortById(rs), id) == WithId(rs, id) { SortedStable(rs, id); }
    assert SameRuns(SortById(rs), rs);
    if OrderedById(t) && SameRuns(t, rs) { StableSortUnique(t, SortById(rs)); }
  }

  /** Equal ids come in the same order. */
  ghost predicate SameRuns(s: seq<LeafResult>, t: seq<LeafResult>) {
    forall id :: WithId(s, id) == WithId(t, id)
  }

  lemma SameHead(s: seq<LeafResult>, t: seq<LeafResult>)
    requires OrderedById(s) && OrderedById(t) && s != []
    requires forall id :: WithId(s, id) == WithId(t, id)
    ensures t != [] && s[0] == t[0]
  {
    var id := s[0].leafId;
    WithIdOf(t, id);
    assert WithId(s, id)[0] == s[0];
    var r :| r in t && r.leafId == id;
    var i :| 0 <= i < |t| && t[i] == r;
    var id' := t[0].leafId;
    WithIdOf(s, id');
    assert WithId(t, id')[0] == t[0];
    var q :| q in s && q.leafId == id';
    var j :| 0 <= j < |s| && s[j] == q;
    Trichotomy(id, id');
    assert i == 0 || !ById(t[i], t[0]);
    assert j == 0 || !ById(s[j], s[0]);
  }

  lemma {:induction false} StableSortUnique(s: seq<LeafResult>, t: seq<LeafResult>)
    requires OrderedById(s) && OrderedById(t)
    requires forall id :: WithId(s, id) == WithId(t, id)
    ensures s == t
  {
    if s == [] {
      if t != [] { SameHead(t, s); }
    } else {
      SameHead(s, t);
      forall x
        ensures WithId(s[1..], x) == WithId(t[1..], x)
      {
        var d := if s[0].leafId == x then [s[0]] else [];
        assert WithId(s, x) == d + WithId(s[1..], x) && WithId(t, x) == d + WithId(t[1..], x);
        assert WithId(s[1..], x) == WithId(s, x)[|d|..];
      }
      StableSortUnique(s[1..], t[1..]);
      assert s == [s[0]] + s[1..] && t == [t[0]] + t[1..];
    }
  }

  // ----- the trail

  /** Whole milliseconds, rounded toward zero. */
  function Millis(ns: int): (ms: int)
    ensures if ns >= 0 then 0 <= ns - ms * 1_000_000 < 1_000_000 else -1_000_000 < ns - ms * 1_000_000 <= 0
  {
    if ns >= 0 then ns / 1_000_000 else -((-ns) / 1_000_000)
  }

  function StartEntry(p: Plan): Entry {
    BLANK.(tenantId := p.tenantId, phase := "swarm", action := "start:" + p.parentRun, result := "ok")
  }

  /** A leaf entry re-emitted under the plan. */
  function Adopt(p: Plan, e: Entry): Entry {
    e.(taskId := p.taskId, tenantId := if e.tenantId == "" then p.tenantId else e.tenantId)
  }

  function MarkerEntry(p: Plan, r: LeafResult): Entry {
    BLANK.(tenantId := p.tenantId, phase := "swarm",
           action := (if r.err.Some? then "leaf-error:" else "leaf-ok:") + r.leafId,
           result := if r.err.Some? then "error" else "ok",
           durationMs := Millis(r.duration))
  }

  predicate NoLeafFailed(rs: seq<LeafResult>) {
    forall i :: 0 <= i < |rs| ==> rs[i].err.None?
  }

  function TerminalEntry(p: Plan, rs: seq<LeafResult>, cancelled: bool): Entry {
    if cancelled then BLANK.(tenantId := p.tenantId, phase := "swarm", action := "cancel", result := "cancelled")
    else BLANK.(tenantId := p.tenantId, phase := "swarm", action := "done:" + p.parentRun,
                result := if NoLeafFailed(rs) then "ok" else "error")
  }

  function Adopted(p: Plan, es: seq<Entry>): seq<Entry> {
    seq(|es|, i requires 0 <= i < |es| => Adopt(p, es[i]))
  }

  /** What one leaf contributes. */
  function Section(p: Plan, r: LeafResult, cancelled: bool): seq<Entry> {
    Adopted(p, r.entries) + (if cancelled then [] else [MarkerEntry(p, r)])
  }

  function Sections(p: Plan, rs: seq<LeafResult>, cancelled: bool): seq<Entry> {
    if rs == [] then [] else Sections(p, rs[..|rs| - 1], cancelled) + Section(p, rs[|rs| - 1], cancelled)
  }

  function TrailOf(p: Plan, rs: seq<LeafResult>, cancelled: bool): seq<Entry> {
    [StartEntry(p)] + Sections(p, rs, cancelled) + [TerminalEntry(p, rs, cancelled)]
  }

  /** Where a merge writes: the ledger's codec and key, the task, and how each append
      in turn meets the disk. */
  datatype Writer = Writer(codec: Codec, canSign: bool, taskId: string, env: nat -> AppendEnv) {
    predicate Fails(k: nat) { !canSign || !env(k).fault.NoFault? }
  }

  /** The task file's text, the number of writes attempted, and the errors collected. */
  datatype Log = Log(text: string, count: nat, errs: seq<(string, string)>)

  function Put(w: Writer, l: Log, e: Entry): Log {
    Log(TextAfter(w.codec, w.canSign, w.taskId, l.text, e, w.env(l.count)),
        l.count + 1,
        if w.Fails(l.count) then l.errs + [(e.phase, e.action)] else l.errs)
  }

  function PutAll(w: Writer, l: Log, es: seq<Entry>): Log {
    if es == [] then l else Put(w, PutAll(w, l, es[..|es| - 1]), es[|es| - 1])
  }

  lemma PutNext(w: Writer, l: Log, es: seq<Entry>, e: Entry)
    ensures PutAll(w, l, es + [e]) == Put(w, PutAll(w, l, es), e)
  {
    assert (es + [e])[..|es|] == es;
  }

  lemma {:induction false} PutConcat(w: Writer, l: Log, a: seq<Entry>, b: seq<Entry>)
    ensures PutAll(w, l, a + b) == PutAll(w, PutAll(w, l, a), b)
  {
    if b == [] {
      assert a + b == a;
    } else {
      var n := |b| - 1;
      PutConcat(w, l, a, b[..n]);
      assert (a + b)[..|a + b| - 1] == a + b[..n];
    }
  }

  ghost predicate Bound(led: Ledger, w: Writer, l: Log)
    reads led
  {
    led.codec == w.codec && led.canSign == w.canSign && led.Text(w.taskId) == l.text
  }

  ghost predicate OthersKept(now: map<string, string>, was: map<string, string>, taskId: string) {
    forall t :: t != taskId ==> (t in now <==> t in was) && (t in now ==> now[t] == was[t])
  }

  /** The closure every trail entry is written through. */
  method WriteEntry(led: Ledger, w: Writer, e: Entry, n: nat, errs: seq<(string, string)>, ghost l: Log)
    returns (errs': seq<(string, string)>, ghost l': Log)
    requires Bound(led, w, l) && l.count == n && l.errs == errs
    modifies led`files
    ensures l' == Put(w, l, e) && Bound(led, w, l') && l'.errs == errs' && l'.count == n + 1
    ensures OthersKept(led.files, old(led.files), w.taskId)
  {
    var ok := led.Append(w.taskId, e, w.env(n));
    errs' := if ok then errs else errs + [(e.phase, e.action)];
    l' := Put(w, l, e);
    forall t | t != w.taskId
      ensures (t in led.files <==> t in old(led.files)) && (t in led.files ==> led.files[t] == old(led.files)[t])
    {
      assert led.Text(t) == old(led.Text(t));
    }
  }

  /** The body of the merge loop: one result's entries and, unless cancelled, its marker. */
  method MergeLeaf(led: Ledger, w: Writer, p: Plan, r: LeafResult, cancelled: bool, n: nat,
                   errs: seq<(string, string)>, ghost l: Log)
    returns (n': nat, errs': seq<(string, string)>, ghost l': Log)
    requires Bound(led, w, l) && l.count == n && l.errs == errs
    modifies led`files
    ensures l' == PutAll(w, l, Section(p, r, cancelled)) && Bound(led, w, l') && l'.errs == errs' && l'.count == n'
    ensures OthersKept(led.files, old(led.files), w.taskId)
  {
    n', errs', l' := n, errs, l;
    for j := 0 to |r.entries|
      invariant l' == PutAll(w, l, Adopted(p, r.entries[..j]))
      invariant Bound(led, w, l') && l'.errs == errs' && l'.count == n'
      invariant OthersKept(led.files, old(led.files), w.taskId)
    {
      var e := Adopt(p, r.entries[j]);
      PutNext(w, l, Adopted(p, r.entries[..j]), e);
      AdoptedNext(p, r.entries, j);
      errs', l' := WriteEntry(led, w, e, n', errs', l');
      n' := n' + 1;
    }
    assert r.entries[..|r.entries|] == r.entries;
    if cancelled {
      assert Section(p, r, cancelled) == Adopted(p, r.entries);
    } else {
      PutNext(w, l, Adopted(p, r.entries), MarkerEntry(p, r));
      errs', l' := WriteEntry(led, w, MarkerEntry(p, r), n', errs', l');
      n' := n' + 1;
    }
  }

  lemma AdoptedNext(p: Plan, es: seq<Entry>, j: nat)
    requires j < |es|
    ensures Adopted(p, es[..j + 1]) == Adopted(p, es[..j]) + [Adopt(p, es[j])]
  {
  }

  lemma SectionsStep(p: Plan, rs: seq<LeafResult>, i: nat, cancelled: bool)
    requires i < |rs|
    ensures Sections(p, rs[..i + 1], cancelled) == Sections(p, rs[..i], cancelled) + Section(p, rs[i], cancelled)
  {
    assert rs[..i + 1][..i] == rs[..i];
  }

  /** The merge loop over the ordered results. */
  method MergeLeaves(led: Ledger, w: Writer, p: Plan, sorted: seq<LeafResult>, cancelled: bool, n: nat,
                     errs: seq<(string, string)>, ghost l: Log)
    returns (n': nat, errs': seq<(string, string)>, ghost l': Log)
    requires Bound(led, w, l) && l.count == n && l.errs == errs
    modifies led`files
    ensures l' == PutAll(w, l, Sections(p, sorted, cancelled)) && Bound(led, w, l') && l'.errs == errs' && l'.count == n'
    ensures OthersKept(led.files, old(led.files), w.taskId)
  {
    n', errs', l' := n, errs, l;
    for i := 0 to |sorted|
      invariant l' == PutAll(w, l, Sections(p, sorted[..i], cancelled))
      invariant Bound(led, w, l') && l'.errs == errs' && l'.count == n'
      invariant OthersKept(led.files, old(led.files), w.taskId)
    {
      SectionsStep(p, sorted, i, cancelled);
      PutConcat(w, l, Sections(p, sorted[..i], cancelled), Section(p, sorted[i], cancelled));
      n', errs', l' := MergeLeaf(led, w, p, sorted[i], cancelled, n', errs', l');
    }
    assert sorted[..|sorted|] == sorted;
  }

  /** Writes the whole trail of the ordered results. */
  method MergeAll(led: Ledger, w: Writer, p: Plan, sorted: seq<LeafResult>, cancelled: bool)
    returns (errs: seq<(string, string)>)
    requires led.codec == w.codec && led.canSign == w.canSign
    modifies led`files
    ensures var l := PutAll(w, Log(old(led.Text(w.taskId)), 0, []), TrailOf(p, sorted, cancelled));
            Bound(led, w, l) && errs == l.errs
    ensures OthersKept(led.files, old(led.files), w.taskId)
  {
    ghost var l := Log(led.Text(w.taskId), 0, []);
    var first, last := StartEntry(p), TerminalEntry(p, sorted, cancelled);
    ghost var all := Sections(p, sorted, cancelled);
    PutNext(w, l, [], first);
    assert [] + [first] == [first];
    PutConcat(w, l, [first], all);
    PutNext(w, l, [first] + all, last);
    ghost var l';
    var n;
    errs, l' := WriteEntry(led, w, first, 0, [], l);
    n, errs, l' := MergeLeaves(led, w, p, sorted, cancelled, 1, errs, l');
    errs, l' := WriteEntry(led, w, last, n, errs, l');
  }

  method RollUp(rs: seq<LeafResult>) returns (ok: bool)
    ensures ok <==> NoLeafFailed(rs)
  {
    ok := true;
    for i := 0 to |rs|
      invariant ok <==> forall j :: 0 <= j < i ==> rs[j].err.None?
    {
      if rs[i].err.Some? { ok := false; }
    }
  }

  /** The sort, the roll-up and the merge. */
  method Merge(led: Ledger?, p: Plan, results: seq<LeafResult>, cancelled: bool, env: nat -> AppendEnv)
    returns (res: SwarmResult)
    modifies if led == null then {} else {led}
    ensures res.leaves == SortById(results)
    ensures res.cancelled == cancelled
    ensures res.ok <==> !cancelled && NoLeafFailed(results)
    ensures led == null ==> res.ledgerErrs == []
    ensures led != null ==> Merged(led, p, SortById(results), cancelled, env, old(led.Text(p.taskId)), res.ledgerErrs)
    ensures led != null ==> OthersKept(led.files, old(led.files), p.taskId)
  {
    var sorted := SortById(results);
    SortPermutes(ById, results);
    SameFailures(results, sorted);
    var ok := RollUp(sorted);
    var errs := [];
    if led != null {
      errs := MergeAll(led, Writer(led.codec, led.canSign, p.taskId, env), p, sorted, cancelled);
    }
    res := SwarmResult(sorted, ok && !cancelled, cancelled, errs);
  }

  /** The ledger after the trail was attempted on top of the text `was`. */
  ghost predicate Merged(led: Ledger, p: Plan, rs: seq<LeafResult>, cancelled: bool, env: nat -> AppendEnv,
                         was: string, errs: seq<(string, string)>)
    reads led
  {
    var l := PutAll(Writer(led.codec, led.canSign, p.taskId, env), Log(was, 0, []), TrailOf(p, rs, cancelled));
    led.Text(p.taskId) == l.text && errs == l.errs
  }

  lemma SameFailures(a: seq<LeafResult>, b: seq<LeafResult>)
    requires multiset(a) == multiset(b)
    ensures NoLeafFailed(a) <==> NoLeafFailed(b)
  {
    forall i | 0 <= i < |a| ensures a[i] in b { assert a[i] in multiset(b); }
    forall i | 0 <= i < |b| ensures b[i] in a { assert b[i] in multiset(a); }
  }

  /** Execute over the interleaving `acts`: None stands for the two argument errors. */
  method Execute(led: Ledger?, p: Plan, hasRunner: bool, acts: seq<Swarm.Act>, env: nat -> AppendEnv)
    returns (res: Option<SwarmResult>)
    requires Swarm.Legal(p, Swarm.Init(p), acts) && Swarm.After(p, Swarm.Init(p), acts).main.Ended?
    modifies if led == null then {} else {led}
    ensures res.Some? <==> hasRunner && p.taskId != ""
    ensures res.None? && led != null ==> led.files == old(led.files)
    ensures res.Some? ==>
              var s := Swarm.After(p, Swarm.Init(p), acts);
              && res.value.leaves == SortById(s.results)
              && res.value.cancelled == s.cancelled
              && (res.value.ok <==> !s.cancelled && NoLeafFailed(s.results))
              && (led != null ==> Merged(led, p, SortById(s.results), s.cancelled, env,
                                         old(led.Text(p.taskId)), res.value.ledgerErrs))
    ensures res.Some? && led != null && res.value.ledgerErrs == [] && Lawful(led.codec) && Complete(old(led.Text(p.taskId))) ==>
              var s := Swarm.After(p, Swarm.Init(p), acts);
              forall prev :: ReadText(led.codec, old(led.Text(p.taskId))) == ReadResult(prev, None) ==>
                (ReadsAsTrail(led.codec, p, SortById(s.results), s.cancelled, led.Text(p.taskId), prev, Clock(env)) <==>
                 Fit(led.codec, p.taskId, TrailOf(p, SortById(s.results), s.cancelled), Clock(env)))
  {
    if !hasRunner || p.taskId == "" { return None; }
    var s := Swarm.After(p, Swarm.Init(p), acts);
    Swarm.InitInv(p);
    Swarm.RunInv(p, Swarm.Init(p), acts);
    var r := Merge(led, p, s.results, s.main.sawCancel, env);
    res := Some(r);
    if led != null && r.ledgerErrs == [] && Lawful(led.codec) && Complete(old(led.Text(p.taskId))) {
      ghost var w := Writer(led.codec, led.canSign, p.taskId, env);
      forall prev | ReadText(led.codec, old(led.Text(p.taskId))) == ReadResult(prev, None)
        ensures ReadsAsTrail(led.codec, p, SortById(s.results), s.cancelled, led.Text(p.taskId), prev, Clock(env)) <==>
                Fit(led.codec, p.taskId, TrailOf(p, SortById(s.results), s.cancelled), Clock(env))
      {
        RunReadsBack(w, p, acts, old(led.Text(p.taskId)), prev);
      }
    }
  }

  // ----- what the trail says

  ghost function Successes(w: Writer, count: nat): nat {
    if count == 0 then 0 else Successes(w, count - 1) + (if w.Fails(count - 1) then 0 else 1)
  }

  function Clock(env: nat -> AppendEnv): nat -> Time { (k: nat) => env(k).now }

  /** Conservation: every attempted write either succeeded or is in LedgerErrs, the file
      only grows, and when none failed the file is the old text plus the whole trail. */
  lemma {:induction false} WritesAccounted(w: Writer, text: string, es: seq<Entry>)
    ensures var l := PutAll(w, Log(text, 0, []), es);
            && l.count == |es|
            && Successes(w, |es|) + |l.errs| == |es|
            && text <= l.text
            && (l.errs == [] ==> l.text == Appended(w.codec, w.taskId, text, es, Clock(w.env)))
  {
    if es != [] { WritesAccounted(w, text, es[..|es| - 1]); }
  }

  /** Index in the trail of the first entry of the k-th result. */
  ghost function Offset(rs: seq<LeafResult>, k: nat, cancelled: bool): (at: nat)
    requires k <= |rs|
    ensures at >= 1
  {
    if k == 0 then 1
    else Offset(rs, k - 1, cancelled) + |rs[k - 1].entries| + (if cancelled then 0 else 1)
  }

  lemma {:induction false} SectionsPrefix(p: Plan, rs: seq<LeafResult>, k: nat, cancelled: bool)
    requires k <= |rs|
    ensures Sections(p, rs[..k], cancelled) <= Sections(p, rs, cancelled)
    ensures |Sections(p, rs[..k], cancelled)| + 1 == Offset(rs, k, cancelled)
    decreases |rs| - k, k
  {
    if k < |rs| {
      SectionsPrefix(p, rs, k + 1, cancelled);
      assert rs[..k + 1][..k] == rs[..k];
    } else {
      assert rs[..k] == rs;
      SectionsLength(p, rs, |rs|, cancelled);
    }
  }

  lemma {:induction false} SectionsLength(p: Plan, rs: seq<LeafResult>, k: nat, cancelled: bool)
    requires k <= |rs|
    ensures |Sections(p, rs[..k], cancelled)| + 1 == Offset(rs, k, cancelled)
  {
    if k > 0 {
      SectionsLength(p, rs, k - 1, cancelled);
      assert rs[..k][..k - 1] == rs[..k - 1];
    }
  }

  lemma SectionAt(p: Plan, rs: seq<LeafResult>, cancelled: bool, k: nat, j: nat)
    requires k < |rs| && j < |Section(p, rs[k], cancelled)|
    ensures Offset(rs, k, cancelled) - 1 + j < |Sections(p, rs, cancelled)|
    ensures Sections(p, rs, cancelled)[Offset(rs, k, cancelled) - 1 + j] == Section(p, rs[k], cancelled)[j]
  {
    SectionsPrefix(p, rs, k + 1, cancelled);
    SectionsLength(p, rs, k, cancelled);
    SectionsStep(p, rs, k, cancelled);
    InPrefix(Sections(p, rs[..k], cancelled), Section(p, rs[k], cancelled), Sections(p, rs, cancelled), j);
  }

  lemma InPrefix<T>(head: seq<T>, mid: seq<T>, all: seq<T>, j: nat)
    requires head + mid <= all && j < |mid|
    ensures all[|head| + j] == mid[j]
  {
    assert (head + mid)[|head| + j] == all[|head| + j];
  }

  lemma SectionInTrail(p: Plan, rs: seq<LeafResult>, cancelled: bool, k: nat, j: nat)
    requires k < |rs| && j < |Section(p, rs[k], cancelled)|
    ensures Offset(rs, k, cancelled) + j < |TrailOf(p, rs, cancelled)| - 1
    ensures TrailOf(p, rs, cancelled)[Offset(rs, k, cancelled) + j] == Section(p, rs[k], cancelled)[j]
  {
    SectionAt(p, rs, cancelled, k, j);
    Framed(StartEntry(p), Sections(p, rs, cancelled), TerminalEntry(p, rs, cancelled), Offset(rs, k, cancelled) - 1 + j);
  }

  lemma Framed<T>(first: T, all: seq<T>, last: T, i: nat)
    requires i < |all|
    ensures |[first] + all + [last]| == |all| + 2
    ensures ([first] + all + [last])[i + 1] == all[i]
  {
  }

  /** The trail's shape: a start entry, then each result's own entries followed, unless
      the run was cancelled, by its one marker, back to back in list order, then exactly
      one terminal entry, which is `done` with "ok" only if no leaf failed. */
  lemma TrailShape(p: Plan, rs: seq<LeafResult>, cancelled: bool, k: nat)
    requires k < |rs|
    ensures var t, at, sec := TrailOf(p, rs, cancelled), Offset(rs, k, cancelled), Section(p, rs[k], cancelled);
            && t[0] == StartEntry(p)
            && 0 < at <= at + |sec| == Offset(rs, k + 1, cancelled) < |t|
            && t[at..at + |sec|] == sec
            && Offset(rs, |rs|, cancelled) == |t| - 1
            && t[|t| - 1] == TerminalEntry(p, rs, cancelled)
  {
    var t, at, sec := TrailOf(p, rs, cancelled), Offset(rs, k, cancelled), Section(p, rs[k], cancelled);
    TrailEnds(p, rs, cancelled);
    OffsetMonotone(rs, k + 1, cancelled);
    forall j | 0 <= j < |sec|
      ensures t[at..at + |sec|][j] == sec[j]
    {
      SectionInTrail(p, rs, cancelled, k, j);
    }
  }

  lemma TrailEnds(p: Plan, rs: seq<LeafResult>, cancelled: bool)
    ensures var t := TrailOf(p, rs, cancelled);
            && |t| == Offset(rs, |rs|, cancelled) + 1 && |t| >= 2
            && t[0] == StartEntry(p) && t[|t| - 1] == TerminalEntry(p, rs, cancelled)
  {
    SectionsLength(p, rs, |rs|, cancelled);
    assert rs[..|rs|] == rs;
  }

  lemma {:induction false} OffsetMonotone(rs: seq<LeafResult>, k: nat, cancelled: bool)
    requires k <= |rs|
    ensures Offset(rs, k, cancelled) <= Offset(rs, |rs|, cancelled)
    decreases |rs| - k
  {
    if k < |rs| { OffsetMonotone(rs, k + 1, cancelled); }
  }

  ghost predicate FromLeaf(p: Plan, rs: seq<LeafResult>, e: Entry) {
    exists k, j :: 0 <= k < |rs| && 0 <= j < |rs[k].entries| && e == Adopt(p, rs[k].entries[j])
  }

  ghost predicate OwnEntry(p: Plan, e: Entry) {
    e.taskId == "" && e.tenantId == p.tenantId && e.phase == "swarm" && e.result in {"ok", "error", "cancelled"}
  }

  lemma {:induction false} SectionsSource(p: Plan, rs: seq<LeafResult>, cancelled: bool, e: Entry)
    requires e in Sections(p, rs, cancelled)
    ensures FromLeaf(p, rs, e) || OwnEntry(p, e)
  {
    if rs != [] {
      var n := |rs| - 1;
      if e in Sections(p, rs[..n], cancelled) {
        SectionsSource(p, rs[..n], cancelled, e);
        if FromLeaf(p, rs[..n], e) {
          var k, j :| 0 <= k < n && 0 <= j < |rs[..n][k].entries| && e == Adopt(p, rs[..n][k].entries[j]);
          assert rs[..n][k] == rs[k];
        }
      } else if e in Adopted(p, rs[n].entries) {
        var j :| 0 <= j < |rs[n].entries| && e == Adopted(p, rs[n].entries)[j];
        assert e == Adopt(p, rs[n].entries[j]);
      }
    }
  }

  /** Every entry of the trail is a re-emitted leaf entry or one of the swarm's own. */
  lemma TrailSource(p: Plan, rs: seq<LeafResult>, cancelled: bool, e: Entry)
    requires e in TrailOf(p, rs, cancelled)
    ensures FromLeaf(p, rs, e) || OwnEntry(p, e)
  {
    var all := Sections(p, rs, cancelled);
    var i :| 0 <= i < |TrailOf(p, rs, cancelled)| && TrailOf(p, rs, cancelled)[i] == e;
    if 0 < i <= |all| {
      assert e == all[i - 1];
      SectionsSource(p, rs, cancelled, e);
    }
  }

  /** The comment above Execute promises that a cancelled run carries no bill entry. The
      code merges whatever the leaves returned, so a bill entry is in the trail exactly
      when some leaf returned one, cancelled or not. */
  lemma BillEntries(p: Plan, rs: seq<LeafResult>, cancelled: bool)
    ensures (exists e :: e in TrailOf(p, rs, cancelled) && e.result == "bill")
       <==> (exists r, e :: r in rs && e in r.entries && e.result == "bill")
  {
    if e :| e in TrailOf(p, rs, cancelled) && e.result == "bill" { BillSource(p, rs, cancelled, e); }
    if r, e :| r in rs && e in r.entries && e.result == "bill" { BillMerged(p, rs, cancelled, r, e); }
  }

  lemma BillSource(p: Plan, rs: seq<LeafResult>, cancelled: bool, e: Entry)
    requires e in TrailOf(p, rs, cancelled) && e.result == "bill"
    ensures exists r, b :: r in rs && b in r.entries && b.result == "bill"
  {
    TrailSource(p, rs, cancelled, e);
    var k, j :| 0 <= k < |rs| && 0 <= j < |rs[k].entries| && e == Adopt(p, rs[k].entries[j]);
    assert rs[k] in rs && rs[k].entries[j] in rs[k].entries;
  }

  lemma BillMerged(p: Plan, rs: seq<LeafResult>, cancelled: bool, r: LeafResult, e: Entry)
    requires r in rs && e in r.entries && e.result == "bill"
    ensures Adopt(p, e) in TrailOf(p, rs, cancelled) && Adopt(p, e).result == "bill"
  {
    var k :| 0 <= k < |rs| && rs[k] == r;
    var j :| 0 <= j < |r.entries| && r.entries[j] == e;
    SectionInTrail(p, rs, cancelled, k, j);
    assert TrailOf(p, rs, cancelled)[Offset(rs, k, cancelled) + j] == Adopt(p, e);
  }

  /** A stored entry of the trail: under the plan's task, and under its tenant unless the
      leaf named another. */
  ghost predicate Attributed(p: Plan, rs: seq<LeafResult>, e: Entry, stored: Entry) {
    && stored.taskId == p.taskId
    && (stored.tenantId == p.tenantId || (FromLeaf(p, rs, e) && stored.tenantId == e.tenantId != ""))
  }

  lemma StoredAttributed(c: Codec, p: Plan, rs: seq<LeafResult>, cancelled: bool, e: Entry, now: Time)
    requires e in TrailOf(p, rs, cancelled) && p.taskId != ""
    ensures Attributed(p, rs, e, Sign(c, Stamp(p.taskId, e, now)))
  {
    TrailSource(p, rs, cancelled, e);
  }

  /** Reading back a trail whose appends all succeeded, on any file that read well before:
      the earlier entries, then the trail's, one by one; every one of these verifies and is
      attributed. It fails only for a line that does not fit the scanner's buffer. */
  lemma TrailReadBack(c: Codec, p: Plan, rs: seq<LeafResult>, cancelled: bool, text: string, prev: seq<Entry>, now: nat -> Time)
    requires Lawful(c) && p.taskId != "" && Complete(text) && ReadText(c, text) == ReadResult(prev, None)
    ensures var t := TrailOf(p, rs, cancelled);
            ReadText(c, Appended(c, p.taskId, text, t, now)) == ReadResult(prev + SignedEntries(c, p.taskId, t, now), None)
            <==> Fit(c, p.taskId, t, now)
    ensures var t, signed := TrailOf(p, rs, cancelled), SignedEntries(c, p.taskId, TrailOf(p, rs, cancelled), now);
            forall k :: 0 <= k < |t| ==> Verify(c, signed[k]) && Attributed(p, rs, t[k], signed[k])
  {
    var t := TrailOf(p, rs, cancelled);
    var signed := SignedEntries(c, p.taskId, t, now);
    ReadBack(c, p.taskId, text, prev, t, now);
    forall k | 0 <= k < |t|
      ensures Verify(c, signed[k]) && Attributed(p, rs, t[k], signed[k])
    {
      SignVerifies(c, Stamp(p.taskId, t[k], now(k)));
      StoredAttributed(c, p, rs, cancelled, t[k], now(k));
    }
  }

  lemma SignVerifies(c: Codec, e: Entry)
    requires Lawful(c)
    ensures Verify(c, Sign(c, e))
  {
    assert Sign(c, e).(sig := "") == e.(sig := "");
  }

  /** The j-th entry of the k-th leaf's section is read at its place after `base` others. */
  ghost predicate SectionRead(c: Codec, p: Plan, rs: seq<LeafResult>, cancelled: bool, entries: seq<Entry>, base: nat,
                              now: nat -> Time, k: nat, j: nat)
    requires k < |rs| && j < |Section(p, rs[k], cancelled)|
  {
    var at := Offset(rs, k, cancelled) + j;
    base + at < |entries| && entries[base + at] == Sign(c, Stamp(p.taskId, Section(p, rs[k], cancelled)[j], now(at)))
  }

  ghost predicate SectionsRead(c: Codec, p: Plan, rs: seq<LeafResult>, cancelled: bool, entries: seq<Entry>, base: nat, now: nat -> Time) {
    forall k, j :: 0 <= k < |rs| && 0 <= j < |Section(p, rs[k], cancelled)| ==>
                     SectionRead(c, p, rs, cancelled, entries, base, now, k, j)
  }

  /** The file `text` after a whole run reads as the earlier entries followed by the run's
      trail: start, each leaf's section at its place, terminal. */
  ghost predicate ReadsAsTrail(c: Codec, p: Plan, rs: seq<LeafResult>, cancelled: bool, text: string, prev: seq<Entry>, now: nat -> Time) {
    var r, n := ReadText(c, text), Offset(rs, |rs|, cancelled);
    && r.err.None? && |r.entries| == |prev| + n + 1 && r.entries[..|prev|] == prev
    && r.entries[|prev|] == Sign(c, Stamp(p.taskId, StartEntry(p), now(0)))
    && SectionsRead(c, p, rs, cancelled, r.entries, |prev|, now)
    && r.entries[|prev| + n] == Sign(c, Stamp(p.taskId, TerminalEntry(p, rs, cancelled), now(n)))
  }

  lemma SignedAt(c: Codec, taskId: string, prev: seq<Entry>, es: seq<Entry>, now: nat -> Time, k: nat)
    requires k < |es|
    ensures (prev + SignedEntries(c, taskId, es, now))[|prev| + k] == Sign(c, Stamp(taskId, es[k], now(k)))
  {
  }

  lemma SignedSections(c: Codec, p: Plan, rs: seq<LeafResult>, cancelled: bool, prev: seq<Entry>, now: nat -> Time)
    ensures SectionsRead(c, p, rs, cancelled, prev + SignedEntries(c, p.taskId, TrailOf(p, rs, cancelled), now), |prev|, now)
  {
    forall k, j | 0 <= k < |rs| && 0 <= j < |Section(p, rs[k], cancelled)|
      ensures SectionRead(c, p, rs, cancelled, prev + SignedEntries(c, p.taskId, TrailOf(p, rs, cancelled), now), |prev|, now, k, j)
    {
      SectionInTrail(p, rs, cancelled, k, j);
      SignedAt(c, p.taskId, prev, TrailOf(p, rs, cancelled), now, Offset(rs, k, cancelled) + j);
    }
  }

  lemma ReadsAsTrailWhole(c: Codec, p: Plan, rs: seq<LeafResult>, cancelled: bool, text: string, prev: seq<Entry>, now: nat -> Time)
    requires ReadText(c, text) == ReadResult(prev + SignedEntries(c, p.taskId, TrailOf(p, rs, cancelled), now), None)
    ensures ReadsAsTrail(c, p, rs, cancelled, text, prev, now)
  {
    var t := TrailOf(p, rs, cancelled);
    TrailEnds(p, rs, cancelled);
    SignedAt(c, p.taskId, prev, t, now, 0);
    SignedAt(c, p.taskId, prev, t, now, |t| - 1);
    SignedSections(c, p, rs, cancelled, prev, now);
    var all := prev + SignedEntries(c, p.taskId, t, now);
    assert all[..|prev|] == prev;
  }

  /** Execute, the accounting of its writes, the trail's shape and the ledger's round trip in
      one: a run that reports no ledger error, over any interleaving and any file that read
      well before, leaves a file that reads as the earlier entries and then that run's trail,
      exactly when every line fits. */
  lemma RunReadsBack(w: Writer, p: Plan, acts: seq<Swarm.Act>, text: string, prev: seq<Entry>)
    requires Swarm.Legal(p, Swarm.Init(p), acts) && w.taskId == p.taskId
    requires Lawful(w.codec) && Complete(text) && ReadText(w.codec, text) == ReadResult(prev, None)
    ensures var s := Swarm.After(p, Swarm.Init(p), acts);
            var rs := SortById(s.results);
            var l := PutAll(w, Log(text, 0, []), TrailOf(p, rs, s.cancelled));
            l.errs == [] ==>
              (ReadsAsTrail(w.codec, p, rs, s.cancelled, l.text, prev, Clock(w.env)) <==>
               Fit(w.codec, p.taskId, TrailOf(p, rs, s.cancelled), Clock(w.env)))
  {
    var s := Swarm.After(p, Swarm.Init(p), acts);
    TextReadsBack(w, p, SortById(s.results), s.cancelled, text, prev);
  }

  lemma TextReadsBack(w: Writer, p: Plan, rs: seq<LeafResult>, cancelled: bool, text: string, prev: seq<Entry>)
    requires w.taskId == p.taskId && Lawful(w.codec) && Complete(text) && ReadText(w.codec, text) == ReadResult(prev, None)
    ensures var l := PutAll(w, Log(text, 0, []), TrailOf(p, rs, cancelled));
            l.errs == [] ==>
              (ReadsAsTrail(w.codec, p, rs, cancelled, l.text, prev, Clock(w.env)) <==>
               Fit(w.codec, p.taskId, TrailOf(p, rs, cancelled), Clock(w.env)))
  {
    var t, now := TrailOf(p, rs, cancelled), Clock(w.env);
    var l := PutAll(w, Log(text, 0, []), t);
    WritesAccounted(w, text, t);
    if l.errs == [] {
      ReadBack(w.codec, p.taskId, text, prev, t, now);
      if Fit(w.codec, p.taskId, t, now) {
        ReadsAsTrailWhole(w.codec, p, rs, cancelled, l.text, prev, now);
      } else {
        AppendedScans(w.codec, p.taskId, text, t, now);
        ReadOn(w.codec, ScanLines(text), LinesOf(w.codec, p.taskId, t, now), 0, [], prev);
        UnfitFails(w.codec, p.taskId, t, now, ScanLines(text), prev);
      }
    }
  }

  // ----- what the entries read back say

  /** A leaf's own entry as stored: its own in everything, under the plan's task, its own tenant
      if it named one, its own time if it had one. */
  predicate LeafStored(p: Plan, own: Entry, got: Entry, now: Time) {
    && got.phase == own.phase && got.action == own.action && got.result == own.result && got.data == own.data
    && got.durationMs == own.durationMs && got.stderrTail == own.stderrTail && got.stdoutTail == own.stdoutTail
    && got.taskId == p.taskId
    && got.tenantId == (if own.tenantId != "" then own.tenantId else p.tenantId)
    && got.ts == (if own.ts != 0 then own.ts else now)
  }

  /** An entry of the swarm itself, as stored. */
  predicate SwarmStored(p: Plan, action: string, result: string, got: Entry, now: Time) {
    && got.phase == "swarm" && got.action == action && got.result == result
    && got.taskId == p.taskId && got.tenantId == p.tenantId && got.ts == now
  }

  /** The marker of a leaf that failed, or of one that did not. */
  predicate MarkerStored(p: Plan, leafId: string, failed: bool, duration: int, got: Entry, now: Time) {
    && (if failed then SwarmStored(p, "leaf-error:" + leafId, "error", got, now)
        else SwarmStored(p, "leaf-ok:" + leafId, "ok", got, now))
    && got.durationMs == Millis(duration)
  }

  /** Where the j-th entry of the k-th leaf, or its marker after them, is read. */
  ghost function PlaceOf(rs: seq<LeafResult>, cancelled: bool, prev: seq<Entry>, k: nat, j: nat): nat
    requires k <= |rs|
  {
    |prev| + Offset(rs, k, cancelled) + j
  }

  lemma AdoptStored(c: Codec, p: Plan, own: Entry, now: Time)
    requires p.taskId != ""
    ensures LeafStored(p, own, Sign(c, Stamp(p.taskId, Adopt(p, own), now)), now)
  {
  }

  lemma MarkerIsStored(c: Codec, p: Plan, r: LeafResult, now: Time)
    ensures MarkerStored(p, r.leafId, r.err.Some?, r.duration, Sign(c, Stamp(p.taskId, MarkerEntry(p, r), now)), now)
  {
  }

  lemma EndsStored(c: Codec, p: Plan, rs: seq<LeafResult>, cancelled: bool, now: Time)
    ensures SwarmStored(p, "start:" + p.parentRun, "ok", Sign(c, Stamp(p.taskId, StartEntry(p), now)), now)
    ensures var got := Sign(c, Stamp(p.taskId, TerminalEntry(p, rs, cancelled), now));
            if cancelled then SwarmStored(p, "cancel", "cancelled", got, now)
            else SwarmStored(p, "done:" + p.parentRun, if NoLeafFailed(rs) then "ok" else "error", got, now)
  {
  }

  lemma SectionParts(p: Plan, r: LeafResult, cancelled: bool)
    ensures var sec := Section(p, r, cancelled);
            && |sec| == |r.entries| + (if cancelled then 0 else 1)
            && (forall j :: 0 <= j < |r.entries| ==> sec[j] == Adopt(p, r.entries[j]))
            && (!cancelled ==> sec[|r.entries|] == MarkerEntry(p, r))
  {
  }

  lemma ReadAt(c: Codec, p: Plan, rs: seq<LeafResult>, cancelled: bool, text: string, prev: seq<Entry>, now: nat -> Time, k: nat, j: nat)
    requires ReadsAsTrail(c, p, rs, cancelled, text, prev, now) && k < |rs| && j < |Section(p, rs[k], cancelled)|
    ensures SectionRead(c, p, rs, cancelled, ReadText(c, text).entries, |prev|, now, k, j)
  {
  }

  lemma LeafEntryRead(c: Codec, p: Plan, rs: seq<LeafResult>, cancelled: bool, text: string, prev: seq<Entry>, now: nat -> Time, k: nat, j: nat)
    requires ReadsAsTrail(c, p, rs, cancelled, text, prev, now) && p.taskId != "" && k < |rs| && j < |rs[k].entries|
    ensures var es, at := ReadText(c, text).entries, PlaceOf(rs, cancelled, prev, k, j);
            at < |es| && LeafStored(p, rs[k].entries[j], es[at], now(at - |prev|))
  {
    SectionParts(p, rs[k], cancelled);
    ReadAt(c, p, rs, cancelled, text, prev, now, k, j);
    AdoptStored(c, p, rs[k].entries[j], now(Offset(rs, k, cancelled) + j));
  }

  lemma MarkerRead(c: Codec, p: Plan, rs: seq<LeafResult>, text: string, prev: seq<Entry>, now: nat -> Time, k: nat)
    requires ReadsAsTrail(c, p, rs, false, text, prev, now) && k < |rs|
    ensures var es, at := ReadText(c, text).entries, PlaceOf(rs, false, prev, k, |rs[k].entries|);
            at < |es| && MarkerStored(p, rs[k].leafId, rs[k].err.Some?, rs[k].duration, es[at], now(at - |prev|))
  {
    SectionParts(p, rs[k], false);
    ReadAt(c, p, rs, false, text, prev, now, k, |rs[k].entries|);
    MarkerIsStored(c, p, rs[k], now(Offset(rs, k, false) + |rs[k].entries|));
  }

  /** The first and the last entry of the trail. */
  ghost predicate EndsRead(p: Plan, rs: seq<LeafResult>, cancelled: bool, es: seq<Entry>, prev: seq<Entry>, now: nat -> Time) {
    var n := Offset(rs, |rs|, cancelled);
    && |es| == |prev| + n + 1
    && SwarmStored(p, "start:" + p.parentRun, "ok", es[|prev|], now(0))
    && (if cancelled then SwarmStored(p, "cancel", "cancelled", es[|prev| + n], now(n))
        else SwarmStored(p, "done:" + p.parentRun, if NoLeafFailed(rs) then "ok" else "error", es[|prev| + n], now(n)))
  }

  ghost predicate LeavesRead(p: Plan, rs: seq<LeafResult>, cancelled: bool, es: seq<Entry>, prev: seq<Entry>, now: nat -> Time) {
    forall k, j :: 0 <= k < |rs| && 0 <= j < |rs[k].entries| ==>
      var at := PlaceOf(rs, cancelled, prev, k, j);
      at < |es| && LeafStored(p, rs[k].entries[j], es[at], now(at - |prev|))
  }

  ghost predicate MarkersRead(p: Plan, rs: seq<LeafResult>, es: seq<Entry>, prev: seq<Entry>, now: nat -> Time) {
    forall k :: 0 <= k < |rs| ==>
      var at := PlaceOf(rs, false, prev, k, |rs[k].entries|);
      at < |es| && MarkerStored(p, rs[k].leafId, rs[k].err.Some?, rs[k].duration, es[at], now(at - |prev|))
  }

  lemma TrailEndsRead(c: Codec, p: Plan, rs: seq<LeafResult>, cancelled: bool, text: string, prev: seq<Entry>, now: nat -> Time)
    requires ReadsAsTrail(c, p, rs, cancelled, text, prev, now)
    ensures EndsRead(p, rs, cancelled, ReadText(c, text).entries, prev, now)
  {
    EndsStored(c, p, rs, cancelled, now(0));
    EndsStored(c, p, rs, cancelled, now(Offset(rs, |rs|, cancelled)));
  }

  /** Field by field, what a file that reads as a trail says. */
  lemma TrailEntries(c: Codec, p: Plan, rs: seq<LeafResult>, cancelled: bool, text: string, prev: seq<Entry>, now: nat -> Time)
    requires ReadsAsTrail(c, p, rs, cancelled, text, prev, now) && p.taskId != ""
    ensures var es := ReadText(c, text).entries;
            && EndsRead(p, rs, cancelled, es, prev, now) && LeavesRead(p, rs, cancelled, es, prev, now)
            && (!cancelled ==> MarkersRead(p, rs, es, prev, now))
  {
    TrailEndsRead(c, p, rs, cancelled, text, prev, now);
    forall k, j | 0 <= k < |rs| && 0 <= j < |rs[k].entries|
      ensures var es, at := ReadText(c, text).entries, PlaceOf(rs, cancelled, prev, k, j);
              at < |es| && LeafStored(p, rs[k].entries[j], es[at], now(at - |prev|))
    {
      LeafEntryRead(c, p, rs, cancelled, text, prev, now, k, j);
    }
    if !cancelled {
      forall k | 0 <= k < |rs|
        ensures var es, at := ReadText(c, text).entries, PlaceOf(rs, false, prev, k, |rs[k].entries|);
                at < |es| && MarkerStored(p, rs[k].leafId, rs[k].err.Some?, rs[k].duration, es[at], now(at - |prev|))
      {
        MarkerRead(c, p, rs, text, prev, now, k);
      }
    }
  }

  /** After an uncancelled run that reports no ledger error and whose lines fit, every leaf of
      the plan has its marker in the file: an error exactly when its last attempt failed. */
  lemma LeafMarkers(w: Writer, p: Plan, acts: seq<Swarm.Act>, text: string, prev: seq<Entry>, i: nat) returns (at: nat)
    requires Swarm.Legal(p, Swarm.Init(p), acts) && Swarm.After(p, Swarm.Init(p), acts).main == Swarm.Ended(false)
    requires w.taskId == p.taskId != "" && i < |p.leaves|
    requires Lawful(w.codec) && Complete(text) && ReadText(w.codec, text) == ReadResult(prev, None)
    requires PutAll(w, Log(text, 0, []), RunTrail(p, acts)).errs == [] && Fit(w.codec, p.taskId, RunTrail(p, acts), Clock(w.env))
    ensures var s := Swarm.After(p, Swarm.Init(p), acts);
            var es := ReadText(w.codec, PutAll(w, Log(text, 0, []), RunTrail(p, acts)).text).entries;
            && |prev| <= at < |es| && i < |s.leaves| == |s.results|
            && MarkerStored(p, p.leaves[i].leafId, Swarm.LastOutcome(s.leaves[i].tried).err.Some?, s.results[i].duration, es[at], Clock(w.env)(at - |prev|))
  {
    var s := Swarm.After(p, Swarm.Init(p), acts);
    UncancelledFlag(p, acts);
    LeafReported(p, acts, i);
    RunReadsBack(w, p, acts, text, prev);
    at := MarkerOfResult(w.codec, p, s.results, PutAll(w, Log(text, 0, []), RunTrail(p, acts)).text, prev, Clock(w.env), i);
  }

  /** Each result has its marker, wherever the sort has put it. */
  lemma MarkerOfResult(c: Codec, p: Plan, results: seq<LeafResult>, text: string, prev: seq<Entry>, now: nat -> Time, i: nat) returns (at: nat)
    requires ReadsAsTrail(c, p, SortById(results), false, text, prev, now) && i < |results|
    ensures var es := ReadText(c, text).entries;
            |prev| <= at < |es| && MarkerStored(p, results[i].leafId, results[i].err.Some?, results[i].duration, es[at], now(at - |prev|))
  {
    var k := SortedPlace(results, i);
    MarkerRead(c, p, SortById(results), text, prev, now, k);
    at := PlaceOf(SortById(results), false, prev, k, |results[i].entries|);
  }

  lemma LeafReported(p: Plan, acts: seq<Swarm.Act>, i: nat)
    requires Swarm.Legal(p, Swarm.Init(p), acts) && Swarm.After(p, Swarm.Init(p), acts).main == Swarm.Ended(false) && i < |p.leaves|
    ensures var s := Swarm.After(p, Swarm.Init(p), acts);
            && i < |s.leaves| == |s.results|
            && s.results[i].leafId == p.leaves[i].leafId && s.results[i].err == Swarm.LastOutcome(s.leaves[i].tried).err
  {
    Swarm.UncancelledRun(p, acts);
    var s := Swarm.After(p, Swarm.Init(p), acts);
    assert Swarm.Reported(p.retryEach, p.leaves[i], s.leaves[i], s.results[i]);
  }

  /** The trail of a run. */
  ghost function RunTrail(p: Plan, acts: seq<Swarm.Act>): seq<Entry>
    requires Swarm.Legal(p, Swarm.Init(p), acts)
  {
    var s := Swarm.After(p, Swarm.Init(p), acts);
    TrailOf(p, SortById(s.results), s.cancelled)
  }

  lemma UncancelledFlag(p: Plan, acts: seq<Swarm.Act>)
    requires Swarm.Legal(p, Swarm.Init(p), acts) && Swarm.After(p, Swarm.Init(p), acts).main == Swarm.Ended(false)
    ensures !Swarm.After(p, Swarm.Init(p), acts).cancelled
  {
    Swarm.InitInv(p);
    Swarm.RunInv(p, Swarm.Init(p), acts);
  }

  lemma SortedPlace(results: seq<LeafResult>, i: nat) returns (k: nat)
    requires i < |results|
    ensures k < |SortById(results)| && SortById(results)[k] == results[i]
  {
    SortPermutes(ById, results);
    assert results[i] in multiset(SortById(results));
    k :| 0 <= k < |SortById(results)| && SortById(results)[k] == results[i];
  }

  /** The terminal entry of a whole run tells how it went: `cancel` exactly when it was
      cancelled, else `done`, and "ok" exactly when every leaf's last attempt succeeded. */
  lemma TerminalTellsOutcome(p: Plan, acts: seq<Swarm.Act>)
    requires Swarm.Legal(p, Swarm.Init(p), acts) && Swarm.After(p, Swarm.Init(p), acts).main.Ended?
    ensures var s := Swarm.After(p, Swarm.Init(p), acts);
            var last := TerminalEntry(p, SortById(s.results), s.cancelled);
            && (last.action == "cancel" <==> s.cancelled)
            && (last.result == "cancelled" <==> s.cancelled)
            && (last.result == "ok" <==>
                  (!s.cancelled && forall i :: 0 <= i < |s.leaves| ==> Swarm.LastOutcome(s.leaves[i].tried).err.None?))
  {
    var s := Swarm.After(p, Swarm.Init(p), acts);
    Swarm.InitInv(p);
    Swarm.RunInv(p, Swarm.Init(p), acts);
    SortPermutes(ById, s.results);
    SameFailures(s.results, SortById(s.results));
    assert ("done:" + p.parentRun)[0] == 'd' && "cancel"[0] == 'c' && "ok"[0] == 'o' && "error"[0] == 'e';
    if !s.cancelled {
      Swarm.UncancelledRun(p, acts);
      assert forall i :: 0 <= i < |s.leaves| ==>
        Swarm.Reported(p.retryEach, p.leaves[i], s.leaves[i], s.results[i]);
    }
  }
}
