/** ReadSince and the fleet.LedgerTail handler, and what a client that echoes the cursor
    back sees of an append-only log. */
module LedgerTail {
  import opened Strings
  import opened FleetTypes
  import opened Ledgers

  /** RFC 3339 with nanoseconds, as a pair of functions. */
  datatype Clock = Clock(format: Time -> string, parse: string -> Option<Time>)

  ghost predicate Lossless(k: Clock) {
    forall t :: k.parse(k.format(t)) == Some(t) && k.format(t) != ""
  }

  function FilterAfter(es: seq<Entry>, after: Time): seq<Entry> {
    if es == [] then []
    else FilterAfter(es[..|es| - 1], after) + (if es[|es| - 1].ts > after then [es[|es| - 1]] else [])
  }

  /** The `out := all[:0]` loop: the output shares the input's backing array, and each
      write lands at or before the slot being read. */
  method CompactAfter(a: array<Entry>, after: Time) returns (n: nat)
    modifies a
    ensures n <= a.Length && a[..n] == FilterAfter(old(a[..]), after)
  {
    n := 0;
    ghost var was := a[..];
    for i := 0 to a.Length
      invariant n <= i && a[..n] == FilterAfter(was[..i], after)
      invariant forall j :: i <= j < a.Length ==> a[j] == was[j]
    {
      assert was[..i + 1][..i] == was[..i];
      if a[i].ts > after {
        a[n] := a[i];
        n := n + 1;
      }
    }
    assert was[..a.Length] == was;
  }

  method ReadSince(led: Ledger, taskId: string, after: Time) returns (r: ReadResult)
    ensures taskId !in led.files ==> r == ReadResult([], Some(NoFile))
    ensures taskId in led.files ==> r == Since(ReadText(led.codec, led.files[taskId]), after)
  {
    var all := led.Read(taskId);
    if all.err.Some? { return ReadResult([], all.err); }
    if after == 0 { return all; }
    var a := new Entry[|all.entries|](i requires 0 <= i < |all.entries| => all.entries[i]);
    assert a[..] == all.entries;
    var n := CompactAfter(a, after);
    r := ReadResult(a[..n], None);
  }

  /** What ReadSince makes of a Read result. */
  function Since(all: ReadResult, after: Time): ReadResult {
    if all.err.Some? then ReadResult([], all.err)
    else if after == 0 then all
    else ReadResult(FilterAfter(all.entries, after), None)
  }

  datatype TailResult = Tail(entries: seq<Entry>, cursor: string) | InvalidParams | InternalError(cause: ReadError)

  /** The handler, over the reader's answer for each time. */
  function Handle(k: Clock, taskId: string, afterTs: string, read: Time -> ReadResult): TailResult {
    if taskId == "" || (afterTs != "" && k.parse(afterTs).None?) then InvalidParams else
      var r := read(if afterTs == "" then 0 else k.parse(afterTs).value);
      match r.err
      case Some(NoFile) => Tail([], afterTs)
      case Some(other) => InternalError(other)
      case None => Tail(r.entries, if r.entries == [] then afterTs else k.format(r.entries[|r.entries| - 1].ts))
  }

  /** ReadSince on a directory of task files. */
  function FileReader(c: Codec, files: map<string, string>, taskId: string): Time -> ReadResult {
    (after: Time) => if taskId in files then Since(ReadText(c, files[taskId]), after) else ReadResult([], Some(NoFile))
  }

  /** What the handler answers: a parameter error exactly for a missing task id or a cursor that
      does not parse; nothing and the same cursor for a task without a file; an internal error
      exactly for a file that does not read; else the entries after the cursor, which moves to
      the last of them. */
  lemma TailReplies(k: Clock, c: Codec, files: map<string, string>, taskId: string, afterTs: string)
    ensures var r, all := Handle(k, taskId, afterTs, FileReader(c, files, taskId)), if taskId in files then ReadText(c, files[taskId]) else ReadResult([], None);
            var bad := taskId == "" || (afterTs != "" && k.parse(afterTs).None?);
            && (r.InvalidParams? <==> bad)
            && (r.InternalError? <==> !bad && all.err.Some?)
            && (r.InternalError? ==> Some(r.cause) == all.err)
            && (r.Tail? ==>
                  var got := if At(k, afterTs) == 0 then all.entries else FilterAfter(all.entries, At(k, afterTs));
                  r.entries == got && r.cursor == if got == [] then afterTs else k.format(got[|got| - 1].ts))
  {
    if taskId in files { NeverNoFile(c, ScanLines(files[taskId]), 0, []); }
  }

  /** Reading a file that is there never says that it is not. */
  lemma {:induction false} NeverNoFile(c: Codec, lines: seq<string>, n: nat, acc: seq<Entry>)
    requires n <= |lines|
    ensures ReadLines(c, lines, n, acc).err != Some(NoFile)
    decreases |lines| - n
  {
    if n < |lines| && |lines[n]| < MAX_SCAN {
      var raw := TrimSpace(lines[n]);
      if raw == "" { NeverNoFile(c, lines, n + 1, acc); }
      else if c.decode(raw).Some? { NeverNoFile(c, lines, n + 1, acc + [c.decode(raw).value]); }
    }
  }

  // ----- a polling client

  datatype Act = Append(e: Entry) | Poll

  /** The log, the cursor the client holds, and all it has been handed so far. */
  datatype View = View(log: seq<Entry>, cursor: string, seen: seq<Entry>)

  const Start := View([], "", [])

  /** A task without entries has no file yet. */
  function Reader(log: seq<Entry>): Time -> ReadResult {
    (after: Time) => if log == [] then ReadResult([], Some(NoFile)) else Since(ReadResult(log, None), after)
  }

  function Step(k: Clock, v: View, a: Act): View {
    match a
    case Append(e) => v.(log := v.log + [e])
    case Poll =>
      match Handle(k, "task", v.cursor, Reader(v.log))
      case Tail(es, cursor) => v.(cursor := cursor, seen := v.seen + es)
      case _ => v
  }

  function Run(k: Clock, v: View, acts: seq<Act>): View
    decreases |acts|
  {
    if acts == [] then v else Run(k, Step(k, v, acts[0]), acts[1..])
  }

  /** The time the client's cursor stands for. */
  function At(k: Clock, cursor: string): Time {
    if cursor == "" || k.parse(cursor).None? then 0 else k.parse(cursor).value
  }

  predicate Stamped(acts: seq<Act>) {
    forall i :: 0 <= i < |acts| && acts[i].Append? ==> acts[i].e.ts > 0
  }

  predicate LastIsLatest(log: seq<Entry>) {
    forall i :: 0 <= i < |log| ==> log[i].ts <= log[|log| - 1].ts
  }

  ghost predicate WellFormed(k: Clock, v: View) {
    && (v.cursor == "" || k.parse(v.cursor).Some?)
    && At(k, v.cursor) >= 0
    && forall i :: 0 <= i < |v.log| ==> v.log[i].ts > 0
  }

  /** The first `m` entries were handed out, and the cursor separates them from the rest. */
  ghost predicate Split(k: Clock, v: View, m: nat) {
    && m <= |v.log| && v.seen == v.log[..m]
    && (forall i :: 0 <= i < m ==> v.log[i].ts <= At(k, v.cursor))
    && (forall i :: m <= i < |v.log| ==> v.log[i].ts > At(k, v.cursor))
    && (if m == 0 then At(k, v.cursor) == 0 else At(k, v.cursor) == v.log[m - 1].ts)
  }

  lemma {:induction false} FilterSplit(es: seq<Entry>, m: nat, after: Time)
    requires m <= |es| && (forall i :: 0 <= i < m ==> es[i].ts <= after) && (forall i :: m <= i < |es| ==> es[i].ts > after)
    ensures FilterAfter(es, after) == es[m..]
  {
    if m < |es| {
      var n := |es| - 1;
      FilterSplit(es[..n], m, after);
      assert es[m..] == es[..n][m..] + [es[n]];
    } else if m > 0 {
      FilterSplit(es[..m - 1], m - 1, after);
    }
  }

  /** A poll hands out exactly the entries stamped after the cursor and moves the cursor
      to the last of them. */
  lemma PollStep(k: Clock, v: View)
    requires Lossless(k) && WellFormed(k, v)
    ensures var t := Step(k, v, Poll);
            var got := FilterAfter(v.log, At(k, v.cursor));
            && t.log == v.log && t.seen == v.seen + got
            && At(k, t.cursor) == (if got == [] then At(k, v.cursor) else got[|got| - 1].ts)
            && WellFormed(k, t)
  {
    var after := At(k, v.cursor);
    var got := FilterAfter(v.log, after);
    FilterMembers(v.log, after);
    if after == 0 { FilterSplit(v.log, 0, 0); assert v.log[0..] == v.log; }
    var r := Reader(v.log)(after);
    assert r == if v.log == [] then ReadResult([], Some(NoFile)) else ReadResult(got, None);
    var t := Step(k, v, Poll);
    assert t.cursor == if got == [] then v.cursor else k.format(got[|got| - 1].ts);
    if got != [] { assert got[|got| - 1] in got; }
  }

  lemma {:induction false} FilterMembers(es: seq<Entry>, after: Time)
    ensures forall e :: e in FilterAfter(es, after) <==> e in es && e.ts > after
  {
    if es != [] {
      FilterMembers(es[..|es| - 1], after);
      assert es == es[..|es| - 1] + [es[|es| - 1]];
    }
  }

  lemma PollSplit(k: Clock, v: View, m: nat)
    requires Lossless(k) && WellFormed(k, v) && Split(k, v, m)
    ensures var t := Step(k, v, Poll);
            && t.log == v.log && t.seen == v.log && WellFormed(k, t)
            && (Split(k, t, |v.log|) <==> LastIsLatest(v.log))
            && At(k, t.cursor) == (if v.log == [] then 0 else v.log[|v.log| - 1].ts)
  {
    PollStep(k, v);
    var t := Step(k, v, Poll);
    FilterSplit(v.log, m, At(k, v.cursor));
    assert t.seen == v.log[..m] + v.log[m..] == v.log;
    SplitAtEnd(k, t);
  }

  lemma SplitAtEnd(k: Clock, t: View)
    requires t.seen == t.log && At(k, t.cursor) == (if t.log == [] then 0 else t.log[|t.log| - 1].ts)
    ensures Split(k, t, |t.log|) <==> LastIsLatest(t.log)
  {
    assert t.log[..|t.log|] == t.log;
  }

  /** Every append is stamped after the cursor the client then holds, and at every poll
      the last entry of the log carries its latest time. */
  predicate Clean(k: Clock, v: View, acts: seq<Act>)
    decreases |acts|
  {
    acts == [] || (CleanStep(k, v, acts[0]) && Clean(k, Step(k, v, acts[0]), acts[1..]))
  }

  /** Polling once more after the first n steps completes the client's copy of the log. */
  ghost predicate ExactAt(k: Clock, v: View, acts: seq<Act>, n: nat)
    requires n <= |acts|
  {
    var t := Run(k, v, acts[..n] + [Poll]);
    t.seen == t.log
  }

  ghost predicate Exact(k: Clock, v: View, acts: seq<Act>) {
    forall n :: 0 <= n <= |acts| ==> ExactAt(k, v, acts, n)
  }

  lemma ExactNext(k: Clock, v: View, acts: seq<Act>)
    requires acts != []
    ensures ExactAt(k, v, acts, 0) <==> Step(k, v, Poll).seen == Step(k, v, Poll).log
    ensures forall n :: 0 <= n < |acts| ==>
              (ExactAt(k, v, acts, n + 1) <==> ExactAt(k, Step(k, v, acts[0]), acts[1..], n))
    ensures Exact(k, v, acts) <==> (ExactAt(k, v, acts, 0) && Exact(k, Step(k, v, acts[0]), acts[1..]))
  {
    assert acts[..0] + [Poll] == [Poll];
    assert Run(k, v, [Poll]) == Run(k, Step(k, v, Poll), []);
    forall n | 0 <= n < |acts|
      ensures ExactAt(k, v, acts, n + 1) <==> ExactAt(k, Step(k, v, acts[0]), acts[1..], n)
    {
      var b := acts[..n + 1] + [Poll];
      assert b[0] == acts[0] && b[1..] == acts[1..][..n] + [Poll];
    }
    if ExactAt(k, v, acts, 0) && Exact(k, Step(k, v, acts[0]), acts[1..]) {
      forall n | 0 <= n <= |acts|
        ensures ExactAt(k, v, acts, n)
      {
        if n > 0 { assert ExactAt(k, Step(k, v, acts[0]), acts[1..], n - 1); }
      }
    }
    if Exact(k, v, acts) {
      forall n | 0 <= n <= |acts[1..]|
        ensures ExactAt(k, Step(k, v, acts[0]), acts[1..], n)
      {
        assert ExactAt(k, v, acts, n + 1);
      }
    }
  }

  lemma TimelyAppend(k: Clock, v: View, e: Entry, m: nat)
    requires WellFormed(k, v) && Split(k, v, m) && e.ts > At(k, v.cursor)
    ensures var u := Step(k, v, Append(e)); WellFormed(k, u) && Split(k, u, m)
  {
    assert (v.log + [e])[..m] == v.log[..m];
  }

  lemma LateAppendShows(k: Clock, v: View, e: Entry, m: nat)
    requires Lossless(k) && WellFormed(k, v) && Split(k, v, m) && 0 < e.ts <= At(k, v.cursor)
    ensures var u := Step(k, v, Append(e)); Step(k, u, Poll).seen != Step(k, u, Poll).log
  {
    var u := Step(k, v, Append(e));
    PollStep(k, u);
    assert u.log[..|v.log|] == v.log;
    FilterSplit(v.log, m, At(k, v.cursor));
    assert v.seen + v.log[m..] == v.log;
  }

  lemma ReversalShows(k: Clock, v: View, m: nat)
    requires Lossless(k) && WellFormed(k, v) && Split(k, v, m) && !LastIsLatest(v.log)
    ensures var u := Step(k, v, Poll); Step(k, u, Poll).seen != Step(k, u, Poll).log
  {
    PollSplit(k, v, m);
    var u := Step(k, v, Poll);
    PollStep(k, u);
    FilterMembers(v.log, At(k, u.cursor));
    var i :| 0 <= i < |v.log| && v.log[i].ts > v.log[|v.log| - 1].ts;
    assert v.log[i] in FilterAfter(v.log, At(k, u.cursor));
  }

  /** From any state on, polls only add to the client's copy, and only entries stamped after
      the cursor it then held. */
  lemma {:induction false} OnlyLater(k: Clock, v: View, acts: seq<Act>)
    requires Lossless(k) && WellFormed(k, v) && Stamped(acts)
    ensures v.seen <= Run(k, v, acts).seen
    ensures forall x :: x in Run(k, v, acts).seen[|v.seen|..] ==> x.ts > At(k, v.cursor)
    decreases |acts|
  {
    if acts == [] {
      assert v.seen[|v.seen|..] == [];
    } else {
      var u := Step(k, v, acts[0]);
      var got := if acts[0].Poll? then FilterAfter(v.log, At(k, v.cursor)) else [];
      if acts[0].Poll? {
        PollStep(k, v);
        FilterMembers(v.log, At(k, v.cursor));
        if got != [] { assert got[|got| - 1] in got; }
      }
      OnlyLater(k, u, acts[1..]);
      SeenTail(v.seen, got, Run(k, u, acts[1..]).seen);
    }
  }

  lemma SeenTail(a: seq<Entry>, got: seq<Entry>, all: seq<Entry>)
    requires a + got <= all
    ensures a <= all && all[|a|..] == got + all[|a + got|..]
  {
    assert all == (a + got) + all[|a + got|..];
  }

  /** An append stamped no later than the cursor is never handed out, whatever follows. */
  lemma LateAppendLost(k: Clock, v: View, e: Entry, acts: seq<Act>)
    requires Lossless(k) && WellFormed(k, v) && Stamped(acts) && 0 < e.ts <= At(k, v.cursor)
    ensures var w := Run(k, Step(k, v, Append(e)), acts); v.seen <= w.seen && e !in w.seen[|v.seen|..]
  {
    OnlyLater(k, Step(k, v, Append(e)), acts);
  }

  /** An entry stamped after the cursor is handed out by the next poll, whenever that comes. */
  lemma {:induction false} LaterHandedOut(k: Clock, v: View, acts: seq<Act>, x: Entry)
    requires Lossless(k) && WellFormed(k, v) && Stamped(acts) && Poll in acts && x in v.log && x.ts > At(k, v.cursor)
    ensures v.seen <= Run(k, v, acts).seen && x in Run(k, v, acts).seen[|v.seen|..]
    decreases |acts|
  {
    var u := Step(k, v, acts[0]);
    if acts[0].Poll? {
      var got := FilterAfter(v.log, At(k, v.cursor));
      PollStep(k, v);
      FilterMembers(v.log, At(k, v.cursor));
      OnlyLater(k, u, acts[1..]);
      SeenTail(v.seen, got, Run(k, u, acts[1..]).seen);
    } else {
      LaterHandedOut(k, u, acts[1..], x);
    }
  }

  /** A poll that moves the cursor below an entry it has handed out makes the next poll hand
      that entry out again, whatever comes in between. */
  lemma ReversalRepeats(k: Clock, v: View, m: nat, i: nat, acts: seq<Act>)
    requires Lossless(k) && WellFormed(k, v) && Split(k, v, m) && Stamped(acts) && Poll in acts
    requires i < |v.log| && v.log[i].ts > v.log[|v.log| - 1].ts
    ensures var u := Step(k, v, Poll);
            var w := Run(k, u, acts);
            && u.seen == v.log && u.seen <= w.seen && v.log[i] in w.seen[|u.seen|..]
  {
    PollSplit(k, v, m);
    LaterHandedOut(k, Step(k, v, Poll), acts, v.log[i]);
  }

  lemma {:induction false} ExactFrom(k: Clock, v: View, acts: seq<Act>, m: nat)
    requires Lossless(k) && WellFormed(k, v) && Split(k, v, m) && Stamped(acts)
    ensures Exact(k, v, acts) <==> Clean(k, v, acts)
    decreases |acts|
  {
    PollSplit(k, v, m);
    if acts == [] {
      assert acts[..0] + [Poll] == [Poll];
      assert Run(k, v, [Poll]) == Run(k, Step(k, v, Poll), []);
    } else {
      ExactNext(k, v, acts);
      var u, rest := Step(k, v, acts[0]), acts[1..];
      ExactHead(k, u, rest);
      match acts[0]
      case Append(e) =>
        if e.ts > At(k, v.cursor) {
          TimelyAppend(k, v, e, m);
          ExactFrom(k, u, rest, m);
        } else {
          LateAppendShows(k, v, e, m);
        }
      case Poll =>
        if LastIsLatest(v.log) {
          ExactFrom(k, u, rest, |v.log|);
        } else {
          ReversalShows(k, v, m);
        }
    }
  }

  lemma ExactHead(k: Clock, v: View, acts: seq<Act>)
    ensures Exact(k, v, acts) ==> Step(k, v, Poll).seen == Step(k, v, Poll).log
  {
    if Exact(k, v, acts) {
      assert ExactAt(k, v, acts, 0);
      assert acts[..0] + [Poll] == [Poll];
      assert Run(k, v, [Poll]) == Run(k, Step(k, v, Poll), []);
    }
  }

  /** For every interleaving of appends and polls: a client that polls at any moment
      holds exactly the log, each entry once and in order, if and only if every append
      was stamped after the cursor then held and no poll found the log's latest time
      anywhere but at its end. */
  lemma ExactlyOnce(k: Clock, acts: seq<Act>)
    requires Lossless(k) && Stamped(acts)
    ensures Exact(k, Start, acts) <==> Clean(k, Start, acts)
  {
    ExactFrom(k, Start, acts, 0);
  }

  /** Each append is stamped later than (or, not strictly, no earlier than) all before. */
  predicate Increasing(log: seq<Entry>, acts: seq<Act>, strict: bool)
    decreases |acts|
  {
    acts == [] ||
    match acts[0]
    case Poll => Increasing(log, acts[1..], strict)
    case Append(e) =>
      (log != [] ==> if strict then log[|log| - 1].ts < e.ts else log[|log| - 1].ts <= e.ts)
      && Increasing(log + [e], acts[1..], strict)
  }

  predicate NonDecreasing(log: seq<Entry>) {
    forall i, j :: 0 <= i <= j < |log| ==> log[i].ts <= log[j].ts
  }

  /** What a step must satisfy for `Clean`. */
  predicate CleanStep(k: Clock, v: View, a: Act) {
    match a
    case Append(e) => e.ts > At(k, v.cursor)
    case Poll => LastIsLatest(v.log)
  }

  lemma StrictStep(k: Clock, v: View, a: Act, m: nat) returns (m': nat)
    requires Lossless(k) && WellFormed(k, v) && Split(k, v, m) && NonDecreasing(v.log)
    requires a.Append? ==> a.e.ts > 0 && (v.log != [] ==> v.log[|v.log| - 1].ts < a.e.ts)
    ensures CleanStep(k, v, a)
    ensures var u := Step(k, v, a);
            && WellFormed(k, u) && Split(k, u, m') && NonDecreasing(u.log)
            && u.log == (if a.Append? then v.log + [a.e] else v.log)
  {
    if a.Append? {
      assert m > 0 ==> v.log[m - 1].ts <= v.log[|v.log| - 1].ts;
      TimelyAppend(k, v, a.e, m);
      m' := m;
    } else {
      PollSplit(k, v, m);
      m' := |v.log|;
    }
  }

  lemma {:induction false} StrictIsClean(k: Clock, v: View, acts: seq<Act>, m: nat)
    requires Lossless(k) && WellFormed(k, v) && Split(k, v, m) && NonDecreasing(v.log)
    requires Stamped(acts) && Increasing(v.log, acts, true)
    ensures Clean(k, v, acts)
    decreases |acts|
  {
    if acts != [] {
      var m' := StrictStep(k, v, acts[0], m);
      StrictIsClean(k, Step(k, v, acts[0]), acts[1..], m');
    }
  }

  /** With strictly increasing timestamps the tail is exact. */
  lemma StrictTimesAreExact(k: Clock, acts: seq<Act>)
    requires Lossless(k) && Stamped(acts) && Increasing([], acts, true)
    ensures Exact(k, Start, acts)
  {
    StrictIsClean(k, Start, acts, 0);
    ExactlyOnce(k, acts);
  }

  // ----- a given log, polled at any moments

  /** The entries appended, in order. */
  function AppendsOf(acts: seq<Act>): seq<Entry> {
    if acts == [] then [] else (if acts[0].Append? then [acts[0].e] else []) + AppendsOf(acts[1..])
  }

  predicate StrictTimes(es: seq<Entry>) { forall i :: 0 <= i < |es| - 1 ==> es[i].ts < es[i + 1].ts }

  /** However polls are placed among the appends of `es`, the client holds exactly the log. */
  ghost predicate ExactAnyhow(k: Clock, es: seq<Entry>) {
    forall acts :: AppendsOf(acts) == es ==> Exact(k, Start, acts)
  }

  function Appends(es: seq<Entry>): seq<Act> { seq(|es|, i requires 0 <= i < |es| => Append(es[i])) }

  lemma {:induction false} AppendsBack(es: seq<Entry>)
    ensures AppendsOf(Appends(es)) == es
  {
    if es != [] {
      AppendsBack(es[1..]);
      assert Appends(es)[1..] == Appends(es[1..]);
    }
  }

  lemma {:induction false} AppendsConcat(a: seq<Act>, b: seq<Act>)
    ensures AppendsOf(a + b) == AppendsOf(a) + AppendsOf(b)
  {
    if a == [] {
      assert a + b == b;
    } else {
      assert (a + b)[0] == a[0] && (a + b)[1..] == a[1..] + b;
      AppendsConcat(a[1..], b);
    }
  }

  lemma {:induction false} CleanConcat(k: Clock, v: View, a: seq<Act>, b: seq<Act>)
    ensures Clean(k, v, a + b) <==> Clean(k, v, a) && Clean(k, Run(k, v, a), b)
    decreases |a|
  {
    if a == [] {
      assert a + b == b;
    } else {
      assert (a + b)[0] == a[0] && (a + b)[1..] == a[1..] + b;
      CleanConcat(k, Step(k, v, a[0]), a[1..], b);
    }
  }

  lemma {:induction false} RunAppends(k: Clock, v: View, es: seq<Entry>)
    ensures Run(k, v, Appends(es)) == v.(log := v.log + es)
    decreases |es|
  {
    if es == [] {
      assert v.log + es == v.log;
    } else {
      var u := Step(k, v, Append(es[0]));
      assert Appends(es)[0] == Append(es[0]) && Appends(es)[1..] == Appends(es[1..]);
      RunAppends(k, u, es[1..]);
      assert u.log + es[1..] == v.log + es;
    }
  }

  lemma {:induction false} StampedActs(acts: seq<Act>, es: seq<Entry>)
    requires AppendsOf(acts) == es && forall i :: 0 <= i < |es| ==> es[i].ts > 0
    ensures Stamped(acts)
    decreases |acts|
  {
    if acts != [] {
      var rest := AppendsOf(acts[1..]);
      if acts[0].Append? { assert es[0] == acts[0].e && es[1..] == rest; } else { assert es == rest; }
      StampedActs(acts[1..], rest);
      assert forall i :: 1 <= i < |acts| ==> acts[i] == acts[1..][i - 1];
    }
  }

  lemma {:induction false} StrictIncreases(log: seq<Entry>, acts: seq<Act>)
    requires StrictTimes(log + AppendsOf(acts))
    ensures Increasing(log, acts, true)
    decreases |acts|
  {
    if acts != [] {
      var all := log + AppendsOf(acts);
      if acts[0].Append? {
        assert all == (log + [acts[0].e]) + AppendsOf(acts[1..]);
        if log != [] { assert all[|log| - 1].ts < all[|log|].ts; }
        StrictIncreases(log + [acts[0].e], acts[1..]);
      } else {
        assert all == log + AppendsOf(acts[1..]);
        StrictIncreases(log, acts[1..]);
      }
    }
  }

  /** Polling right before an entry that is not later than the one before it loses it. */
  lemma PollBetween(k: Clock, es: seq<Entry>, i: nat) returns (acts: seq<Act>)
    requires Lossless(k) && (forall x :: 0 <= x < |es| ==> es[x].ts > 0) && i + 1 < |es| && es[i].ts >= es[i + 1].ts
    ensures AppendsOf(acts) == es && !Clean(k, Start, acts)
  {
    var before, after := es[..i + 1], es[i + 1..];
    acts := (Appends(before) + [Poll]) + Appends(after);
    PolledAppends(before, after);
    assert before + after == es;
    CursorAfter(k, before);
    CleanConcat(k, Start, Appends(before) + [Poll], Appends(after));
    LateHead(k, Run(k, Start, Appends(before) + [Poll]), after);
  }

  lemma PolledAppends(before: seq<Entry>, after: seq<Entry>)
    ensures AppendsOf((Appends(before) + [Poll]) + Appends(after)) == before + after
  {
    AppendsBack(before);
    AppendsBack(after);
    AppendsConcat(Appends(before), [Poll]);
    AppendsConcat(Appends(before) + [Poll], Appends(after));
    assert AppendsOf([Poll]) == [];
  }

  /** A first poll moves the cursor to the last entry. */
  lemma CursorAfter(k: Clock, es: seq<Entry>)
    requires Lossless(k) && es != [] && forall x :: 0 <= x < |es| ==> es[x].ts > 0
    ensures At(k, Run(k, Start, Appends(es) + [Poll]).cursor) == es[|es| - 1].ts
  {
    RunAppends(k, Start, es);
    RunThenPoll(k, Start, Appends(es));
    assert Start.log + es == es;
    PollSplit(k, View(es, "", []), 0);
  }

  lemma LateHead(k: Clock, v: View, es: seq<Entry>)
    requires es != [] && es[0].ts <= At(k, v.cursor)
    ensures !Clean(k, v, Appends(es))
  {
    assert Appends(es)[0] == Append(es[0]);
  }

  lemma {:induction false} RunThenPoll(k: Clock, v: View, acts: seq<Act>)
    ensures Run(k, v, acts + [Poll]) == Step(k, Run(k, v, acts), Poll)
    decreases |acts|
  {
    if acts == [] {
      assert acts + [Poll] == [Poll] && [Poll][1..] == [];
      assert Run(k, v, [Poll]) == Run(k, Step(k, v, Poll), []);
    } else {
      assert (acts + [Poll])[0] == acts[0] && (acts + [Poll])[1..] == acts[1..] + [Poll];
      RunThenPoll(k, Step(k, v, acts[0]), acts[1..]);
    }
  }

  /** A log can be tailed at any moments without loss or repeat if and only if its times
      strictly increase. */
  lemma TailExact(k: Clock, es: seq<Entry>)
    requires Lossless(k) && forall i :: 0 <= i < |es| ==> es[i].ts > 0
    ensures ExactAnyhow(k, es) <==> StrictTimes(es)
  {
    if StrictTimes(es) {
      forall acts | AppendsOf(acts) == es
        ensures Exact(k, Start, acts)
      {
        StampedActs(acts, es);
        assert [] + AppendsOf(acts) == es;
        StrictIncreases([], acts);
        StrictTimesAreExact(k, acts);
      }
    } else {
      var i :| 0 <= i < |es| - 1 && es[i].ts >= es[i + 1].ts;
      var acts := PollBetween(k, es, i);
      StampedActs(acts, es);
      ExactlyOnce(k, acts);
    }
  }

  ghost predicate Picks(log: seq<Entry>, at: seq<nat>, seen: seq<Entry>) {
    && |at| == |seen|
    && (forall i, j :: 0 <= i < j < |at| ==> at[i] < at[j])
    && (forall i :: 0 <= i < |at| ==> at[i] < |log| && seen[i] == log[at[i]])
  }

  lemma Boundary(log: seq<Entry>, after: Time) returns (m: nat)
    requires NonDecreasing(log)
    ensures m <= |log| && (forall i :: 0 <= i < m ==> log[i].ts <= after) && (forall i :: m <= i < |log| ==> log[i].ts > after)
  {
    m := 0;
    while m < |log| && log[m].ts <= after
      invariant m <= |log| && forall i :: 0 <= i < m ==> log[i].ts <= after
    {
      m := m + 1;
    }
  }

  lemma PollPicks(k: Clock, v: View, at: seq<nat>) returns (at': seq<nat>)
    requires Lossless(k) && WellFormed(k, v) && NonDecreasing(v.log)
    requires Picks(v.log, at, v.seen) && forall i :: 0 <= i < |at| ==> v.log[at[i]].ts <= At(k, v.cursor)
    ensures var u := Step(k, v, Poll);
            && WellFormed(k, u) && u.log == v.log
            && Picks(u.log, at', u.seen) && forall i :: 0 <= i < |at'| ==> u.log[at'[i]].ts <= At(k, u.cursor)
  {
    PollStep(k, v);
    var m := Boundary(v.log, At(k, v.cursor));
    FilterSplit(v.log, m, At(k, v.cursor));
    forall i | 0 <= i < |at| ensures at[i] < m { assert v.log[at[i]].ts <= At(k, v.cursor); }
    at' := PicksMore(v.log, at, v.seen, m);
    var cursor := At(k, Step(k, v, Poll).cursor);
    if m < |v.log| {
      assert cursor == v.log[|v.log| - 1].ts;
      assert forall i :: 0 <= i < |v.log| ==> v.log[i].ts <= cursor;
    }
  }

  lemma PicksMore(log: seq<Entry>, at: seq<nat>, seen: seq<Entry>, m: nat) returns (at': seq<nat>)
    requires Picks(log, at, seen) && m <= |log| && forall i :: 0 <= i < |at| ==> at[i] < m
    ensures Picks(log, at', seen + log[m..]) && at <= at' && (m == |log| ==> at' == at)
  {
    at' := at + seq(|log| - m, i requires 0 <= i < |log| - m => i + m);
  }

  lemma {:induction false} NoDuplicatesFrom(k: Clock, v: View, acts: seq<Act>, at: seq<nat>) returns (at': seq<nat>)
    requires Lossless(k) && WellFormed(k, v) && NonDecreasing(v.log) && Stamped(acts) && Increasing(v.log, acts, false)
    requires Picks(v.log, at, v.seen) && forall i :: 0 <= i < |at| ==> v.log[at[i]].ts <= At(k, v.cursor)
    ensures Picks(Run(k, v, acts).log, at', Run(k, v, acts).seen)
    decreases |acts|
  {
    if acts == [] { return at; }
    at' := at;
    if acts[0].Poll? { at' := PollPicks(k, v, at); }
    at' := NoDuplicatesFrom(k, Step(k, v, acts[0]), acts[1..], at');
  }

  /** With timestamps that only never decrease, entries may be missed but none is handed
      out twice or out of order: the client's copy picks strictly increasing positions. */
  lemma NoDuplicates(k: Clock, acts: seq<Act>)
    requires Lossless(k) && Stamped(acts) && Increasing([], acts, false)
    ensures exists at :: Picks(Run(k, Start, acts).log, at, Run(k, Start, acts).seen)
  {
    var at := NoDuplicatesFrom(k, Start, acts, []);
  }

  /** Equal timestamps do lose entries. */
  lemma TiesLose(k: Clock, a: Entry)
    requires Lossless(k) && a.ts > 0
    ensures Run(k, Start, [Append(a), Poll, Append(a), Poll]).seen == [a]
  {
    var v := Step(k, Start, Append(a));
    assert v.log == [a];
    PollStep(k, v);
    FilterSplit([a], 0, 0);
    var w := Step(k, Step(k, v, Poll), Append(a));
    assert w.log == [a, a];
    PollStep(k, w);
    FilterSplit([a, a], 2, a.ts);
    RunOfFour(k, Start, Append(a), Poll, Append(a), Poll);
  }

  /** Decreasing ones hand entries out twice. */
  lemma ReversalsRepeat(k: Clock, a: Entry, b: Entry)
    requires Lossless(k) && a.ts > b.ts > 0
    ensures var v := Start.(log := [a, b]); Step(k, Step(k, v, Poll), Poll).seen == [a, b, a]
  {
    var v := Start.(log := [a, b]);
    PollSplit(k, v, 0);
    PollStep(k, Step(k, v, Poll));
    FilterPair(a, b);
  }

  lemma FilterPair(a: Entry, b: Entry)
    requires a.ts > b.ts
    ensures FilterAfter([a, b], b.ts) == [a]
  {
    assert [a, b][..1] == [a] && [a][..0] == [];
    assert FilterAfter([a], b.ts) == FilterAfter([], b.ts) + [a];
  }

  lemma RunOfFour(k: Clock, v: View, a: Act, b: Act, c: Act, d: Act)
    ensures Run(k, v, [a, b, c, d]) == Step(k, Step(k, Step(k, Step(k, v, a), b), c), d)
  {
    var v1 := Step(k, v, a);
    assert [a, b, c, d][1..] == [b, c, d] && [b, c, d][1..] == [c, d] && [c, d][1..] == [d] && [d][1..] == [];
    assert Run(k, v, [a, b, c, d]) == Run(k, v1, [b, c, d]);
    var v2 := Step(k, v1, b);
    assert Run(k, v1, [b, c, d]) == Run(k, v2, [c, d]);
    assert Run(k, v2, [c, d]) == Run(k, Step(k, v2, c), [d]);
    assert Run(k, Step(k, v2, c), [d]) == Run(k, Step(k, Step(k, v2, c), d), []);
  }
}
