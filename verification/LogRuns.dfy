/** Runs of appends and rotator visits over a directory of logs. */
module LogRuns {
  import opened Strings
  import opened LogNames
  import opened LogRotate
  import opened LogRetention

  datatype Event = Append(name: string, bytes: string) | Visit(name: string, turn: Turn)

  ghost function Step(c: Config, files: Files, e: Event): Files {
    match e
    case Append(n, b) => files[n := Get(files, n) + b]
    case Visit(n, u) => TurnFiles(c, files, n, u)
  }

  ghost function After(c: Config, files: Files, es: seq<Event>): Files {
    if es == [] then files else Step(c, After(c, files, es[..|es| - 1]), es[|es| - 1])
  }

  /** The visits one pass of the rotator makes. */
  function Visits(c: Config, entries: seq<Entry>, turns: seq<Turn>): seq<Event>
    requires |entries| == |turns|
  {
    if entries == [] then [] else
      var n := |entries| - 1;
      Visits(c, entries[..n], turns[..n]) + if Eligible(c, entries[n]) then [Visit(entries[n].name, turns[n])] else []
  }

  /** A pass visits exactly the `*.jsonl` files that are no directories, but not the rotator's
      own log. */
  lemma {:induction false} VisitedIff(c: Config, entries: seq<Entry>, turns: seq<Turn>, n: string)
    requires |entries| == |turns|
    ensures (exists e :: e in Visits(c, entries, turns) && e.name == n) <==>
            (IsLog(n) && n != c.self && exists d :: d in entries && d.name == n && !d.isDir)
  {
    if entries != [] {
      var m := |entries| - 1;
      VisitedIff(c, entries[..m], turns[..m], n);
      assert entries == entries[..m] + [entries[m]];
      var v := Visit(entries[m].name, turns[m]);
      assert forall e :: e in Visits(c, entries, turns) <==> e in Visits(c, entries[..m], turns[..m]) || (Eligible(c, entries[m]) && e == v);
    }
  }

  lemma AfterNext(c: Config, files: Files, es: seq<Event>, e: Event)
    ensures After(c, files, es + [e]) == Step(c, After(c, files, es), e)
  {
    assert (es + [e])[..|es|] == es;
  }

  lemma CycleNext(c: Config, files: Files, entries: seq<Entry>, turns: seq<Turn>)
    requires |entries| == |turns| > 0
    ensures var n := |entries| - 1;
            var f := Cycle(c, files, entries[..n], turns[..n]).0;
            Cycle(c, files, entries, turns).0 ==
              if Eligible(c, entries[n]) then Step(c, f, Visit(entries[n].name, turns[n])) else f
  {
  }

  /** A pass over the directory is a run of visits. */
  lemma {:induction false} CycleIsRun(c: Config, files: Files, entries: seq<Entry>, turns: seq<Turn>)
    requires |entries| == |turns|
    ensures Cycle(c, files, entries, turns).0 == After(c, files, Visits(c, entries, turns))
  {
    if entries != [] {
      var n := |entries| - 1;
      CycleIsRun(c, files, entries[..n], turns[..n]);
      CycleNext(c, files, entries, turns);
      var es := Visits(c, entries[..n], turns[..n]);
      if Eligible(c, entries[n]) {
        AfterNext(c, files, es, Visit(entries[n].name, turns[n]));
      } else {
        assert Visits(c, entries, turns) == es;
      }
    }
  }

  // ----- calm runs

  /** The event makes an archive of the log. */
  predicate Makes(c: Config, files: Files, e: Event, log: string) {
    e.Visit? && e.name == log && Due(c, files, log, e.turn) && Archived(files, log, e.turn.io)
  }

  /** The second of the last archive made. */
  ghost function LastMade(c: Config, files: Files, es: seq<Event>, log: string, start: Option<Instant>): Option<Instant> {
    if es == [] then start else
      var init, e := es[..|es| - 1], es[|es| - 1];
      if Makes(c, After(c, files, init), e, log) then Some(e.turn.now) else LastMade(c, files, init, log, start)
  }

  /** What a calm event asks of the directory it meets. */
  ghost predicate CalmEvent(c: Config, files: Files, e: Event, log: string) {
    && IsLog(e.name)
    && (e.Visit? ==> Alike(c, e.name, log) && forall n :: n in e.turn.stuck ==> !IsArchive(n, log))
    && (Makes(c, files, e, log) ==> e.turn.io.truncate && e.turn.io.window == "")
  }

  /** For this log: archives are made at increasing seconds, each truncates its log with no
      write in between, no removal of an archive fails, and no other log's pattern picks out
      some of them only. All else may fail. */
  ghost predicate Calm(c: Config, files: Files, es: seq<Event>, log: string, start: Option<Instant>) {
    es != [] ==>
      var init, e := es[..|es| - 1], es[|es| - 1];
      var last := LastMade(c, files, init, log, start);
      && Calm(c, files, init, log, start)
      && CalmEvent(c, After(c, files, init), e, log)
      && (Makes(c, After(c, files, init), e, log) && last.Some? ==> Before(last.value, e.turn.now))
  }

  /** Archives carry stamps up to this second. */
  ghost predicate StampedBy(files: Files, log: string, last: Option<Instant>) {
    forall a: Instant :: Archive(log, a) in files ==> last.Some? && !Before(last.value, a)
  }

  // ----- where names come from

  /** A rotation adds no name but its final one and a temporary one. */
  lemma OnlyFinal(g: Gzip, files: Files, m: string, final: string, temp: string, io: Io, n: string)
    requires IsLog(m) && IsArchive(final, m) && IsTemp(temp) && Ends(n, 'z')
    requires n in RotateTo(g, files, m, final, temp, io)
    ensures n in files || (n == final && Archived(files, m, io))
  {
    ArchiveEnds(final, m);
    LogEnds(m);
    RotateMembers(g, files, m, final, temp, io, n);
  }

  /** So a visit adds at most the archive it makes. */
  lemma VisitAdds(c: Config, files: Files, m: string, u: Turn, n: string)
    requires IsLog(m) && Ends(n, 'z') && n in TurnFiles(c, files, m, u)
    ensures n in files || (n == Archive(m, u.now) && Makes(c, files, Visit(m, u), m))
  {
    if Due(c, files, m, u) {
      NamesOfRotation(m, u.now, c.pid);
      OnlyFinal(c.gzip, files, m, Archive(m, u.now), TempName(m, c.pid), u.io, n);
    }
  }

  lemma AppendAdds(files: Files, m: string, text: string, n: string)
    requires IsLog(m) && Ends(n, 'z') && n in files[m := text]
    ensures n in files
  {
    LogEnds(m);
  }

  /** No event makes an archive of the log other than under its own stamp. */
  lemma EventStamps(c: Config, files: Files, e: Event, log: string, a: Instant)
    requires IsLog(e.name) && Archive(log, a) in Step(c, files, e)
    ensures Archive(log, a) in files || (Makes(c, files, e, log) && a == e.turn.now)
  {
    ArchiveEnds(Archive(log, a), log);
    if e.Append? {
      AppendAdds(files, e.name, Get(files, e.name) + e.bytes, Archive(log, a));
    } else {
      VisitAdds(c, files, e.name, e.turn, Archive(log, a));
      if Archive(log, a) == Archive(e.name, e.turn.now) { SameArchive(log, a, e.name, e.turn.now); }
    }
  }

  lemma SameArchive(log: string, a: Instant, m: string, b: Instant)
    requires Archive(log, a) == Archive(m, b)
    ensures log == m && a == b
  {
    if m != log { ArchiveOwner(m, log, b); } else { ArchiveOrder(log, a, b); }
  }

  lemma BeforeChain(a: Instant, b: Instant, c: Instant)
    requires !Before(b, a) && Before(b, c)
    ensures Before(a, c) && !Before(c, a)
  {
  }

  lemma {:induction false} RunStamps(c: Config, files: Files, es: seq<Event>, log: string, start: Option<Instant>)
    requires Calm(c, files, es, log, start) && StampedBy(files, log, start)
    ensures StampedBy(After(c, files, es), log, LastMade(c, files, es, log, start))
  {
    if es != [] {
      var init, e := es[..|es| - 1], es[|es| - 1];
      var f, last := After(c, files, init), LastMade(c, files, init, log, start);
      RunStamps(c, files, init, log, start);
      forall a: Instant | Archive(log, a) in Step(c, f, e)
        ensures LastMade(c, files, es, log, start).Some? && !Before(LastMade(c, files, es, log, start).value, a)
      {
        EventStamps(c, f, e, log, a);
        if Archive(log, a) in f && Makes(c, f, e, log) { BeforeChain(a, last.value, e.turn.now); }
      }
    }
  }

  /** In a calm run each archive is stamped after all before it. */
  lemma CalmLast(c: Config, files: Files, es: seq<Event>, log: string, start: Option<Instant>)
    requires es != [] && Calm(c, files, es, log, start) && StampedBy(files, log, start)
    ensures var f, e := After(c, files, es[..|es| - 1]), es[|es| - 1];
            CalmEvent(c, f, e, log) && (Makes(c, f, e, log) ==> Fresh(f, log, e.turn.now))
  {
    var init, e := es[..|es| - 1], es[|es| - 1];
    var f := After(c, files, init);
    RunStamps(c, files, init, log, start);
    if Makes(c, f, e, log) {
      forall a: Instant | Archive(log, a) in f
        ensures Before(a, e.turn.now)
      {
        BeforeChain(a, LastMade(c, files, init, log, start).value, e.turn.now);
      }
    }
  }

  // ----- what one event does to a log

  lemma AppendArchives(files: Files, m: string, text: string, log: string)
    requires IsLog(m)
    ensures ArchiveSet(files[m := text], log) == ArchiveSet(files, log)
    ensures forall n :: n in ArchiveSet(files, log) ==> Get(files[m := text], n) == Get(files, n)
  {
    LogEnds(m);
    ArchivesEnd(files, log);
    ArchivesEnd(files[m := text], log);
  }

  lemma AppendView(g: Gzip, files: Files, m: string, bytes: string, log: string)
    requires IsLog(m)
    ensures var v := View(g, files, log);
            View(g, files[m := Get(files, m) + bytes], log) == v.(live := v.live + if m == log then bytes else "")
  {
    var f := files[m := Get(files, m) + bytes];
    AppendArchives(files, m, Get(files, m) + bytes, log);
    SameArchives(g, files, f, log);
    SuffixSelf(Get(files, log));
  }

  lemma MatchedEnds(c: Config, files: Files, m: string)
    ensures forall n :: n in Matched(c, files, m) ==> Ends(n, 'z') && n in files
  {
    forall n | n in Matched(c, files, m) ensures Ends(n, 'z') && n in files { MatchedEnd(c, files, m, n); }
  }

  lemma NoneStuckNoHole(files: Files, log: string, all: set<string>, keep: nat, stuck: set<string>)
    requires forall n :: n in stuck ==> !IsArchive(n, log)
    ensures NoHole(files, log, all, keep, stuck)
  {
  }

  /** A prune for any log drops oldest archives only. */
  lemma PruneDrops(c: Config, files: Files, m: string, stuck: set<string>, log: string) returns (k: nat)
    requires IsLog(m) && IsLog(log) && Alike(c, m, log) && forall n :: n in stuck ==> !IsArchive(n, log)
    ensures var v := View(c.gzip, files, log);
            k <= |v.archives| &&
            View(c.gzip, Pruned(files, Matched(c, files, m), c.keep, stuck), log) == v.(archives := v.archives[k..])
  {
    var all := Matched(c, files, m);
    MatchedEnds(c, files, m);
    MatchedEven(c, files, m, log);
    NoneStuckNoHole(files, log, all, c.keep, stuck);
    k := PruneCut(files, log, all, c.keep, stuck);
    ListsIff(Names(files, log)[k..], ArchiveSet(Pruned(files, all, c.keep, stuck), log));
    PrunedView(c.gzip, files, log, all, c.keep, stuck, Names(files, log), k);
  }

  /** One calm event: bytes arrive, the log moves into an archive, oldest archives go. */
  lemma EventView(c: Config, files: Files, e: Event, log: string) returns (k: nat)
    requires Lawful(c.gzip) && IsLog(log) && CalmEvent(c, files, e, log)
    requires Makes(c, files, e, log) ==> Fresh(files, log, e.turn.now)
    ensures var v := View(c.gzip, files, log);
            var moved := if Makes(c, files, e, log) then LogView(v.archives + [v.live], "") else v;
            && k <= |moved.archives|
            && View(c.gzip, Step(c, files, e), log) == LogView(moved.archives[k..], moved.live + Arrives(e, log))
  {
    var v := View(c.gzip, files, log);
    SuffixSelf(v.live);
    if e.Append? {
      k := 0;
      AppendView(c.gzip, files, e.name, e.bytes, log);
      assert v.archives[0..] == v.archives;
    } else {
      k := VisitView(c, files, e.name, e.turn, log);
    }
  }

  lemma VisitView(c: Config, files: Files, m: string, u: Turn, log: string) returns (k: nat)
    requires Lawful(c.gzip) && IsLog(log) && CalmEvent(c, files, Visit(m, u), log)
    requires Makes(c, files, Visit(m, u), log) ==> Fresh(files, log, u.now)
    ensures var v := View(c.gzip, files, log);
            var moved := if Makes(c, files, Visit(m, u), log) then LogView(v.archives + [v.live], "") else v;
            && k <= |moved.archives|
            && View(c.gzip, TurnFiles(c, files, m, u), log) == moved.(archives := moved.archives[k..])
  {
    k := 0;
    var v := View(c.gzip, files, log);
    assert v.archives[0..] == v.archives;
    if Due(c, files, m, u) {
      var f := RotateFiles(c.gzip, files, m, u.now, c.pid, u.io);
      if m == log && Archived(files, log, u.io) {
        FreshView(c.gzip, files, log, u.now, c.pid, u.io);
      } else {
        KeptApart(c.gzip, files, m, u.now, c.pid, u.io, log);
      }
      if Done(files, m, u.io) { k := PruneDrops(c, f, m, u.stuck, log); }
    }
  }

  function Arrives(e: Event, log: string): string { if e.Append? && e.name == log then e.bytes else "" }

  function Appended(es: seq<Event>, log: string): string {
    if es == [] then "" else Appended(es[..|es| - 1], log) + Arrives(es[|es| - 1], log)
  }

  // ----- what a run keeps

  /** Moving the live file into an archive keeps the bytes; dropping archives keeps a suffix. */
  lemma MovedBytes(v: LogView, made: bool, k: nat, x: string)
    requires var moved := if made then LogView(v.archives + [v.live], "") else v; k <= |moved.archives|
    ensures var moved := if made then LogView(v.archives + [v.live], "") else v;
            Suffix(Bytes(LogView(moved.archives[k..], moved.live + x)), Bytes(v) + x)
  {
    var moved := if made then LogView(v.archives + [v.live], "") else v;
    FlatSnoc(v.archives, v.live);
    SuffixSelf(Bytes(moved));
    assert Bytes(moved) == Bytes(v);
    FlatSuffix(moved.archives, k);
    SuffixGrows(Flat(moved.archives[k..]), Flat(moved.archives), moved.live + x);
    Reassociate(Flat(moved.archives), moved.live, x);
  }

  /** Over a calm run from any directory, what is kept of a log is a suffix of what was there
      and what was appended since. */
  lemma {:induction false} RunKeepsSuffix(c: Config, files: Files, es: seq<Event>, log: string, start: Option<Instant>)
    requires Lawful(c.gzip) && IsLog(log) && Calm(c, files, es, log, start) && StampedBy(files, log, start)
    ensures Suffix(Bytes(View(c.gzip, After(c, files, es), log)), Bytes(View(c.gzip, files, log)) + Appended(es, log))
  {
    var all := Bytes(View(c.gzip, files, log));
    if es == [] {
      SuffixSelf(all);
    } else {
      var init, e := es[..|es| - 1], es[|es| - 1];
      var f := After(c, files, init);
      RunKeepsSuffix(c, files, init, log, start);
      CalmLast(c, files, es, log, start);
      var k := EventView(c, f, e, log);
      var was, now, x := View(c.gzip, f, log), View(c.gzip, Step(c, f, e), log), Arrives(e, log);
      MovedBytes(was, Makes(c, f, e, log), k, x);
      SuffixGrows(Bytes(was), all + Appended(init, log), x);
      SuffixTransitive(Bytes(now), Bytes(was) + x, (all + Appended(init, log)) + x);
      Reassociate(all, Appended(init, log), x);
    }
  }

  /** The pattern of the log matches its own archives: always, for a literal name. */
  ghost predicate Covered(c: Config, log: string) {
    Literal(log) || (c.glob(log).Some? && forall n :: IsArchive(n, log) ==> c.glob(log).value(n))
  }

  lemma CoveredArchives(c: Config, files: Files, log: string)
    requires Covered(c, log)
    ensures Covers(files, log, Matched(c, files, log))
  {
    forall n | n in ArchiveSet(files, log)
      ensures n in Matched(c, files, log)
    {
      ArchiveEnds(n, log);
    }
  }

  /** Pruning its own log leaves at most `keep` archives. */
  lemma OwnBound(c: Config, files: Files, log: string, stuck: set<string>)
    requires Covered(c, log) && forall n :: n in stuck ==> !IsArchive(n, log)
    ensures |Names(Pruned(files, Matched(c, files, log), c.keep, stuck), log)| <= c.keep
  {
    var all := Matched(c, files, log);
    CoveredArchives(c, files, log);
    PruneBound(all, c.keep);
    PrunedArchives(files, log, all, c.keep, stuck);
    SubsetCount(ArchiveSet(files, log) - (DoomedSet(all, c.keep) - stuck), all - DoomedSet(all, c.keep));
  }

  ghost predicate MadeIn(c: Config, files: Files, es: seq<Event>, log: string) {
    es != [] && (MadeIn(c, files, es[..|es| - 1], log) || Makes(c, After(c, files, es[..|es| - 1]), es[|es| - 1], log))
  }

  lemma EventBound(c: Config, files: Files, e: Event, log: string)
    requires Lawful(c.gzip) && IsLog(log) && CalmEvent(c, files, e, log) && Covered(c, log)
    requires Makes(c, files, e, log) ==> Fresh(files, log, e.turn.now)
    ensures |Names(Step(c, files, e), log)| <= if Makes(c, files, e, log) then c.keep else |Names(files, log)|
  {
    if Makes(c, files, e, log) {
      OwnBound(c, RotateFiles(c.gzip, files, log, e.turn.now, c.pid, e.turn.io), log, e.turn.stuck);
    } else {
      var k := EventView(c, files, e, log);
      assert |View(c.gzip, Step(c, files, e), log).archives| == |Names(Step(c, files, e), log)|;
      assert |View(c.gzip, files, log).archives| == |Names(files, log)|;
    }
  }

  /** Over a calm run a log that was rotated never has more than `keep` archives, and one that
      was not never more than at the start. */
  lemma {:induction false} RunBound(c: Config, files: Files, es: seq<Event>, log: string, start: Option<Instant>)
    requires Lawful(c.gzip) && IsLog(log) && Covered(c, log) && Calm(c, files, es, log, start) && StampedBy(files, log, start)
    ensures |Names(After(c, files, es), log)| <= if MadeIn(c, files, es, log) then c.keep else |Names(files, log)|
  {
    if es != [] {
      var init := es[..|es| - 1];
      RunBound(c, files, init, log, start);
      CalmLast(c, files, es, log, start);
      EventBound(c, After(c, files, init), es[|es| - 1], log);
    }
  }

  // ----- a log on its own: exactly the newest archives

  /** `a` is `b` with something appended after a dot. */
  predicate Extends(a: string, b: string) { HasPrefix(a, b + ".") }

  /** Only archives of the log match its pattern. */
  ghost predicate ForeignFree(files: Files, log: string) {
    forall n :: n in files && Matches(n, log) ==> IsArchive(n, log)
  }

  /** Neither name extends the other; a pattern with metacharacters matches no archive. */
  ghost predicate Unrelated(c: Config, m: string, log: string) {
    && m != log && !Extends(m, log)
    && if Literal(m) then !Extends(log, m)
       else c.glob(m).Some? ==> forall n :: IsArchive(n, log) ==> !c.glob(m).value(n)
  }

  ghost predicate Alone(c: Config, es: seq<Event>, log: string) {
    forall i :: 0 <= i < |es| && es[i].name != log ==> Unrelated(c, es[i].name, log)
  }

  /** An archive matches the pattern of another log only if that log's name is a beginning of
      its own. */
  lemma UnmatchedArchive(m: string, log: string, t: Instant)
    requires IsLog(m) && m != log && !Extends(log, m)
    ensures !Matches(Archive(log, t), m)
  {
    var a := Archive(log, t);
    NamesOfRotation(log, t, 0);
    if Matches(a, m) {
      MatchedInside(log, m, a);
      MatchedPrefix(log, m, t);
    }
  }

  lemma MatchedPrefix(log: string, m: string, t: Instant)
    requires Matches(Archive(log, t), m) && |m| <= |log|
    ensures m == log || Extends(log, m)
  {
    var a := Archive(log, t);
    assert a[..|m| + 1] == m + ".";
    if |m| == |log| {
      assert a[..|log|] == log && (m + ".")[..|m|] == m && a[..|m| + 1][..|m|] == a[..|m|];
    } else {
      assert a[..|log|] == log && a[..|log|][..|m| + 1] == a[..|m| + 1];
    }
  }

  lemma ForeignFreeStep(c: Config, files: Files, e: Event, log: string)
    requires IsLog(e.name) && IsLog(log) && ForeignFree(files, log) && (e.name != log ==> Unrelated(c, e.name, log))
    ensures ForeignFree(Step(c, files, e), log)
  {
    forall n | n in Step(c, files, e) && Matches(n, log)
      ensures IsArchive(n, log)
    {
      assert n[|n| - 1] == n[|n| - 3..][2];
      if e.Append? {
        AppendAdds(files, e.name, Get(files, e.name) + e.bytes, n);
      } else {
        VisitAdds(c, files, e.name, e.turn, n);
        if n !in files && e.name != log { UnmatchedArchive(log, e.name, e.turn.now); }
      }
    }
  }

  /** The newest `keep` of a list. */
  function Newest(xs: seq<string>, keep: nat): seq<string> { if |xs| <= keep then xs else xs[|xs| - keep..] }

  /** The rotator's promise for one log, in terms of its contents alone. */
  function Promised(c: Config, v: LogView, e: Event, log: string): LogView {
    if e.name != log then v
    else match e
      case Append(_, b) => v.(live := v.live + b)
      case Visit(_, u) =>
        if u.stat && |v.live| >= c.threshold && !c.dryRun && Works(u.io) then LogView(Newest(v.archives + [v.live], c.keep), "") else v
  }

  /** Every call up to the rename succeeds. */
  predicate Works(io: Io) { io.open && io.create && io.copy && io.closeZip && io.closeTemp && io.rename }

  function PromisedRun(c: Config, v: LogView, es: seq<Event>, log: string): LogView {
    if es == [] then v else Promised(c, PromisedRun(c, v, es[..|es| - 1], log), es[|es| - 1], log)
  }

  /** A prune of names among which there is no archive of the log leaves it alone. */
  lemma UntouchedView(g: Gzip, files: Files, log: string, all: set<string>, keep: nat, stuck: set<string>)
    requires IsLog(log) && (forall n :: n in all ==> Ends(n, 'z')) && forall n :: n in all ==> !IsArchive(n, log)
    ensures View(g, Pruned(files, all, keep, stuck), log) == View(g, files, log)
  {
    var f := Pruned(files, all, keep, stuck);
    PrunedArchives(files, log, all, keep, stuck);
    assert ArchiveSet(f, log) == ArchiveSet(files, log);
    LiveStays(files, log, all, keep, stuck);
    SameArchives(g, files, f, log);
  }

  lemma UnrelatedMatches(c: Config, files: Files, m: string, log: string)
    requires IsLog(m) && IsLog(log) && Unrelated(c, m, log)
    ensures forall n :: n in Matched(c, files, m) ==> !IsArchive(n, log)
  {
    forall n | n in Matched(c, files, m) && IsArchive(n, log)
      ensures false
    {
      if Literal(m) {
        var t: Instant :| n == Archive(log, t);
        UnmatchedArchive(m, log, t);
      }
    }
  }

  lemma UnrelatedVisit(c: Config, files: Files, m: string, u: Turn, log: string)
    requires IsLog(m) && IsLog(log) && Unrelated(c, m, log)
    ensures View(c.gzip, TurnFiles(c, files, m, u), log) == View(c.gzip, files, log)
  {
    if Due(c, files, m, u) {
      var f := RotateFiles(c.gzip, files, m, u.now, c.pid, u.io);
      KeptApart(c.gzip, files, m, u.now, c.pid, u.io, log);
      MatchedEnds(c, f, m);
      UnrelatedMatches(c, f, m, log);
      UntouchedView(c.gzip, f, log, Matched(c, f, m), c.keep, u.stuck);
    }
  }

  /** With no foreign name matched, its own prune leaves exactly the newest `keep`. */
  lemma OwnPrune(c: Config, files: Files, log: string, stuck: set<string>)
    requires IsLog(log) && Literal(log) && ForeignFree(files, log) && forall n :: n in stuck ==> !IsArchive(n, log)
    ensures var v := View(c.gzip, files, log);
            View(c.gzip, Pruned(files, Matched(c, files, log), c.keep, stuck), log) == v.(archives := Newest(v.archives, c.keep))
  {
    var all, ns := Matched(c, files, log), Names(files, log);
    var k := |ns| - Least(c.keep, |ns|);
    CoveredArchives(c, files, log);
    MatchedEnds(c, files, log);
    OwnCut(files, log, all, c.keep, stuck, ns, k);
    PrunedView(c.gzip, files, log, all, c.keep, stuck, ns, k);
    NewestIs(View(c.gzip, files, log).archives, c.keep, k);
  }

  /** Only the log's own archives are matched: the prune cuts off all but the newest. */
  lemma OwnCut(files: Files, log: string, all: set<string>, keep: nat, stuck: set<string>, ns: seq<string>, k: nat)
    requires Covers(files, log, all) && Lists(ns, ArchiveSet(files, log)) && k == |ns| - Least(keep, |ns|)
    requires (forall n :: n in all ==> IsArchive(n, log)) && forall n :: n in stuck ==> !IsArchive(n, log)
    ensures Lists(ns[k..], ArchiveSet(Pruned(files, all, keep, stuck), log))
  {
    if k < |ns| { assert Foreign(all, log, ns[k]) == {}; }
    NewestKeptAt(files, log, all, keep, ns, k);
    SameRemovals(files, all, keep, stuck, log);
  }

  lemma NewestIs(xs: seq<string>, keep: nat, k: nat)
    requires k == |xs| - Least(keep, |xs|)
    ensures Newest(xs, keep) == xs[k..]
  {
  }

  lemma SameRemovals(files: Files, all: set<string>, keep: nat, stuck: set<string>, log: string)
    requires (forall n :: n in all ==> IsArchive(n, log)) && forall n :: n in stuck ==> !IsArchive(n, log)
    ensures Pruned(files, all, keep, stuck) == Pruned(files, all, keep, {})
  {
    assert DoomedSet(all, keep) - stuck == DoomedSet(all, keep) - {};
  }

  lemma OwnVisit(c: Config, files: Files, u: Turn, log: string)
    requires Lawful(c.gzip) && IsLog(log) && Literal(log) && c.threshold >= 1 && ForeignFree(files, log)
    requires CalmEvent(c, files, Visit(log, u), log) && (Makes(c, files, Visit(log, u), log) ==> Fresh(files, log, u.now))
    ensures View(c.gzip, TurnFiles(c, files, log, u), log) == Promised(c, View(c.gzip, files, log), Visit(log, u), log)
  {
    if Makes(c, files, Visit(log, u), log) {
      MakingVisit(c, files, u, log);
    } else if Due(c, files, log, u) {
      KeptApart(c.gzip, files, log, u.now, c.pid, u.io, log);
    }
  }

  lemma MakingVisit(c: Config, files: Files, u: Turn, log: string)
    requires Lawful(c.gzip) && IsLog(log) && Literal(log) && ForeignFree(files, log)
    requires CalmEvent(c, files, Visit(log, u), log) && Makes(c, files, Visit(log, u), log) && Fresh(files, log, u.now)
    ensures var v := View(c.gzip, files, log);
            View(c.gzip, TurnFiles(c, files, log, u), log) == LogView(Newest(v.archives + [v.live], c.keep), "")
  {
    FreshView(c.gzip, files, log, u.now, c.pid, u.io);
    RotatedForeignFree(c, files, u, log);
    OwnPrune(c, RotateFiles(c.gzip, files, log, u.now, c.pid, u.io), log, u.stuck);
  }

  lemma RotatedForeignFree(c: Config, files: Files, u: Turn, log: string)
    requires IsLog(log) && ForeignFree(files, log)
    ensures ForeignFree(RotateFiles(c.gzip, files, log, u.now, c.pid, u.io), log)
  {
    NamesOfRotation(log, u.now, c.pid);
    forall n | n in RotateFiles(c.gzip, files, log, u.now, c.pid, u.io) && Matches(n, log)
      ensures IsArchive(n, log)
    {
      assert n[|n| - 1] == n[|n| - 3..][2];
      OnlyFinal(c.gzip, files, log, Archive(log, u.now), TempName(log, c.pid), u.io, n);
    }
  }

  lemma EventPromised(c: Config, files: Files, e: Event, log: string)
    requires Lawful(c.gzip) && IsLog(log) && Literal(log) && c.threshold >= 1 && ForeignFree(files, log)
    requires CalmEvent(c, files, e, log) && (e.name != log ==> Unrelated(c, e.name, log))
    requires Makes(c, files, e, log) ==> Fresh(files, log, e.turn.now)
    ensures View(c.gzip, Step(c, files, e), log) == Promised(c, View(c.gzip, files, log), e, log)
  {
    if e.Append? {
      AppendView(c.gzip, files, e.name, e.bytes, log);
      SuffixSelf(Get(files, log));
    } else if e.name == log {
      OwnVisit(c, files, e.turn, log);
    } else {
      UnrelatedVisit(c, files, e.name, e.turn, log);
    }
  }

  /** Over a calm run in which no other log's name extends the log's or is extended by it, the
      log's archives and live file are exactly what the promise says of its own appends and
      visits: every rotation keeps the newest `keep` archives, whole, and nothing else is
      removed or added. */
  lemma {:induction false} RunRefines(c: Config, files: Files, es: seq<Event>, log: string, start: Option<Instant>)
    requires Lawful(c.gzip) && IsLog(log) && Literal(log) && c.threshold >= 1
    requires Calm(c, files, es, log, start) && StampedBy(files, log, start)
    requires ForeignFree(files, log) && Alone(c, es, log)
    ensures View(c.gzip, After(c, files, es), log) == PromisedRun(c, View(c.gzip, files, log), es, log)
    ensures ForeignFree(After(c, files, es), log)
  {
    if es != [] {
      var init, e := es[..|es| - 1], es[|es| - 1];
      assert Alone(c, init, log);
      RunRefines(c, files, init, log, start);
      CalmLast(c, files, es, log, start);
      EventPromised(c, After(c, files, init), e, log);
      ForeignFreeStep(c, After(c, files, init), e, log);
    }
  }

  // ----- what the hypotheses are for

  /** A second rotation in one second writes over the archive of the first, and its bytes are gone. */
  lemma SameSecondLoses(g: Gzip, files: Files, log: string, t: Instant, pid: nat, io: Io)
    requires Lawful(g) && IsLog(log) && Done(files, log, io) && io.window == "" && Archive(log, t) in files
    ensures |Bytes(View(g, RotateFiles(g, files, log, t, pid, io), log))| ==
            |Bytes(View(g, files, log))| - |g.unzip(files[Archive(log, t)])|
  {
    NamesOfRotation(log, t, pid);
    OverwriteLoses(g, files, log, Archive(log, t), TempName(log, pid), io);
  }

  lemma OverwriteLoses(g: Gzip, files: Files, log: string, final: string, temp: string, io: Io)
    requires Lawful(g) && IsLog(log) && Done(files, log, io)
    requires IsArchive(final, log) && IsTemp(temp) && final in files
    ensures |Bytes(View(g, RotateTo(g, files, log, final, temp, io), log))| ==
            |Bytes(View(g, files, log))| - |g.unzip(files[final])|
  {
    var f := RotateTo(g, files, log, final, temp, io);
    ArchiveEnds(final, log);
    LogEnds(log);
    RotateArchives(g, files, log, final, temp, io, log);
    RotateTexts(g, files, log, final, temp, io, log);
    RotateAt(g, files, log, final, temp, io, final);
    RotateAt(g, files, log, final, temp, io, log);
    assert final in ArchiveSet(files, log);
    ListingReplaced(g, files, f, ArchiveSet(files, log), final);
  }

  lemma ListingReplaced(g: Gzip, a: Files, b: Files, s: set<string>, x: string)
    requires x in s && forall n :: n in s && n != x ==> Get(a, n) == Get(b, n)
    ensures |Flat(Texts(g, b, Listing(s + {x})))| ==
            |Flat(Texts(g, a, Listing(s)))| + |g.unzip(Get(b, x))| - |g.unzip(Get(a, x))|
  {
    assert s + {x} == s;
    TextsReplaced(g, a, b, Listing(s), x);
  }

  lemma {:induction false} TextsReplaced(g: Gzip, a: Files, b: Files, names: seq<string>, x: string)
    requires StrictlySorted(names) && forall n :: n in names && n != x ==> Get(a, n) == Get(b, n)
    ensures |Flat(Texts(g, b, names))| == |Flat(Texts(g, a, names))| +
              if x in names then |g.unzip(Get(b, x))| - |g.unzip(Get(a, x))| else 0
  {
    if names != [] {
      var n := |names| - 1;
      TextsReplaced(g, a, b, names[..n], x);
      LessIrreflexive(names[n]);
      assert names == names[..n] + [names[n]];
      TextsAdd(g, a, names[..n], names[n]);
      TextsAdd(g, b, names[..n], names[n]);
      FlatSnoc(Texts(g, a, names[..n]), g.unzip(Get(a, names[n])));
      FlatSnoc(Texts(g, b, names[..n]), g.unzip(Get(b, names[n])));
    }
  }

  /** The pattern of `a.jsonl` also matches the archives of `a.jsonl.b.jsonl`, which sort above
      its own: with `keep` of those around, a prune goes for every archive of `a.jsonl`. */
  lemma SiblingEvicts(files: Files, log: string, x: string, sibs: set<Instant>, t: Instant)
    requires x != "" && x[0] > '9' && Archive(log, t) in files
    requires forall s :: s in sibs ==> Archive(log + "." + x, s) in files
    ensures Doomed(MatchSet(files, log), |sibs|, Archive(log, t))
  {
    var above := ArchivesOf(log + "." + x, sibs);
    ArchiveEnds(Archive(log, t), log);
    forall m | m in above
      ensures m in MatchSet(files, log) && Less(Archive(log, t), m)
    {
      SiblingAbove(log, x, m, Archive(log, t));
    }
    CrowdedOut(MatchSet(files, log), above, Archive(log, t));
  }

  /** As many archives as seconds. */
  lemma ArchivesOf(log: string, ts: set<Instant>) returns (names: set<string>)
    ensures |names| == |ts| && forall n :: n in names ==> exists t :: t in ts && n == Archive(log, t)
  {
    var f := (t: Instant) => Archive(log, t);
    forall x, y | x in ts && y in ts && f(x) == f(y) ensures x == y { ArchiveOrder(log, x, y); }
    names := Image(f, ts);
  }

  lemma {:induction false} Image<A, B>(f: A -> B, s: set<A>) returns (img: set<B>)
    requires forall x, y :: x in s && y in s && f(x) == f(y) ==> x == y
    ensures |img| == |s| && forall b :: b in img ==> exists a :: a in s && b == f(a)
    decreases s
  {
    if s == {} { return {}; }
    var x :| x in s;
    var rest := Image(f, s - {x});
    img := rest + {f(x)};
  }

  lemma CrowdedOut(all: set<string>, above: set<string>, n: string)
    requires n in all && above <= all && forall m :: m in above ==> Less(n, m)
    ensures |AtLeast(all, n)| > |above|
  {
    LessIrreflexive(n);
    forall m | m in above
      ensures m in AtLeast(all, n)
    {
      Trichotomy(n, m);
    }
    SubsetCount(above + {n}, AtLeast(all, n));
  }

  lemma SiblingAbove(log: string, x: string, m: string, n: string)
    requires x != "" && x[0] > '9' && IsArchive(m, log + "." + x) && IsArchive(n, log)
    ensures Less(n, m) && !Less(m, n) && m != n && Matches(m, log)
  {
    ArchiveEnds(m, log + "." + x);
    ArchiveEnds(n, log);
    var p := log + ".";
    var a := TailDigit(n, log);
    var b := SiblingRest(m, log, x);
    assert m[..|p|] == p;
    LessBlocks(p, p, a, b);
    Trichotomy(n, m);
  }

  lemma TailDigit(n: string, log: string) returns (a: string)
    requires IsArchive(n, log)
    ensures n == (log + ".") + a && a != "" && a[0] <= '9'
  {
    var t: Instant :| n == Archive(log, t);
    a := Tail(t);
  }

  lemma SiblingRest(m: string, log: string, x: string) returns (b: string)
    requires IsArchive(m, log + "." + x) && x != ""
    ensures m == (log + ".") + b && b != "" && b[0] == x[0]
  {
    var a := TailDigit(m, log + "." + x);
    b := x + "." + a;
  }

  /** A log whose own pattern does not match its archives is rotated for ever and never pruned. */
  lemma UnmatchedNeverPruned(c: Config, files: Files, log: string, u: Turn)
    requires Lawful(c.gzip) && IsLog(log) && Makes(c, files, Visit(log, u), log) && u.io.truncate && Fresh(files, log, u.now)
    requires !Literal(log) && (c.glob(log).Some? ==> forall n :: IsArchive(n, log) ==> !c.glob(log).value(n))
    ensures var v := View(c.gzip, files, log);
            View(c.gzip, TurnFiles(c, files, log, u), log) == LogView(v.archives + [v.live], "")
  {
    var f := RotateFiles(c.gzip, files, log, u.now, c.pid, u.io);
    FreshView(c.gzip, files, log, u.now, c.pid, u.io);
    MatchedEnds(c, f, log);
    UntouchedView(c.gzip, f, log, Matched(c, f, log), c.keep, u.stuck);
  }

  // ----- leftovers and counts

  /** A rotation leaves no temporary file, unless removing it fails; one that could not open or
      create leaves everything as it was. */
  lemma TempGone(g: Gzip, files: Files, log: string, t: Instant, pid: nat, io: Io)
    requires IsLog(log)
    ensures var f := RotateFiles(g, files, log, t, pid, io);
            && (log !in files || !io.open || !io.create ==> f == files)
            && (TempName(log, pid) in f ==> log !in files || !io.open || !io.create || (!Archived(files, log, io) && !io.removeTemp))
  {
    TempIsNoLog(log, pid, log);
    NamesOfRotation(log, t, pid);
  }

  /** What a visit's outcome says of the log, the directory and the names gone. */
  lemma OutcomeMeaning(c: Config, files: Files, log: string, u: Turn)
    ensures var o, f := TurnOutcome(c, files, log, u), TurnFiles(c, files, log, u);
            var readable := u.stat && log in files;
            && (o.StatError? <==> !readable)
            && (o.Skipped? <==> readable && |files[log]| < c.threshold)
            && (o.WouldRotate? <==> readable && |files[log]| >= c.threshold && c.dryRun)
            && (o.Rotated? <==> readable && |files[log]| >= c.threshold && !c.dryRun && Works(u.io) && u.io.truncate)
            && (o.StatError? || o.Skipped? || o.WouldRotate? ==> f == files)
            && (o.Rotated? ==> |f| == |RotateFiles(c.gzip, files, log, u.now, c.pid, u.io)| - o.pruned)
  {
    var o := TurnOutcome(c, files, log, u);
    if o.Rotated? {
      var f := RotateFiles(c.gzip, files, log, u.now, c.pid, u.io);
      PrunedCount(f, Matched(c, f, log), c.keep, u.stuck);
    }
  }

  lemma PrunedCount(files: Files, all: set<string>, keep: nat, stuck: set<string>)
    requires all <= files.Keys
    ensures |Pruned(files, all, keep, stuck)| == |files| - |DoomedSet(all, keep) - stuck|
  {
    var gone, f := DoomedSet(all, keep) - stuck, Pruned(files, all, keep, stuck);
    assert f.Keys == files.Keys - gone && gone <= files.Keys;
    assert |files.Keys| == |f.Keys + gone| == |f.Keys| + |gone|;
    assert |f| == |f.Keys| && |files| == |files.Keys|;
  }

  /** The outcomes of a pass, in order. */
  ghost function Outcomes(c: Config, files: Files, entries: seq<Entry>, turns: seq<Turn>): seq<Outcome>
    requires |entries| == |turns|
  {
    if entries == [] then [] else
      var n := |entries| - 1;
      var f := Cycle(c, files, entries[..n], turns[..n]).0;
      Outcomes(c, files, entries[..n], turns[..n]) +
        if Eligible(c, entries[n]) then [TurnOutcome(c, f, entries[n].name, turns[n])] else []
  }

  function CountOf(os: seq<Outcome>, p: Outcome -> bool): nat {
    if os == [] then 0 else CountOf(os[..|os| - 1], p) + if p(os[|os| - 1]) then 1 else 0
  }

  predicate IsRotation(o: Outcome) { o.Rotated? || o.WouldRotate? }

  predicate IsSkip(o: Outcome) { o.Skipped? }

  predicate IsFailure(o: Outcome) { o.StatError? || o.RotateError? || (o.Rotated? && o.failed) }

  function PrunedIn(os: seq<Outcome>): nat {
    if os == [] then 0 else PrunedIn(os[..|os| - 1]) + if os[|os| - 1].Rotated? then os[|os| - 1].pruned else 0
  }

  /** Each number of the summary counts what its name says. */
  lemma {:induction false} SummaryMeaning(c: Config, files: Files, entries: seq<Entry>, turns: seq<Turn>)
    requires |entries| == |turns|
    ensures var s, os := Cycle(c, files, entries, turns).1, Outcomes(c, files, entries, turns);
            && s.scanned == |os|
            && s.rotated == CountOf(os, IsRotation)
            && s.skipped == CountOf(os, IsSkip)
            && s.errors == CountOf(os, IsFailure)
            && s.pruned == PrunedIn(os)
  {
    if entries != [] {
      var n := |entries| - 1;
      SummaryMeaning(c, files, entries[..n], turns[..n]);
      var os := Outcomes(c, files, entries[..n], turns[..n]);
      var o := TurnOutcome(c, Cycle(c, files, entries[..n], turns[..n]).0, entries[n].name, turns[n]);
      assert (os + [o])[..|os|] == os;
      if !Eligible(c, entries[n]) { assert Outcomes(c, files, entries, turns) == os; }
    }
  }

  /** Every log scanned is counted once as rotated, skipped or failed; only a rotated one can
      add a second error, for its prune. */
  lemma {:induction false} CountsBalance(c: Config, files: Files, entries: seq<Entry>, turns: seq<Turn>)
    requires |entries| == |turns|
    ensures var s := Cycle(c, files, entries, turns).1;
            && s.rotated + s.skipped <= s.scanned <= s.rotated + s.skipped + s.errors
            && s.errors <= s.scanned - s.skipped
    ensures c.dryRun ==> Cycle(c, files, entries, turns).0 == files && Cycle(c, files, entries, turns).1.pruned == 0
  {
    if entries != [] {
      var n := |entries| - 1;
      CountsBalance(c, files, entries[..n], turns[..n]);
    }
  }
}
