/** The log rotator: each big `*.jsonl` file is copied into a stamped archive and emptied,
    then its oldest archives are removed. */
module LogRotate {
  import opened Strings
  import opened LogNames

  // ----- rotateOne

  datatype Gzip = Gzip(zip: string -> string, unzip: string -> string)

  ghost predicate Lawful(g: Gzip) { forall s :: g.unzip(g.zip(s)) == s }

  /** Which calls of one rotation succeed, what an unfinished copy left behind, and the bytes
      that a writer appends after the copy was taken. */
  datatype Io = Io(open: bool, create: bool, copy: bool, closeZip: bool, closeTemp: bool, rename: bool,
                   removeTemp: bool, truncate: bool, partial: string, window: string)

  predicate Archived(files: Files, log: string, io: Io) {
    log in files && io.open && io.create && io.copy && io.closeZip && io.closeTemp && io.rename
  }

  /** The directory after a rotation, which may stop at any call. */
  function RotateTo(g: Gzip, files: Files, log: string, final: string, temp: string, io: Io): Files {
    if Archived(files, log, io) then
      (files - {temp})[final := g.zip(files[log])][log := if io.truncate then "" else files[log] + io.window]
    else if log !in files || !io.open || !io.create then files
    else if io.removeTemp then files - {temp}
    else files[temp := if io.copy && io.closeZip && io.closeTemp then g.zip(files[log]) else io.partial]
  }

  function RotateFiles(g: Gzip, files: Files, log: string, t: Instant, pid: nat, io: Io): Files {
    RotateTo(g, files, log, Archive(log, t), TempName(log, pid), io)
  }

  // ----- pruneRotations

  /** The matched names at or above `n`. */
  ghost function AtLeast(s: set<string>, n: string): set<string> {
    set m | m in s && !Less(m, n)
  }

  /** The names a prune goes for: those with `keep` or more matched names above them. */
  ghost predicate Doomed(all: set<string>, keep: nat, n: string) {
    n in all && |AtLeast(all, n)| > keep
  }

  ghost function DoomedSet(all: set<string>, keep: nat): set<string> {
    set n | n in all && Doomed(all, keep, n)
  }

  /** The directory after a prune in which the removals of `stuck` fail. */
  ghost function Pruned(files: Files, all: set<string>, keep: nat, stuck: set<string>): Files {
    files - (DoomedSet(all, keep) - stuck)
  }

  lemma {:induction false} StrictCount(s: seq<string>)
    requires StrictlySorted(s)
    ensures |Elems(s)| == |s|
  {
    if s != [] {
      var n := |s| - 1;
      StrictCount(s[..n]);
      LessIrreflexive(s[n]);
      assert s[n] !in s[..n];
      assert Elems(s) == Elems(s[..n]) + {s[n]};
    }
  }

  /** Counting from the top of a sorted listing. */
  lemma RankOf(s: seq<string>, all: set<string>, i: nat)
    requires StrictlySorted(s) && (forall x :: x in s <==> x in all) && i < |s|
    ensures |AtLeast(all, s[i])| == |s| - i
  {
    forall k | 0 <= k < |s|
      ensures Less(s[k], s[i]) <==> k < i
    {
      Trichotomy(s[k], s[i]);
    }
    assert forall k :: i <= k < |s| ==> s[i..][k - i] == s[k];
    forall x | x in AtLeast(all, s[i])
      ensures x in s[i..]
    {
      var k :| 0 <= k < |s| && s[k] == x;
      assert s[i..][k - i] == x;
    }
    forall x | x in s[i..]
      ensures x in AtLeast(all, s[i])
    {
      var k :| 0 <= k < |s[i..]| && s[i..][k] == x;
      assert s[i + k] == x && x in s;
    }
    assert AtLeast(all, s[i]) == Elems(s[i..]);
    StrictCount(s[i..]);
  }

  /** In a sorted listing the doomed names are the first ones. */
  lemma DoomedPrefix(all: set<string>, keep: nat, s: seq<string>, i: nat)
    requires StrictlySorted(s) && (forall x :: x in s <==> x in all) && i < |s|
    ensures Doomed(all, keep, s[i]) <==> i < |s| - keep
  {
    RankOf(s, all, i);
    assert s[i] in s;
  }

  /** Below a doomed name every matched name is doomed. */
  lemma DoomedBelow(all: set<string>, keep: nat, m: string, n: string)
    requires Doomed(all, keep, n) && m in all && Less(m, n)
    ensures Doomed(all, keep, m)
  {
    forall x | x in AtLeast(all, n)
      ensures x in AtLeast(all, m)
    {
      Trichotomy(m, n);
      NotLessTransitive(m, n, x);
    }
    SubsetCount(AtLeast(all, n), AtLeast(all, m));
  }

  lemma {:induction false} SubsetCount<T>(a: set<T>, b: set<T>)
    requires a <= b
    ensures |a| <= |b|
  {
    assert b == a + (b - a);
  }

  /** Of the matched names, at most `keep` are not doomed. */
  lemma PruneBound(all: set<string>, keep: nat)
    ensures |all - DoomedSet(all, keep)| <= keep
  {
    var s := Listing(all);
    var k := if |s| < keep then 0 else |s| - keep;
    var left := Elems(s[k..]);
    StrictCount(s[k..]);
    forall n | n in all - DoomedSet(all, keep)
      ensures n in left
    {
      assert n in s;
      var i :| 0 <= i < |s| && s[i] == n;
      DoomedPrefix(all, keep, s, i);
      assert s[k..][i - k] == n;
    }
    SubsetCount(all - DoomedSet(all, keep), left);
  }

  // ----- one turn of the loop

  /** `glob` is what the glob library makes of the pattern of a log whose name itself holds
      metacharacters: which names match, or None for a malformed pattern. */
  datatype Config = Config(threshold: nat, keep: nat, dryRun: bool, pid: nat, self: string, gzip: Gzip,
                           glob: string -> Option<string -> bool>)

  /** The names that match `log.*.gz`; None when the pattern is malformed. Whatever the log's
      name, the pattern ends in a literal `.gz`. */
  function Glob(c: Config, files: Files, log: string): Option<set<string>> {
    if Literal(log) then Some(MatchSet(files, log))
    else match c.glob(log)
      case None => None
      case Some(matches) => Some(set n | n in files && HasSuffix(n, GZ) && matches(n))
  }

  /** The same, empty for a malformed pattern. */
  function Matched(c: Config, files: Files, log: string): set<string> {
    if Glob(c, files, log).Some? then Glob(c, files, log).value else {}
  }

  /** What the outside world does to one entry's turn. */
  datatype Turn = Turn(stat: bool, now: Instant, io: Io, stuck: set<string>)

  datatype Outcome = StatError | Skipped | WouldRotate | RotateError | Rotated(pruned: nat, failed: bool)

  /** Whether the turn gets as far as rotating. */
  predicate Due(c: Config, files: Files, log: string, u: Turn) {
    u.stat && log in files && |files[log]| >= c.threshold && !c.dryRun
  }

  predicate Done(files: Files, log: string, io: Io) { Archived(files, log, io) && io.truncate }

  ghost function TurnFiles(c: Config, files: Files, log: string, u: Turn): Files {
    if !Due(c, files, log, u) then files else
      var f := RotateFiles(c.gzip, files, log, u.now, c.pid, u.io);
      if Done(files, log, u.io) then Pruned(f, Matched(c, f, log), c.keep, u.stuck) else f
  }

  ghost function TurnOutcome(c: Config, files: Files, log: string, u: Turn): Outcome {
    if !u.stat || log !in files then StatError
    else if |files[log]| < c.threshold then Skipped
    else if c.dryRun then WouldRotate
    else if !Done(files, log, u.io) then RotateError
    else
      var f := RotateFiles(c.gzip, files, log, u.now, c.pid, u.io);
      var d := DoomedSet(Matched(c, f, log), c.keep);
      Rotated(|d - u.stuck|, Glob(c, f, log).None? || d * u.stuck != {})
  }

  datatype Summary = Summary(scanned: nat, rotated: nat, skipped: nat, pruned: nat, errors: nat)

  function Tally(s: Summary, o: Outcome): Summary {
    var s := s.(scanned := s.scanned + 1);
    match o
    case StatError => s.(errors := s.errors + 1)
    case Skipped => s.(skipped := s.skipped + 1)
    case WouldRotate => s.(rotated := s.rotated + 1)
    case RotateError => s.(errors := s.errors + 1)
    case Rotated(pruned, failed) =>
      s.(rotated := s.rotated + 1, pruned := s.pruned + pruned, errors := s.errors + if failed then 1 else 0)
  }

  datatype Entry = Entry(name: string, isDir: bool)

  predicate Eligible(c: Config, e: Entry) { !e.isDir && IsLog(e.name) && e.name != c.self }

  /** The directory and the counts after the first entries' turns. */
  ghost function Cycle(c: Config, files: Files, entries: seq<Entry>, turns: seq<Turn>): (Files, Summary)
    requires |entries| == |turns|
  {
    if entries == [] then (files, Summary(0, 0, 0, 0, 0)) else
      var n := |entries| - 1;
      var (f, s) := Cycle(c, files, entries[..n], turns[..n]);
      if Eligible(c, entries[n]) then
        (TurnFiles(c, f, entries[n].name, turns[n]), Tally(s, TurnOutcome(c, f, entries[n].name, turns[n])))
      else (f, s)
  }

  class LogDir {
    var files: Files

    constructor (start: Files)
      ensures files == start
    {
      files := start;
    }

    /** rotateOne: copy to a temporary name, rename, truncate. */
    method RotateOne(g: Gzip, log: string, t: Instant, pid: nat, io: Io) returns (ok: bool)
      requires IsLog(log)
      modifies this
      ensures files == RotateFiles(g, old(files), log, t, pid, io)
      ensures ok == Done(old(files), log, io)
    {
      var finalName := Archive(log, t);
      var temp := TempName(log, pid);
      TempIsNoLog(log, pid, log);
      ghost var was := files;
      if log !in files || !io.open { return false; }
      if !io.create { return false; }
      files := files[temp := io.partial];
      Overwritten(was, temp, io.partial, g.zip(was[log]));
      if !io.copy || !io.closeZip || !io.closeTemp {
        if io.removeTemp { files := files - {temp}; }
        return false;
      }
      files := files[temp := g.zip(files[log])];
      if !io.rename {
        if io.removeTemp { files := files - {temp}; }
        return false;
      }
      files := (files - {temp})[finalName := files[temp]];
      ArchiveIsNoLog(log, t, log);
      ghost var renamed := files;
      files := files[log := files[log] + io.window];
      if !io.truncate { return false; }
      files := files[log := ""];
      Overwritten(renamed, log, renamed[log] + io.window, "");
      return true;
    }

    /** pruneRotations: glob, sort, remove from the front. */
    method PruneRotations(c: Config, log: string, stuck: set<string>) returns (pruned: nat, failed: bool)
      modifies this
      ensures var all := Matched(c, old(files), log);
              && files == Pruned(old(files), all, c.keep, stuck)
              && pruned == |DoomedSet(all, c.keep) - stuck|
              && (failed <==> Glob(c, old(files), log).None? || DoomedSet(all, c.keep) * stuck != {})
    {
      var all := Glob(c, files, log);
      if all.None? {
        NothingDoomed(files, c.keep, stuck);
        return 0, true;
      }
      pruned, failed := PruneMatched(all.value, c.keep, stuck);
    }

    /** The same once the names are known. */
    method PruneMatched(all: set<string>, keep: nat, stuck: set<string>) returns (pruned: nat, failed: bool)
      modifies this
      ensures files == Pruned(old(files), all, keep, stuck)
      ensures pruned == |DoomedSet(all, keep) - stuck|
      ensures failed <==> DoomedSet(all, keep) * stuck != {}
    {
      var matches := AnyOrder(all);
      var s := SortedCopy(matches);
      var k := if |s| <= keep then 0 else |s| - keep;
      DoomedFirst(all, keep, s);
      pruned, failed := RemoveAll(s[..k], stuck);
    }

    /** Its removal loop, which goes on after a failure. */
    method RemoveAll(doomed: seq<string>, stuck: set<string>) returns (pruned: nat, failed: bool)
      requires StrictlySorted(doomed)
      modifies this
      ensures files == old(files) - (Elems(doomed) - stuck)
      ensures pruned == |Elems(doomed) - stuck|
      ensures failed <==> Elems(doomed) * stuck != {}
    {
      ghost var was := files;
      pruned, failed := 0, false;
      assert Elems(doomed[..0]) - stuck == {} && files == was - {};
      for i := 0 to |doomed|
        invariant files == was - (Elems(doomed[..i]) - stuck)
        invariant pruned == |Elems(doomed[..i]) - stuck|
        invariant failed <==> Elems(doomed[..i]) * stuck != {}
      {
        ElemsNext(doomed, i);
        ghost var seen, next := Elems(doomed[..i]), Elems(doomed[..i + 1]);
        RemoveStep(was, seen, next, stuck, doomed[i]);
        if doomed[i] in stuck {
          failed := true;
        } else {
          files := files - {doomed[i]};
          pruned := pruned + 1;
        }
      }
      assert doomed[..|doomed|] == doomed;
    }

    /** The loop body of rotateAll, for an entry that is a log. */
    method Visit(c: Config, log: string, u: Turn) returns (o: Outcome)
      requires IsLog(log)
      modifies this
      ensures files == TurnFiles(c, old(files), log, u)
      ensures o == TurnOutcome(c, old(files), log, u)
    {
      if !u.stat || log !in files { return StatError; }
      if |files[log]| < c.threshold { return Skipped; }
      if c.dryRun { return WouldRotate; }
      var ok := RotateOne(c.gzip, log, u.now, c.pid, u.io);
      if !ok { return RotateError; }
      var pruned, failed := PruneRotations(c, log, u.stuck);
      return Rotated(pruned, failed);
    }

    /** rotateAll; `entries` is what reading the directory gave, or nothing when that failed. */
    method RotateAll(c: Config, entries: Option<seq<Entry>>, turns: seq<Turn>) returns (summary: Option<Summary>)
      requires entries.Some? ==> |entries.value| == |turns|
      modifies this
      ensures entries.None? ==> summary.None? && files == old(files)
      ensures entries.Some? ==> summary.Some? && (files, summary.value) == Cycle(c, old(files), entries.value, turns)
    {
      if entries.None? { return None; }
      var es := entries.value;
      var s := Summary(0, 0, 0, 0, 0);
      ghost var was := files;
      for i := 0 to |es|
        invariant (files, s) == Cycle(c, was, es[..i], turns[..i])
      {
        assert es[..i + 1][..i] == es[..i] && turns[..i + 1][..i] == turns[..i];
        if es[i].isDir { continue; }
        if !IsLog(es[i].name) || es[i].name == c.self { continue; }
        var o := Visit(c, es[i].name, turns[i]);
        s := Tally(s, o);
      }
      assert es[..|es|] == es && turns[..|es|] == turns;
      return Some(s);
    }
  }

  lemma Overwritten(m: Files, k: string, a: string, b: string)
    ensures m[k := a][k := b] == m[k := b]
    ensures m[k := a] - {k} == m - {k} && m[k := b] - {k} == m - {k}
  {
  }

  lemma RemoveStep(was: Files, seen: set<string>, next: set<string>, stuck: set<string>, x: string)
    requires x !in seen && next == seen + {x}
    ensures x in stuck ==> next - stuck == seen - stuck && next * stuck != {}
    ensures x !in stuck ==> was - (next - stuck) == (was - (seen - stuck)) - {x}
    ensures x !in stuck ==> |next - stuck| == |seen - stuck| + 1 && next * stuck == seen * stuck
  {
    if x in stuck {
      assert x in next * stuck;
    } else {
      assert next - stuck == (seen - stuck) + {x};
    }
  }

  lemma NothingDoomed(files: Files, keep: nat, stuck: set<string>)
    ensures DoomedSet({}, keep) == {} && Pruned(files, {}, keep, stuck) == files
  {
    assert files - {} == files;
  }

  lemma DoomedFirst(all: set<string>, keep: nat, s: seq<string>)
    requires StrictlySorted(s) && forall x :: x in s <==> x in all
    ensures DoomedSet(all, keep) == Elems(s[..if |s| <= keep then 0 else |s| - keep])
  {
    var k := if |s| <= keep then 0 else |s| - keep;
    assert forall n :: n in s[..k] ==> n in s;
    forall n
      ensures n in DoomedSet(all, keep) <==> n in s[..k]
    {
      if n in s {
        var i :| 0 <= i < |s| && s[i] == n;
        DoomedPrefix(all, keep, s, i);
        if i < k { assert s[..k][i] == n; }
        if n in s[..k] {
          var j :| 0 <= j < k && s[..k][j] == n;
          DoomedPrefix(all, keep, s, j);
        }
      }
    }
  }

  lemma ElemsNext(s: seq<string>, i: nat)
    requires StrictlySorted(s) && i < |s|
    ensures s[i] !in Elems(s[..i]) && Elems(s[..i + 1]) == Elems(s[..i]) + {s[i]}
  {
    LessIrreflexive(s[i]);
    assert s[..i + 1] == s[..i] + [s[i]];
  }
}
