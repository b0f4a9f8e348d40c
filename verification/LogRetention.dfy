/** What the rotator keeps of a log, over one rotation and one prune. */
module LogRetention {
  import opened Strings
  import opened LogNames
  import opened LogRotate

  // ----- a log as its readers see it

  function Get(files: Files, n: string): string { if n in files then files[n] else "" }

  function Texts(g: Gzip, files: Files, names: seq<string>): (r: seq<string>)
    ensures |r| == |names|
  {
    seq(|names|, i requires 0 <= i < |names| => g.unzip(Get(files, names[i])))
  }

  /** The contents of a log's archives, oldest first, and its live file. */
  datatype LogView = LogView(archives: seq<string>, live: string)

  ghost function View(g: Gzip, files: Files, log: string): LogView {
    LogView(Texts(g, files, Names(files, log)), Get(files, log))
  }

  /** The bytes kept: archives in name order, then the live file. */
  function Bytes(v: LogView): string { Flat(v.archives) + v.live }

  lemma FlatSnoc(xs: seq<string>, x: string)
    ensures Flat(xs + [x]) == Flat(xs) + x
  {
    assert (xs + [x])[..|xs|] == xs;
  }

  ghost predicate Suffix(a: string, b: string) { |a| <= |b| && b[|b| - |a|..] == a }

  lemma SuffixGrows(a: string, b: string, x: string)
    requires Suffix(a, b)
    ensures Suffix(a + x, b + x)
  {
    assert (b + x)[|b| - |a|..] == b[|b| - |a|..] + x;
  }

  lemma SuffixTransitive(a: string, b: string, c: string)
    requires Suffix(a, b) && Suffix(b, c)
    ensures Suffix(a, c)
  {
    assert c[|c| - |a|..] == c[|c| - |b|..][|b| - |a|..];
  }

  lemma SuffixSelf(a: string)
    ensures Suffix(a, a) && a + "" == a
  {
  }

  lemma {:induction false} FlatSuffix(xs: seq<string>, k: nat)
    requires k <= |xs|
    ensures Suffix(Flat(xs[k..]), Flat(xs))
  {
    if k < |xs| {
      var n := |xs| - 1;
      FlatSuffix(xs[..n], k);
      assert xs[..n][k..] == xs[k..][..|xs[k..]| - 1];
      SuffixGrows(Flat(xs[..n][k..]), Flat(xs[..n]), xs[n]);
    }
  }

  lemma TextsFrame(g: Gzip, a: Files, b: Files, names: seq<string>)
    requires forall n :: n in names ==> Get(a, n) == Get(b, n)
    ensures Texts(g, a, names) == Texts(g, b, names)
  {
  }

  lemma TextsCut(g: Gzip, files: Files, names: seq<string>, k: nat)
    requires k <= |names|
    ensures Texts(g, files, names[k..]) == Texts(g, files, names)[k..]
  {
  }

  lemma TextsAdd(g: Gzip, files: Files, names: seq<string>, x: string)
    ensures Texts(g, files, names + [x]) == Texts(g, files, names) + [g.unzip(Get(files, x))]
  {
  }

  /** Directories with the same archives of a log show the same archives. */
  lemma SameArchives(g: Gzip, a: Files, b: Files, log: string)
    requires ArchiveSet(b, log) == ArchiveSet(a, log)
    requires forall n :: n in ArchiveSet(a, log) ==> Get(b, n) == Get(a, n)
    ensures View(g, b, log).archives == View(g, a, log).archives
  {
    TextsFrame(g, a, b, Names(a, log));
  }

  // ----- one rotation

  /** Every archive of the log was stamped before `t`. */
  ghost predicate Fresh(files: Files, log: string, t: Instant) {
    forall a: Instant :: Archive(log, a) in files ==> Before(a, t)
  }

  lemma FreshIsAbove(files: Files, log: string, t: Instant)
    requires Fresh(files, log, t)
    ensures forall n :: n in ArchiveSet(files, log) ==> Less(n, Archive(log, t))
  {
    forall n | n in ArchiveSet(files, log)
      ensures Less(n, Archive(log, t))
    {
      var a: Instant :| n == Archive(log, a);
      ArchiveOrder(log, a, t);
    }
  }

  /** A greatest new name goes to the end of the listing. */
  lemma ListingSnoc(s: set<string>, x: string)
    requires forall n :: n in s ==> Less(n, x)
    ensures Listing(s + {x}) == Listing(s) + [x]
  {
    ListingUnique(Listing(s + {x}), Listing(s) + [x]);
  }

  lemma TextsSnoc(g: Gzip, a: Files, b: Files, s: set<string>, x: string)
    requires forall n :: n in s ==> Less(n, x) && Get(a, n) == Get(b, n)
    ensures Texts(g, b, Listing(s + {x})) == Texts(g, a, Listing(s)) + [g.unzip(Get(b, x))]
  {
    ListingSnoc(s, x);
    TextsFrame(g, a, b, Listing(s));
    TextsAdd(g, b, Listing(s), x);
  }

  /** What a rotation does at a name that is no temporary name. */
  lemma RotateAt(g: Gzip, files: Files, log: string, final: string, temp: string, io: Io, n: string)
    requires Ends(log, 'l') && Ends(final, 'z') && IsTemp(temp) && !IsTemp(n)
    ensures var f := RotateTo(g, files, log, final, temp, io);
            if !Archived(files, log, io) then (n in f <==> n in files) && Get(f, n) == Get(files, n)
            else if n == log then Get(f, n) == if io.truncate then "" else files[log] + io.window
            else if n == final then n in f && Get(f, n) == g.zip(files[log])
            else (n in f <==> n in files) && Get(f, n) == Get(files, n)
  {
  }

  /** The contents part: archives but the new one keep their bytes. */
  lemma RotateTexts(g: Gzip, files: Files, log: string, final: string, temp: string, io: Io, other: string)
    requires Ends(log, 'l') && Ends(final, 'z') && IsTemp(temp)
    ensures var f := RotateTo(g, files, log, final, temp, io);
            forall n :: n in ArchiveSet(files, other) && n != final ==> Get(f, n) == Get(files, n)
  {
    ArchivesEnd(files, other);
    forall n | n in ArchiveSet(files, other) && n != final
      ensures Get(RotateTo(g, files, log, final, temp, io), n) == Get(files, n)
    {
      RotateAt(g, files, log, final, temp, io, n);
    }
  }

  /** The set part: at most the new archive is added. */
  lemma RotateMembers(g: Gzip, files: Files, log: string, final: string, temp: string, io: Io, n: string)
    requires Ends(log, 'l') && Ends(final, 'z') && IsTemp(temp) && Ends(n, 'z')
    ensures n in RotateTo(g, files, log, final, temp, io) <==> n in files || (Archived(files, log, io) && n == final)
  {
    RotateAt(g, files, log, final, temp, io, n);
  }

  lemma RotateArchives(g: Gzip, files: Files, log: string, final: string, temp: string, io: Io, other: string)
    requires Ends(log, 'l') && Ends(final, 'z') && IsTemp(temp)
    ensures ArchiveSet(RotateTo(g, files, log, final, temp, io), other) ==
            ArchiveSet(files, other) + if Archived(files, log, io) && IsArchive(final, other) then {final} else {}
  {
    forall n | IsArchive(n, other)
      ensures n in RotateTo(g, files, log, final, temp, io) <==> n in files || (Archived(files, log, io) && n == final)
    {
      ArchiveEnds(n, other);
      RotateMembers(g, files, log, final, temp, io, n);
    }
  }

  /** The log's bytes follow its archives, under a name above all others. */
  lemma RotatedView(g: Gzip, files: Files, log: string, final: string, temp: string, io: Io)
    requires Lawful(g) && IsLog(log) && IsArchive(final, log) && IsTemp(temp) && Archived(files, log, io)
    requires forall n :: n in ArchiveSet(files, log) ==> Less(n, final)
    ensures View(g, RotateTo(g, files, log, final, temp, io), log) ==
            LogView(View(g, files, log).archives + [files[log]], if io.truncate then "" else files[log] + io.window)
  {
    var f := RotateTo(g, files, log, final, temp, io);
    ArchiveEnds(final, log);
    LogEnds(log);
    RotateArchives(g, files, log, final, temp, io, log);
    RotateTexts(g, files, log, final, temp, io, log);
    RotateAt(g, files, log, final, temp, io, final);
    RotateAt(g, files, log, final, temp, io, log);
    LessIrreflexive(final);
    TextsSnoc(g, files, f, ArchiveSet(files, log), final);
  }

  lemma FreshView(g: Gzip, files: Files, log: string, t: Instant, pid: nat, io: Io)
    requires Lawful(g) && IsLog(log) && Fresh(files, log, t) && Archived(files, log, io)
    ensures View(g, RotateFiles(g, files, log, t, pid, io), log) ==
            LogView(View(g, files, log).archives + [files[log]], if io.truncate then "" else files[log] + io.window)
  {
    NamesOfRotation(log, t, pid);
    FreshIsAbove(files, log, t);
    RotatedView(g, files, log, Archive(log, t), TempName(log, pid), io);
  }

  /** A rotation that stops before its rename, and any rotation of another log, changes nothing
      that is kept. */
  lemma KeptApart(g: Gzip, files: Files, log: string, t: Instant, pid: nat, io: Io, other: string)
    requires IsLog(log) && IsLog(other) && (log != other || !Archived(files, log, io))
    ensures View(g, RotateFiles(g, files, log, t, pid, io), other) == View(g, files, other)
  {
    NamesOfRotation(log, t, pid);
    if log != other { ArchiveOwner(log, other, t); }
    RotateApart(g, files, log, Archive(log, t), TempName(log, pid), io, other);
  }

  lemma RotateApart(g: Gzip, files: Files, log: string, final: string, temp: string, io: Io, other: string)
    requires IsLog(log) && IsLog(other) && IsArchive(final, log) && IsTemp(temp)
    requires !Archived(files, log, io) || (log != other && !IsArchive(final, other))
    ensures View(g, RotateTo(g, files, log, final, temp, io), other) == View(g, files, other)
  {
    var f := RotateTo(g, files, log, final, temp, io);
    ArchiveEnds(final, log);
    LogEnds(log);
    LogEnds(other);
    RotateArchives(g, files, log, final, temp, io, other);
    RotateTexts(g, files, log, final, temp, io, other);
    RotateAt(g, files, log, final, temp, io, other);
    RotateAt(g, files, log, final, temp, io, final);
    SameArchives(g, files, f, other);
  }

  lemma ExactBytes(kept: string, live: string, window: string, truncate: bool)
    ensures (kept + live) + (if truncate then "" else live + window) == (kept + live) + window <==>
            if truncate then window == "" else live == ""
  {
    if !truncate && live == "" { assert live + window == window; }
  }

  /** What one rotation, stopped anywhere, does to the bytes kept for its log; the bytes that
      arrive meanwhile are those of the window. All are kept, once, exactly when the truncation
      works and nobody writes in between, or it fails on an empty file. */
  lemma RotateExact(g: Gzip, files: Files, log: string, t: Instant, pid: nat, io: Io)
    requires Lawful(g) && IsLog(log) && Fresh(files, log, t)
    ensures var before, after := View(g, files, log), View(g, RotateFiles(g, files, log, t, pid, io), log);
            var arrived := if Archived(files, log, io) then io.window else "";
            Bytes(after) == Bytes(before) + arrived <==>
            (Archived(files, log, io) ==> if io.truncate then io.window == "" else files[log] == "")
  {
    var before := View(g, files, log);
    if Archived(files, log, io) {
      FreshView(g, files, log, t, pid, io);
      FlatSnoc(before.archives, files[log]);
      ExactBytes(Flat(before.archives), files[log], io.window, io.truncate);
    } else {
      KeptApart(g, files, log, t, pid, io, log);
      SuffixSelf(Bytes(before));
    }
  }

  // ----- one prune

  /** A set of matched names takes all archives of a log or none. */
  ghost predicate Even(files: Files, log: string, all: set<string>) {
    forall x, y :: x in ArchiveSet(files, log) && y in ArchiveSet(files, log) && x in all ==> y in all
  }

  /** The pattern of log `m` treats the archives of `log` alike: always, for a literal name. */
  ghost predicate Alike(c: Config, m: string, log: string) {
    || Literal(m) || c.glob(m).None?
    || forall x, y :: IsArchive(x, log) && IsArchive(y, log) && c.glob(m).value(x) ==> c.glob(m).value(y)
  }

  lemma MatchedEven(c: Config, files: Files, m: string, log: string)
    requires IsLog(m) && IsLog(log) && Alike(c, m, log)
    ensures Even(files, log, Matched(c, files, m))
  {
    forall x, y | x in ArchiveSet(files, log) && y in ArchiveSet(files, log) && x in Matched(c, files, m)
      ensures y in Matched(c, files, m)
    {
      if Literal(m) { AllOrNone(log, m, x, y); } else { ArchiveEnds(y, log); }
    }
  }

  /** The names that a prune removes from a listing come off its front. */
  lemma {:induction false} Cut(ns: seq<string>, gone: set<string>) returns (k: nat)
    requires forall i, j :: 0 <= i < j < |ns| && ns[j] in gone ==> ns[i] in gone
    ensures k <= |ns| && forall i :: 0 <= i < |ns| ==> (ns[i] in gone <==> i < k)
  {
    k := 0;
    if ns != [] {
      var n := |ns| - 1;
      k := Cut(ns[..n], gone);
      if ns[n] in gone { k := n + 1; }
    }
  }

  lemma Remaining(ns: seq<string>, gone: set<string>, k: nat, n: string)
    requires k <= |ns| && forall i :: 0 <= i < |ns| ==> (ns[i] in gone <==> i < k)
    ensures n in ns[k..] <==> n in ns && n !in gone
  {
    if n in ns && n !in gone {
      var i :| 0 <= i < |ns| && ns[i] == n;
      assert ns[k..][i - k] == n;
    }
    if n in ns[k..] {
      var i :| 0 <= i < |ns[k..]| && ns[k..][i] == n;
      assert ns[k + i] == n;
    }
  }

  /** `ns` lists the set in order. */
  ghost predicate Lists(ns: seq<string>, s: set<string>) {
    StrictlySorted(ns) && forall x :: x in ns <==> x in s
  }

  lemma ListsIff(ns: seq<string>, s: set<string>)
    ensures Lists(ns, s) <==> ns == Listing(s)
  {
    if Lists(ns, s) { ListingUnique(ns, Listing(s)); }
  }

  lemma CutAt(a: set<string>, gone: set<string>, ns: seq<string>, k: nat)
    requires Lists(ns, a) && k <= |ns| && forall i :: 0 <= i < |ns| ==> (ns[i] in gone <==> i < k)
    ensures Lists(ns[k..], a - gone)
  {
    forall n
      ensures n in ns[k..] <==> n in a - gone
    {
      Remaining(ns, gone, k, n);
    }
  }

  lemma CutListing(a: set<string>, gone: set<string>) returns (k: nat)
    requires forall x, y :: x in a && y in a && Less(x, y) && y in gone ==> x in gone
    ensures k <= |Listing(a)| && Listing(a - gone) == Listing(a)[k..]
  {
    var ns := Listing(a);
    forall i, j | 0 <= i < j < |ns| && ns[j] in gone
      ensures ns[i] in gone
    {
      assert ns[i] in ns && ns[j] in ns;
    }
    k := Cut(ns, gone);
    CutAt(a, gone, ns, k);
    ListsIff(ns[k..], a - gone);
  }

  lemma PrunedArchives(files: Files, log: string, all: set<string>, keep: nat, stuck: set<string>)
    ensures ArchiveSet(Pruned(files, all, keep, stuck), log) == ArchiveSet(files, log) - (DoomedSet(all, keep) - stuck)
  {
  }

  /** No removal that fails is older than one that works. */
  ghost predicate NoHole(files: Files, log: string, all: set<string>, keep: nat, stuck: set<string>) {
    forall x, y :: x in ArchiveSet(files, log) && y in ArchiveSet(files, log) && Less(x, y) ==>
                     Doomed(all, keep, y) && x in stuck ==> y in stuck
  }

  /** A prune for any log leaves the newest archives of `log`, without a gap, exactly when no
      failed removal is older than a working one. */
  lemma PruneNewest(files: Files, log: string, all: set<string>, keep: nat, stuck: set<string>)
    requires Even(files, log, all)
    ensures (exists k: nat :: k <= |Names(files, log)| && Names(Pruned(files, all, keep, stuck), log) == Names(files, log)[k..])
            <==> NoHole(files, log, all, keep, stuck)
  {
    if NoHole(files, log, all, keep, stuck) {
      var k := PruneCut(files, log, all, keep, stuck);
    }
    if k: nat :| k <= |Names(files, log)| && Names(Pruned(files, all, keep, stuck), log) == Names(files, log)[k..] {
      ListsIff(Names(files, log)[k..], ArchiveSet(Pruned(files, all, keep, stuck), log));
      CutLeavesNoHole(files, log, all, keep, stuck, Names(files, log), k);
    }
  }

  lemma PruneCut(files: Files, log: string, all: set<string>, keep: nat, stuck: set<string>) returns (k: nat)
    requires Even(files, log, all) && NoHole(files, log, all, keep, stuck)
    ensures k <= |Names(files, log)| && Names(Pruned(files, all, keep, stuck), log) == Names(files, log)[k..]
  {
    var a, gone := ArchiveSet(files, log), DoomedSet(all, keep) - stuck;
    forall x, y | x in a && y in a && Less(x, y) && y in gone
      ensures x in gone
    {
      DoomedBelow(all, keep, x, y);
    }
    PrunedArchives(files, log, all, keep, stuck);
    k := CutListing(a, gone);
  }

  lemma CutLeavesNoHole(files: Files, log: string, all: set<string>, keep: nat, stuck: set<string>, ns: seq<string>, k: nat)
    requires Lists(ns, ArchiveSet(files, log)) && k <= |ns|
    requires Lists(ns[k..], ArchiveSet(Pruned(files, all, keep, stuck), log))
    ensures NoHole(files, log, all, keep, stuck)
  {
    PrunedArchives(files, log, all, keep, stuck);
    var a, b := ArchiveSet(files, log), ArchiveSet(Pruned(files, all, keep, stuck), log);
    forall x, y | x in a && y in a && Less(x, y) && Doomed(all, keep, y) && x in stuck
      ensures y in stuck
    {
      assert x in b && x in ns[k..];
      CutUpward(ns, k, x, y);
      assert y in b;
    }
  }

  lemma CutUpward(ns: seq<string>, k: nat, x: string, y: string)
    requires StrictlySorted(ns) && k <= |ns| && x in ns[k..] && y in ns && Less(x, y)
    ensures y in ns[k..]
  {
    var i :| 0 <= i < |ns[k..]| && ns[k..][i] == x;
    var j :| 0 <= j < |ns| && ns[j] == y;
    Trichotomy(x, y);
    assert ns[k + i] == x;
    assert ns[k..][j - k] == y;
  }

  /** Only names that end in `.gz` are ever matched. */
  lemma MatchedEnd(c: Config, files: Files, m: string, n: string)
    requires n in Matched(c, files, m)
    ensures n in files && Ends(n, 'z')
  {
    assert n[|n| - 1] == n[|n| - 3..][2];
  }

  /** A prune of names that end so removes no live file. */
  lemma LiveStays(files: Files, log: string, all: set<string>, keep: nat, stuck: set<string>)
    requires IsLog(log) && forall n :: n in all ==> Ends(n, 'z')
    ensures Get(Pruned(files, all, keep, stuck), log) == Get(files, log)
  {
    LogEnds(log);
  }

  lemma PrunedView(g: Gzip, files: Files, log: string, all: set<string>, keep: nat, stuck: set<string>, ns: seq<string>, k: nat)
    requires IsLog(log) && forall n :: n in all ==> Ends(n, 'z')
    requires Lists(ns, ArchiveSet(files, log)) && k <= |ns|
    requires Lists(ns[k..], ArchiveSet(Pruned(files, all, keep, stuck), log))
    ensures View(g, Pruned(files, all, keep, stuck), log) ==
            LogView(if k <= |View(g, files, log).archives| then View(g, files, log).archives[k..] else [], Get(files, log))
  {
    var f := Pruned(files, all, keep, stuck);
    LiveStays(files, log, all, keep, stuck);
    ListsIff(ns, ArchiveSet(files, log));
    ListsIff(ns[k..], ArchiveSet(f, log));
    assert forall n :: n in ns[k..] ==> n in ArchiveSet(f, log);
    PrunedTexts(g, files, all, keep, stuck, ns, k);
  }

  /** What a prune leaves keeps its bytes. */
  lemma PrunedTexts(g: Gzip, files: Files, all: set<string>, keep: nat, stuck: set<string>, ns: seq<string>, k: nat)
    requires k <= |ns| && forall n :: n in ns[k..] ==> n in Pruned(files, all, keep, stuck)
    ensures Texts(g, Pruned(files, all, keep, stuck), ns[k..]) == Texts(g, files, ns)[k..]
  {
    var f := Pruned(files, all, keep, stuck);
    assert forall n :: n in f ==> Get(f, n) == Get(files, n);
    TextsFrame(g, f, files, ns[k..]);
    TextsCut(g, files, ns, k);
  }

  // ----- which archives survive

  /** Matched names above `n` that are no archives of this log. */
  ghost function Foreign(all: set<string>, log: string, n: string): set<string> {
    set m | m in all && !IsArchive(m, log) && Less(n, m)
  }

  /** The matched names are files, and take in all archives of the log. */
  ghost predicate Covers(files: Files, log: string, all: set<string>) {
    all <= files.Keys && ArchiveSet(files, log) <= all
  }

  /** An archive survives a prune exactly when it, the newer archives of its log and the
      foreign names above it number at most `keep`. */
  lemma SurvivesIff(files: Files, log: string, all: set<string>, keep: nat, n: string)
    requires Covers(files, log, all) && n in ArchiveSet(files, log)
    ensures !Doomed(all, keep, n) <==> |AtLeast(ArchiveSet(files, log), n)| + |Foreign(all, log, n)| <= keep
  {
    RankSplits(ArchiveSet(files, log), all, log, n);
  }

  /** The same for the i-th archive of the listing, which has |ns| - i at or above it. */
  lemma SurvivesAt(files: Files, log: string, all: set<string>, keep: nat, ns: seq<string>, i: nat)
    requires Covers(files, log, all) && Lists(ns, ArchiveSet(files, log)) && i < |ns|
    ensures !Doomed(all, keep, ns[i]) <==> |ns| - i + |Foreign(all, log, ns[i])| <= keep
  {
    assert ns[i] in ns;
    RankOf(ns, ArchiveSet(files, log), i);
    SurvivesIff(files, log, all, keep, ns[i]);
  }

  lemma RankSplits(own: set<string>, all: set<string>, log: string, n: string)
    requires forall m :: m in own <==> m in all && IsArchive(m, log)
    requires n in own
    ensures |AtLeast(all, n)| == |AtLeast(own, n)| + |Foreign(all, log, n)|
  {
    var a, b := AtLeast(own, n), Foreign(all, log, n);
    forall m
      ensures m in AtLeast(all, n) <==> m in a + b
    {
      Trichotomy(m, n);
    }
    assert AtLeast(all, n) == a + b && a !! b;
  }

  function Least(a: nat, b: nat): nat { if a < b then a else b }

  /** The retention promise, the newest `keep` archives of a log or all if there are fewer,
      holds exactly when no more foreign names sort above the oldest of them than there are
      places left. */
  lemma NewestKept(files: Files, log: string, all: set<string>, keep: nat)
    requires Covers(files, log, all)
    ensures KeepsFrom(files, log, all, keep, |Names(files, log)| - Least(keep, |Names(files, log)|)) <==>
            RoomFrom(files, log, all, keep, |Names(files, log)| - Least(keep, |Names(files, log)|))
  {
    var ns := Names(files, log);
    var k := |ns| - Least(keep, |ns|);
    ListsIff(ns[k..], ArchiveSet(Pruned(files, all, keep, {}), log));
    NewestKeptAt(files, log, all, keep, ns, k);
  }

  /** A prune leaves exactly the archives from the k-th on. */
  ghost predicate KeepsFrom(files: Files, log: string, all: set<string>, keep: nat, k: nat)
    requires k <= |Names(files, log)|
  {
    Names(Pruned(files, all, keep, {}), log) == Names(files, log)[k..]
  }

  /** The k-th archive, those newer and the foreign names above it fit into `keep` places. */
  ghost predicate RoomFrom(files: Files, log: string, all: set<string>, keep: nat, k: nat)
    requires k <= |Names(files, log)|
  {
    k == |Names(files, log)| || |Foreign(all, log, Names(files, log)[k])| <= keep - (|Names(files, log)| - k)
  }

  lemma NewestKeptAt(files: Files, log: string, all: set<string>, keep: nat, ns: seq<string>, k: nat)
    requires Covers(files, log, all) && Lists(ns, ArchiveSet(files, log)) && k == |ns| - Least(keep, |ns|)
    ensures Lists(ns[k..], ArchiveSet(Pruned(files, all, keep, {}), log)) <==>
            (k == |ns| || |Foreign(all, log, ns[k])| <= keep - (|ns| - k))
  {
    OldestDoomed(files, log, all, keep, ns, k);
    NewestSurvive(files, log, all, keep, ns, k);
    if k < |ns| { SurvivesAt(files, log, all, keep, ns, k); }
  }

  lemma OldestDoomed(files: Files, log: string, all: set<string>, keep: nat, ns: seq<string>, k: nat)
    requires Covers(files, log, all) && Lists(ns, ArchiveSet(files, log)) && k <= |ns| && (k == 0 || k + keep <= |ns|)
    ensures forall i :: 0 <= i < k ==> Doomed(all, keep, ns[i])
  {
    forall i | 0 <= i < k
      ensures Doomed(all, keep, ns[i])
    {
      SurvivesAt(files, log, all, keep, ns, i);
    }
  }

  /** With the oldest k archives doomed, exactly the rest is left if the next one survives. */
  lemma NewestSurvive(files: Files, log: string, all: set<string>, keep: nat, ns: seq<string>, k: nat)
    requires ArchiveSet(files, log) <= all && Lists(ns, ArchiveSet(files, log)) && k <= |ns|
    requires forall i :: 0 <= i < k ==> Doomed(all, keep, ns[i])
    ensures Lists(ns[k..], ArchiveSet(Pruned(files, all, keep, {}), log)) <==> (k == |ns| || !Doomed(all, keep, ns[k]))
  {
    if k == |ns| {
      DoomedBefore(files, log, all, keep, ns, k);
    } else if !Doomed(all, keep, ns[k]) {
      assert ns[k] in ns;
      SurvivorsAbove(ns, all, keep, k);
      DoomedBefore(files, log, all, keep, ns, k);
    } else {
      PrunedArchives(files, log, all, keep, {});
      assert ns[k] in DoomedSet(all, keep) && ns[k] !in ArchiveSet(Pruned(files, all, keep, {}), log);
      assert ns[k..][0] == ns[k];
    }
  }

  lemma SurvivorsAbove(ns: seq<string>, all: set<string>, keep: nat, k: nat)
    requires StrictlySorted(ns) && k < |ns| && ns[k] in all && !Doomed(all, keep, ns[k])
    ensures forall i :: k <= i < |ns| ==> !Doomed(all, keep, ns[i])
  {
    forall i | k <= i < |ns|
      ensures !Doomed(all, keep, ns[i])
    {
      if i > k && Doomed(all, keep, ns[i]) { DoomedBelow(all, keep, ns[k], ns[i]); }
    }
  }

  lemma DoomedBefore(files: Files, log: string, all: set<string>, keep: nat, ns: seq<string>, k: nat)
    requires Lists(ns, ArchiveSet(files, log)) && k <= |ns|
    requires forall i :: 0 <= i < |ns| ==> (Doomed(all, keep, ns[i]) <==> i < k)
    ensures Lists(ns[k..], ArchiveSet(Pruned(files, all, keep, {}), log))
  {
    var gone := DoomedSet(all, keep) - {};
    PrunedArchives(files, log, all, keep, {});
    forall i | 0 <= i < |ns|
      ensures ns[i] in gone <==> i < k
    {
      assert ns[i] in gone <==> Doomed(all, keep, ns[i]);
    }
    CutAt(ArchiveSet(files, log), gone, ns, k);
  }
}
