/** The names the log rotator gives and matches: stamps, archives, temporary files. */
module LogNames {
  import opened Strings

  // ----- stamps

  datatype Civil = Civil(year: nat, month: nat, day: nat, hour: nat, minute: nat, second: nat)

  /** A UTC date and time to the second, in the years that four digits can hold. */
  type Instant = t: Civil |
    t.year < 10000 && 1 <= t.month <= 12 && 1 <= t.day <= 31 && t.hour < 24 && t.minute < 60 && t.second < 60
    witness Civil(1970, 1, 1, 0, 0, 0)

  predicate Before(a: Instant, b: Instant) {
    if a.year != b.year then a.year < b.year
    else if a.month != b.month then a.month < b.month
    else if a.day != b.day then a.day < b.day
    else if a.hour != b.hour then a.hour < b.hour
    else if a.minute != b.minute then a.minute < b.minute
    else a.second < b.second
  }

  function Digit(d: nat): char
    requires d < 10
  {
    '0' + d as char
  }

  function Pad2(n: nat): string
    requires n < 100
  {
    [Digit(n / 10), Digit(n % 10)]
  }

  function Pad4(n: nat): string
    requires n < 10000
  {
    Pad2(n / 100) + Pad2(n % 100)
  }

  function ClockStamp(t: Instant): string { Pad2(t.hour) + (Pad2(t.minute) + (Pad2(t.second) + "Z")) }

  function DayStamp(t: Instant): string { Pad2(t.month) + (Pad2(t.day) + ("T" + ClockStamp(t))) }

  /** The layout 20060102T150405Z. */
  function Stamp(t: Instant): string { Pad4(t.year) + DayStamp(t) }

  /** Strings that start with blocks of one width compare block by block. */
  lemma {:induction false} LessBlocks(p: string, q: string, a: string, b: string)
    requires |p| == |q|
    ensures Less(p + a, q + b) <==> if p == q then Less(a, b) else Less(p, q)
    ensures p + a == q + b <==> p == q && a == b
  {
    if p == [] {
      assert p + a == a && q + b == b;
    } else {
      assert (p + a)[1..] == p[1..] + a && (q + b)[1..] == q[1..] + b;
      assert p == [p[0]] + p[1..] && q == [q[0]] + q[1..];
      assert (p + a)[0] == p[0] && (q + b)[0] == q[0];
      assert p + a == [p[0]] + (p + a)[1..] && q + b == [q[0]] + (q + b)[1..];
      LessBlocks(p[1..], q[1..], a, b);
    }
  }

  lemma DigitOrder(c: nat, d: nat)
    requires c < 10 && d < 10
    ensures Less([Digit(c)], [Digit(d)]) <==> c < d
    ensures [Digit(c)] == [Digit(d)] <==> c == d
  {
    var p, q := [Digit(c)], [Digit(d)];
    assert p[1..] == [] && q[1..] == [] && p[0] == Digit(c) && q[0] == Digit(d);
  }

  lemma Pad2Order(m: nat, n: nat)
    requires m < 100 && n < 100
    ensures Less(Pad2(m), Pad2(n)) <==> m < n
    ensures Pad2(m) == Pad2(n) <==> m == n
  {
    DigitOrder(m / 10, n / 10);
    DigitOrder(m % 10, n % 10);
    LessBlocks([Digit(m / 10)], [Digit(n / 10)], [Digit(m % 10)], [Digit(n % 10)]);
    assert Pad2(m) == [Digit(m / 10)] + [Digit(m % 10)];
    assert Pad2(n) == [Digit(n / 10)] + [Digit(n % 10)];
  }

  lemma Pad4Order(m: nat, n: nat)
    requires m < 10000 && n < 10000
    ensures Less(Pad4(m), Pad4(n)) <==> m < n
    ensures Pad4(m) == Pad4(n) <==> m == n
  {
    Pad2Order(m / 100, n / 100);
    Pad2Order(m % 100, n % 100);
    LessBlocks(Pad2(m / 100), Pad2(n / 100), Pad2(m % 100), Pad2(n % 100));
  }

  lemma ClockStampOrder(a: Instant, b: Instant)
    ensures Less(ClockStamp(a), ClockStamp(b)) <==>
            if a.hour != b.hour then a.hour < b.hour
            else if a.minute != b.minute then a.minute < b.minute
            else a.second < b.second
    ensures ClockStamp(a) == ClockStamp(b) <==> a.hour == b.hour && a.minute == b.minute && a.second == b.second
  {
    Pad2Order(a.hour, b.hour);
    Pad2Order(a.minute, b.minute);
    Pad2Order(a.second, b.second);
    var sa, sb := Pad2(a.second) + "Z", Pad2(b.second) + "Z";
    LessBlocks(Pad2(a.second), Pad2(b.second), "Z", "Z");
    LessIrreflexive("Z");
    LessBlocks(Pad2(a.minute), Pad2(b.minute), sa, sb);
    LessBlocks(Pad2(a.hour), Pad2(b.hour), Pad2(a.minute) + sa, Pad2(b.minute) + sb);
  }

  lemma DayStampOrder(a: Instant, b: Instant)
    ensures Less(DayStamp(a), DayStamp(b)) <==>
            if a.month != b.month then a.month < b.month
            else if a.day != b.day then a.day < b.day
            else Less(ClockStamp(a), ClockStamp(b))
    ensures DayStamp(a) == DayStamp(b) <==> a.month == b.month && a.day == b.day && ClockStamp(a) == ClockStamp(b)
  {
    Pad2Order(a.month, b.month);
    Pad2Order(a.day, b.day);
    var sa, sb := "T" + ClockStamp(a), "T" + ClockStamp(b);
    LessBlocks("T", "T", ClockStamp(a), ClockStamp(b));
    LessBlocks(Pad2(a.day), Pad2(b.day), sa, sb);
    LessBlocks(Pad2(a.month), Pad2(b.month), Pad2(a.day) + sa, Pad2(b.day) + sb);
  }

  /** Stamps sort by name exactly as they sort by time, and tell seconds apart. */
  lemma StampOrder(a: Instant, b: Instant)
    ensures Less(Stamp(a), Stamp(b)) <==> Before(a, b)
    ensures Stamp(a) == Stamp(b) <==> a == b
  {
    Pad4Order(a.year, b.year);
    DayStampOrder(a, b);
    ClockStampOrder(a, b);
    LessBlocks(Pad4(a.year), Pad4(b.year), DayStamp(a), DayStamp(b));
  }

  // ----- names

  type Files = map<string, string>

  const GZ := ".gz"

  function Tail(t: Instant): string { Stamp(t) + GZ }

  function Archive(log: string, t: Instant): string { (log + ".") + Tail(t) }

  function Decimal(n: nat): (s: string)
    ensures |s| > 0 && '0' <= s[|s| - 1] <= '9'
  {
    (if n < 10 then "" else Decimal(n / 10)) + [Digit(n % 10)]
  }

  function TempName(log: string, pid: nat): string { log + ".rotating." + Decimal(pid) }

  predicate HasPrefix(n: string, p: string) { |p| <= |n| && n[..|p|] == p }

  predicate HasSuffix(n: string, e: string) { |e| <= |n| && n[|n| - |e|..] == e }

  predicate IsLog(n: string) { HasSuffix(n, ".jsonl") }

  /** No character that a glob pattern treats specially. */
  predicate Literal(n: string) { '*' !in n && '?' !in n && '[' !in n && '\\' !in n }

  /** The glob `log.*.gz`. */
  predicate Matches(n: string, log: string) {
    |log| + 4 <= |n| && HasPrefix(n, log + ".") && HasSuffix(n, GZ)
  }

  ghost predicate IsArchive(n: string, log: string) { exists t: Instant :: n == Archive(log, t) }

  /** What a stamp is made of. */
  predicate StampChar(ch: char) { '0' <= ch <= '9' || ch == 'T' || ch == 'Z' }

  lemma StampChars(t: Instant)
    ensures |Stamp(t)| == 16 && forall i :: 0 <= i < 16 ==> StampChar(Stamp(t)[i])
  {
    var y, d, c := Pad4(t.year), DayStamp(t), ClockStamp(t);
    assert |c| == 7 && forall i :: 0 <= i < 7 ==> StampChar(c[i]);
    assert |d| == 12 && forall i :: 0 <= i < 12 ==> StampChar(d[i]) by {
      assert d[..4] == Pad2(t.month) + Pad2(t.day) && d[4] == 'T' && d[5..] == c;
      assert forall i :: 0 <= i < 4 ==> d[i] == d[..4][i];
      assert forall i :: 5 <= i < 12 ==> d[i] == d[5..][i - 5];
    }
    assert |y| == 4 && forall i :: 0 <= i < 4 ==> StampChar(y[i]);
  }

  /** One log's archives stand in time order; two logs never share an archive. */
  lemma ArchiveOrder(log: string, a: Instant, b: Instant)
    ensures Less(Archive(log, a), Archive(log, b)) <==> Before(a, b)
    ensures Archive(log, a) == Archive(log, b) <==> a == b
  {
    StampOrder(a, b);
    StampChars(a);
    StampChars(b);
    LessBlocks(Stamp(a), Stamp(b), GZ, GZ);
    LessIrreflexive(GZ);
    LessBlocks(log + ".", log + ".", Tail(a), Tail(b));
  }

  lemma ArchiveEnds(n: string, log: string)
    requires IsArchive(n, log)
    ensures n[|n| - 1] == 'z' && Matches(n, log)
  {
    var t: Instant :| n == Archive(log, t);
    StampChars(t);
    assert n[..|log| + 1] == log + "." && n[|n| - 3..] == GZ;
  }

  lemma LogEnds(n: string)
    requires IsLog(n)
    ensures n[|n| - 1] == 'l'
  {
    assert n[|n| - 1] == n[|n| - 6..][5];
  }

  /** Whether `m.*.gz` picks up an archive of `log` does not depend on the stamp. */
  lemma AllOrNone(log: string, m: string, a: string, b: string)
    requires IsLog(log) && IsLog(m) && IsArchive(a, log) && IsArchive(b, log)
    requires Matches(a, m)
    ensures Matches(b, m)
  {
    ArchiveEnds(a, log);
    ArchiveEnds(b, log);
    MatchedInside(log, m, a);
    var p := log + ".";
    assert a[..|p|] == p && b[..|p|] == p;
    assert b[..|m| + 1] == b[..|p|][..|m| + 1] == a[..|p|][..|m| + 1] == a[..|m| + 1];
  }

  /** A stamp holds no `l`, so a matching log name ends inside the archive's own log name. */
  lemma MatchedInside(log: string, m: string, a: string)
    requires IsLog(m) && IsArchive(a, log) && Matches(a, m)
    ensures |m| <= |log|
  {
    var t: Instant :| a == Archive(log, t);
    StampChars(t);
    LogEnds(m);
    assert forall k :: |log| < k < |a| ==> a[k] == Tail(t)[k - |log| - 1] && a[k] != 'l';
    assert a[|log|] == '.';
    assert a[|m| - 1] == a[..|m| + 1][|m| - 1] == (m + ".")[|m| - 1];
  }

  // ----- listings

  ghost predicate IsLeast(m: string, s: set<string>) {
    m in s && forall y :: y in s ==> y == m || Less(m, y)
  }

  lemma {:induction false} LeastExists(s: set<string>) returns (m: string)
    requires s != {}
    ensures IsLeast(m, s)
  {
    m :| m in s;
    if s != {m} {
      assert s - {m} != {};
      var m' := LeastExists(s - {m});
      Trichotomy(m, m');
      if Less(m, m') {
        forall y | y in s
          ensures y == m || Less(m, y)
        {
          if y != m && y != m' { LessTransitive(m, m', y); }
        }
      } else {
        m := m';
      }
    }
  }

  lemma LeastThere(s: set<string>)
    requires s != {}
    ensures exists m :: IsLeast(m, s)
  {
    var m := LeastExists(s);
  }

  /** The names of a set in order. */
  ghost function Listing(s: set<string>): (r: seq<string>)
    ensures StrictlySorted(r)
    ensures |r| == |s| && forall x :: x in r <==> x in s
  {
    if s == {} then [] else
      LeastThere(s);
      var m :| IsLeast(m, s);
      [m] + Listing(s - {m})
  }

  function Elems(s: seq<string>): set<string> { set x | x in s }

  ghost function ArchiveSet(files: Files, log: string): set<string> {
    set n | n in files && IsArchive(n, log)
  }

  /** The archives of a log, oldest first. */
  ghost function Names(files: Files, log: string): (r: seq<string>) { Listing(ArchiveSet(files, log)) }

  function MatchSet(files: Files, log: string): set<string> {
    set n | n in files && Matches(n, log)
  }

  lemma TempIsNoLog(log: string, pid: nat, other: string)
    ensures IsLog(other) ==> TempName(log, pid) != other
    ensures !IsArchive(TempName(log, pid), other)
  {
    var n := TempName(log, pid);
    assert n[|n| - 1] == Decimal(pid)[|Decimal(pid)| - 1];
    if IsLog(other) { LogEnds(other); }
    if IsArchive(n, other) { ArchiveEnds(n, other); }
  }

  lemma ArchiveIsNoLog(log: string, t: Instant, other: string)
    ensures IsLog(other) ==> Archive(log, t) != other
  {
    ArchiveEnds(Archive(log, t), log);
    if IsLog(other) { LogEnds(other); }
  }

  /** A name ends in this character. */
  predicate Ends(n: string, ch: char) { n != "" && n[|n| - 1] == ch }

  predicate IsTemp(n: string) { n != "" && '0' <= n[|n| - 1] <= '9' }

  lemma ArchivesEnd(files: Files, log: string)
    ensures forall n :: n in ArchiveSet(files, log) ==> Ends(n, 'z')
  {
    forall n | n in ArchiveSet(files, log) ensures Ends(n, 'z') { ArchiveEnds(n, log); }
  }

  lemma NamesOfRotation(log: string, t: Instant, pid: nat)
    ensures IsArchive(Archive(log, t), log) && IsTemp(TempName(log, pid))
  {
    var n := TempName(log, pid);
    assert n[|n| - 1] == Decimal(pid)[|Decimal(pid)| - 1];
  }

  lemma ArchiveOwner(log: string, other: string, t: Instant)
    requires log != other
    ensures !IsArchive(Archive(log, t), other)
  {
    forall a: Instant
      ensures Archive(log, t) != Archive(other, a)
    {
      StampChars(a);
      StampChars(t);
      if |log| == |other| {
        assert Archive(other, a)[..|other|] == other && Archive(log, t)[..|log|] == log;
      }
    }
  }
}
