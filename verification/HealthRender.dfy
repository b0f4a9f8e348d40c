/** The markdown report of a diff: one section per host, one bullet per change. */
module HealthRender {
  import opened Strings
  import opened HealthDiff

  const ARROW := "\U{e2}\U{86}\U{92}"
  const DASH := "\U{e2}\U{80}\U{94}"

  function FieldGroup(f: string): string {
    if f in {"os", "arch", "kernel", "hostname_full", "hermes_version", "tirith", "pinned_version"} then "STABLE"
    else if f in {"disk_root_pct", "disk_at_risk_count", "disk_at_risk_list"} then "DISK"
    else if f == "mem_avail_pct" then "MEM"
    else if f == "heartbeat_status" then "HEARTBEAT"
    else if f in {"brew_outdated_count", "brew_outdated_list"} then "BREW"
    else if f == "uptime_days" then "UPTIME"
    else "INFO"
  }

  /** What the builder is given, piece by piece. */
  datatype Line = Heading(host: string) | NewHost | RemovedHost | FieldBullet(c: Change) | Blank

  function LineText(l: Line): string {
    match l
    case Heading(h) => "## " + h + "\n\n"
    case NewHost => "- **NEW HOST** " + DASH + " not present in the previous snapshot.\n"
    case RemovedHost => "- **REMOVED HOST** " + DASH + " not present in the latest snapshot.\n"
    case FieldBullet(c) => "- [" + FieldGroup(c.field) + "] " + c.field + ": " + Values(c) + "\n"
    case Blank => "\n"
  }

  function Values(c: Change): string {
    match c.kind
    case Changed => "`" + c.old' + "` " + ARROW + " `" + c.new' + "`"
    case AddedField => "(was unset) " + ARROW + " `" + c.new' + "`"
    case RemovedField => "`" + c.old' + "` " + ARROW + " (no longer reported)"
    case _ => ""
  }

  predicate IsBullet(l: Line) { !l.Heading? && !l.Blank? }

  /** The bullet that reports a change. */
  function BulletFor(c: Change): Line {
    match c.kind
    case HostAdded => NewHost
    case HostRemoved => RemovedHost
    case _ => FieldBullet(c)
  }

  /** A builder's contents after its writes. */
  function Join<T>(text: T -> string, ls: seq<T>): string {
    if ls == [] then "" else Join(text, ls[..|ls| - 1]) + text(ls[|ls| - 1])
  }

  function Text(ls: seq<Line>): string { Join(LineText, ls) }

  predicate HostRecord(c: Change) { c.kind.HostAdded? || c.kind.HostRemoved? }

  /** The changes of one host, in order. */
  function Filter(cs: seq<Change>, h: string): seq<Change> {
    if cs == [] then [] else Filter(cs[..|cs| - 1], h) + (if cs[|cs| - 1].host == h then [cs[|cs| - 1]] else [])
  }

  predicate AnyKind(g: seq<Change>, k: Kind) {
    g != [] && (AnyKind(g[..|g| - 1], k) || g[|g| - 1].kind == k)
  }

  function FieldBullets(g: seq<Change>): seq<Line> {
    if g == [] then []
    else FieldBullets(g[..|g| - 1]) + (if HostRecord(g[|g| - 1]) then [] else [FieldBullet(g[|g| - 1])])
  }

  /** One host's section, from its changes. */
  function HostLines(g: seq<Change>, h: string): seq<Line> {
    [Heading(h)] + HostBullets(g) + [Blank]
  }

  function HostBullets(g: seq<Change>): seq<Line> {
    (if AnyKind(g, HostAdded) then [NewHost] else []) +
    (if AnyKind(g, HostRemoved) then [RemovedHost] else []) +
    FieldBullets(g)
  }

  /** uniqueHostsInOrder. */
  function FirstSeen(cs: seq<Change>): seq<string> {
    if cs == [] then [] else
      var before := FirstSeen(cs[..|cs| - 1]);
      if cs[|cs| - 1].host in before then before else before + [cs[|cs| - 1].host]
  }

  function Sections(cs: seq<Change>, hosts: seq<string>): seq<Line> {
    if hosts == [] then []
    else Sections(cs, hosts[..|hosts| - 1]) + HostLines(Filter(cs, hosts[|hosts| - 1]), hosts[|hosts| - 1])
  }

  method UniqueHostsInOrder(cs: seq<Change>) returns (out: seq<string>)
    ensures out == FirstSeen(cs)
  {
    var seen: set<string> := {};
    out := [];
    for i := 0 to |cs|
      invariant out == FirstSeen(cs[..i])
      invariant forall h :: h in seen <==> h in out
    {
      assert cs[..i + 1][..i] == cs[..i];
      if cs[i].host !in seen {
        seen := seen + {cs[i].host};
        out := out + [cs[i].host];
      }
    }
    assert cs[..|cs|] == cs;
  }

  /** The inner loops: look for host records, then write the bullets. */
  method RenderHost(cs: seq<Change>, h: string) returns (lines: seq<Line>)
    ensures lines == HostLines(Filter(cs, h), h)
  {
    var hostAdded, hostRemoved := false, false;
    for i := 0 to |cs|
      invariant hostAdded == AnyKind(Filter(cs[..i], h), HostAdded)
      invariant hostRemoved == AnyKind(Filter(cs[..i], h), HostRemoved)
    {
      FilterNext(cs, i, h);
      if cs[i].host == h {
        if cs[i].kind == HostAdded { hostAdded := true; }
        if cs[i].kind == HostRemoved { hostRemoved := true; }
      }
    }
    var bullets: seq<Line> := [];
    for i := 0 to |cs|
      invariant bullets == FieldBullets(Filter(cs[..i], h))
    {
      FilterNext(cs, i, h);
      if cs[i].host == h && !HostRecord(cs[i]) { bullets := bullets + [FieldBullet(cs[i])]; }
    }
    assert cs[..|cs|] == cs;
    lines := [Heading(h)] + ((if hostAdded then [NewHost] else []) + (if hostRemoved then [RemovedHost] else []) + bullets) + [Blank];
  }

  lemma FilterNext(cs: seq<Change>, i: nat, h: string)
    requires i < |cs|
    ensures var g, g' := Filter(cs[..i], h), Filter(cs[..i + 1], h);
            && g' == g + (if cs[i].host == h then [cs[i]] else [])
            && (forall k :: AnyKind(g', k) == (AnyKind(g, k) || (cs[i].host == h && cs[i].kind == k)))
            && FieldBullets(g') == FieldBullets(g) + (if cs[i].host == h && !HostRecord(cs[i]) then [FieldBullet(cs[i])] else [])
  {
    assert cs[..i + 1][..i] == cs[..i];
    var g := Filter(cs[..i], h);
    assert (g + [cs[i]])[..|g|] == g;
    var g' := Filter(cs[..i + 1], h);
    if cs[i].host == h { assert g' == g + [cs[i]] && g'[..|g'| - 1] == g; } else { assert g' == g; }
  }

  /** The report after its header lines. */
  method RenderBody(cs: seq<Change>) returns (text: string)
    ensures text == if cs == [] then "_No changes between the two snapshots._\n" else Text(Sections(cs, FirstSeen(cs)))
  {
    if |cs| == 0 { return "_No changes between the two snapshots._\n"; }
    var hosts := UniqueHostsInOrder(cs);
    text := "";
    for i := 0 to |hosts|
      invariant text == Text(Sections(cs, hosts[..i]))
    {
      var lines := RenderHost(cs, hosts[i]);
      assert hosts[..i + 1][..i] == hosts[..i];
      JoinConcat(LineText, Sections(cs, hosts[..i]), lines);
      text := text + Text(lines);
    }
    assert hosts[..|hosts|] == hosts;
  }

  lemma {:induction false} JoinConcat<T>(text: T -> string, a: seq<T>, b: seq<T>)
    ensures Join(text, a + b) == Join(text, a) + Join(text, b)
  {
    if b == [] {
      assert a + b == a;
    } else {
      var n := |b| - 1;
      JoinConcat(text, a, b[..n]);
      assert (a + b)[..|a + b| - 1] == a + b[..n];
    }
  }

  // ----- regrouping is the identity

  /** The changes of equal hosts stand together. */
  ghost predicate Grouped(cs: seq<Change>) {
    forall i, j, k :: 0 <= i < j < k < |cs| && cs[i].host == cs[k].host ==> cs[j].host == cs[i].host
  }

  /** The changes as the report walks them: host by host. */
  function Regroup(cs: seq<Change>, hosts: seq<string>): seq<Change> {
    if hosts == [] then [] else Regroup(cs, hosts[..|hosts| - 1]) + Filter(cs, hosts[|hosts| - 1])
  }

  lemma {:induction false} FilterHosts(cs: seq<Change>, h: string)
    ensures forall i :: 0 <= i < |Filter(cs, h)| ==> Filter(cs, h)[i].host == h && Filter(cs, h)[i] in cs
  {
    if cs != [] { FilterHosts(cs[..|cs| - 1], h); }
  }

  lemma {:induction false} FirstSeenHosts(cs: seq<Change>)
    ensures Distinct(FirstSeen(cs))
    ensures forall h :: h in FirstSeen(cs) <==> exists c :: c in cs && c.host == h
  {
    if cs != [] {
      var n := |cs| - 1;
      FirstSeenHosts(cs[..n]);
      assert cs == cs[..n] + [cs[n]];
      forall h
        ensures h in FirstSeen(cs) <==> exists c :: c in cs && c.host == h
      {
        if h == cs[n].host { assert cs[n] in cs; }
        if c :| c in cs && c.host == h && h != cs[n].host { assert c in cs[..n]; }
        if c :| c in cs[..n] && c.host == h { assert c in cs; }
      }
    }
  }

  lemma {:induction false} AbsentFilters(cs: seq<Change>, h: string)
    requires h !in FirstSeen(cs)
    ensures Filter(cs, h) == []
  {
    if cs != [] { AbsentFilters(cs[..|cs| - 1], h); }
  }

  lemma {:induction false} RegroupIgnores(cs: seq<Change>, c: Change, hosts: seq<string>)
    requires c.host !in hosts
    ensures Regroup(cs + [c], hosts) == Regroup(cs, hosts)
  {
    if hosts != [] {
      RegroupIgnores(cs, c, hosts[..|hosts| - 1]);
      assert (cs + [c])[..|cs|] == cs;
      assert hosts[|hosts| - 1] != c.host;
    }
  }

  lemma {:induction false} FirstAt(cs: seq<Change>, h: string) returns (i: nat)
    requires h in FirstSeen(cs)
    ensures i < |cs| && cs[i].host == h
  {
    i := |cs| - 1;
    if cs[i].host != h { i := FirstAt(cs[..|cs| - 1], h); }
  }

  lemma {:induction false} LastSeen(cs: seq<Change>)
    requires Grouped(cs) && cs != []
    ensures FirstSeen(cs) != [] && FirstSeen(cs)[|FirstSeen(cs)| - 1] == cs[|cs| - 1].host
  {
    var n := |cs| - 1;
    var before := FirstSeen(cs[..n]);
    if cs[n].host in before {
      assert Grouped(cs[..n]);
      LastSeen(cs[..n]);
      var i := FirstAt(cs[..n], cs[n].host);
      assert cs[n - 1].host == cs[n].host;
    }
  }

  lemma {:induction false} GroupedRegroups(cs: seq<Change>)
    requires Grouped(cs)
    ensures Regroup(cs, FirstSeen(cs)) == cs
  {
    if cs != [] {
      var n := |cs| - 1;
      var s, c := cs[..n], cs[n];
      assert Grouped(s) && cs == s + [c];
      GroupedRegroups(s);
      LastSeen(cs);
      var hosts := FirstSeen(cs);
      var m := |hosts| - 1;
      FirstSeenHosts(cs);
      assert c.host !in hosts[..m];
      RegroupIgnores(s, c, hosts[..m]);
      if c.host !in FirstSeen(s) {
        assert hosts[..m] == FirstSeen(s);
        AbsentFilters(s, c.host);
      }
    }
  }

  lemma GroupedConcat(a: seq<Change>, b: seq<Change>, h: string)
    requires Grouped(a) && (forall i :: 0 <= i < |a| ==> a[i].host != h) && forall i :: 0 <= i < |b| ==> b[i].host == h
    ensures Grouped(a + b)
  {
  }

  lemma {:induction false} RegroupGrouped(cs: seq<Change>, hosts: seq<string>)
    requires Distinct(hosts)
    ensures Grouped(Regroup(cs, hosts))
    ensures forall i :: 0 <= i < |Regroup(cs, hosts)| ==> Regroup(cs, hosts)[i].host in hosts
  {
    if hosts != [] {
      var n := |hosts| - 1;
      RegroupGrouped(cs, hosts[..n]);
      FilterHosts(cs, hosts[n]);
      assert hosts[n] !in hosts[..n];
      GroupedConcat(Regroup(cs, hosts[..n]), Filter(cs, hosts[n]), hosts[n]);
    }
  }

  /** Walking first-seen hosts and filtering gives back the list exactly when equal hosts
      already stand together. */
  lemma RegroupIdentity(cs: seq<Change>)
    ensures Regroup(cs, FirstSeen(cs)) == cs <==> Grouped(cs)
  {
    FirstSeenHosts(cs);
    RegroupGrouped(cs, FirstSeen(cs));
    if Grouped(cs) { GroupedRegroups(cs); }
  }

  // ----- one bullet per change

  function BulletsOf(ls: seq<Line>): seq<Line> {
    if ls == [] then [] else BulletsOf(ls[..|ls| - 1]) + (if IsBullet(ls[|ls| - 1]) then [ls[|ls| - 1]] else [])
  }

  function AllBullets(cs: seq<Change>): seq<Line> {
    if cs == [] then [] else AllBullets(cs[..|cs| - 1]) + [BulletFor(cs[|cs| - 1])]
  }

  lemma {:induction false} AllBulletsConcat(a: seq<Change>, b: seq<Change>)
    ensures AllBullets(a + b) == AllBullets(a) + AllBullets(b)
  {
    if b == [] {
      assert a + b == a;
    } else {
      AllBulletsConcat(a, b[..|b| - 1]);
      assert (a + b)[..|a + b| - 1] == a + b[..|b| - 1];
    }
  }

  lemma {:induction false} AllBulletsAt(cs: seq<Change>)
    ensures |AllBullets(cs)| == |cs|
    ensures forall i :: 0 <= i < |cs| ==> AllBullets(cs)[i] == BulletFor(cs[i])
  {
    if cs != [] { AllBulletsAt(cs[..|cs| - 1]); }
  }

  lemma {:induction false} BulletsConcat(a: seq<Line>, b: seq<Line>)
    ensures BulletsOf(a + b) == BulletsOf(a) + BulletsOf(b)
  {
    if b == [] {
      assert a + b == a;
    } else {
      var n := |b| - 1;
      BulletsConcat(a, b[..n]);
      assert (a + b)[..|a + b| - 1] == a + b[..n];
    }
  }

  lemma {:induction false} OnlyBullets(g: seq<Change>)
    ensures BulletsOf(AllBullets(g)) == AllBullets(g)
  {
    if g != [] {
      var n := |g| - 1;
      OnlyBullets(g[..n]);
      BulletsConcat(AllBullets(g[..n]), [BulletFor(g[n])]);
      OneBullet(BulletFor(g[n]));
    }
  }

  lemma OneBullet(l: Line)
    requires IsBullet(l)
    ensures BulletsOf([l]) == [l]
  {
    assert [l][..0] == [];
  }

  lemma {:induction false} FieldBulletsAll(g: seq<Change>)
    requires forall i :: 0 <= i < |g| ==> !HostRecord(g[i])
    ensures FieldBullets(g) == AllBullets(g) && !AnyKind(g, HostAdded) && !AnyKind(g, HostRemoved)
  {
    if g != [] {
      FieldBulletsAll(g[..|g| - 1]);
    }
  }

  /** A host's changes in a diff: its one host record, or field records only. */
  ghost predicate Plain(g: seq<Change>) {
    |g| == 1 || forall i :: 0 <= i < |g| ==> !HostRecord(g[i])
  }

  lemma HostBulletsAll(g: seq<Change>)
    requires Plain(g)
    ensures HostBullets(g) == AllBullets(g)
  {
    if forall i :: 0 <= i < |g| ==> !HostRecord(g[i]) {
      FieldBulletsAll(g);
    } else {
      var c := g[0];
      assert g == [c] && g[..0] == [];
      assert HostRecord(c) && FieldBullets(g) == [] && AllBullets(g) == [BulletFor(c)];
      assert AnyKind(g, HostAdded) <==> c.kind == HostAdded;
      assert AnyKind(g, HostRemoved) <==> c.kind == HostRemoved;
    }
  }

  /** The heading and the blank line of a section are not bullets. */
  lemma Framed(ls: seq<Line>, h: string)
    ensures BulletsOf([Heading(h)] + ls + [Blank]) == BulletsOf(ls)
  {
    var head: seq<Line>, tail: seq<Line> := [Heading(h)], [Blank];
    BulletsConcat(head + ls, tail);
    BulletsConcat(head, ls);
    assert head[..0] == [] && tail[..0] == [];
  }

  lemma SectionBullets(g: seq<Change>, h: string)
    requires Plain(g)
    ensures BulletsOf(HostLines(g, h)) == AllBullets(g)
  {
    HostBulletsAll(g);
    Framed(AllBullets(g), h);
    OnlyBullets(g);
  }

  lemma {:induction false} SectionsBullets(cs: seq<Change>, hosts: seq<string>)
    requires forall h :: h in hosts ==> Plain(Filter(cs, h))
    ensures BulletsOf(Sections(cs, hosts)) == AllBullets(Regroup(cs, hosts))
  {
    if hosts != [] {
      var n := |hosts| - 1;
      SectionsBullets(cs, hosts[..n]);
      var g := Filter(cs, hosts[n]);
      SectionBullets(g, hosts[n]);
      BulletsConcat(Sections(cs, hosts[..n]), HostLines(g, hosts[n]));
      AllBulletsConcat(Regroup(cs, hosts[..n]), g);
    }
  }

  lemma {:induction false} FilterSorted(cs: seq<Change>, h: string)
    requires KeySorted(cs)
    ensures KeySorted(Filter(cs, h))
  {
    if cs != [] {
      var n := |cs| - 1;
      FilterSorted(cs[..n], h);
      FilterHosts(cs[..n], h);
      var g := Filter(cs[..n], h);
      forall i | 0 <= i < |g|
        ensures KeyLess(g[i], cs[n])
      {
        var k :| 0 <= k < n && cs[k] == g[i];
      }
    }
  }

  lemma DiffIsPlain(a: Index, b: Index, cs: seq<Change>, h: string)
    requires IsDiff(a, b, cs)
    ensures Plain(Filter(cs, h))
  {
    var g := Filter(cs, h);
    FilterHosts(cs, h);
    FilterSorted(cs, h);
    forall i | 0 <= i < |g|
      ensures Record(a, b, h, g[i].field) == Some(g[i])
    {
      var k :| 0 <= k < |cs| && cs[k] == g[i];
    }
    if h in a && h in b {
    } else if |g| > 1 {
      assert g[0].field == "-" && g[1].field == "-";
      KeyLessNotBack(g[0], g[1]);
      assert false;
    }
  }

  lemma DiffGrouped(cs: seq<Change>)
    requires KeySorted(cs)
    ensures Grouped(cs)
  {
    forall i, j, k | 0 <= i < j < k < |cs| && cs[i].host == cs[k].host
      ensures cs[j].host == cs[i].host
    {
      assert KeyLess(cs[i], cs[j]) && KeyLess(cs[j], cs[k]);
      Trichotomy(cs[i].host, cs[j].host);
    }
  }

  /** The report of a diff has exactly one bullet per change, in the diff's order. */
  lemma OneBulletPerChange(a: Index, b: Index, cs: seq<Change>)
    requires IsDiff(a, b, cs)
    ensures var bullets := BulletsOf(Sections(cs, FirstSeen(cs)));
            |bullets| == |cs| && forall i :: 0 <= i < |cs| ==> bullets[i] == BulletFor(cs[i])
  {
    forall h | h in FirstSeen(cs) ensures Plain(Filter(cs, h)) { DiffIsPlain(a, b, cs, h); }
    SectionsBullets(cs, FirstSeen(cs));
    DiffGrouped(cs);
    RegroupIdentity(cs);
    AllBulletsAt(cs);
  }

  // ----- a bullet can be read

  /** What a field bullet says; None for a value that is not reported. */
  datatype Reading = Reading(group: string, field: string, old': Option<string>, new': Option<string>)

  const WAS_UNSET := "(was unset) " + ARROW + " `"
  const BETWEEN := "` " + ARROW + " `"

  /** The values after the colon. */
  function ReadValues(w: string): (Option<string>, Option<string>) {
    if w != "" && w[0] == '`' then
      var k := IndexOf(w[1..], '`');
      var rest := w[1..][k..];
      (Some(w[1..][..k]), if BETWEEN <= rest then Some(Quoted(rest[|BETWEEN|..])) else None)
    else if WAS_UNSET <= w then (None, Some(Quoted(w[|WAS_UNSET|..])))
    else (None, None)
  }

  function Quoted(s: string): string { s[..IndexOf(s, '`')] }

  function ReadBullet(t: string): Option<Reading> {
    if !("- [" <= t) then None else
      var u := t[3..];
      var i := IndexOf(u, ']');
      if i + 2 > |u| then None else
        var v := u[i + 2..];
        var j := IndexOf(v, ':');
        if j + 2 > |v| then None else
          var values := ReadValues(v[j + 2..]);
          Some(Reading(u[..i], v[..j], values.0, values.1))
  }

  lemma UpTo(x: string, c: char, rest: string)
    requires c !in x
    ensures IndexOf(x + [c] + rest, c) == |x| && (x + [c] + rest)[..|x|] == x && (x + [c] + rest)[|x| + 1..] == rest
  {
    var s := x + [c] + rest;
    assert s[..|x|] == x && s[|x|] == c && s[|x| + 1..] == rest;
    IndexOfIs(s, c, |x|);
  }

  /** The values as the bullet's reader gets them. */
  function ValuesOf(c: Change): (Option<string>, Option<string>) {
    (if c.kind.Changed? || c.kind.RemovedField? then Some(c.old') else None,
     if c.kind.Changed? || c.kind.AddedField? then Some(c.new') else None)
  }

  lemma ChangedReads(o: string, n: string)
    requires '`' !in o && '`' !in n
    ensures ReadValues("`" + o + BETWEEN + n + "`" + "\n") == (Some(o), Some(n))
  {
    var w := "`" + o + BETWEEN + n + "`" + "\n";
    var after := BETWEEN[1..] + n + "`" + "\n";
    assert BETWEEN[0] == '`' && BETWEEN == "`" + BETWEEN[1..];
    assert w[1..] == o + ['`'] + after;
    UpTo(o, '`', after);
    var rest := w[1..][|o|..];
    assert rest == BETWEEN + (n + ['`'] + "\n");
    assert rest[..|BETWEEN|] == BETWEEN && rest[|BETWEEN|..] == n + ['`'] + "\n";
    UpTo(n, '`', "\n");
  }

  lemma AddedReads(n: string)
    requires '`' !in n
    ensures ReadValues(WAS_UNSET + n + "`" + "\n") == (None, Some(n))
  {
    var w := WAS_UNSET + n + "`" + "\n";
    assert w == WAS_UNSET + (n + ['`'] + "\n") && w[0] == WAS_UNSET[0] == '(';
    assert w[..|WAS_UNSET|] == WAS_UNSET && w[|WAS_UNSET|..] == n + ['`'] + "\n";
    UpTo(n, '`', "\n");
  }

  lemma RemovedReads(o: string, tail: string)
    requires '`' !in o && !(BETWEEN <= "`" + tail)
    ensures ReadValues("`" + o + "`" + tail) == (Some(o), None)
  {
    var w := "`" + o + "`" + tail;
    assert w[1..] == o + ['`'] + tail;
    UpTo(o, '`', tail);
    assert w[1..][|o|..] == "`" + tail;
  }

  const GONE := " " + ARROW + " (no longer reported)"

  lemma ValuesRead(c: Change)
    requires '`' !in c.old' && '`' !in c.new' && !HostRecord(c)
    ensures ReadValues(Values(c) + "\n") == ValuesOf(c)
  {
    match c.kind
    case Changed =>
      assert Values(c) + "\n" == "`" + c.old' + BETWEEN + c.new' + "`" + "\n";
      ChangedReads(c.old', c.new');
    case AddedField =>
      assert Values(c) + "\n" == WAS_UNSET + c.new' + "`" + "\n";
      AddedReads(c.new');
    case RemovedField =>
      assert Values(c) + "\n" == "`" + c.old' + "`" + (GONE + "\n");
      NotBetween();
      RemovedReads(c.old', GONE + "\n");
  }

  lemma NotBetween()
    ensures !(BETWEEN <= "`" + (GONE + "\n"))
  {
    var s, k := "`" + (GONE + "\n"), |BETWEEN| - 1;
    assert BETWEEN[k] == '`' && s[k] == '(';
  }

  lemma GroupHasNoBracket(f: string)
    ensures ']' !in FieldGroup(f)
  {
  }

  /** The text of a bullet gives back the group, the field and the values, each on its side. */
  lemma BulletReads(c: Change)
    requires ':' !in c.field && '`' !in c.old' && '`' !in c.new' && !HostRecord(c)
    ensures ReadBullet(LineText(FieldBullet(c))) ==
            Some(Reading(FieldGroup(c.field), c.field, ValuesOf(c).0, ValuesOf(c).1))
  {
    GroupHasNoBracket(c.field);
    BulletIs(FieldGroup(c.field), c.field, Values(c));
    HeadReads(FieldGroup(c.field), c.field, Values(c) + "\n");
    ValuesRead(c);
  }

  /** Group and field in front of the values. */
  function Headed(group: string, field: string, vals: string): string {
    "- [" + (group + [']'] + (" " + (field + [':'] + (" " + vals))))
  }

  lemma BulletIs(group: string, field: string, vals: string)
    ensures "- [" + group + "] " + field + ": " + vals + "\n" == Headed(group, field, vals + "\n")
  {
  }

  lemma HeadReads(group: string, field: string, vals: string)
    requires ']' !in group && ':' !in field
    ensures ReadBullet(Headed(group, field, vals)) == Some(Reading(group, field, ReadValues(vals).0, ReadValues(vals).1))
  {
    var v := field + [':'] + (" " + vals);
    var u := group + [']'] + (" " + v);
    var t := Headed(group, field, vals);
    assert t[3..] == u && t[..3] == "- [";
    UpTo(group, ']', " " + v);
    assert u[|group| + 2..] == v;
    UpTo(field, ':', " " + vals);
    assert v[|field| + 2..] == vals;
  }
}
