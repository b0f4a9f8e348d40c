/** The structured diff of two parsed snapshots. */
module HealthDiff {
  import opened Strings
  import opened Sorting
  import opened HealthParse

  datatype Kind = Changed | AddedField | RemovedField | HostAdded | HostRemoved

  const INFO := "info"
  const WARN := "warn"
  const CRIT := "crit"
  const UNSET := "(unset)"

  datatype Change = Change(host: string, kind: Kind, field: string, old': string, new': string, severity: string)

  function KindText(k: Kind): string {
    match k
    case Changed => "changed"
    case AddedField => "added"
    case RemovedField => "removed"
    case HostAdded => "host_added"
    case HostRemoved => "host_removed"
  }

  function SeverityFor(k: Kind, field: string): string {
    if k == HostRemoved then CRIT
    else if k == HostAdded then INFO
    else if field == "probe_status" then CRIT
    else if field in {"heartbeat_status", "disk_root_pct", "disk_at_risk_count", "disk_at_risk_list", "mem_avail_pct",
                      "brew_outdated_count", "brew_outdated_list"} then WARN
    else INFO
  }

  function SeverityRank(s: string): nat { if s == CRIT then 2 else if s == WARN then 1 else 0 }

  type Index = map<string, map<string, string>>

  /** indexHosts: of hosts with one name, the last wins. */
  function IndexOfHosts(hosts: seq<Host>): Index {
    if hosts == [] then map[] else IndexOfHosts(hosts[..|hosts| - 1])[hosts[|hosts| - 1].name := hosts[|hosts| - 1].fields]
  }

  /** The index has a name exactly if some host has it, and the fields of the last such host. */
  lemma {:induction false} LastHostWins(hosts: seq<Host>, n: string)
    ensures n in IndexOfHosts(hosts) <==> exists i :: 0 <= i < |hosts| && hosts[i].name == n
    ensures forall i :: 0 <= i < |hosts| && hosts[i].name == n && (forall j :: i < j < |hosts| ==> hosts[j].name != n) ==>
              n in IndexOfHosts(hosts) && IndexOfHosts(hosts)[n] == hosts[i].fields
  {
    if hosts != [] {
      var m := |hosts| - 1;
      LastHostWins(hosts[..m], n);
      assert forall i :: 0 <= i < m ==> hosts[..m][i] == hosts[i];
    }
  }

  method IndexHosts(hosts: seq<Host>) returns (out: Index)
    ensures out == IndexOfHosts(hosts)
  {
    out := map[];
    for i := 0 to |hosts|
      invariant out == IndexOfHosts(hosts[..i])
    {
      assert hosts[..i + 1][..i] == hosts[..i];
      out := out[hosts[i].name := hosts[i].fields];
    }
    assert hosts[..|hosts|] == hosts;
  }

  /** unionHostNames and unionFieldNames. */
  method UnionNames<V>(a: map<string, V>, b: map<string, V>) returns (names: seq<string>)
    ensures StrictlySorted(names)
    ensures forall x :: x in names <==> x in a || x in b
  {
    var seen := AnyOrder(a.Keys + b.Keys);
    names := SortedCopy(seen);
  }

  // ----- what a diff is

  /** The record due for field `f` of a host in both snapshots. */
  function FieldRecord(h: string, f: string, a: map<string, string>, b: map<string, string>): Option<Change> {
    if f in a && f in b then
      if a[f] != b[f] then Some(Change(h, Changed, f, a[f], b[f], SeverityFor(Changed, f))) else None
    else if f in a then Some(Change(h, RemovedField, f, a[f], UNSET, SeverityFor(RemovedField, f)))
    else if f in b then Some(Change(h, AddedField, f, UNSET, b[f], SeverityFor(AddedField, f)))
    else None
  }

  /** The record due for the pair (h, f), if any. */
  function Record(a: Index, b: Index, h: string, f: string): Option<Change> {
    if h in a && h in b then FieldRecord(h, f, a[h], b[h])
    else if h in b && f == "-" then Some(Change(h, HostAdded, "-", "-", "-", SeverityFor(HostAdded, "")))
    else if h in a && f == "-" then Some(Change(h, HostRemoved, "-", "-", "-", SeverityFor(HostRemoved, "")))
    else None
  }

  predicate KeyLess(c: Change, d: Change) {
    Less(c.host, d.host) || (c.host == d.host && Less(c.field, d.field))
  }

  ghost predicate KeySorted(cs: seq<Change>) {
    forall i, j :: 0 <= i < j < |cs| ==> KeyLess(cs[i], cs[j])
  }

  /** Exactly the records due, strictly ordered by host and field. */
  ghost predicate IsDiff(a: Index, b: Index, cs: seq<Change>) {
    && KeySorted(cs)
    && (forall i :: 0 <= i < |cs| ==> Record(a, b, cs[i].host, cs[i].field) == Some(cs[i]))
    && (forall h, f :: Record(a, b, h, f).Some? ==> Record(a, b, h, f).value in cs)
  }

  lemma RecordKeys(a: Index, b: Index, h: string, f: string)
    requires Record(a, b, h, f).Some?
    ensures Record(a, b, h, f).value.host == h && Record(a, b, h, f).value.field == f
  {
  }

  // ----- the sort

  /** The comparison Diff sorts with. */
  predicate ChangeLess(c: Change, d: Change) {
    if c.host != d.host then Less(c.host, d.host)
    else if c.field != d.field then Less(c.field, d.field)
    else Less(KindText(c.kind), KindText(d.kind))
  }

  lemma ChangeLessWeakOrder()
    ensures WeakOrder(ChangeLess)
  {
    forall a: Change, b: Change
      ensures ChangeLess(a, b) ==> !ChangeLess(b, a)
    {
      LessNotBack(a, b);
    }
    forall a: Change, b: Change, c: Change | !ChangeLess(b, a) && !ChangeLess(c, b)
      ensures !ChangeLess(c, a)
    {
      NotChangeLessTransitive(a, b, c);
    }
  }

  lemma NotChangeLessTransitive(a: Change, b: Change, c: Change)
    requires !ChangeLess(b, a) && !ChangeLess(c, b)
    ensures !ChangeLess(c, a)
  {
    Trichotomy(a.host, b.host);
    Trichotomy(b.host, c.host);
    Trichotomy(a.host, c.host);
    NotLessTransitive(a.host, b.host, c.host);
    if a.host == c.host {
      Trichotomy(a.field, b.field);
      Trichotomy(b.field, c.field);
      NotLessTransitive(a.field, b.field, c.field);
      if a.field == c.field {
        NotLessTransitive(KindText(a.kind), KindText(b.kind), KindText(c.kind));
      }
    }
  }

  lemma LessNotBack(c: Change, d: Change)
    ensures ChangeLess(c, d) ==> !ChangeLess(d, c)
  {
    Trichotomy(c.host, d.host);
    Trichotomy(c.field, d.field);
    Trichotomy(KindText(c.kind), KindText(d.kind));
  }

  lemma KeySortedIsStrict(cs: seq<Change>)
    requires KeySorted(cs)
    ensures forall i, j :: 0 <= i < j < |cs| ==> ChangeLess(cs[i], cs[j])
    ensures Ordered(ChangeLess, cs)
  {
    forall i, j | 0 <= i < j < |cs|
      ensures ChangeLess(cs[i], cs[j]) && !ChangeLess(cs[j], cs[i])
    {
      Trichotomy(cs[i].host, cs[j].host);
      Trichotomy(cs[i].field, cs[j].field);
      LessNotBack(cs[i], cs[j]);
    }
  }

  /** (host, field) is unique per record, so any permutation ordered by Diff's comparison
      is the list itself: an unstable sort cannot show. */
  lemma AnySortAgrees(cs: seq<Change>, t: seq<Change>)
    requires KeySorted(cs) && multiset(cs) == multiset(t) && Ordered(ChangeLess, t)
    ensures t == cs
  {
    KeySortedIsStrict(cs);
    ChangeLessWeakOrder();
    StrictOrderUnique(ChangeLess, cs, t);
  }

  // ----- Diff

  /** Exactly the records due for host `h`. */
  ghost predicate IsHostDiff(a: Index, b: Index, h: string, cs: seq<Change>) {
    && KeySorted(cs)
    && (forall i :: 0 <= i < |cs| ==> cs[i].host == h && Record(a, b, h, cs[i].field) == Some(cs[i]))
    && (forall f :: Record(a, b, h, f).Some? ==> Record(a, b, h, f).value in cs)
  }

  /** The field loop for a host present in both snapshots. */
  method FieldChanges(a: Index, b: Index, h: string) returns (cs: seq<Change>)
    requires h in a && h in b
    ensures IsHostDiff(a, b, h, cs)
  {
    var fh, th := a[h], b[h];
    var fields := UnionNames(fh, th);
    cs := [];
    for i := 0 to |fields|
      invariant KeySorted(cs)
      invariant forall k :: 0 <= k < |cs| ==> cs[k].host == h && cs[k].field in fields[..i] && Record(a, b, h, cs[k].field) == Some(cs[k])
      invariant forall f :: f in fields[..i] && Record(a, b, h, f).Some? ==> Record(a, b, h, f).value in cs
    {
      var f := fields[i];
      ghost var before := cs;
      if f in fh && f in th && fh[f] != th[f] {
        cs := cs + [Change(h, Changed, f, fh[f], th[f], SeverityFor(Changed, f))];
      } else if f in fh && f !in th {
        cs := cs + [Change(h, RemovedField, f, fh[f], UNSET, SeverityFor(RemovedField, f))];
      } else if f !in fh && f in th {
        cs := cs + [Change(h, AddedField, f, UNSET, th[f], SeverityFor(AddedField, f))];
      }
      AppendSorted(before, cs, fields, i, h);
      assert fields[..i + 1] == fields[..i] + [f];
    }
    assert fields[..|fields|] == fields;
  }

  lemma AppendSorted(before: seq<Change>, cs: seq<Change>, fields: seq<string>, i: nat, h: string)
    requires i < |fields| && StrictlySorted(fields) && KeySorted(before)
    requires forall k :: 0 <= k < |before| ==> before[k].host == h && before[k].field in fields[..i]
    requires cs == before || (|cs| == |before| + 1 && before <= cs && cs[|before|].host == h && cs[|before|].field == fields[i])
    ensures KeySorted(cs)
  {
    forall x, y | 0 <= x < y < |cs|
      ensures KeyLess(cs[x], cs[y])
    {
      if y == |before| {
        var m :| 0 <= m < i && fields[m] == before[x].field;
        assert Less(fields[m], fields[i]);
      }
    }
  }

  method HostChanges(a: Index, b: Index, h: string) returns (cs: seq<Change>)
    requires h in a || h in b
    ensures IsHostDiff(a, b, h, cs)
  {
    if h !in a {
      cs := [Change(h, HostAdded, "-", "-", "-", SeverityFor(HostAdded, ""))];
    } else if h !in b {
      cs := [Change(h, HostRemoved, "-", "-", "-", SeverityFor(HostRemoved, ""))];
    } else {
      cs := FieldChanges(a, b, h);
    }
  }

  /** Exactly the records due for these hosts. */
  ghost predicate DiffOf(a: Index, b: Index, hosts: seq<string>, cs: seq<Change>) {
    && KeySorted(cs)
    && (forall k :: 0 <= k < |cs| ==> cs[k].host in hosts && Record(a, b, cs[k].host, cs[k].field) == Some(cs[k]))
    && (forall h, f :: h in hosts && Record(a, b, h, f).Some? ==> Record(a, b, h, f).value in cs)
  }

  lemma NextHost(a: Index, b: Index, hosts: seq<string>, i: nat, changes: seq<Change>, cs: seq<Change>)
    requires i < |hosts| && StrictlySorted(hosts) && DiffOf(a, b, hosts[..i], changes) && IsHostDiff(a, b, hosts[i], cs)
    ensures DiffOf(a, b, hosts[..i + 1], changes + cs)
  {
    ConcatSorted(changes, cs, hosts, i);
    assert hosts[..i + 1] == hosts[..i] + [hosts[i]];
  }

  method Diff(from: seq<Host>, to: seq<Host>) returns (changes: seq<Change>)
    ensures IsDiff(IndexOfHosts(from), IndexOfHosts(to), changes)
  {
    var a := IndexHosts(from);
    var b := IndexHosts(to);
    var hosts := UnionNames(a, b);
    changes := [];
    for i := 0 to |hosts|
      invariant DiffOf(a, b, hosts[..i], changes)
    {
      var cs := HostChanges(a, b, hosts[i]);
      NextHost(a, b, hosts, i, changes, cs);
      changes := changes + cs;
    }
    assert hosts[..|hosts|] == hosts;
    KeySortedIsStrict(changes);
    SortFixpoint(ChangeLess, changes);
    changes := SortBy(ChangeLess, changes);
  }

  lemma ConcatSorted(changes: seq<Change>, cs: seq<Change>, hosts: seq<string>, i: nat)
    requires i < |hosts| && StrictlySorted(hosts) && KeySorted(changes) && KeySorted(cs)
    requires forall k :: 0 <= k < |changes| ==> changes[k].host in hosts[..i]
    requires forall k :: 0 <= k < |cs| ==> cs[k].host == hosts[i]
    ensures KeySorted(changes + cs)
  {
    forall x, y | 0 <= x < y < |changes + cs|
      ensures KeyLess((changes + cs)[x], (changes + cs)[y])
    {
      if x < |changes| <= y {
        var m :| 0 <= m < i && hosts[m] == changes[x].host;
        assert Less(hosts[m], hosts[i]);
      }
    }
  }

  // ----- main results

  lemma KeyLessNotBack(c: Change, d: Change)
    ensures KeyLess(c, d) ==> !KeyLess(d, c) && (c.host != d.host || c.field != d.field)
    ensures KeyLess(c, d) || KeyLess(d, c) || (c.host == d.host && c.field == d.field)
  {
    Trichotomy(c.host, d.host);
    Trichotomy(c.field, d.field);
  }

  /** Two indexed snapshots have one diff only. */
  lemma {:induction false} KeySortedUnique(s: seq<Change>, t: seq<Change>)
    requires KeySorted(s) && KeySorted(t) && forall c :: c in s <==> c in t
    ensures s == t
  {
    if t != [] { assert t[0] in s; }
    if s != [] {
      assert s[0] in t;
      var i :| 0 <= i < |t| && t[i] == s[0];
      var j :| 0 <= j < |s| && s[j] == t[0];
      KeyLessNotBack(s[0], t[0]);
      assert s[0] == t[0];
      forall c
        ensures c in s[1..] <==> c in t[1..]
      {
        assert c in s <==> c == s[0] || c in s[1..];
        assert c in t <==> c == t[0] || c in t[1..];
        HeadNotInTail(s);
        HeadNotInTail(t);
      }
      KeySortedUnique(s[1..], t[1..]);
      assert s == [s[0]] + s[1..] && t == [t[0]] + t[1..];
    }
  }

  lemma HeadNotInTail(s: seq<Change>)
    requires KeySorted(s) && s != []
    ensures s[0] !in s[1..]
  {
    forall k | 0 < k < |s| ensures s[k] != s[0] { KeyLessNotBack(s[0], s[k]); }
  }

  lemma DiffMembers(a: Index, b: Index, cs: seq<Change>, c: Change)
    requires IsDiff(a, b, cs)
    ensures c in cs <==> Record(a, b, c.host, c.field) == Some(c)
  {
  }

  lemma DiffUnique(a: Index, b: Index, s: seq<Change>, t: seq<Change>)
    requires IsDiff(a, b, s) && IsDiff(a, b, t)
    ensures s == t
  {
    forall c
      ensures c in s <==> c in t
    {
      DiffMembers(a, b, s, c);
      DiffMembers(a, b, t, c);
    }
    KeySortedUnique(s, t);
  }

  function MirrorKind(k: Kind): Kind {
    match k
    case Changed => Changed
    case AddedField => RemovedField
    case RemovedField => AddedField
    case HostAdded => HostRemoved
    case HostRemoved => HostAdded
  }

  function Mirror(c: Change): Change {
    var k := MirrorKind(c.kind);
    Change(c.host, k, c.field, c.new', c.old', SeverityFor(k, if k.HostAdded? || k.HostRemoved? then "" else c.field))
  }

  function MirrorAll(cs: seq<Change>): seq<Change> {
    seq(|cs|, i requires 0 <= i < |cs| => Mirror(cs[i]))
  }

  lemma RecordMirror(a: Index, b: Index, h: string, f: string)
    ensures Record(b, a, h, f) == if Record(a, b, h, f).None? then None else Some(Mirror(Record(a, b, h, f).value))
  {
  }

  /** The diff of the swapped snapshots is the mirror image, record by record. */
  lemma DiffMirror(a: Index, b: Index, cs: seq<Change>, back: seq<Change>)
    requires IsDiff(a, b, cs) && IsDiff(b, a, back)
    ensures back == MirrorAll(cs)
  {
    var m := MirrorAll(cs);
    forall i | 0 <= i < |m|
      ensures Record(b, a, m[i].host, m[i].field) == Some(m[i])
    {
      RecordMirror(a, b, cs[i].host, cs[i].field);
    }
    forall h, f | Record(b, a, h, f).Some?
      ensures Record(b, a, h, f).value in m
    {
      RecordMirror(a, b, h, f);
      var c := Record(a, b, h, f).value;
      assert c in cs;
      var i :| 0 <= i < |cs| && cs[i] == c;
      assert m[i] == Mirror(c);
    }
    assert KeySorted(m);
    DiffUnique(b, a, back, m);
  }

  /** Applies the records of host `h` to its fields. */
  function Patch(fields: map<string, string>, h: string, cs: seq<Change>): map<string, string> {
    if cs == [] then fields else
      var p := Patch(fields, h, cs[..|cs| - 1]);
      var c := cs[|cs| - 1];
      if c.host != h then p
      else match c.kind
        case Changed => p[c.field := c.new']
        case AddedField => p[c.field := c.new']
        case RemovedField => p - {c.field}
        case _ => p
  }

  /** A record for another host or field leaves field `f` alone. */
  lemma PatchElsewhere(fields: map<string, string>, h: string, cs: seq<Change>, f: string)
    requires cs != [] && (cs[|cs| - 1].host != h || cs[|cs| - 1].field != f)
    ensures var p, q := Patch(fields, h, cs[..|cs| - 1]), Patch(fields, h, cs);
            (f in q <==> f in p) && (f in q ==> q[f] == p[f])
  {
  }

  /** What patching leaves at field `f`: the record for it decides, if there is one. */
  lemma {:induction false} PatchAt(a: Index, b: Index, cs: seq<Change>, h: string, f: string)
    requires h in a && h in b && KeySorted(cs)
    requires forall i :: 0 <= i < |cs| ==> Record(a, b, cs[i].host, cs[i].field) == Some(cs[i])
    ensures var p := Patch(a[h], h, cs);
            if Record(a, b, h, f).Some? && Record(a, b, h, f).value in cs
            then (f in p <==> f in b[h]) && (f in p ==> p[f] == b[h][f])
            else (f in p <==> f in a[h]) && (f in p ==> p[f] == a[h][f])
  {
    if cs != [] {
      var n := |cs| - 1;
      var c, r, p := cs[n], Record(a, b, h, f), Patch(a[h], h, cs[..n]);
      PatchAt(a, b, cs[..n], h, f);
      assert cs == cs[..n] + [c];
      assert r.Some? ==> (r.value in cs <==> r.value in cs[..n] || r.value == c);
      if c.host == h && c.field == f {
        assert r == Some(c);
      } else {
        PatchElsewhere(a[h], h, cs, f);
        if r.Some? { RecordKeys(a, b, h, f); }
      }
    }
  }

  /** Sound and complete: patching the older fields of a host present in both snapshots
      with the records gives exactly its newer fields. */
  lemma PatchGivesTo(a: Index, b: Index, cs: seq<Change>, h: string)
    requires IsDiff(a, b, cs) && h in a && h in b
    ensures Patch(a[h], h, cs) == b[h]
  {
    var p := Patch(a[h], h, cs);
    forall f
      ensures (f in p <==> f in b[h]) && (f in p ==> p[f] == b[h][f])
    {
      PatchAt(a, b, cs, h, f);
    }
  }

  /** No record at all exactly when the indexed snapshots are equal. */
  lemma EmptyDiff(a: Index, b: Index, cs: seq<Change>)
    requires IsDiff(a, b, cs)
    ensures cs == [] <==> a == b
  {
    if cs == [] {
      forall h
        ensures (h in a <==> h in b) && (h in a ==> a[h] == b[h])
      {
        assert Record(a, b, h, "-").None?;
        if h in a && h in b {
          PatchGivesTo(a, b, cs, h);
        }
      }
    } else {
      assert Record(a, b, cs[0].host, cs[0].field) == Some(cs[0]);
    }
  }

  /** "" for no change, else the highest severity present, info at least. */
  ghost predicate IsHighest(cs: seq<Change>, m: string) {
    && (m == "" <==> cs == [])
    && (forall i :: 0 <= i < |cs| ==> SeverityRank(cs[i].severity) <= SeverityRank(m))
    && (cs != [] ==> m == INFO || exists i :: 0 <= i < |cs| && cs[i].severity == m)
  }

  /** The field has another value in the other snapshot, or is in one only. */
  predicate Differs(a: map<string, string>, b: map<string, string>, f: string) {
    (f in a) != (f in b) || (f in a && a[f] != b[f])
  }

  const TRENDS := {"heartbeat_status", "disk_root_pct", "disk_at_risk_count", "disk_at_risk_list", "mem_avail_pct",
                   "brew_outdated_count", "brew_outdated_list"}

  /** A host vanished, or its probe status moved. */
  ghost predicate Pages(a: Index, b: Index) {
    || (exists h :: h in a && h !in b)
    || (exists h :: h in a && h in b && Differs(a[h], b[h], "probe_status"))
  }

  /** A heartbeat, disk, memory or brew field of a host in both snapshots moved. */
  ghost predicate Drifts(a: Index, b: Index) {
    exists h, f :: h in a && h in b && f in TRENDS && Differs(a[h], b[h], f)
  }

  lemma SeverityIs(k: Kind, f: string)
    ensures SeverityFor(k, f) == CRIT <==> k == HostRemoved || (k != HostAdded && f == "probe_status")
    ensures SeverityFor(k, f) == WARN <==> k != HostRemoved && k != HostAdded && f in TRENDS
  {
  }

  /** When a record for the pair is due, and how severe it is. */
  lemma RecordSeverity(a: Index, b: Index, h: string, f: string)
    ensures var r := Record(a, b, h, f);
            && (r.Some? && r.value.severity == CRIT <==>
                  (h in a && h !in b && f == "-") || (h in a && h in b && f == "probe_status" && Differs(a[h], b[h], f)))
            && (r.Some? && r.value.severity == WARN <==> h in a && h in b && f in TRENDS && Differs(a[h], b[h], f))
  {
    var r := Record(a, b, h, f);
    if r.Some? { SeverityIs(r.value.kind, if h in a && h in b then f else ""); }
  }

  lemma HasCrit(a: Index, b: Index, cs: seq<Change>)
    requires IsDiff(a, b, cs)
    ensures (exists i :: 0 <= i < |cs| && cs[i].severity == CRIT) <==> Pages(a, b)
  {
    if h :| h in a && h !in b { RecordSeverity(a, b, h, "-"); }
    if h :| h in a && h in b && Differs(a[h], b[h], "probe_status") { RecordSeverity(a, b, h, "probe_status"); }
    if i :| 0 <= i < |cs| && cs[i].severity == CRIT { RecordSeverity(a, b, cs[i].host, cs[i].field); }
  }

  lemma HasWarn(a: Index, b: Index, cs: seq<Change>)
    requires IsDiff(a, b, cs)
    ensures (exists i :: 0 <= i < |cs| && cs[i].severity == WARN) <==> Drifts(a, b)
  {
    if h, f :| h in a && h in b && f in TRENDS && Differs(a[h], b[h], f) { RecordSeverity(a, b, h, f); }
    if i :| 0 <= i < |cs| && cs[i].severity == WARN { RecordSeverity(a, b, cs[i].host, cs[i].field); }
  }

  /** What the report's severity says of the snapshots: crit exactly when it pages, warn exactly
      when it only drifts, nothing exactly when they are equal, else info. */
  lemma SeverityMeaning(a: Index, b: Index, cs: seq<Change>, m: string)
    requires IsDiff(a, b, cs) && IsHighest(cs, m)
    ensures m == if Pages(a, b) then CRIT else if Drifts(a, b) then WARN else if a == b then "" else INFO
  {
    HasCrit(a, b, cs);
    HasWarn(a, b, cs);
    EmptyDiff(a, b, cs);
  }

  /** Report.MaxSeverity: "" for no change, else the highest severity present. */
  method MaxSeverity(cs: seq<Change>) returns (m: string)
    ensures IsHighest(cs, m)
  {
    m := INFO;
    var any := false;
    for i := 0 to |cs|
      invariant any <==> i > 0
      invariant m == INFO || (SeverityRank(m) > 0 && exists k :: 0 <= k < i && cs[k].severity == m)
      invariant forall k :: 0 <= k < i ==> SeverityRank(cs[k].severity) <= SeverityRank(m)
    {
      any := true;
      if SeverityRank(cs[i].severity) > SeverityRank(m) { m := cs[i].severity; }
    }
    if !any { m := ""; }
  }
}
