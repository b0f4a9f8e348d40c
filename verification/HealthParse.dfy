/** The line-by-line parser of fleet-health-snapshot reports. */
module HealthParse {
  import opened Strings

  datatype Host = Host(name: string, fields: map<string, string>)

  /** normaliseHost with its per-field scrapers, as a function of the raw fields. */
  type Normaliser = (string, map<string, string>) -> Host

  /** The scanner's buffer. */
  const MAX_LINE := 1048576

  /** The variables of the loop: hosts finished so far, the current heading, whether a
      heading was seen, the code-fence toggle, the pending key with its value, and the
      current host's raw fields. */
  datatype Machine = Machine(
    hosts: seq<Host>, host: string, inBlock: bool, inCode: bool, curKey: string, curVal: string, fields: map<string, string>)

  const INIT := Machine([], "", false, false, "", "", map[])

  function DropCR(l: string): string { if l != "" && l[|l| - 1] == '\r' then l[..|l| - 1] else l }

  function TrimBlanks(s: string): string {
    if s != "" && s[0] in {' ', '\t'} then TrimBlanks(s[1..]) else s
  }

  function TrimNewlines(s: string): string {
    if s != "" && s[|s| - 1] == '\n' then TrimNewlines(s[..|s| - 1]) else s
  }

  predicate KeyChar(c: char) { 'A' <= c <= 'Z' || '0' <= c <= '9' || c == '_' }

  /** How many leading characters of `l` may stand in a key. */
  function KeyLength(l: string): (n: nat)
    ensures n <= |l|
  {
    if l != "" && KeyChar(l[0]) then 1 + KeyLength(l[1..]) else 0
  }

  /** A `KEY:` line, as the regular expression ^([A-Z0-9_]+):(.*)$ matches it. */
  predicate IsKeyLine(l: string) {
    var n := KeyLength(l);
    0 < n < |l| && l[n] == ':'
  }

  predicate IsHeading(l: string) { "## " <= l }

  predicate IsFence(l: string) { "```" <= l }

  function FlushKey(s: Machine): Machine {
    if s.curKey == "" then s
    else s.(fields := s.fields[s.curKey := TrimNewlines(s.curVal)], curKey := "", curVal := "")
  }

  function FlushHost(norm: Normaliser, s: Machine): Machine {
    if s.host == "" then s else
      var t := FlushKey(s);
      t.(hosts := t.hosts + [norm(t.host, t.fields)])
  }

  function Step(norm: Normaliser, s: Machine, line: string): Machine {
    if IsHeading(line) then
      var t := FlushHost(norm, s);
      Machine(t.hosts, TrimSpace(line[3..]), true, false, "", "", map[])
    else if !s.inBlock then s
    else if IsFence(line) then
      var t := s.(inCode := !s.inCode);
      if t.inCode then t else FlushKey(t)
    else if !s.inCode then s
    else if IsKeyLine(line) then
      var t := FlushKey(s);
      var n := KeyLength(line);
      var rest := TrimBlanks(line[n + 1..]);
      if rest != "" then t.(fields := t.fields[line[..n] := rest]) else t.(curKey := line[..n], curVal := "")
    else if s.curKey != "" then
      s.(curVal := (if s.curVal != "" then s.curVal + "\n" else "") + TrimBlanks(line))
    else s
  }

  /** The machine over raw lines; the scanner drops a carriage return before the newline. */
  function Steps(norm: Normaliser, s: Machine, raw: seq<string>): Machine {
    if raw == [] then s else Step(norm, Steps(norm, s, raw[..|raw| - 1]), DropCR(raw[|raw| - 1]))
  }

  lemma StepsNext(norm: Normaliser, s: Machine, raw: seq<string>, i: nat)
    requires i < |raw|
    ensures Steps(norm, s, raw[..i + 1]) == Step(norm, Steps(norm, s, raw[..i]), DropCR(raw[i]))
  {
    assert raw[..i + 1][..i] == raw[..i];
  }

  predicate Fits(raw: seq<string>) { forall i :: 0 <= i < |raw| ==> |raw[i]| < MAX_LINE }

  /** The hosts of a report, None when a line does not fit the scanner's buffer. */
  function ParseOf(norm: Normaliser, body: string): Option<seq<Host>> {
    var raw := ScanLines(body);
    if Fits(raw) then Some(FlushHost(norm, Steps(norm, INIT, raw)).hosts) else None
  }

  /** The loop's variables with the two closures that change them. */
  class Parser {
    const norm: Normaliser
    var hosts: seq<Host>
    var host: string
    var inBlock: bool
    var inCode: bool
    var curKey: string
    var curVal: string
    var fields: map<string, string>

    ghost function Value(): Machine
      reads this
    {
      Machine(hosts, host, inBlock, inCode, curKey, curVal, fields)
    }

    constructor (norm: Normaliser)
      ensures Value() == INIT && this.norm == norm
    {
      this.norm := norm;
      hosts, host, inBlock, inCode := [], "", false, false;
      curKey, curVal, fields := "", "", map[];
    }

    method FlushCurKey()
      modifies this
      ensures Value() == FlushKey(old(Value()))
    {
      if curKey != "" {
        fields := fields[curKey := TrimNewlines(curVal)];
        curKey, curVal := "", "";
      }
    }

    method FlushCurHost()
      modifies this
      ensures Value() == FlushHost(norm, old(Value()))
    {
      if host == "" { return; }
      FlushCurKey();
      hosts := hosts + [norm(host, fields)];
    }

    /** One turn of the loop. */
    method Feed(line: string)
      modifies this
      ensures Value() == Step(norm, old(Value()), line)
    {
      if IsHeading(line) {
        FlushCurHost();
        host := TrimSpace(line[3..]);
        fields, curKey, curVal, inCode := map[], "", "", false;
        inBlock := true;
        return;
      }
      if !inBlock { return; }
      if IsFence(line) {
        inCode := !inCode;
        if !inCode { FlushCurKey(); }
        return;
      }
      if !inCode { return; }
      if IsKeyLine(line) {
        FlushCurKey();
        var n := KeyLength(line);
        var rest := TrimBlanks(line[n + 1..]);
        if rest != "" { fields := fields[line[..n] := rest]; } else { curKey, curVal := line[..n], ""; }
        return;
      }
      if curKey != "" {
        if curVal != "" { curVal := curVal + "\n"; }
        curVal := curVal + TrimBlanks(line);
      }
    }

    /** The scanner loop: false when a line is too long. */
    method FeedAll(raw: seq<string>) returns (ok: bool)
      modifies this
      ensures ok <==> Fits(raw)
      ensures ok ==> Value() == Steps(norm, old(Value()), raw)
    {
      ghost var s := Value();
      ok := true;
      var i := 0;
      while i < |raw| && ok
        invariant 0 <= i <= |raw|
        invariant ok ==> Value() == Steps(norm, s, raw[..i])
        invariant ok <==> Fits(raw[..i])
      {
        if |raw[i]| >= MAX_LINE {
          ok := false;
        } else {
          FeedNext(raw, i, s);
        }
        FitsNext(raw, i);
        i := i + 1;
      }
      if ok { assert raw[..i] == raw; } else { FitsPrefix(raw, i); }
    }

    method FeedNext(raw: seq<string>, i: nat, ghost s: Machine)
      requires i < |raw| && Value() == Steps(norm, s, raw[..i])
      modifies this
      ensures Value() == Steps(norm, s, raw[..i + 1])
    {
      StepsNext(norm, s, raw, i);
      Feed(DropCR(raw[i]));
    }
  }

  lemma FitsNext(raw: seq<string>, i: nat)
    requires i < |raw|
    ensures Fits(raw[..i + 1]) <==> Fits(raw[..i]) && |raw[i]| < MAX_LINE
  {
    assert raw[..i + 1] == raw[..i] + [raw[i]];
    FitsConcat(raw[..i], [raw[i]]);
    assert Fits([raw[i]]) <==> |[raw[i]][0]| < MAX_LINE;
  }

  lemma FitsPrefix(raw: seq<string>, i: nat)
    requires i <= |raw| && !Fits(raw[..i])
    ensures !Fits(raw)
  {
    assert raw == raw[..i] + raw[i..];
    FitsConcat(raw[..i], raw[i..]);
  }

  method Parse(norm: Normaliser, body: string) returns (r: Option<seq<Host>>)
    ensures r == ParseOf(norm, body)
  {
    var p := new Parser(norm);
    var ok := p.FeedAll(ScanLines(body));
    if !ok { return None; }
    p.FlushCurHost();
    r := Some(p.hosts);
  }

  // ----- the homomorphism

  /** Hosts already finished are carried along untouched. */
  function Carry(p: seq<Host>, s: Machine): Machine { s.(hosts := p + s.hosts) }

  lemma CarryFlush(norm: Normaliser, p: seq<Host>, s: Machine)
    ensures FlushHost(norm, Carry(p, s)) == Carry(p, FlushHost(norm, s))
  {
    var t := FlushKey(s);
    assert p + (s.hosts + [norm(t.host, t.fields)]) == (p + s.hosts) + [norm(t.host, t.fields)];
  }

  lemma CarryStep(norm: Normaliser, p: seq<Host>, s: Machine, line: string)
    ensures Step(norm, Carry(p, s), line) == Carry(p, Step(norm, s, line))
  {
    if IsHeading(line) {
      CarryFlush(norm, p, s);
    } else {
      CarryBody(norm, p, s, line);
    }
  }

  /** Lines other than headings do not look at the finished hosts. */
  lemma CarryBody(norm: Normaliser, p: seq<Host>, s: Machine, line: string)
    requires !IsHeading(line)
    ensures Step(norm, Carry(p, s), line) == Carry(p, Step(norm, s, line))
  {
    assert FlushKey(Carry(p, s)) == Carry(p, FlushKey(s));
  }

  lemma {:induction false} CarrySteps(norm: Normaliser, p: seq<Host>, s: Machine, lines: seq<string>)
    ensures Steps(norm, Carry(p, s), lines) == Carry(p, Steps(norm, s, lines))
  {
    if lines != [] {
      var n := |lines| - 1;
      CarrySteps(norm, p, s, lines[..n]);
      CarryStep(norm, p, Steps(norm, s, lines[..n]), DropCR(lines[n]));
    }
  }

  lemma {:induction false} StepsConcat(norm: Normaliser, s: Machine, a: seq<string>, b: seq<string>)
    ensures Steps(norm, s, a + b) == Steps(norm, Steps(norm, s, a), b)
  {
    if b == [] {
      assert a + b == a;
    } else {
      var n := |b| - 1;
      StepsConcat(norm, s, a, b[..n]);
      assert (a + b)[..|a + b| - 1] == a + b[..n];
    }
  }

  /** A heading forgets everything but the finished hosts. */
  lemma HeadingRestarts(norm: Normaliser, s: Machine, line: string)
    requires IsHeading(line)
    ensures Step(norm, s, line) == Carry(FlushHost(norm, s).hosts, Step(norm, INIT, line))
  {
    assert FlushHost(norm, s).hosts + [] == FlushHost(norm, s).hosts;
  }

  lemma StepsOne(norm: Normaliser, s: Machine, line: string)
    ensures Steps(norm, s, [line]) == Step(norm, s, DropCR(line))
  {
    assert [line][..0] == [];
    assert Steps(norm, s, [line][..0]) == s;
  }

  lemma ParseLinesConcat(norm: Normaliser, a: seq<string>, b: seq<string>)
    requires b != [] && IsHeading(DropCR(b[0]))
    ensures FlushHost(norm, Steps(norm, INIT, a + b)).hosts
         == FlushHost(norm, Steps(norm, INIT, a)).hosts + FlushHost(norm, Steps(norm, INIT, b)).hosts
  {
    var sa := Steps(norm, INIT, a);
    var p, s1, tail := FlushHost(norm, sa).hosts, Step(norm, INIT, DropCR(b[0])), b[1..];
    assert b == [b[0]] + tail;
    StepsConcat(norm, INIT, a, b);
    StepsConcat(norm, sa, [b[0]], tail);
    StepsConcat(norm, INIT, [b[0]], tail);
    StepsOne(norm, sa, b[0]);
    StepsOne(norm, INIT, b[0]);
    HeadingRestarts(norm, sa, DropCR(b[0]));
    CarrySteps(norm, p, s1, tail);
    CarryFlush(norm, p, Steps(norm, s1, tail));
  }

  /** Text that opens with a heading line. */
  predicate OpensSection(b: string) { IsHeading(b) }

  lemma OpeningLine(b: string)
    requires OpensSection(b)
    ensures ScanLines(b) != [] && IsHeading(DropCR(ScanLines(b)[0]))
  {
    var i := IndexOf(b, '\n');
    assert b[0] == '#' && b[1] == '#' && b[2] == ' ';
    assert i >= 3;
    var raw := ScanLines(b)[0];
    assert raw == b[..i];
    assert raw[..3] == "## ";
  }

  /** Parsing is a homomorphism at section boundaries: whatever fence or pending key the
      first part ends in, a part that opens with a heading parses as on its own. */
  lemma ParseConcat(norm: Normaliser, a: string, b: string)
    requires Complete(a) && OpensSection(b)
    ensures ParseOf(norm, a + b) ==
            (if ParseOf(norm, a).None? || ParseOf(norm, b).None? then None
             else Some(ParseOf(norm, a).value + ParseOf(norm, b).value))
  {
    ScanLinesConcat(a, b);
    FitsConcat(ScanLines(a), ScanLines(b));
    OpeningLine(b);
    ParseLinesConcat(norm, ScanLines(a), ScanLines(b));
  }

  lemma FitsConcat(a: seq<string>, b: seq<string>)
    ensures Fits(a + b) <==> Fits(a) && Fits(b)
  {
    assert forall i :: 0 <= i < |a| ==> (a + b)[i] == a[i];
    assert forall i :: 0 <= i < |b| ==> (a + b)[|a| + i] == b[i];
  }

  function JoinHosts(parts: seq<seq<Host>>): seq<Host> {
    if parts == [] then [] else JoinHosts(parts[..|parts| - 1]) + parts[|parts| - 1]
  }

  /** Hence a report made of sections parses to its sections' hosts, each depending on its
      own section alone. */
  lemma {:induction false} ParseSections(norm: Normaliser, parts: seq<string>, hosts: seq<seq<Host>>)
    requires |hosts| == |parts|
    requires forall i :: 0 <= i < |parts| ==> Complete(parts[i]) && OpensSection(parts[i]) && ParseOf(norm, parts[i]) == Some(hosts[i])
    ensures Complete(Flat(parts)) && ParseOf(norm, Flat(parts)) == Some(JoinHosts(hosts))
  {
    if parts == [] {
      EmptyReport(norm);
    } else {
      var n := |parts| - 1;
      ParseSections(norm, parts[..n], hosts[..n]);
      ParseConcat(norm, Flat(parts[..n]), parts[n]);
      CompleteConcat(Flat(parts[..n]), parts[n]);
    }
  }

  lemma EmptyReport(norm: Normaliser)
    ensures ParseOf(norm, "") == Some([])
  {
  }

  lemma CompleteConcat(a: string, b: string)
    requires Complete(a) && Complete(b)
    ensures Complete(a + b)
  {
  }

  /** Lines without a heading neither finish a host nor rename it. */
  lemma {:induction false} NoHeadingKeepsHost(norm: Normaliser, s: Machine, lines: seq<string>)
    requires forall i :: 0 <= i < |lines| ==> !IsHeading(DropCR(lines[i]))
    ensures Steps(norm, s, lines).hosts == s.hosts && Steps(norm, s, lines).host == s.host
  {
    if lines != [] { NoHeadingKeepsHost(norm, s, lines[..|lines| - 1]); }
  }

  /** The machine just after a heading. */
  function Opened(name: string): Machine { Machine([], name, true, false, "", "", map[]) }

  /** A section, a heading and lines without one, gives exactly the host it names, with
      fields gathered from those lines; a blank heading gives none. */
  lemma SectionHost(norm: Normaliser, name: string, body: seq<string>)
    requires forall i :: 0 <= i < |body| ==> !IsHeading(DropCR(body[i]))
    ensures FlushHost(norm, Steps(norm, Opened(name), body)).hosts ==
            if name == "" then [] else [norm(name, FlushKey(Steps(norm, Opened(name), body)).fields)]
  {
    NoHeadingKeepsHost(norm, Opened(name), body);
  }

  lemma HeadingOpens(norm: Normaliser, heading: string, body: seq<string>)
    requires IsHeading(DropCR(heading))
    ensures Steps(norm, INIT, [heading] + body) == Steps(norm, Opened(TrimSpace(DropCR(heading)[3..])), body)
  {
    StepsConcat(norm, INIT, [heading], body);
    StepsOne(norm, INIT, heading);
  }
}
