/** Which fields a section of a health report gives, said without the machine that reads it. */
module HealthFields {
  import opened Strings
  import opened HealthParse

  // ----- the meaning of a section's lines

  /** How many of the lines are code fences. */
  function Fences(ls: seq<string>): nat {
    if ls == [] then 0 else Fences(ls[..|ls| - 1]) + if IsFence(ls[|ls| - 1]) then 1 else 0
  }

  /** What follows these lines is inside a fence. */
  predicate Inside(ls: seq<string>) { Fences(ls) % 2 == 1 }

  function KeyOf(l: string): string { l[..KeyLength(l)] }

  /** The value on the key's own line. */
  function Inline(l: string): string
    requires IsKeyLine(l)
  {
    TrimBlanks(l[KeyLength(l) + 1..])
  }

  /** Position of the last line inside a fence that gives key `k`. */
  function LastAt(ls: seq<string>, k: string): (at: Option<nat>)
    ensures at.Some? ==> at.value < |ls| && IsKeyLine(ls[at.value]) && KeyOf(ls[at.value]) == k && Inside(ls[..at.value])
  {
    if ls == [] then None else
      var init, l := ls[..|ls| - 1], ls[|ls| - 1];
      if Inside(init) && IsKeyLine(l) && KeyOf(l) == k then Some(|ls| - 1)
      else
        var at := LastAt(init, k);
        assert at.Some? ==> ls[..at.value] == init[..at.value];
        at
  }

  /** A value's lines end at the next key or fence. */
  predicate Stops(l: string) { IsFence(l) || IsKeyLine(l) }

  function BlockEnd(ls: seq<string>, j: nat): (e: nat)
    requires j <= |ls|
    ensures j <= e <= |ls|
    decreases |ls| - j
  {
    if j == |ls| || Stops(ls[j]) then j else BlockEnd(ls, j + 1)
  }

  /** Lines without their indentation, joined by newlines. */
  function Joined(ls: seq<string>): string {
    if ls == [] then "" else if |ls| == 1 then TrimBlanks(ls[0])
    else Joined(ls[..|ls| - 1]) + "\n" + TrimBlanks(ls[|ls| - 1])
  }

  function TrimLead(s: string): string {
    if s != "" && s[0] == '\n' then TrimLead(s[1..]) else s
  }

  /** The value of the key at line `i`: on its own line, or the lines below it without leading
      and trailing empty ones. */
  function ValueAt(ls: seq<string>, i: nat): string
    requires i < |ls| && IsKeyLine(ls[i])
  {
    if Inline(ls[i]) != "" then Inline(ls[i])
    else TrimNewlines(TrimLead(Joined(ls[i + 1..BlockEnd(ls, i + 1)])))
  }

  /** Key `k` has its last value, if the lines give it at all. */
  ghost predicate GivenAt(fields: map<string, string>, ls: seq<string>, k: string) {
    (k in fields <==> LastAt(ls, k).Some?) && (k in fields ==> fields[k] == ValueAt(ls, LastAt(ls, k).value))
  }

  /** `fields` are those that the lines give: each key's last value, and no others. */
  ghost predicate Given(fields: map<string, string>, ls: seq<string>) { forall k :: GivenAt(fields, ls, k) }

  // ----- one more line

  lemma {:induction false} BlockEndSnoc(ls: seq<string>, l: string, j: nat)
    requires j <= |ls|
    ensures BlockEnd(ls + [l], j) == if BlockEnd(ls, j) < |ls| then BlockEnd(ls, j) else if Stops(l) then |ls| else |ls| + 1
    decreases |ls| - j
  {
    if j < |ls| {
      assert (ls + [l])[j] == ls[j];
      if !Stops(ls[j]) { BlockEndSnoc(ls, l, j + 1); }
    } else {
      assert (ls + [l])[j] == l;
    }
  }

  /** A key whose value is complete keeps it. */
  lemma ValueStays(ls: seq<string>, l: string, i: nat)
    requires i < |ls| && IsKeyLine(ls[i]) && (Inline(ls[i]) != "" || BlockEnd(ls, i + 1) < |ls| || Stops(l))
    ensures ValueAt(ls + [l], i) == ValueAt(ls, i)
  {
    BlockEndSnoc(ls, l, i + 1);
    assert (ls + [l])[i] == ls[i];
    var e := BlockEnd(ls, i + 1);
    assert (ls + [l])[i + 1..e] == ls[i + 1..e];
  }

  lemma LastSnoc(ls: seq<string>, l: string, k: string)
    ensures LastAt(ls + [l], k) == if Inside(ls) && IsKeyLine(l) && KeyOf(l) == k then Some(|ls|) else LastAt(ls, k)
  {
    assert (ls + [l])[..|ls|] == ls;
  }

  /** The loop's own way to build a value. */
  function Acc(ls: seq<string>): string {
    if ls == [] then "" else
      var a := Acc(ls[..|ls| - 1]);
      (if a != "" then a + "\n" else "") + TrimBlanks(ls[|ls| - 1])
  }

  lemma {:induction false} TrimBlanksIn(s: string)
    requires '\n' !in s
    ensures '\n' !in TrimBlanks(s)
  {
    if s != "" && s[0] in {' ', '\t'} { TrimBlanksIn(s[1..]); }
  }

  lemma {:induction false} TrimLeadConcat(a: string, b: string)
    ensures TrimLead(a + b) == if TrimLead(a) != "" then TrimLead(a) + b else TrimLead(b)
  {
    if a == "" {
      assert a + b == b;
    } else if a[0] == '\n' {
      assert (a + b)[1..] == a[1..] + b;
      TrimLeadConcat(a[1..], b);
    }
  }

  lemma TrimLeadLine(t: string)
    requires '\n' !in t
    ensures TrimLead(t) == t && TrimLead("\n" + t) == t
  {
    assert ("\n" + t)[1..] == t;
  }

  ghost predicate NoNewlines(ls: seq<string>) { forall i :: 0 <= i < |ls| ==> '\n' !in ls[i] }

  /** It is the join without its leading newlines. */
  lemma {:induction false} AccIsJoined(ls: seq<string>)
    requires NoNewlines(ls)
    ensures Acc(ls) == TrimLead(Joined(ls))
  {
    if ls != [] {
      var n := |ls| - 1;
      var t := TrimBlanks(ls[n]);
      TrimBlanksIn(ls[n]);
      TrimLeadLine(t);
      AccIsJoined(ls[..n]);
      if n == 0 {
        assert ls[..0] == [];
      } else {
        AccStep(Joined(ls[..n]), t);
      }
    }
  }

  lemma AccStep(j: string, t: string)
    requires '\n' !in t
    ensures TrimLead(j + "\n" + t) == (if TrimLead(j) != "" then TrimLead(j) + "\n" else "") + t
  {
    TrimLeadLine(t);
    assert j + "\n" + t == j + ("\n" + t);
    TrimLeadConcat(j, "\n" + t);
    if TrimLead(j) != "" { assert TrimLead(j) + ("\n" + t) == TrimLead(j) + "\n" + t; }
  }

  // ----- the machine reads just that

  /** The key at `q` still takes lines. */
  ghost predicate Open(ls: seq<string>, q: nat) {
    && q < |ls| && IsKeyLine(ls[q]) && Inline(ls[q]) == "" && BlockEnd(ls, q + 1) == |ls|
    && LastAt(ls, KeyOf(ls[q])) == Some(q)
  }

  /** Every other key's value is complete. */
  ghost predicate Settled(ls: seq<string>, p: Option<nat>) {
    forall i :: 0 <= i < |ls| && IsKeyLine(ls[i]) && Inside(ls[..i]) && Some(i) != p ==>
      Inline(ls[i]) != "" || BlockEnd(ls, i + 1) < |ls|
  }

  /** How the machine stands after the lines, with the key at `p` pending. */
  ghost predicate Stands(s: Machine, ls: seq<string>, p: Option<nat>) {
    && s.inBlock && (s.inCode <==> Inside(ls))
    && (p.None? <==> s.curKey == "")
    && (p.Some? ==> s.inCode && Open(ls, p.value) && s.curKey == KeyOf(ls[p.value]) && s.curVal == Acc(ls[p.value + 1..]))
    && Settled(ls, p)
    && Given(FlushKey(s).fields, ls)
  }

  lemma StaysAt(f: map<string, string>, ls: seq<string>, l: string, k: string)
    requires GivenAt(f, ls, k) && !(Inside(ls) && IsKeyLine(l) && KeyOf(l) == k)
    requires var at := LastAt(ls, k);
             at.Some? ==> Inline(ls[at.value]) != "" || BlockEnd(ls, at.value + 1) < |ls| || Stops(l)
    ensures GivenAt(f, ls + [l], k)
  {
    LastSnoc(ls, l, k);
    if k in f { ValueStays(ls, l, LastAt(ls, k).value); }
  }

  /** A line that gives no key and lengthens no value leaves the fields alone. */
  lemma GivenStays(f: map<string, string>, ls: seq<string>, l: string)
    requires Given(f, ls) && !(Inside(ls) && IsKeyLine(l)) && (Stops(l) || Settled(ls, None))
    ensures Given(f, ls + [l])
  {
    forall k ensures GivenAt(f, ls + [l], k) { StaysAt(f, ls, l, k); }
  }

  /** A key line sets its key. */
  lemma GivenKey(f: map<string, string>, ls: seq<string>, l: string)
    requires Given(f, ls) && Inside(ls) && IsKeyLine(l)
    ensures Given(f[KeyOf(l) := Inline(l)], ls + [l])
  {
    var g := f[KeyOf(l) := Inline(l)];
    forall k
      ensures GivenAt(g, ls + [l], k)
    {
      if k == KeyOf(l) {
        LastSnoc(ls, l, k);
        FreshValue(ls, l);
      } else {
        assert GivenAt(f, ls, k) && GivenAt(g, ls, k);
        StaysAt(g, ls, l, k);
      }
    }
  }

  lemma FreshValue(ls: seq<string>, l: string)
    requires IsKeyLine(l)
    ensures ValueAt(ls + [l], |ls|) == Inline(l)
  {
    assert (ls + [l])[|ls|] == l && (ls + [l])[|ls| + 1..|ls| + 1] == [];
  }

  /** A further line of the pending value. */
  lemma GivenMore(f: map<string, string>, ls: seq<string>, l: string, q: nat)
    requires Given(f, ls) && NoNewlines(ls + [l]) && !Stops(l) && Open(ls, q) && Settled(ls, Some(q))
    ensures Given(f[KeyOf(ls[q]) := TrimNewlines(Acc(ls[q + 1..] + [l]))], ls + [l])
  {
    var g := f[KeyOf(ls[q]) := TrimNewlines(Acc(ls[q + 1..] + [l]))];
    forall k
      ensures GivenAt(g, ls + [l], k)
    {
      if k == KeyOf(ls[q]) {
        LastSnoc(ls, l, k);
        LongerValue(ls, l, q);
      } else {
        assert GivenAt(f, ls, k) && GivenAt(g, ls, k);
        StaysAt(g, ls, l, k);
      }
    }
  }

  lemma LongerValue(ls: seq<string>, l: string, q: nat)
    requires NoNewlines(ls + [l]) && !Stops(l) && Open(ls, q)
    ensures ValueAt(ls + [l], q) == TrimNewlines(Acc(ls[q + 1..] + [l]))
  {
    BlockEndSnoc(ls, l, q + 1);
    assert (ls + [l])[q] == ls[q];
    assert (ls + [l])[q + 1..|ls| + 1] == ls[q + 1..] + [l];
    var block := ls[q + 1..] + [l];
    forall i | 0 <= i < |block|
      ensures '\n' !in block[i]
    {
      assert block[i] == (ls + [l])[q + 1 + i];
    }
    AccIsJoined(block);
  }

  lemma FenceIsNoKey(l: string)
    requires IsFence(l)
    ensures !IsKeyLine(l)
  {
    assert l[0] == '`';
  }

  /** A line that ends values settles them all. */
  lemma StopSettles(ls: seq<string>, l: string, p: Option<nat>)
    requires Stops(l) && (Inside(ls) && IsKeyLine(l) && Inline(l) == "" ==> p == Some(|ls|))
    ensures Settled(ls + [l], p)
  {
    forall i | 0 <= i < |ls + [l]| && IsKeyLine((ls + [l])[i]) && Inside((ls + [l])[..i]) && Some(i) != p
      ensures Inline((ls + [l])[i]) != "" || BlockEnd(ls + [l], i + 1) < |ls + [l]|
    {
      if i < |ls| { BlockEndSnoc(ls, l, i + 1); } else { assert (ls + [l])[..i] == ls; }
    }
  }

  /** One that does not leaves the settled ones settled. */
  lemma StaySettled(ls: seq<string>, l: string, p: Option<nat>)
    requires !(Inside(ls) && IsKeyLine(l)) && Settled(ls, p)
    ensures Settled(ls + [l], p)
  {
    assert (ls + [l])[..|ls|] == ls;
    forall i | 0 <= i < |ls + [l]| && IsKeyLine((ls + [l])[i]) && Inside((ls + [l])[..i]) && Some(i) != p
      ensures Inline((ls + [l])[i]) != "" || BlockEnd(ls + [l], i + 1) < |ls + [l]|
    {
      if i < |ls| {
        assert (ls + [l])[..i] == ls[..i];
        BlockEndSnoc(ls, l, i + 1);
      }
    }
  }

  lemma FencesSnoc(ls: seq<string>, l: string)
    ensures Fences(ls + [l]) == Fences(ls) + if IsFence(l) then 1 else 0
  {
    assert (ls + [l])[..|ls|] == ls;
  }

  lemma FenceEffect(norm: Normaliser, s: Machine, l: string)
    requires s.inBlock && IsFence(l) && !IsHeading(l) && (s.curKey != "" ==> s.inCode)
    ensures var t := Step(norm, s, l);
            t.inBlock && t.inCode == !s.inCode && t.curKey == "" && FlushKey(t).fields == FlushKey(s).fields
  {
  }

  lemma FenceStep(norm: Normaliser, s: Machine, ls: seq<string>, l: string, p: Option<nat>)
    requires Stands(s, ls, p) && IsFence(l) && !IsHeading(l)
    ensures Stands(Step(norm, s, l), ls + [l], None)
  {
    FenceIsNoKey(l);
    FenceEffect(norm, s, l);
    FenceToggles(ls, l);
    StopSettles(ls, l, None);
    FenceGives(FlushKey(s).fields, ls, l);
  }

  lemma FenceToggles(ls: seq<string>, l: string)
    requires IsFence(l)
    ensures Inside(ls + [l]) <==> !Inside(ls)
  {
    FencesSnoc(ls, l);
  }

  lemma FenceGives(f: map<string, string>, ls: seq<string>, l: string)
    requires Given(f, ls) && IsFence(l)
    ensures Given(f, ls + [l])
  {
    FenceIsNoKey(l);
    GivenStays(f, ls, l);
  }

  /** Lines outside fences, and lines inside that belong to no key, change nothing. */
  lemma IdleStep(norm: Normaliser, s: Machine, ls: seq<string>, l: string)
    requires Stands(s, ls, None) && !IsFence(l) && !IsHeading(l) && !(Inside(ls) && IsKeyLine(l))
    ensures Stands(Step(norm, s, l), ls + [l], None)
  {
    FencesSnoc(ls, l);
    StaySettled(ls, l, None);
    GivenStays(FlushKey(s).fields, ls, l);
  }

  lemma KeyEffect(norm: Normaliser, s: Machine, l: string)
    requires s.inBlock && s.inCode && !IsFence(l) && !IsHeading(l) && IsKeyLine(l)
    ensures var t := Step(norm, s, l);
            && t.inBlock && t.inCode && t.curKey == (if Inline(l) == "" then KeyOf(l) else "") && (Inline(l) == "" ==> t.curVal == "")
            && FlushKey(t).fields == FlushKey(s).fields[KeyOf(l) := Inline(l)]
  {
    assert TrimNewlines("") == "";
  }

  lemma NewlyOpen(ls: seq<string>, l: string)
    requires Inside(ls) && IsKeyLine(l) && Inline(l) == ""
    ensures Open(ls + [l], |ls|) && (ls + [l])[|ls|] == l && Acc((ls + [l])[|ls| + 1..]) == ""
  {
    LastSnoc(ls, l, KeyOf(l));
    assert (ls + [l])[|ls|] == l && (ls + [l])[|ls| + 1..] == [];
  }

  lemma KeyStep(norm: Normaliser, s: Machine, ls: seq<string>, l: string, p: Option<nat>)
    requires Stands(s, ls, p) && Inside(ls) && !IsFence(l) && !IsHeading(l) && IsKeyLine(l)
    ensures Stands(Step(norm, s, l), ls + [l], if Inline(l) == "" then Some(|ls|) else None)
  {
    FencesSnoc(ls, l);
    KeyEffect(norm, s, l);
    StopSettles(ls, l, if Inline(l) == "" then Some(|ls|) else None);
    GivenKey(FlushKey(s).fields, ls, l);
    if Inline(l) == "" { NewlyOpen(ls, l); }
  }

  lemma MoreEffect(norm: Normaliser, s: Machine, l: string)
    requires s.inBlock && s.inCode && s.curKey != "" && !Stops(l) && !IsHeading(l)
    ensures var t := Step(norm, s, l);
            && t.inBlock && t.inCode && t.curKey == s.curKey
            && t.curVal == (if s.curVal != "" then s.curVal + "\n" else "") + TrimBlanks(l)
            && FlushKey(t).fields == FlushKey(s).fields[s.curKey := TrimNewlines(t.curVal)]
  {
  }

  lemma StillOpen(ls: seq<string>, l: string, q: nat)
    requires Open(ls, q) && !Stops(l)
    ensures Open(ls + [l], q) && (ls + [l])[q] == ls[q] && (ls + [l])[q + 1..] == ls[q + 1..] + [l]
    ensures Acc(ls[q + 1..] + [l]) == (if Acc(ls[q + 1..]) != "" then Acc(ls[q + 1..]) + "\n" else "") + TrimBlanks(l)
  {
    LastSnoc(ls, l, KeyOf(ls[q]));
    BlockEndSnoc(ls, l, q + 1);
    var block := ls[q + 1..];
    assert (block + [l])[..|block|] == block && (ls + [l])[q + 1..] == block + [l] && (ls + [l])[q] == ls[q];
  }

  lemma MoreStep(norm: Normaliser, s: Machine, ls: seq<string>, l: string, q: nat)
    requires Stands(s, ls, Some(q)) && NoNewlines(ls + [l]) && !Stops(l) && !IsHeading(l)
    ensures Stands(Step(norm, s, l), ls + [l], Some(q))
  {
    FencesSnoc(ls, l);
    MoreEffect(norm, s, l);
    StaySettled(ls, l, Some(q));
    GivenMore(FlushKey(s).fields, ls, l, q);
    StillOpen(ls, l, q);
  }

  function Lines(raw: seq<string>): seq<string> { seq(|raw|, i requires 0 <= i < |raw| => DropCR(raw[i])) }

  lemma StandsAtStart(name: string)
    ensures Stands(Opened(name), [], None)
  {
  }

  /** The machine stands as said after every line of a section's body. */
  lemma {:induction false} BodyStands(norm: Normaliser, name: string, raw: seq<string>) returns (p: Option<nat>)
    requires forall i :: 0 <= i < |raw| ==> !IsHeading(DropCR(raw[i])) && '\n' !in raw[i]
    ensures Stands(Steps(norm, Opened(name), raw), Lines(raw), p)
  {
    p := None;
    if raw == [] {
      StandsAtStart(name);
    } else {
      var n := |raw| - 1;
      var ls, l := Lines(raw[..n]), DropCR(raw[n]);
      p := BodyStands(norm, name, raw[..n]);
      assert Lines(raw) == ls + [l];
      p := LineStands(norm, Steps(norm, Opened(name), raw[..n]), ls, l, p);
    }
  }

  lemma LineStands(norm: Normaliser, s: Machine, ls: seq<string>, l: string, p: Option<nat>) returns (p': Option<nat>)
    requires Stands(s, ls, p) && NoNewlines(ls + [l]) && !IsHeading(l)
    ensures Stands(Step(norm, s, l), ls + [l], p')
  {
    p' := None;
    if IsFence(l) {
      FenceStep(norm, s, ls, l, p);
    } else if Inside(ls) && IsKeyLine(l) {
      KeyStep(norm, s, ls, l, p);
      p' := if Inline(l) == "" then Some(|ls|) else None;
    } else if p.Some? {
      MoreStep(norm, s, ls, l, p.value);
      p' := p;
    } else {
      IdleStep(norm, s, ls, l);
    }
  }

  /** The raw fields of a section: for every key that stands at the start of a line inside a
      fence, the value of its last occurrence, which is the rest of its line without leading
      blanks, or the unindented lines below it up to the next key or fence without empty ones
      at either end; no other lines give anything. */
  lemma SectionFields(norm: Normaliser, name: string, raw: seq<string>)
    requires forall i :: 0 <= i < |raw| ==> !IsHeading(DropCR(raw[i])) && '\n' !in raw[i]
    ensures Given(FlushKey(Steps(norm, Opened(name), raw)).fields, Lines(raw))
  {
    var p := BodyStands(norm, name, raw);
  }

  /** A section, a heading and its lines, gives one host, named by the heading, from the raw
      fields that those lines give; a blank heading gives none. */
  lemma SectionGives(norm: Normaliser, heading: string, raw: seq<string>) returns (fields: map<string, string>)
    requires IsHeading(DropCR(heading)) && forall i :: 0 <= i < |raw| ==> !IsHeading(DropCR(raw[i])) && '\n' !in raw[i]
    ensures Given(fields, Lines(raw))
    ensures var name := TrimSpace(DropCR(heading)[3..]);
            FlushHost(norm, Steps(norm, INIT, [heading] + raw)).hosts == if name == "" then [] else [norm(name, fields)]
  {
    var name := TrimSpace(DropCR(heading)[3..]);
    fields := FlushKey(Steps(norm, Opened(name), raw)).fields;
    SectionFields(norm, name, raw);
    HeadingOpens(norm, heading, raw);
    SectionHost(norm, name, raw);
  }

  /** `LastAt` is the last line inside a fence that gives the key. */
  lemma {:induction false} LastAtIsLast(ls: seq<string>, k: string, i: nat)
    requires i < |ls| && Inside(ls[..i]) && IsKeyLine(ls[i]) && KeyOf(ls[i]) == k
    ensures LastAt(ls, k).Some? && LastAt(ls, k).value >= i
  {
    var n := |ls| - 1;
    if i == n {
      assert ls[..i] == ls[..n];
    } else {
      assert ls[..n][..i] == ls[..i];
      LastAtIsLast(ls[..n], k, i);
    }
  }

  // ----- printed sections

  /** A key and the lines of its value. */
  datatype Field = Field(key: string, lines: seq<string>)

  predicate PlainLine(l: string) {
    TrimBlanks(l) == l && '\n' !in l && (l != "" ==> l[|l| - 1] != '\r')
  }

  predicate Printable(f: Field) {
    && f.key != "" && (forall i :: 0 <= i < |f.key| ==> KeyChar(f.key[i]))
    && (forall i :: 0 <= i < |f.lines| ==> PlainLine(f.lines[i]))
    && (f.lines != [] ==> f.lines[0] != "" && f.lines[|f.lines| - 1] != "")
  }

  /** `KEY: value` for a single line, else `KEY:` with indented lines below. */
  function PrintField(f: Field): seq<string> {
    if |f.lines| == 1 then [f.key + ": " + f.lines[0]] else [f.key + ":"] + Indented(f.lines)
  }

  function Indented(ls: seq<string>): seq<string> {
    if ls == [] then [] else Indented(ls[..|ls| - 1]) + ["  " + ls[|ls| - 1]]
  }

  function PrintFields(fs: seq<Field>): seq<string> {
    if fs == [] then [] else PrintFields(fs[..|fs| - 1]) + PrintField(fs[|fs| - 1])
  }

  const FENCE := "```"

  /** The map the fields stand for; of one key the last wins. */
  function MapOf(fs: seq<Field>): map<string, string> {
    if fs == [] then map[] else MapOf(fs[..|fs| - 1])[fs[|fs| - 1].key := Joined(fs[|fs| - 1].lines)]
  }

  lemma {:induction false} KeyLengthOf(k: string, rest: string)
    requires (forall i :: 0 <= i < |k| ==> KeyChar(k[i])) && (rest != "" ==> !KeyChar(rest[0]))
    ensures KeyLength(k + rest) == |k|
  {
    if k == "" {
      assert k + rest == rest;
    } else {
      assert (k + rest)[0] == k[0] && (k + rest)[1..] == k[1..] + rest;
      KeyLengthOf(k[1..], rest);
    }
  }

  /** A printed key line is one, and gives back key and value. */
  lemma KeyLineReads(k: string, rest: string)
    requires k != "" && forall i :: 0 <= i < |k| ==> KeyChar(k[i])
    ensures var l := k + ":" + rest;
            IsKeyLine(l) && KeyOf(l) == k && Inline(l) == TrimBlanks(rest) && !IsFence(l) && !IsHeading(l)
  {
    var l := k + ":" + rest;
    assert l == k + (":" + rest);
    KeyLengthOf(k, ":" + rest);
    assert l[..|k|] == k && l[|k| + 1..] == rest && l[0] == k[0];
  }

  lemma IndentedReads(l: string)
    ensures !Stops("  " + l) && !IsHeading("  " + l) && TrimBlanks("  " + l) == TrimBlanks(l)
  {
    var s := "  " + l;
    assert s[0] == ' ' && s[1..] == " " + l && s[1..][0] == ' ' && s[1..][1..] == l;
  }

  lemma {:induction false} JoinedPlain(ls: seq<string>)
    requires (forall i :: 0 <= i < |ls| ==> PlainLine(ls[i])) && ls != [] && ls[0] != ""
    ensures Joined(ls) != "" && Joined(ls)[0] != '\n' && Acc(ls) == Joined(ls)
    ensures ls[|ls| - 1] != "" ==> Joined(ls)[|Joined(ls)| - 1] != '\n'
  {
    var n := |ls| - 1;
    if n == 0 {
      assert ls[..0] == [];
    } else {
      JoinedPlain(ls[..n]);
    }
  }

  /** Reading indented lines below a pending key gathers them. */
  lemma {:induction false} IndentedGathers(norm: Normaliser, s: Machine, ls: seq<string>)
    requires s.inBlock && s.inCode && s.curKey != "" && s.curVal == ""
    requires forall i :: 0 <= i < |ls| ==> PlainLine(ls[i])
    ensures Steps(norm, s, Indented(ls)) == s.(curVal := Acc(ls))
  {
    if ls != [] {
      var n := |ls| - 1;
      var l := "  " + ls[n];
      IndentedGathers(norm, s, ls[..n]);
      IndentedReads(ls[n]);
      var raw := Indented(ls[..n]) + [l];
      assert raw[..|raw| - 1] == Indented(ls[..n]) && raw[|raw| - 1] == l;
      IndentedKeepsEnd(ls[n]);
    }
  }

  lemma IndentedKeepsEnd(l: string)
    requires PlainLine(l)
    ensures DropCR("  " + l) == "  " + l
  {
    var s := "  " + l;
    assert s[|s| - 1] == if l == "" then ' ' else l[|l| - 1];
  }

  /** Reading a printed field sets it, whatever was pending. */
  lemma FieldReads(norm: Normaliser, s: Machine, f: Field)
    requires s.inBlock && s.inCode && Printable(f)
    ensures var t := Steps(norm, s, PrintField(f));
            t.inBlock && t.inCode && FlushKey(t).fields == FlushKey(s).fields[f.key := Joined(f.lines)]
  {
    if |f.lines| == 1 { InlineReads(norm, s, f); } else { BlockReads(norm, s, f); }
  }

  lemma InlineReads(norm: Normaliser, s: Machine, f: Field)
    requires s.inBlock && s.inCode && Printable(f) && |f.lines| == 1
    ensures var t := Steps(norm, s, PrintField(f));
            t.inBlock && t.inCode && FlushKey(t).fields == FlushKey(s).fields[f.key := Joined(f.lines)]
  {
    var v := f.lines[0];
    var l := f.key + ": " + v;
    assert l == f.key + ":" + (" " + v) && l[|l| - 1] == v[|v| - 1];
    assert (" " + v)[0] == ' ' && (" " + v)[1..] == v;
    KeyLineReads(f.key, " " + v);
    StepsOne(norm, s, l);
    KeyEffect(norm, s, l);
  }

  /** A bare key line leaves its key pending. */
  lemma BareKeyReads(norm: Normaliser, s: Machine, k: string)
    requires s.inBlock && s.inCode && k != "" && forall i :: 0 <= i < |k| ==> KeyChar(k[i])
    ensures var l := k + ":";
            var t := Step(norm, s, l);
            && DropCR(l) == l && t.inBlock && t.inCode && t.curKey == k && t.curVal == ""
            && FlushKey(t).fields == FlushKey(s).fields[k := ""]
  {
    var l := k + ":";
    assert l == k + ":" + "" && l[|l| - 1] == ':';
    KeyLineReads(k, "");
    KeyEffect(norm, s, l);
  }

  lemma BlockReads(norm: Normaliser, s: Machine, f: Field)
    requires s.inBlock && s.inCode && Printable(f) && |f.lines| != 1
    ensures var t := Steps(norm, s, PrintField(f));
            t.inBlock && t.inCode && FlushKey(t).fields == FlushKey(s).fields[f.key := Joined(f.lines)]
  {
    var l := f.key + ":";
    BareKeyReads(norm, s, f.key);
    StepsOne(norm, s, l);
    var u := Step(norm, s, l);
    StepsConcat(norm, s, [l], Indented(f.lines));
    IndentedGathers(norm, u, f.lines);
    TrimsToJoined(f);
    BlockFlush(s, u, f);
  }

  lemma TrimsToJoined(f: Field)
    requires Printable(f)
    ensures TrimNewlines(Acc(f.lines)) == Joined(f.lines)
  {
    if f.lines != [] { JoinedPlain(f.lines); }
  }

  lemma BlockFlush(s: Machine, u: Machine, f: Field)
    requires u.curKey == f.key != "" && u.curVal == "" && FlushKey(u).fields == FlushKey(s).fields[f.key := ""]
    requires TrimNewlines(Acc(f.lines)) == Joined(f.lines)
    ensures FlushKey(u.(curVal := Acc(f.lines))).fields == FlushKey(s).fields[f.key := Joined(f.lines)]
  {
    assert TrimNewlines("") == "";
    assert FlushKey(u).fields == u.fields[f.key := ""];
    assert u.fields[f.key := Joined(f.lines)] == FlushKey(u).fields[f.key := Joined(f.lines)];
  }

  lemma {:induction false} FieldsRead(norm: Normaliser, s: Machine, fs: seq<Field>)
    requires s.inBlock && s.inCode && FlushKey(s).fields == map[] && forall i :: 0 <= i < |fs| ==> Printable(fs[i])
    ensures var t := Steps(norm, s, PrintFields(fs)); t.inBlock && t.inCode && FlushKey(t).fields == MapOf(fs)
  {
    if fs != [] {
      var n := |fs| - 1;
      FieldsRead(norm, s, fs[..n]);
      StepsConcat(norm, s, PrintFields(fs[..n]), PrintField(fs[n]));
      FieldReads(norm, Steps(norm, s, PrintFields(fs[..n])), fs[n]);
    }
  }

  /** A section printed from fields, inline or as blocks inside a fence, is read back as exactly
      those fields. */
  lemma PrintedFields(norm: Normaliser, name: string, fs: seq<Field>)
    requires forall i :: 0 <= i < |fs| ==> Printable(fs[i])
    ensures FlushKey(Steps(norm, Opened(name), [FENCE] + PrintFields(fs) + [FENCE])).fields == MapOf(fs)
  {
    var s := Opened(name);
    var u := Step(norm, s, FENCE);
    FenceLine();
    StepsOne(norm, s, FENCE);
    FenceEffect(norm, s, FENCE);
    StepsConcat(norm, s, [FENCE], PrintFields(fs));
    FieldsRead(norm, u, fs);
    var t := Steps(norm, u, PrintFields(fs));
    StepsConcat(norm, s, [FENCE] + PrintFields(fs), [FENCE]);
    StepsOne(norm, t, FENCE);
    FenceEffect(norm, t, FENCE);
  }

  lemma FenceLine()
    ensures IsFence(FENCE) && !IsHeading(FENCE) && DropCR(FENCE) == FENCE
  {
    assert FENCE[0] == '`' && "## "[0] == '#';
  }
}
