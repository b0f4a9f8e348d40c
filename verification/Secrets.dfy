/** The secrets stream: the `KEY=value` preamble a parent writes before the NUL, the parser
    on the child's side, and the sorted form the hermes client sends. */
module Secrets {
  import opened Strings

  const NUL := '\0'

  function LineFor(k: string, v: string): string { k + "=" + v }

  /** The lines of `m` in one iteration order. */
  function LinesText(order: seq<string>, m: map<string, string>): string
    requires forall k :: k in order ==> k in m
  {
    if order == [] then "" else LineFor(order[0], m[order[0]]) + "\n" + LinesText(order[1..], m)
  }

  /** The loop of Run that builds the preamble. */
  method BuildPreamble(m: map<string, string>) returns (text: string)
    ensures exists order :: ListsKeys(order, m) && text == LinesText(order, m) + [NUL]
  {
    var order := AnyOrder(m.Keys);
    text := WriteLines(order, m);
    text := text + [NUL];
    assert ListsKeys(order, m);
  }

  method WriteLines(order: seq<string>, m: map<string, string>) returns (text: string)
    requires forall k :: k in order ==> k in m
    ensures text == LinesText(order, m)
  {
    text := "";
    for i := 0 to |order|
      invariant text == LinesText(order[..i], m)
    {
      LinesTextSnoc(order[..i], order[i], m);
      assert order[..i] + [order[i]] == order[..i + 1];
      text := text + LineFor(order[i], m[order[i]]) + "\n";
    }
    assert order[..|order|] == order;
  }

  lemma {:induction false} LinesTextSnoc(order: seq<string>, k: string, m: map<string, string>)
    requires (forall x :: x in order ==> x in m) && k in m
    ensures LinesText(order + [k], m) == LinesText(order, m) + LineFor(k, m[k]) + "\n"
  {
    if order == [] {
      assert [] + [k] == [k] && [k][1..] == [];
      assert LineFor(k, m[k]) + "\n" + "" == "" + LineFor(k, m[k]) + "\n";
    } else {
      LinesTextSnoc(order[1..], k, m);
      assert (order + [k])[1..] == order[1..] + [k];
      var a, b, c := LineFor(order[0], m[order[0]]) + "\n", LinesText(order[1..], m), LineFor(k, m[k]) + "\n";
      assert LinesText(order[1..], m) + LineFor(k, m[k]) + "\n" == b + c;
      assert a + (b + c) == (a + b) + c;
      assert (a + b) + LineFor(k, m[k]) + "\n" == (a + b) + c;
    }
  }

  // ----- the parser

  /** strings.Split at newlines. */
  function Split(s: string): seq<string>
    decreases |s|
  {
    var i := IndexOf(s, '\n');
    if i == |s| then [s] else [s[..i]] + Split(s[i + 1..])
  }

  /** One line's effect: blank lines and lines without a key are skipped. */
  function ParseLine(out: map<string, string>, line: string): map<string, string> {
    var l := TrimSpace(line);
    var i := IndexOf(l, '=');
    if i == 0 || i == |l| then out else out[l[..i] := l[i + 1..]]
  }

  function ParseInto(lines: seq<string>, out: map<string, string>): map<string, string> {
    if lines == [] then out else ParseInto(lines[1..], ParseLine(out, lines[0]))
  }

  function ParseText(s: string): map<string, string> { ParseInto(Split(s), map[]) }

  method ParseLines(s: string) returns (out: map<string, string>)
    ensures out == ParseText(s)
  {
    out := map[];
    var lines := Split(s);
    for i := 0 to |lines|
      invariant ParseInto(lines, map[]) == ParseInto(lines[i..], out)
    {
      assert lines[i..][1..] == lines[i + 1..];
      var line := TrimSpace(lines[i]);
      if line != "" {
        var idx := IndexOf(line, '=');
        if 0 < idx < |line| { out := out[line[..idx] := line[idx + 1..]]; }
      }
    }
  }

  /** Up to the first NUL. */
  function Head(s: string): string { s[..IndexOf(s, NUL)] }

  /** The read loop over whatever chunks the reader returns before its end (`failed`: an
      error other than EOF). None is the error result. */
  method ParseEnvStream(chunks: seq<string>, failed: bool) returns (r: Option<map<string, string>>)
    ensures r == if NUL in Flat(chunks) || !failed then Some(ParseText(Head(Flat(chunks)))) else None
  {
    var buf := "";
    for i := 0 to |chunks|
      invariant buf == Flat(chunks[..i]) && NUL !in buf
    {
      assert chunks[..i + 1][..i] == chunks[..i];
      ghost var before := buf;
      for j := 0 to |chunks[i]|
        invariant buf == before + chunks[i][..j] && NUL !in buf
      {
        if chunks[i][j] == NUL {
          ConcatPrefix(chunks, i + 1);
          var all := Flat(chunks);
          assert buf + [NUL] <= before + chunks[i] <= all;
          assert all[..|buf|] == buf && all[|buf|] == NUL;
          IndexOfIs(all, NUL, |buf|);
          var out := ParseLines(buf);
          return Some(out);
        }
        buf := buf + [chunks[i][j]];
      }
      assert chunks[i][..|chunks[i]|] == chunks[i];
    }
    assert chunks[..|chunks|] == chunks;
    if failed { return None; }
    assert buf[..|buf|] == buf;
    IndexOfIs(buf, NUL, |buf|);
    var out := ParseLines(buf);
    r := Some(out);
  }

  lemma {:induction false} ConcatPrefix(chunks: seq<string>, i: nat)
    requires i <= |chunks|
    ensures Flat(chunks[..i]) <= Flat(chunks)
  {
    if i < |chunks| {
      var n := |chunks| - 1;
      ConcatPrefix(chunks[..n], i);
      assert chunks[..n][..i] == chunks[..i];
    } else {
      assert chunks[..i] == chunks;
    }
  }

  // ----- the sorted form

  predicate BadKeyChar(c: char) { c in {'=', '\n', '\t', ' ', '\r'} }

  predicate EncodableKey(k: string) { k != "" && forall i :: 0 <= i < |k| ==> !BadKeyChar(k[i]) }

  predicate EncodableValue(v: string) { '\n' !in v && '\r' !in v }

  predicate Encodable(m: map<string, string>) {
    m.Keys != {} && forall k :: k in m ==> EncodableKey(k) && EncodableValue(m[k])
  }

  /** encodeSecrets; None is any of its errors. */
  method EncodeSecrets(m: map<string, string>) returns (r: Option<string>)
    ensures r.Some? <==> Encodable(m)
    ensures r.Some? ==> exists order :: ListsKeys(order, m) && StrictlySorted(order) && r.value == LinesText(order, m)
  {
    if m.Keys == {} { return None; }
    var ranged := AnyOrder(m.Keys);
    var keys: seq<string> := [];
    for i := 0 to |ranged|
      invariant keys == ranged[..i] && forall k :: k in keys ==> EncodableKey(k)
    {
      if !EncodableKey(ranged[i]) { return None; }
      keys := keys + [ranged[i]];
    }
    assert ranged[..|ranged|] == ranged;
    keys := SortedCopy(keys);
    assert ListsKeys(keys, m) by { StrictIsDistinct(keys); }
    for i := 0 to |keys|
      invariant forall k :: k in keys[..i] ==> EncodableValue(m[k])
    {
      if !EncodableValue(m[keys[i]]) { return None; }
    }
    assert keys[..|keys|] == keys;
    var text := WriteLines(keys, m);
    r := Some(text);
  }

  lemma StrictIsDistinct(s: seq<string>)
    requires StrictlySorted(s)
    ensures Distinct(s)
  {
    forall i, j | 0 <= i < j < |s| ensures s[i] != s[j] { Trichotomy(s[i], s[j]); }
  }

  // ----- the round trip

  predicate SafeKey(k: string) {
    k != "" && LeadingSpace(k) == 0 && '=' !in k && '\n' !in k && NUL !in k
  }

  predicate SafeValue(v: string) {
    TrailingSpace(v) == 0 && '\n' !in v && NUL !in v
  }

  predicate Safe(m: map<string, string>) { forall k :: k in m ==> SafeKey(k) && SafeValue(m[k]) }

  /** A line made of a safe key and value survives TrimSpace and splits where it was joined. */
  lemma SafeLineParses(out: map<string, string>, k: string, v: string)
    requires SafeKey(k) && SafeValue(v)
    ensures ParseLine(out, LineFor(k, v)) == out[k := v]
  {
    var l := LineFor(k, v);
    assert LeadingSpace(l) == 0 && TrailingSpace(l) == 0;
    assert TrimSpace(l) == l;
    assert l[..|k|] == k && l[|k| + 1..] == v;
    IndexOfIs(l, '=', |k|);
  }

  lemma SplitLine(line: string, rest: string)
    requires '\n' !in line
    ensures Split(line + "\n" + rest) == [line] + Split(rest)
  {
    var s := line + "\n" + rest;
    assert s[..|line|] == line && s[|line|] == '\n' && s[|line| + 1..] == rest;
    IndexOfIs(s, '\n', |line|);
  }

  /** What the lines of `order` add to a map. */
  function Added(out: map<string, string>, order: seq<string>, m: map<string, string>): map<string, string>
    requires forall k :: k in order ==> k in m
  {
    out + map k | k in order :: m[k]
  }

  lemma AddedStep(out: map<string, string>, order: seq<string>, m: map<string, string>)
    requires order != [] && forall k :: k in order ==> k in m
    ensures Added(out[order[0] := m[order[0]]], order[1..], m) == Added(out, order, m)
  {
    assert forall k :: k in order <==> k == order[0] || k in order[1..];
  }

  lemma NothingToParse(out: map<string, string>)
    ensures ParseInto(Split(""), out) == out
  {
    IndexOfIs("", '\n', 0);
    assert Split("") == [""] && [""][1..] == [];
    assert ParseLine(out, "") == out;
    assert ParseInto([""], out) == ParseInto([], ParseLine(out, ""));
  }

  lemma ParseFirst(line: string, rest: string, out: map<string, string>)
    requires '\n' !in line
    ensures ParseInto(Split(line + "\n" + rest), out) == ParseInto(Split(rest), ParseLine(out, line))
  {
    SplitLine(line, rest);
    assert ([line] + Split(rest))[1..] == Split(rest);
  }

  lemma {:induction false} SafeLinesParse(order: seq<string>, m: map<string, string>, out: map<string, string>)
    requires (forall k :: k in order ==> k in m) && Safe(m)
    ensures ParseInto(Split(LinesText(order, m)), out) == Added(out, order, m)
  {
    if order == [] {
      NothingToParse(out);
    } else {
      var k := order[0];
      ParseFirst(LineFor(k, m[k]), LinesText(order[1..], m), out);
      SafeLineParses(out, k, m[k]);
      SafeLinesParse(order[1..], m, out[k := m[k]]);
      AddedStep(out, order, m);
    }
  }

  lemma {:induction false} SplitPieces(s: string, c: char)
    ensures forall l :: l in Split(s) ==> '\n' !in l && (c in l ==> c in s)
    decreases |s|
  {
    var i := IndexOf(s, '\n');
    if i < |s| { SplitPieces(s[i + 1..], c); }
  }

  lemma {:induction false} TrimStartFacts(s: string)
    ensures LeadingSpace(TrimStart(s)) == 0
    ensures forall c :: c in TrimStart(s) ==> c in s
    decreases |s|
  {
    var n := LeadingSpace(s);
    if n != 0 { TrimStartFacts(s[n..]); }
  }

  lemma {:induction false} TrimEndFacts(s: string)
    ensures TrailingSpace(TrimEnd(s)) == 0
    ensures TrimEnd(s) <= s
    decreases |s|
  {
    var n := TrailingSpace(s);
    if n != 0 { TrimEndFacts(s[..|s| - n]); }
  }

  /** Whatever it is fed, the parser produces safe keys and values only. */
  lemma ParsedLineSafe(out: map<string, string>, line: string)
    requires Safe(out) && '\n' !in line && NUL !in line
    ensures Safe(ParseLine(out, line))
  {
    var a := TrimStart(line);
    var l := TrimEnd(a);
    TrimStartFacts(line);
    TrimEndFacts(a);
    var i := IndexOf(l, '=');
    if 0 < i < |l| {
      var k, v := l[..i], l[i + 1..];
      assert l == k + "=" + v;
      assert forall c :: c in l ==> c in a by { assert forall x :: 0 <= x < |l| ==> l[x] == a[x]; }
      PrefixStart(k, a);
      assert SafeKey(k);
      SuffixEnd(v, l);
      assert SafeValue(v);
    }
  }

  lemma PrefixStart(k: string, a: string)
    requires k <= a && LeadingSpace(a) == 0
    ensures LeadingSpace(k) == 0
  {
    assert forall x :: 0 <= x < |k| ==> k[x] == a[x];
  }

  lemma SuffixEnd(v: string, l: string)
    requires |v| <= |l| && l[|l| - |v|..] == v && TrailingSpace(l) == 0
    ensures TrailingSpace(v) == 0
  {
    assert forall x :: 0 <= x < |v| ==> v[x] == l[|l| - |v| + x];
  }

  lemma {:induction false} ParsedSafe(lines: seq<string>, out: map<string, string>)
    requires Safe(out) && forall l :: l in lines ==> '\n' !in l && NUL !in l
    ensures Safe(ParseInto(lines, out))
  {
    if lines != [] {
      ParsedLineSafe(out, lines[0]);
      ParsedSafe(lines[1..], ParseLine(out, lines[0]));
    }
  }

  lemma {:induction false} SafeTextHasNoNul(order: seq<string>, m: map<string, string>)
    requires (forall k :: k in order ==> k in m) && Safe(m)
    ensures NUL !in LinesText(order, m)
  {
    if order != [] { SafeTextHasNoNul(order[1..], m); }
  }

  lemma OwnTextParses(order: seq<string>, m: map<string, string>)
    requires ListsKeys(order, m) && Safe(m)
    ensures ParseText(LinesText(order, m)) == m
  {
    SafeLinesParse(order, m, map[]);
    assert Added(map[], order, m) == m;
  }

  lemma ParsedTextSafe(h: string)
    requires NUL !in h
    ensures Safe(ParseText(h))
  {
    SplitPieces(h, NUL);
    ParsedSafe(Split(h), map[]);
  }

  /** For every iteration order of the printer, every chunking of the reader and any bytes
      after the NUL: the stream parses to the map it was printed from exactly when every
      key is non-empty, does not start with white space and has no '=', newline or NUL,
      and no value ends in white space or has a newline or NUL. */
  lemma StreamRoundTrip(m: map<string, string>, order: seq<string>, stream: string, rest: string)
    requires ListsKeys(order, m) && stream == LinesText(order, m) + [NUL] + rest
    ensures ParseText(Head(stream)) == m <==> Safe(m)
  {
    ParsedTextSafe(Head(stream));
    if Safe(m) {
      var text := LinesText(order, m);
      SafeTextHasNoNul(order, m);
      assert stream[..|text|] == text && stream[|text|] == NUL;
      IndexOfIs(stream, NUL, |text|);
      OwnTextParses(order, m);
    }
  }

  /** The sorted form, which has no NUL and ends with EOF, parses to the same map under the
      same condition. */
  lemma SortedFormRoundTrip(m: map<string, string>, order: seq<string>)
    requires ListsKeys(order, m)
    ensures ParseText(Head(LinesText(order, m))) == m <==> Safe(m)
  {
    ParsedTextSafe(Head(LinesText(order, m)));
    if Safe(m) {
      var text := LinesText(order, m);
      SafeTextHasNoNul(order, m);
      assert text[..|text|] == text;
      IndexOfIs(text, NUL, |text|);
      OwnTextParses(order, m);
    }
  }
}
