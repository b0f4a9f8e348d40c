/** The signed, append-only task ledger: Append, Read and their round trip. */
module Ledgers {
  import opened Strings
  import opened FleetTypes

  /** JSON and ed25519 as functions, with the laws they are used for. `sign` includes the
      base64 step and `verifySig` the length check. */
  datatype Codec = Codec(
    encode: Entry -> string, decode: string -> Option<Entry>,
    sign: string -> string, verifySig: (string, string) -> bool)

  ghost predicate Lawful(c: Codec) {
    && (forall e :: c.decode(c.encode(e)) == Some(e))
    && (forall m :: c.verifySig(m, c.sign(m)))
    && (forall e :: IsObjectText(c.encode(e)))
  }

  /** Compact JSON of a struct: one line between braces. */
  predicate IsObjectText(t: string) {
    |t| >= 2 && t[0] == '{' && t[|t| - 1] == '}' && '\n' !in t
  }

  datatype ReadError = NoFile | ParseError(line: nat) | BadSignature(line: nat) | LineTooLong

  datatype ReadResult = ReadResult(entries: seq<Entry>, err: Option<ReadError>)

  /** The scanner gives up on lines of this many bytes. */
  const MAX_SCAN := 65536

  /** The entry Append signs: time and task id filled in where the caller left them out. */
  function Stamp(taskId: string, e: Entry, now: Time): Entry {
    e.(ts := if e.ts == 0 then now else e.ts, taskId := if e.taskId == "" then taskId else e.taskId)
  }

  function Sign(c: Codec, e: Entry): Entry {
    e.(sig := c.sign(c.encode(e.(sig := ""))))
  }

  /** The text Append writes, newline excluded. */
  function LineOf(c: Codec, taskId: string, e: Entry, now: Time): string {
    c.encode(Sign(c, Stamp(taskId, e, now)))
  }

  predicate Verify(c: Codec, e: Entry) {
    c.verifySig(c.encode(e.(sig := "")), e.sig)
  }

  function ReadLines(c: Codec, lines: seq<string>, k: nat, acc: seq<Entry>): ReadResult
    requires k <= |lines|
    decreases |lines| - k
  {
    if k == |lines| then ReadResult(acc, None)
    else if |lines[k]| >= MAX_SCAN then ReadResult(acc, Some(LineTooLong))
    else
      var raw := TrimSpace(lines[k]);
      if raw == "" then ReadLines(c, lines, k + 1, acc)
      else match c.decode(raw)
        case None => ReadResult([], Some(ParseError(k + 1)))
        case Some(e) =>
          if !Verify(c, e) then ReadResult([], Some(BadSignature(k + 1)))
          else ReadLines(c, lines, k + 1, acc + [e])
  }

  /** What Read makes of a file's text. */
  function ReadText(c: Codec, text: string): ReadResult { ReadLines(c, ScanLines(text), 0, []) }

  /** How one Append meets the disk: every call succeeds, the directory or the file cannot be
      opened, or an error is returned with so many bytes in the file. */
  datatype Fault = NoFault | Unopened | Cut(bytes: nat)

  datatype AppendEnv = AppendEnv(now: Time, fault: Fault)

  /** A task file after an attempt to append `e`: whole, or cut off where the disk failed. */
  function TextAfter(c: Codec, canSign: bool, taskId: string, text: string, e: Entry, env: AppendEnv): (t: string)
    ensures text <= t
    ensures canSign && env.fault.NoFault? ==> t == text + LineOf(c, taskId, e, env.now) + "\n"
  {
    var line := LineOf(c, taskId, e, env.now) + "\n";
    if !canSign || env.fault.Unopened? then text
    else if env.fault.Cut? && env.fault.bytes < |line| then text + line[..env.fault.bytes]
    else text + line
  }

  class Ledger {
    const codec: Codec
    /** False for a ledger opened read-only. */
    const canSign: bool
    /** The text of each task's file. */
    var files: map<string, string>

    constructor (codec: Codec, canSign: bool, files: map<string, string>)
      ensures this.codec == codec && this.canSign == canSign && this.files == files
    {
      this.codec, this.canSign, this.files := codec, canSign, files;
    }

    ghost function Text(taskId: string): string
      reads this
    {
      if taskId in files then files[taskId] else ""
    }

    method Append(taskId: string, e: Entry, env: AppendEnv) returns (ok: bool)
      modifies this`files
      ensures ok <==> canSign && env.fault.NoFault?
      ensures Text(taskId) == TextAfter(codec, canSign, taskId, old(Text(taskId)), e, env)
      ensures taskId in files <==> taskId in old(files) || (canSign && !env.fault.Unopened?)
      ensures forall other :: other != taskId ==> (other in files <==> other in old(files)) && Text(other) == old(Text(other))
    {
      if !canSign { return false; }
      if env.fault.Unopened? { return false; }
      var before := if taskId in files then files[taskId] else "";
      files := files[taskId := TextAfter(codec, canSign, taskId, before, e, env)];
      ok := env.fault.NoFault?;
    }

    method Read(taskId: string) returns (r: ReadResult)
      ensures taskId !in files ==> r == ReadResult([], Some(NoFile))
      ensures taskId in files ==> r == ReadText(codec, files[taskId])
    {
      if taskId !in files { return ReadResult([], Some(NoFile)); }
      var lines := ScanLines(files[taskId]);
      var entries: seq<Entry> := [];
      var k := 0;
      while k < |lines|
        invariant 0 <= k <= |lines|
        invariant ReadLines(codec, lines, 0, []) == ReadLines(codec, lines, k, entries)
      {
        if |lines[k]| >= MAX_SCAN { return ReadResult(entries, Some(LineTooLong)); }
        var raw := TrimSpace(lines[k]);
        if raw != "" {
          var d := codec.decode(raw);
          if d.None? { return ReadResult([], Some(ParseError(k + 1))); }
          if !Verify(codec, d.value) { return ReadResult([], Some(BadSignature(k + 1))); }
          entries := entries + [d.value];
        }
        k := k + 1;
      }
      r := ReadResult(entries, None);
    }
  }

  // ----- the round trip

  /** What a file holds after appending `es` one after another to `text`. */
  function Appended(c: Codec, taskId: string, text: string, es: seq<Entry>, now: nat -> Time): string {
    if es == [] then text
    else Appended(c, taskId, text, es[..|es| - 1], now) + LineOf(c, taskId, es[|es| - 1], now(|es| - 1)) + "\n"
  }

  function SignedEntries(c: Codec, taskId: string, es: seq<Entry>, now: nat -> Time): seq<Entry> {
    seq(|es|, k requires 0 <= k < |es| => Sign(c, Stamp(taskId, es[k], now(k))))
  }

  function LinesOf(c: Codec, taskId: string, es: seq<Entry>, now: nat -> Time): seq<string> {
    seq(|es|, k requires 0 <= k < |es| => LineOf(c, taskId, es[k], now(k)))
  }

  lemma ObjectTextTrims(t: string)
    requires IsObjectText(t)
    ensures TrimSpace(t) == t
  {
  }

  lemma ScanAppendedLine(before: string, line: string)
    requires Complete(before) && '\n' !in line
    ensures Complete(before + line + "\n")
    ensures ScanLines(before + line + "\n") == ScanLines(before) + [line]
  {
    ScanOneLine(line);
    ScanLinesConcat(before, line + "\n");
    assert before + line + "\n" == before + (line + "\n");
  }

  lemma {:induction false} AppendedScans(c: Codec, taskId: string, text: string, es: seq<Entry>, now: nat -> Time)
    requires Lawful(c) && Complete(text)
    ensures Complete(Appended(c, taskId, text, es, now))
    ensures ScanLines(Appended(c, taskId, text, es, now)) == ScanLines(text) + LinesOf(c, taskId, es, now)
  {
    if es != [] {
      var n := |es| - 1;
      AppendedScans(c, taskId, text, es[..n], now);
      LinesOfNext(c, taskId, es, now);
      var line, before, own := LineOf(c, taskId, es[n], now(n)), Appended(c, taskId, text, es[..n], now), LinesOf(c, taskId, es[..n], now);
      assert IsObjectText(line);
      ScanAppendedLine(before, line);
      Reassociate(ScanLines(text), own, [line]);
    }
  }

  lemma LinesOfNext(c: Codec, taskId: string, es: seq<Entry>, now: nat -> Time)
    requires es != []
    ensures var n := |es| - 1;
            LinesOf(c, taskId, es, now) == LinesOf(c, taskId, es[..n], now) + [LineOf(c, taskId, es[n], now(n))]
  {
  }

  /** Lines that read well are read the same whatever follows them. */
  lemma {:induction false} ReadOn(c: Codec, a: seq<string>, b: seq<string>, k: nat, acc: seq<Entry>, prev: seq<Entry>)
    requires k <= |a| && ReadLines(c, a, k, acc) == ReadResult(prev, None)
    ensures ReadLines(c, a + b, k, acc) == ReadLines(c, a + b, |a|, prev)
    decreases |a| - k
  {
    if k < |a| {
      assert (a + b)[k] == a[k];
      var raw := TrimSpace(a[k]);
      if raw == "" {
        ReadOn(c, a, b, k + 1, acc, prev);
      } else {
        ReadOn(c, a, b, k + 1, acc + [c.decode(raw).value], prev);
      }
    }
  }

  /** A line of Append's own is decoded, verified and kept. */
  lemma ReadsOwnLine(c: Codec, taskId: string, e: Entry, now: Time, lines: seq<string>, k: nat, acc: seq<Entry>)
    requires Lawful(c) && k < |lines| && lines[k] == LineOf(c, taskId, e, now) && |lines[k]| < MAX_SCAN
    ensures ReadLines(c, lines, k, acc) == ReadLines(c, lines, k + 1, acc + [Sign(c, Stamp(taskId, e, now))])
  {
    var signed := Sign(c, Stamp(taskId, e, now));
    ObjectTextTrims(lines[k]);
    var u := Stamp(taskId, e, now).(sig := "");
    assert signed.(sig := "") == u && signed.sig == c.sign(c.encode(u));
  }

  lemma NextPrefix(prev: seq<Entry>, es: seq<Entry>, k: nat)
    requires k < |es|
    ensures prev + es[..k] + [es[k]] == prev + es[..k + 1]
  {
  }

  lemma {:induction false} ReadsOwnLines(c: Codec, taskId: string, es: seq<Entry>, now: nat -> Time, a: seq<string>, k: nat, prev: seq<Entry>)
    requires Lawful(c) && k <= |es|
    requires forall j :: 0 <= j < |es| ==> |LinesOf(c, taskId, es, now)[j]| < MAX_SCAN
    ensures ReadLines(c, a + LinesOf(c, taskId, es, now), |a| + k, prev + SignedEntries(c, taskId, es, now)[..k])
         == ReadResult(prev + SignedEntries(c, taskId, es, now), None)
    decreases |es| - k
  {
    var own, signed := LinesOf(c, taskId, es, now), SignedEntries(c, taskId, es, now);
    var lines := a + own;
    if k == |es| {
      assert signed[..k] == signed;
    } else {
      assert lines[|a| + k] == own[k];
      ReadsOwnLine(c, taskId, es[k], now(k), lines, |a| + k, prev + signed[..k]);
      NextPrefix(prev, signed, k);
      ReadsOwnLines(c, taskId, es, now, a, k + 1, prev);
    }
  }

  lemma {:induction false} LongLineFails(c: Codec, lines: seq<string>, k: nat, acc: seq<Entry>)
    requires k <= |lines| && exists j :: k <= j < |lines| && |lines[j]| >= MAX_SCAN
    ensures ReadLines(c, lines, k, acc).err.Some?
    decreases |lines| - k
  {
    if |lines[k]| < MAX_SCAN {
      var raw := TrimSpace(lines[k]);
      if raw == "" {
        LongLineFails(c, lines, k + 1, acc);
      } else if c.decode(raw).Some? {
        LongLineFails(c, lines, k + 1, acc + [c.decode(raw).value]);
      }
    }
  }

  /** Every line of the appended entries fits the scanner's buffer. */
  predicate Fit(c: Codec, taskId: string, es: seq<Entry>, now: nat -> Time) {
    forall k :: 0 <= k < |es| ==> |LineOf(c, taskId, es[k], now(k))| < MAX_SCAN
  }

  /** Entries appended to a file that reads well, new or not, read back after the earlier ones
      as themselves, stamped and signed, exactly when every line fits the scanner's buffer: a
      longer entry is accepted by Append and makes the whole task unreadable. */
  lemma ReadBack(c: Codec, taskId: string, text: string, prev: seq<Entry>, es: seq<Entry>, now: nat -> Time)
    requires Lawful(c) && Complete(text) && ReadText(c, text) == ReadResult(prev, None)
    ensures ReadText(c, Appended(c, taskId, text, es, now)) == ReadResult(prev + SignedEntries(c, taskId, es, now), None)
       <==> Fit(c, taskId, es, now)
  {
    AppendedScans(c, taskId, text, es, now);
    var a, own := ScanLines(text), LinesOf(c, taskId, es, now);
    ReadOn(c, a, own, 0, [], prev);
    if Fit(c, taskId, es, now) {
      ReadsOwnLines(c, taskId, es, now, a, 0, prev);
      assert prev + SignedEntries(c, taskId, es, now)[..0] == prev;
    } else {
      UnfitFails(c, taskId, es, now, a, prev);
    }
  }

  lemma UnfitFails(c: Codec, taskId: string, es: seq<Entry>, now: nat -> Time, a: seq<string>, prev: seq<Entry>)
    requires !Fit(c, taskId, es, now)
    ensures ReadLines(c, a + LinesOf(c, taskId, es, now), |a|, prev).err.Some?
  {
    var own := LinesOf(c, taskId, es, now);
    var k :| 0 <= k < |es| && |LineOf(c, taskId, es[k], now(k))| >= MAX_SCAN;
    assert (a + own)[|a| + k] == own[k];
    LongLineFails(c, a + own, |a|, prev);
  }

  /** What is wrong with the line, numbered from 0, if anything is. */
  function Flaw(c: Codec, line: string, k: nat): Option<ReadError> {
    if |line| >= MAX_SCAN then Some(LineTooLong)
    else if TrimSpace(line) == "" then None
    else match c.decode(TrimSpace(line))
      case None => Some(ParseError(k + 1))
      case Some(e) => if Verify(c, e) then None else Some(BadSignature(k + 1))
  }

  /** The entries of the lines that are not blank. */
  function Decoded(c: Codec, lines: seq<string>): seq<Entry> {
    if lines == [] then [] else
      var d := if TrimSpace(lines[0]) == "" then None else c.decode(TrimSpace(lines[0]));
      (if d.Some? then [d.value] else []) + Decoded(c, lines[1..])
  }

  /** Read gives every entry if and only if no line is flawed; else its error is that of the
      first flawed line, with that line's number, and no line after it counts. */
  lemma {:induction false} ReadFlaws(c: Codec, lines: seq<string>, k: nat, acc: seq<Entry>)
    requires k <= |lines|
    ensures var r := ReadLines(c, lines, k, acc);
            && (r.err.None? <==> forall j :: k <= j < |lines| ==> Flaw(c, lines[j], j).None?)
            && (r.err.None? ==> r.entries == acc + Decoded(c, lines[k..]))
            && (r.err.Some? ==> exists j :: k <= j < |lines| && Flaw(c, lines[j], j) == r.err
                                            && forall i :: k <= i < j ==> Flaw(c, lines[i], i).None?)
    decreases |lines| - k
  {
    if k == |lines| {
      assert lines[k..] == [];
    } else if Flaw(c, lines[k], k).None? {
      var raw := TrimSpace(lines[k]);
      assert lines[k..][0] == lines[k] && lines[k..][1..] == lines[k + 1..];
      var acc' := if raw == "" then acc else acc + [c.decode(raw).value];
      ReadFlaws(c, lines, k + 1, acc');
      assert acc' + Decoded(c, lines[k + 1..]) == acc + Decoded(c, lines[k..]);
    }
  }

  /** Whatever is in the file, Read hands out only entries whose signature verifies. */
  lemma {:induction false} ReadVerified(c: Codec, lines: seq<string>, k: nat, acc: seq<Entry>)
    requires k <= |lines| && forall e :: e in acc ==> Verify(c, e)
    ensures forall e :: e in ReadLines(c, lines, k, acc).entries ==> Verify(c, e)
    decreases |lines| - k
  {
    if k < |lines| && |lines[k]| < MAX_SCAN {
      var raw := TrimSpace(lines[k]);
      if raw == "" {
        ReadVerified(c, lines, k + 1, acc);
      } else if c.decode(raw).Some? && Verify(c, c.decode(raw).value) {
        ReadVerified(c, lines, k + 1, acc + [c.decode(raw).value]);
      }
    }
  }
}
