/** One pairing's budget file: Consume, Check, Get and SetLimits calls from any number of
    processes serialise on the pairing's flock; a process may be killed and the machine
    may lose power between any two steps of a save. */
module Budget {
  import opened Strings

  const DEFAULT_REQUESTS := 1000
  const DEFAULT_COST := 10_000

  /** int64 addition wraps around. */
  function Wrap64(x: int): (r: int)
    ensures -0x8000_0000_0000_0000 <= r < 0x8000_0000_0000_0000
    ensures InInt64(x) ==> r == x
  {
    (x + 0x8000_0000_0000_0000) % 0x1_0000_0000_0000_0000 - 0x8000_0000_0000_0000
  }

  predicate InInt64(x: int) { -0x8000_0000_0000_0000 <= x < 0x8000_0000_0000_0000 }

  /** The JSON document; `date` is the number of a calendar day. */
  datatype Doc = Doc(date: nat, requests: int, cost: int, maxRequests: int, maxCost: int)

  /** What reading a file gives: nothing there, a document, or bytes that do not parse.
      `counted` and `limits` are history: the Consume calls the counters stand for, and the
      SetLimits calls that went into the document, in order. */
  datatype File = Absent | Whole(doc: Doc, counted: seq<nat>, limits: seq<nat>) | Torn

  datatype Op = Consume(cost: int) | Check(cost: int) | Get | SetLimits(requests: int, maxCost: int)

  datatype Verdict = Admit | RateLimit | CostCap

  function Load(f: File, today: nat): Doc {
    if f.Whole? then f.doc else Doc(today, 0, 0, DEFAULT_REQUESTS, DEFAULT_COST)
  }

  function RollDay(d: Doc, today: nat): Doc {
    if d.date == today then d else d.(date := today, requests := 0, cost := 0)
  }

  /** The shared test of Check and Consume, on a document already rolled to today. */
  function Judge(d: Doc, cost: int): Verdict {
    if d.requests >= d.maxRequests then RateLimit
    else if Wrap64(d.cost + cost) > d.maxCost then CostCap
    else Admit
  }

  function Charge(d: Doc, cost: int): Doc {
    d.(requests := d.requests + 1, cost := Wrap64(d.cost + cost))
  }

  function Limited(d: Doc, requests: int, maxCost: int): Doc {
    d.(maxRequests := if requests > 0 then requests else d.maxRequests,
       maxCost := if maxCost > 0 then maxCost else d.maxCost)
  }

  /** The calls a document rolled to today stands for. */
  function Rolled(f: File, today: nat): seq<nat> {
    if f.Whole? && f.doc.date == today then f.counted else []
  }

  function Settings(f: File): seq<nat> { if f.Whole? then f.limits else [] }

  /** The stages of save: the document is encoded, the temporary file opened and truncated,
      written, synced and closed; the rename comes next. */
  datatype Stage = Encoded | Open | Written | Synced | Closed

  /** `Saved` is past the rename and before the directory sync; `Dead` was killed or lost
      power in flight. */
  datatype Pc =
    | Idle | Locked | Saving(f: File, stage: Stage) | Saved
    | Acked | Refused(v: Verdict) | Answered(v: Verdict) | Shown(d: Doc) | Failed | Dead

  /** `day` is the day on which the call read the file. */
  datatype Call = Call(op: Op, pc: Pc, day: nat)

  // ----- the disk

  /** A file's bytes as running processes see them and as they are on the platter. */
  datatype Inode = Inode(vol: File, dur: File)

  /** Which inodes the pairing's file name and its `.tmp` name stand for. */
  datatype Dir = Dir(path: Option<nat>, temp: Option<nat>)

  /** `durDir` is the directory as a power loss would leave it. */
  datatype Disk = Disk(inodes: seq<Inode>, dir: Dir, durDir: Dir)

  predicate In(d: Disk, k: Option<nat>) { k.Some? ==> k.value < |d.inodes| }

  /** What a reader of the file finds now. */
  function Seen(d: Disk): File {
    if d.dir.path.Some? && d.dir.path.value < |d.inodes| then d.inodes[d.dir.path.value].vol else Absent
  }

  /** What a reader would find after a power loss. */
  function Kept(d: Disk): File {
    if d.durDir.path.Some? && d.durDir.path.value < |d.inodes| then d.inodes[d.durDir.path.value].dur else Absent
  }

  /** O_CREATE and O_TRUNC: a left-over temporary file is emptied in memory, its old bytes
      may stay on the platter. An empty file does not parse. */
  function OpenTemp(d: Disk): Disk {
    if d.dir.temp.Some? && d.dir.temp.value < |d.inodes|
    then SetTemp(d, d.inodes[d.dir.temp.value].(vol := Torn))
    else d.(inodes := d.inodes + [Inode(Torn, Torn)], dir := d.dir.(temp := Some(|d.inodes|)))
  }

  function SetTemp(d: Disk, n: Inode): Disk {
    if d.dir.temp.Some? && d.dir.temp.value < |d.inodes| then d.(inodes := d.inodes[d.dir.temp.value := n]) else d
  }

  function Temp(d: Disk): Inode {
    if d.dir.temp.Some? && d.dir.temp.value < |d.inodes| then d.inodes[d.dir.temp.value] else Inode(Torn, Torn)
  }

  /** The disk after one stage of a save. */
  function SaveDisk(d: Disk, f: File, g: Stage): Disk {
    match g
    case Encoded => OpenTemp(d)
    case Open => SetTemp(d, Temp(d).(vol := f))
    case Written => SetTemp(d, Temp(d).(dur := Temp(d).vol))
    case _ => d
  }

  /** The rename: the file name now stands for what was the temporary file. */
  function RenameDisk(d: Disk): Disk { d.(dir := Dir(d.dir.temp, None)) }

  function SyncDir(d: Disk): Disk { d.(durDir := d.dir) }

  /** Memory is lost: bytes and names are what the platter holds. */
  function LosePower(d: Disk): Disk {
    d.(inodes := seq(|d.inodes|, k requires 0 <= k < |d.inodes| => d.inodes[k].(vol := d.inodes[k].dur)), dir := d.durDir)
  }

  datatype State = State(today: nat, disk: Disk, holder: Option<nat>, calls: seq<Call>)

  /** `Partial` is a write that has put down some bytes, `Flush` the kernel writing an inode
      back, `Tear` writing back only part of it, `FlushDir` writing the directory back. */
  datatype Act =
    | Lock(i: nat) | Read(i: nat) | Save(i: nat) | Rename(i: nat) | Finish(i: nat, synced: bool)
    | Fault(i: nat, removed: bool) | Kill(i: nat) | NextDay | PowerLoss
    | Partial(i: nat) | Flush(k: nat) | Tear(k: nat) | FlushDir

  predicate Holds(s: State, i: nat) { i < |s.calls| && s.holder == Some(i) }

  predicate Enabled(s: State, a: Act) {
    match a
    case Lock(i) => i < |s.calls| && s.calls[i].pc.Idle? && s.holder == None
    case Read(i) => Holds(s, i) && s.calls[i].pc.Locked?
    case Save(i) => Holds(s, i) && s.calls[i].pc.Saving? && s.calls[i].pc.stage != Closed
    case Rename(i) => Holds(s, i) && s.calls[i].pc.Saving? && s.calls[i].pc.stage == Closed
    case Finish(i, _) => Holds(s, i) && s.calls[i].pc.Saved?
    case Fault(i, _) => Holds(s, i) && (s.calls[i].pc.Locked? || s.calls[i].pc.Saving?)
    case Kill(i) => Holds(s, i)
    case Partial(i) => Holds(s, i) && s.calls[i].pc.Saving? && s.calls[i].pc.stage == Open
    case Flush(k) => k < |s.disk.inodes|
    case Tear(k) => k < |s.disk.inodes| && s.disk.inodes[k].vol != s.disk.inodes[k].dur
    case _ => true
  }

  /** What the call does with the file it has read. */
  function Decide(c: Call, i: nat, f: File, today: nat): Pc {
    var d := RollDay(Load(f, today), today);
    if f.Torn? then Failed
    else match c.op
      case Consume(cost) =>
        if Judge(d, cost) != Admit then Refused(Judge(d, cost))
        else Saving(Whole(Charge(d, cost), Rolled(f, today) + [i], Settings(f)), Encoded)
      case Check(cost) => Answered(Judge(d, cost))
      case Get => Shown(d)
      case SetLimits(r, m) => 
        Saving(Whole(Limited(Load(f, today), r, m), if f.Whole? then f.counted else [], Settings(f) + [i]), Encoded)
  }

  function NextStage(g: Stage): Stage {
    match g case Encoded => Open case Open => Written case Written => Synced case _ => Closed
  }

  function SetPc(calls: seq<Call>, i: nat, pc: Pc): seq<Call>
    requires i < |calls|
  {
    calls[i := calls[i].(pc := pc)]
  }

  function Step(s: State, a: Act): State
    requires Enabled(s, a)
  {
    match a
    case Lock(i) => s.(calls := SetPc(s.calls, i, Locked), holder := Some(i))
    case Read(i) =>
      var pc := Decide(s.calls[i], i, Seen(s.disk), s.today);
      s.(calls := s.calls[i := s.calls[i].(pc := pc, day := s.today)],
         holder := if pc.Saving? then s.holder else None)
    case Save(i) =>
      var pc := s.calls[i].pc;
      s.(calls := SetPc(s.calls, i, pc.(stage := NextStage(pc.stage))), disk := SaveDisk(s.disk, pc.f, pc.stage))
    case Rename(i) => s.(calls := SetPc(s.calls, i, Saved), disk := RenameDisk(s.disk))
    case Finish(i, synced) =>
      s.(calls := SetPc(s.calls, i, Acked), holder := None, disk := if synced then SyncDir(s.disk) else s.disk)
    case Fault(i, removed) =>
      s.(calls := SetPc(s.calls, i, Failed), holder := None,
         disk := if removed then s.disk.(dir := s.disk.dir.(temp := None)) else s.disk)
    case Kill(i) => s.(calls := SetPc(s.calls, i, Dead), holder := None)
    case NextDay => s.(today := s.today + 1)
    case PowerLoss => s.(disk := LosePower(s.disk), holder := None, calls := KillHolder(s.calls, s.holder))
    case Partial(i) => s.(disk := SetTemp(s.disk, Temp(s.disk).(vol := Torn)))
    case Flush(k) => s.(disk := s.disk.(inodes := s.disk.inodes[k := s.disk.inodes[k].(dur := s.disk.inodes[k].vol)]))
    case Tear(k) => s.(disk := s.disk.(inodes := s.disk.inodes[k := s.disk.inodes[k].(dur := Torn)]))
    case FlushDir => s.(disk := SyncDir(s.disk))
  }

  function KillHolder(calls: seq<Call>, holder: Option<nat>): seq<Call> {
    if holder.Some? && holder.value < |calls| then SetPc(calls, holder.value, Dead) else calls
  }

  predicate Legal(s: State, acts: seq<Act>)
    decreases |acts|
  {
    acts == [] || (Enabled(s, acts[0]) && Legal(Step(s, acts[0]), acts[1..]))
  }

  function After(s: State, acts: seq<Act>): State
    requires Legal(s, acts)
    decreases |acts|
  {
    if acts == [] then s else After(Step(s, acts[0]), acts[1..])
  }

  predicate Initial(s: State) {
    s.disk == Disk([], Dir(None, None), Dir(None, None)) && s.holder == None && forall i :: 0 <= i < |s.calls| ==> s.calls[i].pc.Idle?
  }

  // ----- the books: a file that is always whole

  /** The simple form: one document seen, one that survives, both replaced at a stroke. */
  datatype Books = Books(today: nat, vol: File, dur: File, holder: Option<nat>, calls: seq<Call>)

  function View(s: State): Books { Books(s.today, Seen(s.disk), Kept(s.disk), s.holder, s.calls) }

  predicate Opens(b: Books, a: Act) {
    match a
    case Lock(i) => i < |b.calls| && b.calls[i].pc.Idle? && b.holder == None
    case Read(i) => i < |b.calls| && b.holder == Some(i) && b.calls[i].pc.Locked?
    case Save(i) => i < |b.calls| && b.holder == Some(i) && b.calls[i].pc.Saving?
    case Rename(i) => i < |b.calls| && b.holder == Some(i) && b.calls[i].pc.Saving?
    case Finish(i, _) => i < |b.calls| && b.holder == Some(i) && b.calls[i].pc.Saved?
    case Fault(i, _) => i < |b.calls| && b.holder == Some(i) && (b.calls[i].pc.Locked? || b.calls[i].pc.Saving?)
    case Kill(i) => i < |b.calls| && b.holder == Some(i)
    case _ => true
  }

  function BookStep(b: Books, a: Act): Books
    requires Opens(b, a)
  {
    match a
    case Lock(i) => b.(calls := SetPc(b.calls, i, Locked), holder := Some(i))
    case Read(i) =>
      var pc := Decide(b.calls[i], i, b.vol, b.today);
      b.(calls := b.calls[i := b.calls[i].(pc := pc, day := b.today)],
         holder := if pc.Saving? then b.holder else None)
    case Save(i) => b.(calls := SetPc(b.calls, i, b.calls[i].pc.(stage := NextStage(b.calls[i].pc.stage))))
    case Rename(i) => b.(calls := SetPc(b.calls, i, Saved), vol := b.calls[i].pc.f)
    case Finish(i, synced) => b.(calls := SetPc(b.calls, i, Acked), holder := None, dur := if synced then b.vol else b.dur)
    case Fault(i, _) => b.(calls := SetPc(b.calls, i, Failed), holder := None)
    case Kill(i) => b.(calls := SetPc(b.calls, i, Dead), holder := None)
    case NextDay => b.(today := b.today + 1)
    case FlushDir => b.(dur := b.vol)
    case PowerLoss => b.(vol := b.dur, holder := None, calls := KillHolder(b.calls, b.holder))
    case _ => b
  }

  // ----- the save procedure refines the books

  predicate AtLeast(g: Stage, h: Stage) { Rank(g) >= Rank(h) }

  function Rank(g: Stage): nat { match g case Encoded => 0 case Open => 1 case Written => 2 case Synced => 3 case Closed => 4 }

  /** The inode a name stands for holds the same bytes in memory and on the platter. */
  predicate Settled(d: Disk, k: Option<nat>) {
    k.Some? && k.value < |d.inodes| ==> d.inodes[k.value].vol == d.inodes[k.value].dur
  }

  /** Names do not share inodes, and both the visible and the durable file are settled. */
  predicate DiskOk(d: Disk) {
    && In(d, d.dir.path) && In(d, d.dir.temp) && In(d, d.durDir.path) && In(d, d.durDir.temp)
    && (d.dir.temp.Some? ==> d.dir.temp != d.dir.path && d.dir.temp != d.durDir.path)
    && (d.durDir.temp.Some? ==> d.durDir.temp != d.durDir.path)
    && Settled(d, d.dir.path) && Settled(d, d.durDir.path)
  }

  /** How far the temporary file of a save has come. */
  predicate TempOk(d: Disk, f: File, g: Stage) {
    && (AtLeast(g, Open) ==> d.dir.temp.Some?)
    && (AtLeast(g, Written) ==> Temp(d).vol == f)
    && (AtLeast(g, Synced) ==> Temp(d).dur == f)
  }

  ghost predicate SaveInv(s: State) {
    && DiskOk(s.disk)
    && (forall i :: 0 <= i < |s.calls| && s.calls[i].pc.Saving? ==>
          s.holder == Some(i) && TempOk(s.disk, s.calls[i].pc.f, s.calls[i].pc.stage))
  }

  lemma SaveDiskOk(d: Disk, f: File, g: Stage)
    requires DiskOk(d) && TempOk(d, f, g)
    ensures var e := SaveDisk(d, f, g);
            DiskOk(e) && TempOk(e, f, NextStage(g)) && Seen(e) == Seen(d) && Kept(e) == Kept(d)
  {
  }

  lemma RenameDiskOk(d: Disk, f: File)
    requires DiskOk(d) && TempOk(d, f, Closed)
    ensures DiskOk(RenameDisk(d)) && Seen(RenameDisk(d)) == f && Kept(RenameDisk(d)) == Kept(d)
  {
  }

  lemma LosePowerOk(d: Disk)
    requires DiskOk(d)
    ensures DiskOk(LosePower(d)) && Seen(LosePower(d)) == Kept(LosePower(d)) == Kept(d)
  {
  }

  lemma PartialOk(d: Disk)
    requires DiskOk(d)
    ensures var e := SetTemp(d, Temp(d).(vol := Torn));
            DiskOk(e) && Seen(e) == Seen(d) && Kept(e) == Kept(d) && e.dir == d.dir
  {
  }

  lemma FlushOk(d: Disk, k: nat, f: File)
    requires DiskOk(d) && k < |d.inodes| && (f == d.inodes[k].vol || d.inodes[k].vol != d.inodes[k].dur)
    ensures var e := d.(inodes := d.inodes[k := d.inodes[k].(dur := f)]);
            DiskOk(e) && Seen(e) == Seen(d) && Kept(e) == Kept(d)
            && forall x, g :: TempOk(d, x, g) ==> TempOk(e, x, g)
  {
  }

  /** Because the bytes are synced before the rename, the save procedure on a disk that may
      tear, delay or lose anything unsynced looks like a file replaced at a stroke. */
  lemma Refines(s: State, a: Act)
    requires SaveInv(s) && Enabled(s, a)
    ensures SaveInv(Step(s, a)) && Opens(View(s), a) && View(Step(s, a)) == BookStep(View(s), a)
  {
    match a
    case Save(i) => RefinesSave(s, i);
    case Rename(i) => RenameDiskOk(s.disk, s.calls[i].pc.f);
    case PowerLoss => LosePowerOk(s.disk);
    case Flush(k) => FlushOk(s.disk, k, s.disk.inodes[k].vol);
    case Tear(k) => FlushOk(s.disk, k, Torn);
    case Partial(i) => PartialOk(s.disk);
    case Fault(i, removed) => RefinesFault(s, i, removed);
    case _ => RefinesCall(s, a);
  }

  lemma RefinesSave(s: State, i: nat)
    requires SaveInv(s) && Enabled(s, Save(i))
    ensures SaveInv(Step(s, Save(i))) && View(Step(s, Save(i))) == BookStep(View(s), Save(i))
  {
    SaveDiskOk(s.disk, s.calls[i].pc.f, s.calls[i].pc.stage);
  }

  lemma RefinesFault(s: State, i: nat, removed: bool)
    requires SaveInv(s) && Enabled(s, Fault(i, removed))
    ensures var t := Step(s, Fault(i, removed)); SaveInv(t) && View(t) == BookStep(View(s), Fault(i, removed))
  {
  }

  /** Steps that leave all bytes alone. */
  lemma RefinesCall(s: State, a: Act)
    requires SaveInv(s) && Enabled(s, a)
    requires a.Lock? || a.Read? || a.Finish? || a.Kill? || a.NextDay? || a.FlushDir?
    ensures SaveInv(Step(s, a)) && Opens(View(s), a) && View(Step(s, a)) == BookStep(View(s), a)
  {
  }

  // ----- accounting

  function CostOf(c: Call): int { if c.op.Consume? then c.op.cost else 0 }

  ghost function Spent(calls: seq<Call>, counted: seq<nat>): int
    requires forall k :: 0 <= k < |counted| ==> counted[k] < |calls|
  {
    if counted == [] then 0
    else Spent(calls, counted[..|counted| - 1]) + CostOf(calls[counted[|counted| - 1]])
  }

  predicate IsConsumeOn(c: Call, day: nat) { c.op.Consume? && c.day == day }

  /** The counters of `f` are those of the calls it counts, each once, all of its day. */
  ghost predicate Adds(calls: seq<Call>, f: File) {
    f.Whole? ==>
      && Distinct(f.counted)
      && (forall k :: 0 <= k < |f.counted| ==> f.counted[k] < |calls| && IsConsumeOn(calls[f.counted[k]], f.doc.date))
      && f.doc.requests == |f.counted|
      && f.doc.cost == Wrap64(Spent(calls, f.counted))
  }

  /** Calls that reached the file: acknowledged, on the way, or crashed in flight. */
  predicate MayCount(c: Call) { c.pc.Acked? || c.pc.Saved? || c.pc.Dead? }

  ghost predicate HasAll(calls: seq<Call>, f: File, landed: bool) {
    forall i :: 0 <= i < |calls| && calls[i].op.Consume? && (calls[i].pc.Acked? || (landed && calls[i].pc.Saved?)) ==>
      && f.Whole? && calls[i].day <= f.doc.date
      && (calls[i].day == f.doc.date ==> i in f.counted)
  }

  ghost predicate OnlyLanded(calls: seq<Call>, f: File) {
    f.Whole? ==> forall k :: 0 <= k < |f.counted| ==> f.counted[k] < |calls| && MayCount(calls[f.counted[k]])
  }

  /** The file that call i is about to install. */
  ghost predicate SavingOk(s: Books, i: nat) {
    i < |s.calls| && s.calls[i].pc.Saving? ==>
      var c, f := s.calls[i], s.calls[i].pc.f;
      && f.Whole? && Adds(s.calls, f) && f.doc.date <= s.today
      && (forall k :: 0 <= k < |f.counted| ==> f.counted[k] == i || MayCount(s.calls[f.counted[k]]))
      && (c.op.Consume? ==> i in f.counted && f.doc.date == c.day && WithinLimits(f.doc))
      && (!c.op.Consume? ==> i !in f.counted)
      && (s.vol.Whole? ==> s.vol.doc.date <= f.doc.date)
  }

  predicate WithinLimits(d: Doc) { d.requests <= d.maxRequests && d.cost <= d.maxCost }

  predicate Active(pc: Pc) { pc.Locked? || pc.Saving? || pc.Saved? }

  ghost predicate Inv(s: Books) {
    && !s.vol.Torn? && !s.dur.Torn?
    && (s.holder.Some? ==> s.holder.value < |s.calls|)
    && (forall i :: 0 <= i < |s.calls| ==> (Active(s.calls[i].pc) <==> s.holder == Some(i)))
    && Adds(s.calls, s.vol) && Adds(s.calls, s.dur)
    && OnlyLanded(s.calls, s.vol) && OnlyLanded(s.calls, s.dur)
    && (s.vol.Whole? ==> s.vol.doc.date <= s.today) && (s.dur.Whole? ==> s.dur.doc.date <= s.today)
    && (s.dur.Whole? ==> s.vol.Whole? && s.dur.doc.date <= s.vol.doc.date)
    && (forall i :: 0 <= i < |s.calls| && s.calls[i].pc.Saved? && s.calls[i].op.Consume? ==>
          s.vol.Whole? && s.vol.doc.date == s.calls[i].day)
    && (forall i :: 0 <= i < |s.calls| ==> SavingOk(s, i))
  }

  /** The visible file, and one about to replace it, miss no acknowledged Consume. */
  ghost predicate Full(s: Books) {
    && HasAll(s.calls, s.vol, true)
    && forall i :: 0 <= i < |s.calls| && s.calls[i].pc.Saving? ==> HasAll(s.calls, s.calls[i].pc.f, true)
  }

  // ----- frame lemmas

  /** Only pc changes, so costs and days of counted calls stay. */
  ghost predicate SameOps(a: seq<Call>, b: seq<Call>) {
    |a| == |b| && forall i :: 0 <= i < |a| ==> a[i].op == b[i].op
  }

  lemma {:induction false} SpentFrame(a: seq<Call>, b: seq<Call>, counted: seq<nat>)
    requires SameOps(a, b) && forall k :: 0 <= k < |counted| ==> counted[k] < |a|
    ensures Spent(a, counted) == Spent(b, counted)
  {
    if counted != [] { SpentFrame(a, b, counted[..|counted| - 1]); }
  }

  lemma AddsFrame(a: seq<Call>, b: seq<Call>, f: File)
    requires SameOps(a, b) && Adds(a, f)
    requires f.Whole? ==> forall k :: 0 <= k < |f.counted| ==> b[f.counted[k]].day == a[f.counted[k]].day
    ensures Adds(b, f)
  {
    if f.Whole? { SpentFrame(a, b, f.counted); }
  }

  lemma SpentSnoc(calls: seq<Call>, counted: seq<nat>, i: nat)
    requires i < |calls| && forall k :: 0 <= k < |counted| ==> counted[k] < |calls|
    ensures Spent(calls, counted + [i]) == Spent(calls, counted) + CostOf(calls[i])
  {
    assert (counted + [i])[..|counted|] == counted;
  }

  lemma WrapAdds(a: int, b: int)
    ensures Wrap64(Wrap64(a) + b) == Wrap64(a + b)
  {
    var m := 0x1_0000_0000_0000_0000;
    var h := 0x8000_0000_0000_0000;
    var q := (a + h) / m;
    assert Wrap64(a) == a - q * m;
    ModShift(a + b + h, q);
  }

  lemma ModShift(x: int, q: int)
    ensures (x - q * 0x1_0000_0000_0000_0000) % 0x1_0000_0000_0000_0000 == x % 0x1_0000_0000_0000_0000
  {
  }

  // ----- every step keeps the invariant

  /** A change of call i that keeps its operation and what the files say about it. */
  lemma FilesFrame(s: Books, calls: seq<Call>, f: File, i: nat)
    requires i < |s.calls| && |calls| == |s.calls| && SameOps(s.calls, calls)
    requires forall j :: 0 <= j < |calls| && j != i ==> calls[j] == s.calls[j]
    requires Adds(s.calls, f) && OnlyLanded(s.calls, f)
    requires if MayCount(s.calls[i]) then MayCount(calls[i]) && calls[i].day == s.calls[i].day else true
    ensures Adds(calls, f) && OnlyLanded(calls, f)
  {
    AddsFrame(s.calls, calls, f);
  }

  lemma PcStep(s: Books, a: Act)
    requires Inv(s) && Opens(s, a) && (a.Lock? || a.Save? || a.Fault? || a.Kill?)
    ensures Inv(BookStep(s, a))
  {
    var t := BookStep(s, a);
    FilesFrame(s, t.calls, s.vol, a.i);
    FilesFrame(s, t.calls, s.dur, a.i);
    forall j | 0 <= j < |t.calls| ensures SavingOk(t, j) { PcSaving(s, a, j); }
  }

  lemma PcSaving(s: Books, a: Act, j: nat)
    requires Inv(s) && Opens(s, a) && (a.Lock? || a.Save? || a.Fault? || a.Kill?)
    ensures SavingOk(BookStep(s, a), j)
  {
    if j < |s.calls| && s.calls[j].pc.Saving? {
      assert SavingOk(s, j);
      AddsFrame(s.calls, BookStep(s, a).calls, s.calls[j].pc.f);
    }
  }

  /** Charging one more call on top of a file that adds up adds up again. */
  lemma ChargeAdds(calls: seq<Call>, f: File, today: nat, i: nat)
    requires Adds(calls, f) && i < |calls| && IsConsumeOn(calls[i], today) && i !in Rolled(f, today)
    ensures Adds(calls, Whole(Charge(RollDay(Load(f, today), today), calls[i].op.cost), Rolled(f, today) + [i], Settings(f)))
  {
    var d, before := RollDay(Load(f, today), today), Rolled(f, today);
    SpentSnoc(calls, before, i);
    assert d.requests == |before| && d.cost == Wrap64(Spent(calls, before));
    WrapAdds(Spent(calls, before), calls[i].op.cost);
    assert Distinct(before + [i]);
  }

  lemma ReadLanded(s: Books, i: nat)
    requires Inv(s) && i < |s.calls| && s.calls[i].pc.Locked?
    ensures forall k :: 0 <= k < |Rolled(s.vol, s.today)| ==>
              Rolled(s.vol, s.today)[k] < |s.calls| && Rolled(s.vol, s.today)[k] != i && MayCount(s.calls[Rolled(s.vol, s.today)[k]])
  {
  }

  lemma ReadConsume(s: Books, i: nat)
    requires Inv(s) && Opens(s, Read(i)) && s.calls[i].op.Consume?
    ensures SavingOk(BookStep(s, Read(i)), i)
  {
    if BookStep(s, Read(i)).calls[i].pc.Saving? {
      ReadCharge(s, i);
      ReadAdds(s, i);
    }
  }

  /** The document a Consume is about to install. */
  lemma ReadCharge(s: Books, i: nat)
    requires Inv(s) && Opens(s, Read(i)) && s.calls[i].op.Consume? && BookStep(s, Read(i)).calls[i].pc.Saving?
    ensures var t := BookStep(s, Read(i));
            var f := t.calls[i].pc.f;
            && f.Whole? && f.doc.date == s.today == t.calls[i].day && f.counted == Rolled(s.vol, s.today) + [i] && i in f.counted
            && WithinLimits(f.doc) && t.vol == s.vol && t.today == s.today
            && (forall k :: 0 <= k < |f.counted| ==> f.counted[k] == i || (f.counted[k] < |t.calls| && MayCount(t.calls[f.counted[k]])))
  {
    ReadLanded(s, i);
    var f, before := BookStep(s, Read(i)).calls[i].pc.f, Rolled(s.vol, s.today);
    assert f.counted[|before|] == i;
  }

  lemma ReadAdds(s: Books, i: nat)
    requires Inv(s) && Opens(s, Read(i)) && s.calls[i].op.Consume? && BookStep(s, Read(i)).calls[i].pc.Saving?
    ensures var t := BookStep(s, Read(i)); Adds(t.calls, t.calls[i].pc.f)
  {
    var t := BookStep(s, Read(i));
    ReadLanded(s, i);
    FilesFrame(s, t.calls, s.vol, i);
    ChargeAdds(t.calls, s.vol, s.today, i);
  }

  lemma ReadLimits(s: Books, i: nat)
    requires Inv(s) && Opens(s, Read(i)) && !s.calls[i].op.Consume?
    ensures SavingOk(BookStep(s, Read(i)), i)
  {
    var t := BookStep(s, Read(i));
    if t.calls[i].pc.Saving? && s.vol.Whole? {
      FilesFrame(s, t.calls, s.vol, i);
    }
  }

  lemma ReadStep(s: Books, i: nat)
    requires Inv(s) && Opens(s, Read(i))
    ensures Inv(BookStep(s, Read(i)))
  {
    var t := BookStep(s, Read(i));
    FilesFrame(s, t.calls, s.vol, i);
    FilesFrame(s, t.calls, s.dur, i);
    if s.calls[i].op.Consume? { ReadConsume(s, i); } else { ReadLimits(s, i); }
    forall j | 0 <= j < |t.calls| && j != i
      ensures SavingOk(t, j)
    {
      assert SavingOk(s, j) && t.calls[j] == s.calls[j] && !s.calls[j].pc.Saving?;
    }
  }

  lemma RenameStep(s: Books, i: nat)
    requires Inv(s) && Opens(s, Rename(i))
    ensures Inv(BookStep(s, Rename(i)))
    ensures s.calls[i].op.Consume? ==> WithinLimits(BookStep(s, Rename(i)).vol.doc)
  {
    var t := BookStep(s, Rename(i));
    assert SavingOk(s, i);
    FilesFrame(s, t.calls, s.dur, i);
    AddsFrame(s.calls, t.calls, s.calls[i].pc.f);
    forall j | 0 <= j < |t.calls|
      ensures SavingOk(t, j)
    {
      assert SavingOk(s, j);
    }
  }

  lemma FinishStep(s: Books, i: nat, synced: bool)
    requires Inv(s) && Opens(s, Finish(i, synced))
    ensures Inv(BookStep(s, Finish(i, synced)))
  {
    var t := BookStep(s, Finish(i, synced));
    FilesFrame(s, t.calls, s.vol, i);
    FilesFrame(s, t.calls, s.dur, i);
    forall j | 0 <= j < |t.calls|
      ensures SavingOk(t, j)
    {
      assert SavingOk(s, j);
    }
  }

  lemma PowerLossStep(s: Books)
    requires Inv(s)
    ensures Inv(BookStep(s, PowerLoss))
  {
    var t := BookStep(s, PowerLoss);
    if s.holder.Some? { FilesFrame(s, t.calls, s.dur, s.holder.value); }
  }

  lemma StepInv(s: Books, a: Act)
    requires Inv(s) && Opens(s, a)
    ensures Inv(BookStep(s, a))
  {
    match a
    case Read(i) => ReadStep(s, i);
    case Rename(i) => RenameStep(s, i);
    case Finish(i, synced) => FinishStep(s, i, synced);
    case PowerLoss => PowerLossStep(s);
    case NextDay => forall j | 0 <= j < |s.calls| ensures SavingOk(BookStep(s, a), j) { assert SavingOk(s, j); }
    case FlushDir => forall j | 0 <= j < |s.calls| ensures SavingOk(BookStep(s, a), j) { assert SavingOk(s, j); }
    case Lock(_) => PcStep(s, a);
    case Save(_) => PcStep(s, a);
    case Fault(_, _) => PcStep(s, a);
    case Kill(_) => PcStep(s, a);
    case _ =>
  }

  lemma {:induction false} RunInv(s: State, acts: seq<Act>)
    requires SaveInv(s) && Inv(View(s)) && Legal(s, acts)
    ensures SaveInv(After(s, acts)) && Inv(View(After(s, acts)))
    decreases |acts|
  {
    if acts != [] {
      Refines(s, acts[0]);
      StepInv(View(s), acts[0]);
      RunInv(Step(s, acts[0]), acts[1..]);
    }
  }

  lemma InitialInv(s: State)
    requires Initial(s)
    ensures SaveInv(s) && Inv(View(s)) && Full(View(s)) && HasAll(s.calls, Kept(s.disk), false)
  {
  }

  // ----- the limits in force

  /** The last positive value set, the default if there is none. */
  function LastRequests(calls: seq<Call>, sets: seq<nat>): int
    requires forall k :: 0 <= k < |sets| ==> sets[k] < |calls|
  {
    if sets == [] then DEFAULT_REQUESTS else
      var op := calls[sets[|sets| - 1]].op;
      if op.SetLimits? && op.requests > 0 then op.requests else LastRequests(calls, sets[..|sets| - 1])
  }

  function LastCost(calls: seq<Call>, sets: seq<nat>): int
    requires forall k :: 0 <= k < |sets| ==> sets[k] < |calls|
  {
    if sets == [] then DEFAULT_COST else
      var op := calls[sets[|sets| - 1]].op;
      if op.SetLimits? && op.maxCost > 0 then op.maxCost else LastCost(calls, sets[..|sets| - 1])
  }

  ghost predicate LimitsOk(calls: seq<Call>, f: File) {
    f.Whole? ==>
      && (forall k :: 0 <= k < |f.limits| ==> f.limits[k] < |calls| && calls[f.limits[k]].op.SetLimits?)
      && f.doc.maxRequests == LastRequests(calls, f.limits) && f.doc.maxCost == LastCost(calls, f.limits)
  }

  ghost predicate LimitInv(s: Books) {
    && LimitsOk(s.calls, s.vol) && LimitsOk(s.calls, s.dur)
    && forall i :: 0 <= i < |s.calls| && s.calls[i].pc.Saving? ==>
         && LimitsOk(s.calls, s.calls[i].pc.f) && s.calls[i].pc.f.Whole?
         && s.calls[i].pc.f.limits == Settings(s.vol) + (if s.calls[i].op.SetLimits? then [i] else [])
         && (s.calls[i].op.SetLimits? ==>
               if s.vol.Whole? then s.calls[i].pc.f.counted == s.vol.counted && s.calls[i].pc.f.doc.date == s.vol.doc.date
               else s.calls[i].pc.f.counted == [])
  }

  lemma {:induction false} LastFrame(a: seq<Call>, b: seq<Call>, sets: seq<nat>)
    requires SameOps(a, b) && forall k :: 0 <= k < |sets| ==> sets[k] < |a|
    ensures LastRequests(a, sets) == LastRequests(b, sets) && LastCost(a, sets) == LastCost(b, sets)
  {
    if sets != [] { LastFrame(a, b, sets[..|sets| - 1]); }
  }

  lemma LimitsFrame(a: seq<Call>, b: seq<Call>, f: File)
    requires SameOps(a, b) && LimitsOk(a, f)
    ensures LimitsOk(b, f)
  {
    if f.Whole? { LastFrame(a, b, f.limits); }
  }

  /** Setting limits on top of a document whose limits are right. */
  lemma LimitedOk(calls: seq<Call>, f: File, today: nat, i: nat)
    requires LimitsOk(calls, f) && i < |calls| && calls[i].op.SetLimits?
    ensures LimitsOk(calls, Whole(Limited(Load(f, today), calls[i].op.requests, calls[i].op.maxCost),
                                  if f.Whole? then f.counted else [], Settings(f) + [i]))
  {
    LastSnoc(calls, Settings(f), i);
  }

  lemma LastSnoc(calls: seq<Call>, sets: seq<nat>, i: nat)
    requires i < |calls| && calls[i].op.SetLimits? && forall k :: 0 <= k < |sets| ==> sets[k] < |calls|
    ensures LastRequests(calls, sets + [i]) == if calls[i].op.requests > 0 then calls[i].op.requests else LastRequests(calls, sets)
    ensures LastCost(calls, sets + [i]) == if calls[i].op.maxCost > 0 then calls[i].op.maxCost else LastCost(calls, sets)
  {
    assert (sets + [i])[..|sets|] == sets;
  }

  lemma OpsStay(s: Books, a: Act)
    requires Opens(s, a)
    ensures SameOps(s.calls, BookStep(s, a).calls)
  {
  }

  lemma ReadLimitInv(s: Books, i: nat)
    requires Inv(s) && LimitInv(s) && Opens(s, Read(i))
    ensures LimitInv(BookStep(s, Read(i)))
  {
    var t := BookStep(s, Read(i));
    OpsStay(s, Read(i));
    LimitsFrame(s.calls, t.calls, s.vol);
    LimitsFrame(s.calls, t.calls, s.dur);
    if s.calls[i].op.SetLimits? && !s.vol.Torn? { LimitedOk(t.calls, s.vol, s.today, i); }
  }

  /** Every step keeps the limits of all documents those of the SetLimits calls in them. */
  lemma LimitStep(s: Books, a: Act)
    requires Inv(s) && LimitInv(s) && Opens(s, a)
    ensures LimitInv(BookStep(s, a))
  {
    var t := BookStep(s, a);
    if a.Read? {
      ReadLimitInv(s, a.i);
    } else {
      OpsStay(s, a);
      LimitsFrame(s.calls, t.calls, s.vol);
      LimitsFrame(s.calls, t.calls, s.dur);
      forall i | 0 <= i < |t.calls| && t.calls[i].pc.Saving?
        ensures LimitsOk(t.calls, t.calls[i].pc.f) && t.calls[i].pc.f == s.calls[i].pc.f && s.calls[i].pc.Saving?
      {
        LimitsFrame(s.calls, t.calls, s.calls[i].pc.f);
      }
      if a.Rename? { LimitsFrame(s.calls, t.calls, s.calls[a.i].pc.f); }
    }
  }

  /** The SetLimits calls in force after a run: one more at each of their renames, and after a
      power loss those of the document that came back. */
  function InForce(s: State, acts: seq<Act>, before: seq<nat>): seq<nat>
    requires Legal(s, acts)
    decreases |acts|
  {
    if acts == [] then before else
      var a := acts[0];
      InForce(Step(s, a), acts[1..],
        if a.Rename? && s.calls[a.i].op.SetLimits? then before + [a.i]
        else if a.PowerLoss? then Settings(Kept(s.disk))
        else before)
  }

  lemma SettingsStep(s: Books, a: Act)
    requires LimitInv(s) && Opens(s, a)
    ensures Settings(BookStep(s, a).vol) ==
              if a.Rename? && s.calls[a.i].op.SetLimits? then Settings(s.vol) + [a.i]
              else if a.PowerLoss? then Settings(s.dur)
              else Settings(s.vol)
  {
  }

  lemma {:induction false} InForceRun(s: State, acts: seq<Act>)
    requires SaveInv(s) && Inv(View(s)) && LimitInv(View(s)) && Legal(s, acts)
    ensures LimitInv(View(After(s, acts))) && Settings(Seen(After(s, acts).disk)) == InForce(s, acts, Settings(Seen(s.disk)))
    decreases |acts|
  {
    if acts != [] {
      var a := acts[0];
      Refines(s, a);
      StepInv(View(s), a);
      LimitStep(View(s), a);
      SettingsStep(View(s), a);
      InForceRun(Step(s, a), acts[1..]);
    }
  }

  /** In every run the limits of the visible document are, each by itself, the last positive
      value of a SetLimits whose rename landed, else the default. */
  lemma LimitsInForce(s: State, acts: seq<Act>)
    requires Initial(s) && Legal(s, acts)
    ensures var t, sets := After(s, acts), InForce(s, acts, []);
            && (forall k :: 0 <= k < |sets| ==> sets[k] < |t.calls| && t.calls[sets[k]].op.SetLimits?)
            && Load(Seen(t.disk), t.today).maxRequests == LastRequests(t.calls, sets)
            && Load(Seen(t.disk), t.today).maxCost == LastCost(t.calls, sets)
  {
    InitialInv(s);
    RunInv(s, acts);
    InForceRun(s, acts);
  }

  /** A SetLimits that lands changes the limits and nothing else: day, counters and the charges
      they stand for stay. */
  lemma SetLimitsKeepsCounters(s: State, acts: seq<Act>, i: nat)
    requires Initial(s) && Legal(s, acts) && Enabled(After(s, acts), Rename(i)) && After(s, acts).calls[i].op.SetLimits?
    ensures var u := After(s, acts);
            var f, g := Seen(u.disk), Seen(Step(u, Rename(i)).disk);
            && g.Whole?
            && (f.Whole? ==> g.counted == f.counted && g.doc.date == f.doc.date
                             && g.doc.requests == f.doc.requests && g.doc.cost == f.doc.cost)
            && (!f.Whole? ==> g.counted == [] && g.doc.requests == 0 && g.doc.cost == 0)
  {
    InitialInv(s);
    RunInv(s, acts);
    InForceRun(s, acts);
    var u := After(s, acts);
    Refines(u, Rename(i));
    assert SavingOk(View(u), i);
  }

  // ----- what the answers mean

  /** A call that reads sees today's count and sum of the charges in the file against the
      limits in force: it is rate-limited exactly when the count has reached the limit, capped
      exactly when it has not and the int64 sum would pass the cap; Check answers as Consume
      decides; Get shows just these numbers. */
  lemma ReadMeaning(s: State, acts: seq<Act>, i: nat)
    requires Initial(s) && Legal(s, acts) && Enabled(After(s, acts), Read(i))
    ensures var u := After(s, acts);
            var f, pc, sets := Seen(u.disk), Step(u, Read(i)).calls[i].pc, InForce(s, acts, []);
            var today := Rolled(f, u.today);
            && (forall k :: 0 <= k < |today| ==> today[k] < |u.calls| && IsConsumeOn(u.calls[today[k]], u.today))
            && (forall k :: 0 <= k < |sets| ==> sets[k] < |u.calls|)
            && (u.calls[i].op.Consume? ==>
                  && (pc.Saving? <==> VerdictOn(u.calls, today, sets, u.calls[i].op.cost) == Admit)
                  && (!pc.Saving? ==> pc == Refused(VerdictOn(u.calls, today, sets, u.calls[i].op.cost))))
            && (u.calls[i].op.Check? ==> pc == Answered(VerdictOn(u.calls, today, sets, u.calls[i].op.cost)))
            && (u.calls[i].op.Get? ==>
                  pc == Shown(Doc(u.today, |today|, Wrap64(Spent(u.calls, today)), LastRequests(u.calls, sets), LastCost(u.calls, sets))))
  {
    InitialInv(s);
    RunInv(s, acts);
    InForceRun(s, acts);
    var u := After(s, acts);
    Refines(u, Read(i));
    ReadDecides(View(u), i);
  }

  lemma ReadDecides(s: Books, i: nat)
    requires Inv(s) && LimitInv(s) && Opens(s, Read(i))
    ensures var pc, sets, today := BookStep(s, Read(i)).calls[i].pc, Settings(s.vol), Rolled(s.vol, s.today);
            && (forall k :: 0 <= k < |today| ==> today[k] < |s.calls| && IsConsumeOn(s.calls[today[k]], s.today))
            && (forall k :: 0 <= k < |sets| ==> sets[k] < |s.calls|)
            && (s.calls[i].op.Consume? ==>
                  && (pc.Saving? <==> VerdictOn(s.calls, today, sets, s.calls[i].op.cost) == Admit)
                  && (!pc.Saving? ==> pc == Refused(VerdictOn(s.calls, today, sets, s.calls[i].op.cost))))
            && (s.calls[i].op.Check? ==> pc == Answered(VerdictOn(s.calls, today, sets, s.calls[i].op.cost)))
            && (s.calls[i].op.Get? ==>
                  pc == Shown(Doc(s.today, |today|, Wrap64(Spent(s.calls, today)), LastRequests(s.calls, sets), LastCost(s.calls, sets))))
  {
    ReadNumbers(s, if s.calls[i].op.Consume? || s.calls[i].op.Check? then s.calls[i].op.cost else 0);
  }

  /** The verdict on a charge, from the charges of the day and the limits set. */
  ghost function VerdictOn(calls: seq<Call>, today: seq<nat>, sets: seq<nat>, cost: int): Verdict
    requires forall k :: 0 <= k < |today| ==> today[k] < |calls|
    requires forall k :: 0 <= k < |sets| ==> sets[k] < |calls|
  {
    if |today| >= LastRequests(calls, sets) then RateLimit
    else if Wrap64(Spent(calls, today) + cost) > LastCost(calls, sets) then CostCap
    else Admit
  }

  lemma ReadNumbers(s: Books, cost: int)
    requires Inv(s) && LimitInv(s)
    ensures var d, today, sets := RollDay(Load(s.vol, s.today), s.today), Rolled(s.vol, s.today), Settings(s.vol);
            && (forall k :: 0 <= k < |today| ==> today[k] < |s.calls| && IsConsumeOn(s.calls[today[k]], s.today))
            && (forall k :: 0 <= k < |sets| ==> sets[k] < |s.calls|)
            && d == Doc(s.today, |today|, Wrap64(Spent(s.calls, today)), LastRequests(s.calls, sets), LastCost(s.calls, sets))
            && Judge(d, cost) == VerdictOn(s.calls, today, sets, cost)
  {
    WrapAdds(Spent(s.calls, Rolled(s.vol, s.today)), cost);
  }

  /** A Check admits exactly the costs that a Consume of the same file and day would. */
  lemma CheckPredictsConsume(f: File, today: nat, cost: int, c: Call, d: Call, i: nat, j: nat)
    requires c.op == Check(cost) && d.op == Consume(cost)
    ensures Decide(c, i, f, today) == Answered(Admit) <==> Decide(d, j, f, today).Saving?
    ensures forall v :: v != Admit ==> (Decide(c, i, f, today) == Answered(v) <==> Decide(d, j, f, today) == Refused(v))
  {
  }

  // ----- what is not missed

  lemma ReadFull(s: Books, i: nat)
    requires Inv(s) && Full(s) && Opens(s, Read(i))
    ensures Full(BookStep(s, Read(i)))
  {
    var t := BookStep(s, Read(i));
    if t.calls[i].pc.Saving? {
      if s.calls[i].op.Consume? { ReadChargeFull(s, i); }
      assert HasAll(t.calls, t.calls[i].pc.f, true);
    }
  }

  lemma ReadChargeFull(s: Books, i: nat)
    requires Inv(s) && Full(s) && Opens(s, Read(i)) && s.calls[i].op.Consume? && BookStep(s, Read(i)).calls[i].pc.Saving?
    ensures var t := BookStep(s, Read(i)); HasAll(t.calls, t.calls[i].pc.f, true)
  {
    var t := BookStep(s, Read(i));
    var before, f := Rolled(s.vol, s.today), t.calls[i].pc.f;
    assert f.counted == before + [i] && f.doc.date == s.today;
    assert forall j :: j in before ==> j in f.counted;
  }

  lemma RenameFull(s: Books, i: nat)
    requires Inv(s) && Full(s) && Opens(s, Rename(i))
    ensures Full(BookStep(s, Rename(i)))
  {
    assert SavingOk(s, i);
  }

  lemma PowerLossFull(s: Books)
    requires Inv(s) && HasAll(s.calls, s.dur, false)
    ensures Full(BookStep(s, PowerLoss))
  {
  }

  /** Every step keeps the files full, but for a power loss that finds less on the platter. */
  lemma StepFull(s: Books, a: Act)
    requires Inv(s) && Full(s) && Opens(s, a) && (a.PowerLoss? ==> HasAll(s.calls, s.dur, false))
    ensures Full(BookStep(s, a))
  {
    match a
    case Read(i) => ReadFull(s, i);
    case Rename(i) => RenameFull(s, i);
    case PowerLoss => PowerLossFull(s);
    case _ =>
  }

  /** The platter had every acknowledged Consume whenever the power was lost. */
  ghost predicate KeptRun(s: State, acts: seq<Act>)
    requires Legal(s, acts)
    decreases |acts|
  {
    acts == [] || ((acts[0].PowerLoss? ==> HasAll(s.calls, Kept(s.disk), false)) && KeptRun(Step(s, acts[0]), acts[1..]))
  }

  lemma {:induction false} RunFull(s: State, acts: seq<Act>)
    requires SaveInv(s) && Inv(View(s)) && Full(View(s)) && Legal(s, acts) && KeptRun(s, acts)
    ensures Full(View(After(s, acts)))
    decreases |acts|
  {
    if acts != [] {
      Refines(s, acts[0]);
      StepInv(View(s), acts[0]);
      StepFull(View(s), acts[0]);
      RunFull(Step(s, acts[0]), acts[1..]);
    }
  }

  /** In this run the directory was on the platter before each Consume was acknowledged. */
  predicate SyncedRun(s: State, acts: seq<Act>)
    requires Legal(s, acts)
    decreases |acts|
  {
    acts == [] || (Durable(s, acts[0]) && SyncedRun(Step(s, acts[0]), acts[1..]))
  }

  predicate Durable(s: State, a: Act)
    requires Enabled(s, a)
  {
    a.Finish? && s.calls[a.i].op.Consume? ==> a.synced || s.disk.durDir == s.disk.dir
  }

  lemma DurableStep(s: Books, a: Act)
    requires Inv(s) && Full(s) && Opens(s, a) && HasAll(s.calls, s.dur, false)
    requires a.Finish? && s.calls[a.i].op.Consume? ==> a.synced || s.dur == s.vol
    ensures var t := BookStep(s, a); HasAll(t.calls, t.dur, false)
  {
  }

  /** Then the platter never misses an acknowledged Consume. */
  lemma {:induction false} SyncedIsKept(s: State, acts: seq<Act>)
    requires SaveInv(s) && Inv(View(s)) && Full(View(s)) && HasAll(s.calls, Kept(s.disk), false)
    requires Legal(s, acts) && SyncedRun(s, acts)
    ensures KeptRun(s, acts) && HasAll(After(s, acts).calls, Kept(After(s, acts).disk), false)
    decreases |acts|
  {
    if acts != [] {
      Refines(s, acts[0]);
      StepInv(View(s), acts[0]);
      StepFull(View(s), acts[0]);
      DurableStep(View(s), acts[0]);
      SyncedIsKept(Step(s, acts[0]), acts[1..]);
    }
  }

  // ----- main results

  /** What a file accounts for: its counters are those of the calls it counts, each once;
      every acknowledged Consume of its day is among them and none is of a later day; and
      it counts nothing but acknowledged calls, one on its way, and ones that crashed. */
  ghost predicate Accounts(calls: seq<Call>, f: File) {
    && Adds(calls, f) && OnlyLanded(calls, f)
    && (forall i :: 0 <= i < |calls| && calls[i].op.Consume? && calls[i].pc.Acked? ==>
          && f.Whole? && calls[i].day <= f.doc.date
          && (calls[i].day == f.doc.date ==> i in f.counted))
  }

  /** For every interleaving with kills anywhere, failed directory syncs included: as long as
      no power loss has found less on the platter, the file accounts for the acknowledged
      calls. */
  lemma Conservation(s: State, acts: seq<Act>)
    requires Initial(s) && Legal(s, acts) && KeptRun(s, acts)
    ensures var t := After(s, acts); Accounts(t.calls, Seen(t.disk))
  {
    InitialInv(s);
    RunInv(s, acts);
    RunFull(s, acts);
  }

  /** If moreover the directory was on the platter before each acknowledgement, no power loss
      ever finds less, and the durable file accounts for them too. */
  lemma DurableConservation(s: State, acts: seq<Act>)
    requires Initial(s) && Legal(s, acts) && SyncedRun(s, acts)
    ensures var t := After(s, acts); KeptRun(s, acts) && Accounts(t.calls, Seen(t.disk)) && Accounts(t.calls, Kept(t.disk))
  {
    InitialInv(s);
    SyncedIsKept(s, acts);
    Conservation(s, acts);
    RunInv(s, acts);
  }

  /** At any point of any run, a power loss leaves a file that accounts for the acknowledged
      calls if and only if the platter has them all; and each charge by itself survives if and
      only if the platter has it. */
  lemma PowerLossIff(s: State, acts: seq<Act>, i: nat)
    requires Initial(s) && Legal(s, acts)
    requires var u := After(s, acts); i < |u.calls| && u.calls[i].op.Consume? && u.calls[i].pc.Acked?
    ensures var u := After(s, acts);
            var t := Step(u, PowerLoss);
            && (Accounts(t.calls, Seen(t.disk)) <==> HasAll(u.calls, Kept(u.disk), false))
            && t.calls[i].pc.Acked?
            && (Charged(t.calls[i], i, Seen(t.disk)) <==> Charged(u.calls[i], i, Kept(u.disk)))
  {
    InitialInv(s);
    RunInv(s, acts);
    var u := After(s, acts);
    Refines(u, PowerLoss);
    StepInv(View(u), PowerLoss);
    LossIff(View(u));
  }

  /** The file has the charge, or has moved past its day. */
  predicate Charged(c: Call, i: nat, f: File) {
    f.Whole? && c.day <= f.doc.date && (c.day == f.doc.date ==> i in f.counted)
  }

  lemma LossIff(s: Books)
    requires Inv(s) && Inv(BookStep(s, PowerLoss))
    ensures var t := BookStep(s, PowerLoss); Accounts(t.calls, t.vol) <==> HasAll(s.calls, s.dur, false)
  {
    var t := BookStep(s, PowerLoss);
    assert forall j :: 0 <= j < |s.calls| ==>
      (t.calls[j].pc.Acked? <==> s.calls[j].pc.Acked?) && t.calls[j].op == s.calls[j].op && t.calls[j].day == s.calls[j].day;
    assert Accounts(t.calls, t.vol) <==> HasAll(t.calls, t.vol, false);
  }

  /** In every run, whatever was lost before, an admitted Consume leaves both counters within
      the limits of the document it installs; and the sum of what that counts is within the cap
      whenever it fits an int64. */
  lemma AdmittedWithinLimits(s: State, acts: seq<Act>, i: nat)
    requires Initial(s) && Legal(s, acts)
    requires Enabled(After(s, acts), Rename(i)) && After(s, acts).calls[i].op.Consume?
    ensures var t := Step(After(s, acts), Rename(i));
            var f := Seen(t.disk);
            && f.Whole? && Adds(t.calls, f) && i in f.counted && WithinLimits(f.doc)
            && (InInt64(Spent(t.calls, f.counted)) ==> Spent(t.calls, f.counted) <= f.doc.maxCost)
  {
    InitialInv(s);
    RunInv(s, acts);
    var u := After(s, acts);
    Refines(u, Rename(i));
    RenameStep(View(u), i);
    assert SavingOk(View(u), i);
  }

  /** Exactly when the test admits a charge that breaks the cap: the int64 sum overflows. */
  lemma CapBrokenByOverflow(d: Doc, cost: int)
    requires d.requests < d.maxRequests && InInt64(d.cost) && InInt64(cost) && 0 <= d.maxCost && InInt64(d.maxCost)
    ensures Judge(d, cost) == Admit && d.cost + cost > d.maxCost <==> d.cost + cost >= 0x8000_0000_0000_0000
  {
    var x := d.cost + cost;
    if x >= 0x8000_0000_0000_0000 {
      ModShift(x + 0x8000_0000_0000_0000, 1);
      assert Wrap64(x) == x - 0x1_0000_0000_0000_0000;
    } else if x < -0x8000_0000_0000_0000 {
      assert x < 0;
    }
  }

  /** Save ignores a failed directory sync: a Consume acknowledged over one is not on the
      platter until the directory is written back, and a power loss before that takes the
      charge back. */
  lemma IgnoredSyncLosesCharge(s: State, acts: seq<Act>, i: nat)
    requires Initial(s) && Legal(s, acts) && Enabled(After(s, acts), Finish(i, false)) && After(s, acts).calls[i].op.Consume?
    requires !Charged(After(s, acts).calls[i], i, Kept(After(s, acts).disk))
    ensures var u := Step(After(s, acts), Finish(i, false));
            && u.calls[i].pc.Acked?
            && (var t := Step(u, PowerLoss); t.calls[i].pc.Acked? && !Charged(t.calls[i], i, Seen(t.disk)))
            && (Charged(u.calls[i], i, Seen(u.disk)) ==>
                  var t := Step(Step(u, FlushDir), PowerLoss); Charged(t.calls[i], i, Seen(t.disk)))
  {
    InitialInv(s);
    RunInv(s, acts);
    var v := After(s, acts);
    var u := Step(v, Finish(i, false));
    Refines(v, Finish(i, false));
    Refines(u, PowerLoss);
    Refines(u, FlushDir);
    Refines(Step(u, FlushDir), PowerLoss);
  }

  /** A rename at whatever stage, with its name written back and the power then lost. */
  function RenamedThenLost(s: State): State { s.(disk := LosePower(SyncDir(RenameDisk(s.disk))), holder := None) }

  /** What the sync before the rename is for. A document renamed into place comes back from
      a power loss exactly when its bytes were on the platter, which the sync ensures. */
  lemma SyncBeforeRename(s: State, i: nat)
    requires SaveInv(s) && Holds(s, i) && s.calls[i].pc.Saving? && AtLeast(s.calls[i].pc.stage, Written)
    ensures Seen(RenameDisk(s.disk)) == s.calls[i].pc.f
    ensures Seen(RenamedThenLost(s).disk) == s.calls[i].pc.f <==> Temp(s.disk).dur == s.calls[i].pc.f
    ensures AtLeast(s.calls[i].pc.stage, Synced) ==> Temp(s.disk).dur == s.calls[i].pc.f
  {
    assert TempOk(s.disk, s.calls[i].pc.f, s.calls[i].pc.stage);
  }

  /** Without it, from any save whose temporary file is new, the counters are lost: the file
      comes back unreadable, every acknowledged Consume is unaccounted for, and no later
      call gets past reading it. */
  lemma UnsyncedRenameLoses(s: State, i: nat)
    requires SaveInv(s) && Holds(s, i) && s.calls[i].pc.Saving? && s.calls[i].pc.stage == Encoded && s.disk.dir.temp == None
    ensures var written := Step(Step(s, Save(i)), Save(i));
            var lost := RenamedThenLost(written);
            && Seen(lost.disk) == Torn
            && (Accounts(lost.calls, Seen(lost.disk)) ==>
                  forall j :: 0 <= j < |lost.calls| && lost.calls[j].op.Consume? ==> !lost.calls[j].pc.Acked?)
            && (forall c: Call, j: nat, today: nat :: Decide(c, j, Seen(lost.disk), today) == Failed)
            && Seen(RenamedThenLost(Step(written, Save(i))).disk) == s.calls[i].pc.f
  {
    var begun := Step(s, Save(i));
    Refines(s, Save(i));
    Refines(begun, Save(i));
    var written := Step(begun, Save(i));
    Refines(written, Save(i));
    SyncBeforeRename(written, i);
    SyncBeforeRename(Step(written, Save(i)), i);
  }
}
