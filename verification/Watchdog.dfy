/** Fan-out of an alert to the backends that handle its severity. */
module Alerting {
  import opened Strings

  const CRITICAL := "critical"
  const WARNING := "warning"
  const INFO := "info"

  datatype Backend = PagerDuty | OpsGenie | Ntfy(minSeverity: string)

  function Name(b: Backend): string {
    match b case PagerDuty => "pagerduty" case OpsGenie => "opsgenie" case Ntfy(_) => "ntfy"
  }

  function SeverityRank(s: string): int { if s == CRITICAL then 3 else if s == WARNING then 2 else 1 }

  predicate HandlesSeverity(b: Backend, s: string) {
    match b
    case PagerDuty => s == CRITICAL
    case OpsGenie => s == CRITICAL
    case Ntfy(m) => SeverityRank(s) >= SeverityRank(m)
  }

  /** The documented policy: the pagers take critical alerts only; ntfy takes its minimum
      severity and above, and everything when that is neither warning nor critical. */
  lemma RoutingPolicy(b: Backend, s: string)
    ensures HandlesSeverity(b, CRITICAL)
    ensures HandlesSeverity(b, WARNING) <==> b.Ntfy? && b.minSeverity != CRITICAL
    ensures s != CRITICAL && s != WARNING ==> (HandlesSeverity(b, s) <==> b.Ntfy? && b.minSeverity !in {CRITICAL, WARNING})
  {
    assert |CRITICAL| == 8 && |WARNING| == 7;
  }

  /** Indices of the backends an alert goes to, in order. */
  function Targets(bs: seq<Backend>, sev: string): seq<nat> {
    if bs == [] then []
    else Targets(bs[..|bs| - 1], sev) + (if HandlesSeverity(bs[|bs| - 1], sev) then [|bs| - 1] else [])
  }

  /** The error of the first target whose send fails. */
  function FirstError(bs: seq<Backend>, sev: string, sends: nat -> Option<string>): Option<(string, string)> {
    if bs == [] then None else
      var n := |bs| - 1;
      var e := FirstError(bs[..n], sev, sends);
      if e.Some? then e
      else if HandlesSeverity(bs[n], sev) && sends(n).Some? then Some((Name(bs[n]), sends(n).value))
      else None
  }

  /** Fire succeeds exactly when every backend that handles the severity accepted. */
  ghost predicate AllAccept(bs: seq<Backend>, sev: string, sends: nat -> Option<string>) {
    forall k :: 0 <= k < |bs| && HandlesSeverity(bs[k], sev) ==> sends(k).None?
  }

  lemma {:induction false} FireAccepted(bs: seq<Backend>, sev: string, sends: nat -> Option<string>)
    ensures FirstError(bs, sev, sends).None? <==> AllAccept(bs, sev, sends)
  {
    if bs != [] {
      var n := |bs| - 1;
      FireAccepted(bs[..n], sev, sends);
      assert forall k :: 0 <= k < n ==> bs[..n][k] == bs[k];
    }
  }

  /** The targets are exactly the backends that handle the severity, in order. */
  lemma {:induction false} TargetsAre(bs: seq<Backend>, sev: string)
    ensures forall k: nat :: k in Targets(bs, sev) <==> k < |bs| && HandlesSeverity(bs[k], sev)
    ensures forall i, j :: 0 <= i < j < |Targets(bs, sev)| ==> Targets(bs, sev)[i] < Targets(bs, sev)[j]
  {
    if bs != [] {
      var n := |bs| - 1;
      TargetsAre(bs[..n], sev);
      assert forall k :: 0 <= k < n ==> bs[..n][k] == bs[k];
      assert forall i :: 0 <= i < |Targets(bs[..n], sev)| ==> Targets(bs[..n], sev)[i] in Targets(bs[..n], sev);
    }
  }

  /** The error is that of the first target whose send fails, under that backend's name. */
  lemma {:induction false} FirstErrorIs(bs: seq<Backend>, sev: string, sends: nat -> Option<string>) returns (k: nat)
    requires FirstError(bs, sev, sends).Some?
    ensures k < |bs| && HandlesSeverity(bs[k], sev) && sends(k).Some?
    ensures FirstError(bs, sev, sends) == Some((Name(bs[k]), sends(k).value)) && AllAccept(bs[..k], sev, sends)
  {
    var n := |bs| - 1;
    FireAccepted(bs[..n], sev, sends);
    if FirstError(bs[..n], sev, sends).Some? {
      k := FirstErrorIs(bs[..n], sev, sends);
      assert bs[..n][..k] == bs[..k];
    } else {
      k := n;
    }
  }

  class Router {
    var backends: seq<Backend>

    constructor ()
      ensures backends == []
    {
      backends := [];
    }

    method AddBackend(b: Backend)
      modifies this
      ensures backends == old(backends) + [b]
    {
      backends := backends + [b];
    }

    /** Every target is attempted, whatever fails; `sends(k)` is the k-th backend's error. */
    method Fire(sev: string, sends: nat -> Option<string>) returns (err: Option<(string, string)>, attempted: seq<nat>)
      ensures err == FirstError(backends, sev, sends)
      ensures attempted == Targets(backends, sev)
    {
      err, attempted := None, [];
      for k := 0 to |backends|
        invariant err == FirstError(backends[..k], sev, sends)
        invariant attempted == Targets(backends[..k], sev)
      {
        assert backends[..k + 1][..k] == backends[..k];
        if HandlesSeverity(backends[k], sev) {
          attempted := attempted + [k];
          var e := sends(k);
          if e.Some? && err.None? { err := Some((Name(backends[k]), e.value)); }
        }
      }
      assert backends[..|backends|] == backends;
    }
  }
}

/** The heartbeat watchdog: an alert / suppress / recover machine per host, kept in marker
    files whose modification time is the time of the last stale alert. */
module Watchdog {
  import opened Strings
  import opened Alerting
  import opened FleetTypes

  datatype Config = Config(staleMax: int, dedupWindow: int)

  datatype Heartbeat = Heartbeat(host: string, modTime: Time)

  /** writeMarker: done; failed with nothing changed; or failed after the file was touched,
      which leaves a marker stamped with the wall clock. */
  datatype Write = WriteOk | WriteFailed | WriteTouched(at: Time)

  datatype Remove = Removed | AlreadyGone | RemoveFailed

  /** How the side effects of one host's turn go. */
  datatype Env = Env(statOk: bool, sends: nat -> Option<string>, write: Write, remove: Remove)

  datatype Event =
    | Quiet
    | Suppressed
    | StaleAlert(fired: bool, marked: bool)
    | RecoveredAlert(fired: bool, removed: bool)

  /** One host's turn of a scan: the marker it leaves and what it did. */
  function HostTurn(c: Config, bs: seq<Backend>, marker: Option<Time>, now: Time, modTime: Time, env: Env): (Option<Time>, Event) {
    var m := if env.statOk then marker else None;
    if now - modTime > c.staleMax then
      if m.Some? && now - m.value < c.dedupWindow then (marker, Suppressed)
      else if FirstError(bs, CRITICAL, env.sends).Some? then (marker, StaleAlert(false, false))
      else match env.write
        case WriteOk => (Some(now), StaleAlert(true, true))
        case WriteFailed => (marker, StaleAlert(true, false))
        case WriteTouched(at) => (Some(at), StaleAlert(true, false))
    else if m.Some? then
      if FirstError(bs, WARNING, env.sends).Some? then (marker, RecoveredAlert(false, false))
      else match env.remove
        case Removed => (None, RecoveredAlert(true, true))
        case AlreadyGone => (None, RecoveredAlert(true, true))
        case RemoveFailed => (marker, RecoveredAlert(true, false))
    else (marker, Quiet)
  }

  predicate IsError(e: Event) {
    match e
    case StaleAlert(f, m) => !f || !m
    case RecoveredAlert(f, r) => !f || !r
    case _ => false
  }

  predicate AnyError(es: seq<Event>) {
    es != [] && (AnyError(es[..|es| - 1]) || IsError(es[|es| - 1]))
  }

  function MarkerOf(markers: map<string, Time>, host: string): Option<Time> {
    if host in markers then Some(markers[host]) else None
  }

  function SetMarker(markers: map<string, Time>, host: string, m: Option<Time>): map<string, Time> {
    if m.Some? then markers[host := m.value] else markers - {host}
  }

  function StaleCount(c: Config, now: Time, hbs: seq<Heartbeat>): nat {
    if hbs == [] then 0
    else StaleCount(c, now, hbs[..|hbs| - 1]) + (if now - hbs[|hbs| - 1].modTime > c.staleMax then 1 else 0)
  }

  datatype Scan = Scan(markers: map<string, Time>, events: seq<Event>)

  function ScanOne(c: Config, bs: seq<Backend>, before: Scan, now: Time, h: Heartbeat, env: Env): Scan {
    var turn := HostTurn(c, bs, MarkerOf(before.markers, h.host), now, h.modTime, env);
    Scan(SetMarker(before.markers, h.host, turn.0), before.events + [turn.1])
  }

  /** The hosts' turns one after another. */
  function ScanAll(c: Config, bs: seq<Backend>, markers: map<string, Time>, now: Time, hbs: seq<Heartbeat>, env: string -> Env): Scan {
    if hbs == [] then Scan(markers, []) else
      var h := hbs[|hbs| - 1];
      ScanOne(c, bs, ScanAll(c, bs, markers, now, hbs[..|hbs| - 1], env), now, h, env(h.host))
  }

  lemma ScanNext(c: Config, bs: seq<Backend>, markers: map<string, Time>, now: Time, hbs: seq<Heartbeat>, env: string -> Env, i: nat)
    requires i < |hbs|
    ensures var before := ScanAll(c, bs, markers, now, hbs[..i], env);
            var after := ScanAll(c, bs, markers, now, hbs[..i + 1], env);
            && after == ScanOne(c, bs, before, now, hbs[i], env(hbs[i].host))
            && AnyError(after.events) == (AnyError(before.events) || IsError(after.events[|after.events| - 1]))
    ensures StaleCount(c, now, hbs[..i + 1]) == StaleCount(c, now, hbs[..i]) + (if now - hbs[i].modTime > c.staleMax then 1 else 0)
  {
    assert hbs[..i + 1][..i] == hbs[..i];
    var before, after := ScanAll(c, bs, markers, now, hbs[..i], env), ScanAll(c, bs, markers, now, hbs[..i + 1], env);
    assert after.events[..|before.events|] == before.events;
  }

  predicate DistinctHosts(hbs: seq<Heartbeat>) {
    forall i, j :: 0 <= i < j < |hbs| ==> hbs[i].host != hbs[j].host
  }

  /** In a scan over distinct hosts each one's turn depends on its own marker, heartbeat
      and environment only, and hosts without a heartbeat keep their marker. */
  lemma {:induction false} HostsIndependent(c: Config, bs: seq<Backend>, markers: map<string, Time>, now: Time,
                                            hbs: seq<Heartbeat>, env: string -> Env, host: string)
    requires DistinctHosts(hbs)
    ensures var r := ScanAll(c, bs, markers, now, hbs, env);
            && |r.events| == |hbs|
            && (forall i :: 0 <= i < |hbs| && hbs[i].host == host ==>
                  (MarkerOf(r.markers, host), r.events[i]) == HostTurn(c, bs, MarkerOf(markers, host), now, hbs[i].modTime, env(host)))
            && ((forall i :: 0 <= i < |hbs| ==> hbs[i].host != host) ==> MarkerOf(r.markers, host) == MarkerOf(markers, host))
  {
    if hbs != [] {
      HostsIndependent(c, bs, markers, now, hbs[..|hbs| - 1], env, host);
    }
  }

  /** The error flag is up exactly when some alert was not sent, not marked or not unmarked. */
  lemma {:induction false} AnyErrorIff(es: seq<Event>)
    ensures !AnyError(es) <==> forall i :: 0 <= i < |es| ==>
              es[i] in {Quiet, Suppressed, StaleAlert(true, true), RecoveredAlert(true, true)}
  {
    if es != [] {
      AnyErrorIff(es[..|es| - 1]);
      assert forall i :: 0 <= i < |es| - 1 ==> es[..|es| - 1][i] == es[i];
    }
  }

  /** The stale count is that of the hosts older than the limit, suppressed ones included. */
  lemma {:induction false} StaleCountIs(c: Config, now: Time, hbs: seq<Heartbeat>)
    ensures StaleCount(c, now, hbs) == |set i | 0 <= i < |hbs| && now - hbs[i].modTime > c.staleMax|
  {
    if hbs != [] {
      var n := |hbs| - 1;
      StaleCountIs(c, now, hbs[..n]);
      var a := set i | 0 <= i < n && now - hbs[..n][i].modTime > c.staleMax;
      var b := set i | 0 <= i < |hbs| && now - hbs[i].modTime > c.staleMax;
      assert b == if now - hbs[n].modTime > c.staleMax then a + {n} else a;
    }
  }

  /** The inputs of one scan: the clock, the heartbeat files, and how side effects go. */
  datatype ScanInput = ScanInput(now: Time, hbs: seq<Heartbeat>, env: string -> Env)

  function Markers(c: Config, bs: seq<Backend>, markers: map<string, Time>, scans: seq<ScanInput>): map<string, Time> {
    if scans == [] then markers else
      var x := scans[|scans| - 1];
      ScanAll(c, bs, Markers(c, bs, markers, scans[..|scans| - 1]), x.now, x.hbs, x.env).markers
  }

  class Daemon {
    const config: Config
    const router: Router
    var markers: map<string, Time>

    constructor (config: Config, router: Router)
      ensures this.config == config && this.router == router && markers == map[]
    {
      this.config, this.router, markers := config, router, map[];
    }

    /** One scan; `dir` is None when the heartbeat directory cannot be read. */
    method ScanCycle(now: Time, dir: Option<seq<Heartbeat>>, env: string -> Env)
      returns (staleCount: nat, anyErr: bool, events: seq<Event>)
      modifies this`markers
      ensures dir.None? ==> staleCount == 0 && anyErr && events == [] && markers == old(markers)
      ensures dir.Some? ==>
                && Scan(markers, events) == ScanAll(config, router.backends, old(markers), now, dir.value, env)
                && staleCount == StaleCount(config, now, dir.value)
                && anyErr == AnyError(events)
    {
      staleCount, anyErr, events := 0, false, [];
      if dir.None? { return 0, true, []; }
      var hbs := dir.value;
      for i := 0 to |hbs|
        invariant |events| == i && staleCount == StaleCount(config, now, hbs[..i])
        invariant anyErr == AnyError(events)
        invariant Scan(markers, events) == ScanAll(config, router.backends, old(markers), now, hbs[..i], env)
      {
        ghost var before := Scan(markers, events);
        ScanNext(config, router.backends, old(markers), now, hbs, env, i);
        var h := hbs[i];
        var m', e := Turn(now, h, env(h.host));
        markers, events := SetMarker(markers, h.host, m'), events + [e];
        assert Scan(markers, events) == ScanOne(config, router.backends, before, now, h, env(h.host));
        if now - h.modTime > config.staleMax { staleCount := staleCount + 1; }
        if IsError(e) { anyErr := true; }
      }
      assert hbs[..|hbs|] == hbs;
    }

    /** The daemon loop: one scan after another, until it is stopped. A scan of an unreadable
        directory leaves every marker alone, as one without heartbeat files does. */
    method ScanLoop(scans: seq<ScanInput>)
      modifies this`markers
      ensures markers == Markers(config, router.backends, old(markers), scans)
    {
      for k := 0 to |scans|
        invariant markers == Markers(config, router.backends, old(markers), scans[..k])
      {
        assert scans[..k + 1][..k] == scans[..k];
        ghost var before := markers;
        var _, _, events := ScanCycle(scans[k].now, Some(scans[k].hbs), scans[k].env);
        assert Scan(markers, events) == ScanAll(config, router.backends, before, scans[k].now, scans[k].hbs, scans[k].env);
      }
      assert scans[..|scans|] == scans;
    }

    /** The switch of the scan loop. */
    method Turn(now: Time, h: Heartbeat, env: Env) returns (m': Option<Time>, e: Event)
      ensures (m', e) == HostTurn(config, router.backends, MarkerOf(markers, h.host), now, h.modTime, env)
    {
      m' := MarkerOf(markers, h.host);
      var seen := if env.statOk then m' else None;
      if now - h.modTime > config.staleMax {
        if seen.Some? && now - seen.value < config.dedupWindow { return m', Suppressed; }
        var err, _ := router.Fire(CRITICAL, env.sends);
        if err.Some? { return m', StaleAlert(false, false); }
        match env.write {
          case WriteOk => return Some(now), StaleAlert(true, true);
          case WriteFailed => return m', StaleAlert(true, false);
          case WriteTouched(at) => return Some(at), StaleAlert(true, false);
        }
      } else if seen.Some? {
        var err, _ := router.Fire(WARNING, env.sends);
        if err.Some? { return m', RecoveredAlert(false, false); }
        if env.remove.RemoveFailed? { return m', RecoveredAlert(true, false); }
        return None, RecoveredAlert(true, true);
      } else {
        return m', Quiet;
      }
    }
  }

  // ----- one host over a run of scans

  /** Position of the host's heartbeat file in a scan, the length when it has none. */
  function Place(hbs: seq<Heartbeat>, host: string): (i: nat)
    ensures i <= |hbs| && (i < |hbs| ==> hbs[i].host == host) && forall k :: 0 <= k < i ==> hbs[k].host != host
  {
    if hbs == [] || hbs[0].host == host then 0 else
      var i := Place(hbs[1..], host);
      assert forall k :: 1 <= k < i + 1 ==> hbs[k] == hbs[1..][k - 1];
      i + 1
  }

  predicate Present(x: ScanInput, host: string) { Place(x.hbs, host) < |x.hbs| }

  /** The modification time of the host's heartbeat file. */
  function Reading(x: ScanInput, host: string): Time
    requires Present(x, host)
  {
    x.hbs[Place(x.hbs, host)].modTime
  }

  /** The host's marker before scan k of a run that starts without markers. */
  function MarkerIn(c: Config, bs: seq<Backend>, scans: seq<ScanInput>, k: nat, host: string): Option<Time>
    requires k <= |scans|
  {
    MarkerOf(Markers(c, bs, map[], scans[..k]), host)
  }

  /** What scan k of the run did about the host, if it had a heartbeat file. */
  function EventIn(c: Config, bs: seq<Backend>, scans: seq<ScanInput>, k: nat, host: string): Option<Event>
    requires k < |scans|
  {
    var x := scans[k];
    var events := ScanAll(c, bs, Markers(c, bs, map[], scans[..k]), x.now, x.hbs, x.env).events;
    if Present(x, host) && Place(x.hbs, host) < |events| then Some(events[Place(x.hbs, host)]) else None
  }

  ghost predicate WellFormed(scans: seq<ScanInput>) {
    forall k :: 0 <= k < |scans| ==> DistinctHosts(scans[k].hbs)
  }

  /** A scan of the run, seen from one host: its own turn, or nothing. */
  lemma RunStep(c: Config, bs: seq<Backend>, scans: seq<ScanInput>, k: nat, host: string)
    requires k < |scans| && WellFormed(scans)
    ensures if Present(scans[k], host)
            then EventIn(c, bs, scans, k, host).Some? &&
                 (MarkerIn(c, bs, scans, k + 1, host), EventIn(c, bs, scans, k, host).value) ==
                 HostTurn(c, bs, MarkerIn(c, bs, scans, k, host), scans[k].now, Reading(scans[k], host), scans[k].env(host))
            else MarkerIn(c, bs, scans, k + 1, host) == MarkerIn(c, bs, scans, k, host) && EventIn(c, bs, scans, k, host) == None
  {
    var x := scans[k];
    HostsIndependent(c, bs, Markers(c, bs, map[], scans[..k]), x.now, x.hbs, x.env, host);
    assert scans[..k + 1][..k] == scans[..k];
  }

  /** The host has a stale heartbeat in this scan. */
  predicate Stale(c: Config, x: ScanInput, host: string) { Present(x, host) && x.now - Reading(x, host) > c.staleMax }

  /** Every backend that handles the severity accepts the host's alert of this scan. */
  ghost predicate Accepted(bs: seq<Backend>, sev: string, x: ScanInput, host: string) { AllAccept(bs, sev, x.env(host).sends) }

  /** In every run, what a scan does about a host whose marker can be read: an alert when stale,
      unless a marker is inside the window; a recovery when fresh with a marker, however young;
      delivered exactly when every backend that handles it accepts. */
  lemma EventMeaning(c: Config, bs: seq<Backend>, scans: seq<ScanInput>, k: nat, host: string)
    requires k < |scans| && WellFormed(scans) && Present(scans[k], host) && scans[k].env(host).statOk
    ensures var x, m, e := scans[k], MarkerIn(c, bs, scans, k, host), EventIn(c, bs, scans, k, host);
            var inside := m.Some? && x.now - m.value < c.dedupWindow;
            && e.Some?
            && (e.value.Suppressed? <==> Stale(c, x, host) && inside)
            && (e.value.StaleAlert? <==> Stale(c, x, host) && !inside)
            && (e.value.RecoveredAlert? <==> !Stale(c, x, host) && m.Some?)
            && (e.value.Quiet? <==> !Stale(c, x, host) && m.None?)
            && (e.value.StaleAlert? ==> (e.value.fired <==> Accepted(bs, CRITICAL, x, host)))
            && (e.value.RecoveredAlert? ==> (e.value.fired <==> Accepted(bs, WARNING, x, host)))
  {
    RunStep(c, bs, scans, k, host);
    FireAccepted(bs, CRITICAL, scans[k].env(host).sends);
    FireAccepted(bs, WARNING, scans[k].env(host).sends);
  }

  /** And what it leaves: a delivered alert is marked with its own time as far as the write
      goes, a delivered recovery is unmarked as far as the removal goes, all else stays. */
  lemma MarkerMeaning(c: Config, bs: seq<Backend>, scans: seq<ScanInput>, k: nat, host: string)
    requires k < |scans| && WellFormed(scans) && Present(scans[k], host)
    ensures var x, m, e := scans[k], MarkerIn(c, bs, scans, k, host), EventIn(c, bs, scans, k, host);
            var m' := MarkerIn(c, bs, scans, k + 1, host);
            && e.Some?
            && (e.value.StaleAlert? ==>
                  && (e.value.marked <==> e.value.fired && x.env(host).write.WriteOk?)
                  && m' == if !e.value.fired then m
                           else match x.env(host).write
                             case WriteOk => Some(x.now) case WriteFailed => m case WriteTouched(at) => Some(at))
            && (e.value.RecoveredAlert? ==>
                  && (e.value.removed <==> e.value.fired && !x.env(host).remove.RemoveFailed?)
                  && m' == if e.value.removed then None else m)
            && (e.value.Suppressed? || e.value.Quiet? ==> m' == m)
  {
    RunStep(c, bs, scans, k, host);
  }

  /** The two scans look the same to this host. */
  ghost predicate SameFor(x: ScanInput, y: ScanInput, host: string) {
    && x.now == y.now && x.env(host) == y.env(host)
    && (Present(x, host) <==> Present(y, host))
    && (Present(x, host) ==> Reading(x, host) == Reading(y, host))
  }

  lemma {:induction false} MarkersAgree(c: Config, bs: seq<Backend>, xs: seq<ScanInput>, ys: seq<ScanInput>, host: string, k: nat)
    requires |xs| == |ys| && WellFormed(xs) && WellFormed(ys) && k <= |xs|
    requires forall i :: 0 <= i < |xs| ==> SameFor(xs[i], ys[i], host)
    ensures MarkerIn(c, bs, xs, k, host) == MarkerIn(c, bs, ys, k, host)
  {
    if k > 0 {
      MarkersAgree(c, bs, xs, ys, host, k - 1);
      SameStep(c, bs, xs, ys, host, k - 1);
    } else {
      NoMarkerAtStart(c, bs, xs, host);
      NoMarkerAtStart(c, bs, ys, host);
    }
  }

  /** Runs whose scans look the same to a host give it the same trace, events and markers,
      whatever they hold for the others. */
  lemma TracesIndependent(c: Config, bs: seq<Backend>, xs: seq<ScanInput>, ys: seq<ScanInput>, host: string, k: nat)
    requires |xs| == |ys| && WellFormed(xs) && WellFormed(ys) && k < |xs|
    requires forall i :: 0 <= i < |xs| ==> SameFor(xs[i], ys[i], host)
    ensures MarkerIn(c, bs, xs, k + 1, host) == MarkerIn(c, bs, ys, k + 1, host)
    ensures EventIn(c, bs, xs, k, host) == EventIn(c, bs, ys, k, host)
  {
    MarkersAgree(c, bs, xs, ys, host, k);
    SameStep(c, bs, xs, ys, host, k);
  }

  lemma SameStep(c: Config, bs: seq<Backend>, xs: seq<ScanInput>, ys: seq<ScanInput>, host: string, k: nat)
    requires |xs| == |ys| && WellFormed(xs) && WellFormed(ys) && k < |xs| && SameFor(xs[k], ys[k], host)
    requires MarkerIn(c, bs, xs, k, host) == MarkerIn(c, bs, ys, k, host)
    ensures MarkerIn(c, bs, xs, k + 1, host) == MarkerIn(c, bs, ys, k + 1, host)
    ensures EventIn(c, bs, xs, k, host) == EventIn(c, bs, ys, k, host)
  {
    RunStep(c, bs, xs, k, host);
    RunStep(c, bs, ys, k, host);
  }

  /** The clock never goes backwards, stats answer, and a touched file carries a time no
      earlier than the scan's. */
  ghost predicate Faithful(scans: seq<ScanInput>, host: string) {
    && WellFormed(scans)
    && (forall i, j :: 0 <= i < j < |scans| ==> scans[i].now <= scans[j].now)
    && (forall i :: 0 <= i < |scans| ==>
          var env := scans[i].env(host);
          env.statOk && (env.write.WriteTouched? ==> env.write.at >= scans[i].now))
  }

  const RECOVERED_OK := Some(RecoveredAlert(true, true))

  /** A stale alert was tried. */
  predicate Alerts(e: Option<Event>) { e.Some? && e.value.StaleAlert? }

  /** A stale alert was delivered, whatever became of its marker. */
  predicate Delivered(e: Option<Event>) { Alerts(e) && e.value.fired }

  ghost predicate NoRecovery(c: Config, bs: seq<Backend>, scans: seq<ScanInput>, host: string, a: nat, b: nat)
    requires b <= |scans|
  {
    forall k :: a < k < b ==> EventIn(c, bs, scans, k, host) != RECOVERED_OK
  }

  /** How one turn moves the marker, as far as the event tells. */
  lemma TurnMoves(c: Config, bs: seq<Backend>, m: Option<Time>, now: Time, modTime: Time, env: Env)
    ensures var (m', e) := HostTurn(c, bs, m, now, modTime, env);
            && (m'.Some? && !(e.StaleAlert? && e.fired) ==> m.Some? && e != RECOVERED_OK.value)
            && (env.statOk && (env.write.WriteTouched? ==> env.write.at >= now) ==>
                  && (e.StaleAlert? && e.fired && !env.write.WriteFailed? ==> m'.Some? && m'.value >= now)
                  && (m.Some? && e != RECOVERED_OK.value ==> m'.Some? && (m'.value >= now || m'.value >= m.value)))
  {
  }

  lemma MarkerMoves(c: Config, bs: seq<Backend>, scans: seq<ScanInput>, host: string, k: nat)
    requires k < |scans| && WellFormed(scans)
    ensures var m, m', e := MarkerIn(c, bs, scans, k, host), MarkerIn(c, bs, scans, k + 1, host), EventIn(c, bs, scans, k, host);
            && (m'.Some? && !Delivered(e) ==> m.Some? && e != RECOVERED_OK)
            && (Faithful(scans, host) ==>
                  && (Delivered(e) && !scans[k].env(host).write.WriteFailed? ==> m'.Some? && m'.value >= scans[k].now)
                  && (m.Some? && e != RECOVERED_OK ==> m'.Some? && (m'.value >= scans[k].now || m'.value >= m.value)))
  {
    RunStep(c, bs, scans, k, host);
    if Present(scans[k], host) {
      TurnMoves(c, bs, MarkerIn(c, bs, scans, k, host), scans[k].now, Reading(scans[k], host), scans[k].env(host));
    }
  }

  /** After a delivered stale alert whose marker write did something the marker stays, no older
      than the alert, until an acknowledged recovery. */
  lemma {:induction false} MarkerStays(c: Config, bs: seq<Backend>, scans: seq<ScanInput>, host: string, a: nat, b: nat)
    requires a < b <= |scans| && Faithful(scans, host)
    requires Delivered(EventIn(c, bs, scans, a, host)) && !scans[a].env(host).write.WriteFailed?
    requires NoRecovery(c, bs, scans, host, a, b)
    ensures var m := MarkerIn(c, bs, scans, b, host); m.Some? && m.value >= scans[a].now
    decreases b
  {
    MarkerMoves(c, bs, scans, host, b - 1);
    if b > a + 1 {
      MarkerStays(c, bs, scans, host, a, b - 1);
    }
  }

  /** In every run of scans, a delivered stale alert for a host and another one tried later,
      with no acknowledged recovery between, are at least the dedup window apart, whatever else
      failed meanwhile, unless the first one's marker write failed with nothing changed. */
  lemma Deduplicated(c: Config, bs: seq<Backend>, scans: seq<ScanInput>, host: string, a: nat, b: nat)
    requires a < b < |scans| && Faithful(scans, host)
    requires Delivered(EventIn(c, bs, scans, a, host)) && Alerts(EventIn(c, bs, scans, b, host))
    requires NoRecovery(c, bs, scans, host, a, b)
    ensures scans[b].now - scans[a].now >= c.dedupWindow || scans[a].env(host).write.WriteFailed?
  {
    if !scans[a].env(host).write.WriteFailed? {
      MarkerStays(c, bs, scans, host, a, b);
      RunStep(c, bs, scans, b, host);
    }
  }

  lemma NoRecoveryNext(c: Config, bs: seq<Backend>, scans: seq<ScanInput>, host: string, a: nat, b: nat)
    requires 0 < b <= |scans| && NoRecovery(c, bs, scans, host, a, b - 1) && EventIn(c, bs, scans, b - 1, host) != RECOVERED_OK
    ensures NoRecovery(c, bs, scans, host, a, b)
  {
  }

  lemma NoMarkerAtStart(c: Config, bs: seq<Backend>, scans: seq<ScanInput>, host: string)
    ensures MarkerIn(c, bs, scans, 0, host) == None
  {
    assert scans[..0] == [];
  }

  /** A marker is the trace of a delivered stale alert not yet followed by an acknowledged
      recovery. */
  lemma {:induction false} MarkerHasCause(c: Config, bs: seq<Backend>, scans: seq<ScanInput>, host: string, b: nat) returns (a: nat)
    requires b <= |scans| && WellFormed(scans) && MarkerIn(c, bs, scans, b, host).Some?
    ensures a < b && Delivered(EventIn(c, bs, scans, a, host))
    ensures NoRecovery(c, bs, scans, host, a, b)
    decreases b
  {
    NoMarkerAtStart(c, bs, scans, host);
    MarkerMoves(c, bs, scans, host, b - 1);
    if Delivered(EventIn(c, bs, scans, b - 1, host)) {
      a := b - 1;
    } else {
      a := MarkerHasCause(c, bs, scans, host, b - 1);
      NoRecoveryNext(c, bs, scans, host, a, b);
    }
  }

  /** In every run of scans, every recovered alert follows a stale alert that every backend
      handling critical alerts accepted, with no acknowledged recovery between. */
  lemma RecoveryHasCause(c: Config, bs: seq<Backend>, scans: seq<ScanInput>, host: string, b: nat) returns (a: nat)
    requires b < |scans| && WellFormed(scans)
    requires EventIn(c, bs, scans, b, host).Some? && EventIn(c, bs, scans, b, host).value.RecoveredAlert?
    ensures a < b && Delivered(EventIn(c, bs, scans, a, host))
    ensures AllAccept(bs, CRITICAL, scans[a].env(host).sends)
    ensures NoRecovery(c, bs, scans, host, a, b)
  {
    RunStep(c, bs, scans, b, host);
    a := MarkerHasCause(c, bs, scans, host, b);
    RunStep(c, bs, scans, a, host);
    FireAccepted(bs, CRITICAL, scans[a].env(host).sends);
  }

  /** A stale alert that could not be delivered is tried again on the next stale scan. */
  lemma UndeliveredRetried(c: Config, bs: seq<Backend>, scans: seq<ScanInput>, host: string, k: nat)
    requires k + 1 < |scans| && Faithful(scans, host)
    requires EventIn(c, bs, scans, k, host) == Some(StaleAlert(false, false))
    requires Present(scans[k + 1], host) && scans[k + 1].now - Reading(scans[k + 1], host) > c.staleMax
    ensures Alerts(EventIn(c, bs, scans, k + 1, host))
  {
    assert scans[k].now <= scans[k + 1].now;
    RunStep(c, bs, scans, k, host);
    RunStep(c, bs, scans, k + 1, host);
  }

  // ----- what the promise rests on

  /** No marker, or one too old to suppress an alert at this time. */
  predicate Expired(c: Config, m: Option<Time>, now: Time) { m.Some? ==> now - m.value >= c.dedupWindow }

  /** Scans in which the host is not stale do not renew its marker. */
  lemma {:induction false} StaysExpired(c: Config, bs: seq<Backend>, scans: seq<ScanInput>, host: string, a: nat, b: nat)
    requires a < b <= |scans| && Faithful(scans, host) && scans[a].env(host).write.WriteFailed?
    requires Delivered(EventIn(c, bs, scans, a, host)) && forall k :: a < k < b ==> !Stale(c, scans[k], host)
    ensures Expired(c, MarkerIn(c, bs, scans, b, host), scans[a].now)
    decreases b
  {
    if b == a + 1 {
      ExpiredAtAlert(c, bs, scans, host, a);
    } else {
      StaysExpired(c, bs, scans, host, a, b - 1);
      ExpiredNext(c, bs, scans, host, b - 1, scans[a].now);
    }
  }

  lemma ExpiredAtAlert(c: Config, bs: seq<Backend>, scans: seq<ScanInput>, host: string, a: nat)
    requires a < |scans| && Faithful(scans, host) && scans[a].env(host).write.WriteFailed?
    requires Delivered(EventIn(c, bs, scans, a, host))
    ensures Expired(c, MarkerIn(c, bs, scans, a + 1, host), scans[a].now)
  {
    RunStep(c, bs, scans, a, host);
  }

  lemma ExpiredNext(c: Config, bs: seq<Backend>, scans: seq<ScanInput>, host: string, k: nat, now: Time)
    requires k < |scans| && WellFormed(scans) && !Stale(c, scans[k], host) && Expired(c, MarkerIn(c, bs, scans, k, host), now)
    ensures Expired(c, MarkerIn(c, bs, scans, k + 1, host), now)
  {
    RunStep(c, bs, scans, k, host);
  }

  /** After a delivered alert, at the host's next stale scan inside the window, with no
      acknowledged recovery between, the alert is repeated if and only if the marker write
      failed with nothing changed. */
  lemma UnmarkedRepeats(c: Config, bs: seq<Backend>, scans: seq<ScanInput>, host: string, a: nat, b: nat)
    requires a < b < |scans| && Faithful(scans, host) && Delivered(EventIn(c, bs, scans, a, host))
    requires Stale(c, scans[b], host) && forall k :: a < k < b ==> !Stale(c, scans[k], host)
    requires NoRecovery(c, bs, scans, host, a, b) && scans[b].now < scans[a].now + c.dedupWindow
    ensures Alerts(EventIn(c, bs, scans, b, host)) <==> scans[a].env(host).write.WriteFailed?
  {
    if scans[a].env(host).write.WriteFailed? {
      StaysExpired(c, bs, scans, host, a, b);
      AlertsWhenExpired(c, bs, scans, host, a, b);
    } else if Alerts(EventIn(c, bs, scans, b, host)) {
      Deduplicated(c, bs, scans, host, a, b);
    }
  }

  lemma {:induction false} StaysUnmarked(c: Config, bs: seq<Backend>, scans: seq<ScanInput>, host: string, a: nat, b: nat)
    requires a < b <= |scans| && WellFormed(scans) && EventIn(c, bs, scans, a, host) == RECOVERED_OK
    requires forall k :: a < k < b ==> !Stale(c, scans[k], host)
    ensures MarkerIn(c, bs, scans, b, host) == None
    decreases b
  {
    if b == a + 1 {
      RunStep(c, bs, scans, a, host);
    } else {
      StaysUnmarked(c, bs, scans, host, a, b - 1);
      UnmarkedNext(c, bs, scans, host, b - 1);
    }
  }

  lemma UnmarkedNext(c: Config, bs: seq<Backend>, scans: seq<ScanInput>, host: string, k: nat)
    requires k < |scans| && WellFormed(scans) && !Stale(c, scans[k], host) && MarkerIn(c, bs, scans, k, host) == None
    ensures MarkerIn(c, bs, scans, k + 1, host) == None
  {
    RunStep(c, bs, scans, k, host);
  }

  /** After an acknowledged recovery the host's next stale scan alerts, however soon. */
  lemma RecoveryReopens(c: Config, bs: seq<Backend>, scans: seq<ScanInput>, host: string, a: nat, b: nat)
    requires a < b < |scans| && WellFormed(scans) && EventIn(c, bs, scans, a, host) == RECOVERED_OK
    requires Stale(c, scans[b], host) && scans[b].env(host).statOk && forall k :: a < k < b ==> !Stale(c, scans[k], host)
    ensures Alerts(EventIn(c, bs, scans, b, host))
  {
    StaysUnmarked(c, bs, scans, host, a, b);
    EventMeaning(c, bs, scans, b, host);
  }

  lemma AlertsWhenExpired(c: Config, bs: seq<Backend>, scans: seq<ScanInput>, host: string, a: nat, b: nat)
    requires a < b < |scans| && Faithful(scans, host) && Stale(c, scans[b], host)
    requires Expired(c, MarkerIn(c, bs, scans, b, host), scans[a].now)
    ensures Alerts(EventIn(c, bs, scans, b, host))
  {
    RunStep(c, bs, scans, b, host);
  }
}
