/** When the health monitor restarts a container, told from the reports and ticks alone. */
module RestartHistory {
  import opened HealthMonitor

  datatype Event = Report(probe: string, status: string, at: int) | Tick(at: int)

  function Step(h: Health, e: Event): Health {
    match e
    case Report(probe, status, at) => AfterReport(h, probe, status, at)
    case Tick(at) => AfterAnyTick(h, at)
  }

  /** A container before its first report. */
  function Fresh(status: string, restarts: int): Health {
    Health(false, Probe(0, 0), Probe(0, 0), status, restarts)
  }

  function Run(h: Health, events: seq<Event>): Health {
    if events == [] then h else Step(Run(h, events[..|events| - 1]), events[|events| - 1])
  }

  // ---- The reference: decisions from the history ----

  datatype Verdict = NoRestart | ForLiveness | ForReadiness

  /** The time of the last report of a probe, 0 when there is none. */
  function LastReport(events: seq<Event>, probe: string): int {
    if events == [] then 0
    else
      var e := events[|events| - 1];
      if e.Report? && e.probe == probe then e.at else LastReport(events[..|events| - 1], probe)
  }

  /** A probe that has reported is silent once more than three minutes have passed since. */
  predicate TooLong(last: int, now: int) {
    last > 0 && now - last > 180
  }

  /** Why a tick restarts: since the last clearing, three unhealthy reports or a silence seen by this or another tick. */
  predicate Due(events: seq<Event>, probe: string, now: int)
    decreases |events|, 1
  {
    UnhealthySince(events, probe) >= 3 || SilenceSince(events, probe) || TooLong(LastReport(events, probe), now)
  }

  /** Liveness is looked at first. */
  function Decision(events: seq<Event>, now: int): Verdict
    decreases |events|, 2
  {
    if Due(events, "liveness", now) then ForLiveness
    else if Due(events, "readiness", now) then ForReadiness
    else NoRestart
  }

  /** A healthy report clears its probe, and so does a restart charged to it. */
  predicate Clears(before: seq<Event>, e: Event, probe: string)
    decreases |before|, 3
  {
    match e
    case Report(p, status, _) => p == probe && status == "healthy"
    case Tick(at) => Decision(before, at) == if probe == "liveness" then ForLiveness else ForReadiness
  }

  /** The unhealthy reports of a probe since it was last cleared. */
  function UnhealthySince(events: seq<Event>, probe: string): nat
    decreases |events|, 0
  {
    if events == [] then 0
    else
      var before, e := events[..|events| - 1], events[|events| - 1];
      if Clears(before, e, probe) then 0
      else UnhealthySince(before, probe) + if e.Report? && e.probe == probe then 1 else 0
  }

  /** Some tick since the probe was last cleared found it silent. */
  predicate SilenceSince(events: seq<Event>, probe: string)
    decreases |events|, 0
  {
    events != []
    && var before, e := events[..|events| - 1], events[|events| - 1];
    && !Clears(before, e, probe)
    && (SilenceSince(before, probe) || (e.Tick? && TooLong(LastReport(before, probe), e.at)))
  }

  function RestartingTicks(events: seq<Event>): nat {
    if events == [] then 0
    else
      var before, e := events[..|events| - 1], events[|events| - 1];
      RestartingTicks(before) + if e.Tick? && Decision(before, e.at) != NoRestart then 1 else 0
  }

  predicate HasReport(events: seq<Event>) {
    exists i :: 0 <= i < |events| && events[i].Report?
  }

  // ---- The monitor follows the reference ----

  predicate Counts(p: Probe, events: seq<Event>, probe: string) {
    && p.last == LastReport(events, probe)
    && (SilenceSince(events, probe) ==> p.fails >= 3)
    && (!SilenceSince(events, probe) ==> p.fails == UnhealthySince(events, probe))
  }

  predicate Follows(h: Health, events: seq<Event>, restarts: int) {
    && h.tracked == HasReport(events)
    && Counts(h.liveness, events, "liveness") && Counts(h.readiness, events, "readiness")
    && h.restarts == restarts + RestartingTicks(events)
  }

  lemma {:induction false} NothingWithoutReports(events: seq<Event>, probe: string)
    requires !HasReport(events)
    ensures LastReport(events, probe) == 0 && UnhealthySince(events, probe) == 0 && !SilenceSince(events, probe)
  {
    if events != [] {
      var before := events[..|events| - 1];
      assert forall i :: 0 <= i < |before| ==> before[i] == events[i];
      assert !events[|events| - 1].Report?;
      NothingWithoutReports(before, probe);
    }
  }

  lemma ReportFollows(h: Health, before: seq<Event>, e: Event, restarts: int)
    requires Follows(h, before, restarts) && e.Report?
    ensures Follows(Step(h, e), before + [e], restarts)
  {
    hide Counts;
    Unrolled(before, e);
    assert "liveness"[0] == 'l' && "readiness"[0] == 'r';
    assert (before + [e])[|before|].Report?;
    ReportCounts(h.liveness, before, e, "liveness");
    ReportCounts(h.readiness, before, e, "readiness");
  }

  lemma ReportCounts(p: Probe, before: seq<Event>, e: Event, probe: string)
    requires Counts(p, before, probe) && e.Report?
    ensures Counts(if e.probe == probe then Reported(p, e.status == "healthy", e.at) else p, before + [e], probe)
  {
    hide Decision, Due;
    Unrolled(before, e);
    assert Clears(before, e, probe) <==> e.probe == probe && e.status == "healthy";
  }

  lemma Unrolled(before: seq<Event>, e: Event)
    ensures (before + [e])[..|before + [e]| - 1] == before && (before + [e])[|before + [e]| - 1] == e
  {
  }

  lemma DueMeansThreshold(p: Probe, events: seq<Event>, probe: string, now: int)
    requires Counts(p, events, probe)
    ensures Due(events, probe, now) <==> Overdue(p, now).fails >= 3
  {
  }

  lemma TickFollows(h: Health, before: seq<Event>, e: Event, restarts: int)
    requires Follows(h, before, restarts) && e.Tick?
    ensures Follows(Step(h, e), before + [e], restarts)
  {
    hide Due, Counts;
    Unrolled(before, e);
    TickIsNoReport(before, e);
    assert "liveness"[0] == 'l' && "readiness"[0] == 'r';
    if h.tracked {
      DueMeansThreshold(h.liveness, before, "liveness", e.at);
      DueMeansThreshold(h.readiness, before, "readiness", e.at);
      TickCounts(h.liveness, before, e, "liveness");
      TickCounts(h.readiness, before, e, "readiness");
    } else {
      NothingDue(before, e.at);
      TickCounts(h.liveness, before, e, "liveness");
      TickCounts(h.readiness, before, e, "readiness");
      SilentNever(h.liveness, before, "liveness", e.at);
      SilentNever(h.readiness, before, "readiness", e.at);
    }
  }

  lemma SilentNever(p: Probe, before: seq<Event>, probe: string, now: int)
    requires !HasReport(before) && Counts(p, before, probe)
    ensures Overdue(p, now) == p
  {
    NothingWithoutReports(before, probe);
  }

  lemma NothingDue(before: seq<Event>, now: int)
    requires !HasReport(before)
    ensures !Due(before, "liveness", now) && !Due(before, "readiness", now)
  {
    NothingWithoutReports(before, "liveness");
    NothingWithoutReports(before, "readiness");
  }

  lemma TickCounts(p: Probe, before: seq<Event>, e: Event, probe: string)
    requires Counts(p, before, probe) && e.Tick?
    ensures var counted := Overdue(p, e.at);
            Counts(if Clears(before, e, probe) then counted.(fails := 0) else counted, before + [e], probe)
  {
  }

  lemma TickIsNoReport(before: seq<Event>, e: Event)
    requires e.Tick?
    ensures HasReport(before + [e]) == HasReport(before)
  {
    if i :| 0 <= i < |before| && before[i].Report? {
      assert (before + [e])[i].Report?;
    }
  }

  /** What the monitor holds of a container that has never reported is where histories begin. */
  lemma UnreportedIsFresh(m: Monitor, name: string)
    requires m.Valid() && name in m.containers && name !in m.states
    ensures m.View(name) == Fresh(m.containers[name].status, m.containers[name].restarts)
  {
  }

  /** After any history of reports and ticks the counters are what the history says. */
  lemma {:induction false} MonitorFollowsHistory(status: string, restarts: int, events: seq<Event>)
    ensures Follows(Run(Fresh(status, restarts), events), events, restarts)
  {
    if events != [] {
      var before, e := events[..|events| - 1], events[|events| - 1];
      MonitorFollowsHistory(status, restarts, before);
      var h := Run(Fresh(status, restarts), before);
      assert before + [e] == events;
      if e.Report? {
        ReportFollows(h, before, e, restarts);
      } else {
        TickFollows(h, before, e, restarts);
      }
    }
  }

  /** A tick restarts a container at most once, and exactly when the history makes a probe due. */
  lemma TickRestartsIff(status: string, restarts: int, events: seq<Event>, now: int)
    ensures var h := Run(Fresh(status, restarts), events);
            var after := Run(Fresh(status, restarts), events + [Tick(now)]);
            && after.restarts
               == h.restarts + (if Due(events, "liveness", now) || Due(events, "readiness", now) then 1 else 0)
            && after.liveness.fails < 3
  {
    hide Due;
    var h := Run(Fresh(status, restarts), events);
    MonitorFollowsHistory(status, restarts, events);
    MonitorFollowsHistory(status, restarts, events + [Tick(now)]);
    Unrolled(events, Tick(now));
    DueMeansThreshold(h.liveness, events, "liveness", now);
    if !h.tracked {
      NothingWithoutReports(events, "liveness");
    }
  }

  /** Restarts counts exactly the ticks that restarted. */
  lemma RestartsCountTicks(status: string, restarts: int, events: seq<Event>)
    ensures Run(Fresh(status, restarts), events).restarts == restarts + RestartingTicks(events)
  {
    MonitorFollowsHistory(status, restarts, events);
  }

  predicate SilentFrom(events: seq<Event>, probe: string, i: nat)
    requires i < |events|
  {
    events[i].Tick? && TooLong(LastReport(events[..i], probe), events[i].at)
    && forall j :: i <= j < |events| ==> !Clears(events[..j], events[j], probe)
  }

  /** Read without recursion: a tick found the probe silent and nothing cleared the probe from then on. */
  lemma {:induction false} SilenceSinceMeans(events: seq<Event>, probe: string)
    ensures SilenceSince(events, probe) <==>
            exists i :: 0 <= i < |events| && SilentFrom(events, probe, i)
  {
    hide Clears, TooLong, LastReport;
    if events != [] {
      var n := |events| - 1;
      var before := events[..n];
      SilenceSinceMeans(before, probe);
      assert forall j :: 0 <= j < n ==> before[j] == events[j] && before[..j] == events[..j];
      if SilenceSince(events, probe) {
        if SilenceSince(before, probe) {
          var i :| 0 <= i < n && SilentFrom(before, probe, i);
          assert SilentFrom(events, probe, i);
        } else {
          assert SilentFrom(events, probe, n);
        }
      }
      if i :| 0 <= i < |events| && SilentFrom(events, probe, i) {
        assert i < n ==> SilentFrom(before, probe, i);
      }
    }
  }

  /** Liveness never keeps a silence: the tick that sees it restarts and clears it. */
  lemma {:induction false} LivenessSilenceIsSpent(events: seq<Event>)
    ensures !SilenceSince(events, "liveness")
  {
    if events != [] {
      var before, e := events[..|events| - 1], events[|events| - 1];
      LivenessSilenceIsSpent(before);
      if e.Tick? && TooLong(LastReport(before, "liveness"), e.at) {
        assert Due(before, "liveness", e.at) && Decision(before, e.at) == ForLiveness;
        assert Clears(before, e, "liveness");
      }
    }
  }

  lemma OneMoreTick(before: seq<Event>, e: Event)
    requires e.Tick?
    ensures RestartingTicks(before + [e])
            == RestartingTicks(before) + if Decision(before, e.at) != NoRestart then 1 else 0
    ensures LastReport(before + [e], "liveness") == LastReport(before, "liveness")
  {
  }

  /** A restart does not reset the time of the last report, so a silent container restarts at every tick. */
  lemma {:induction false} SilentRestartsEveryTick(events: seq<Event>, ticks: seq<Event>)
    requires LastReport(events, "liveness") > 0
    requires forall e <- ticks :: e.Tick? && e.at - LastReport(events, "liveness") > 180
    ensures LastReport(events + ticks, "liveness") == LastReport(events, "liveness")
    ensures RestartingTicks(events + ticks) == RestartingTicks(events) + |ticks|
  {
    if ticks == [] {
      assert events + ticks == events;
    } else {
      var n := |ticks| - 1;
      var before := events + ticks[..n];
      SilentRestartsEveryTick(events, ticks[..n]);
      assert events + ticks == before + [ticks[n]];
      assert ticks[n] in ticks;
      assert Due(before, "liveness", ticks[n].at);
      OneMoreTick(before, ticks[n]);
    }
  }

  lemma NothingDueMeansNoRestart(before: seq<Event>, now: int)
    requires Quiet(before, "liveness") && Quiet(before, "readiness")
    requires !TooLong(LastReport(before, "liveness"), now) && !TooLong(LastReport(before, "readiness"), now)
    ensures Decision(before, now) == NoRestart
  {
  }

  predicate Quiet(events: seq<Event>, probe: string) {
    UnhealthySince(events, probe) == 0 && !SilenceSince(events, probe)
  }

  lemma StaysQuiet(before: seq<Event>, e: Event, probe: string)
    requires Quiet(before, probe)
    requires if e.Report? then e.status == "healthy" else !TooLong(LastReport(before, probe), e.at)
    ensures Quiet(before + [e], probe)
  {
  }

  /** A healthy report, or a tick that finds neither probe silent. */
  predicate InTime(before: seq<Event>, e: Event) {
    if e.Report? then e.status == "healthy"
    else !TooLong(LastReport(before, "liveness"), e.at) && !TooLong(LastReport(before, "readiness"), e.at)
  }

  ghost predicate AlwaysInTime(events: seq<Event>) {
    forall i :: 0 <= i < |events| ==> InTime(events[..i], events[i])
  }

  lemma InTimeBefore(events: seq<Event>)
    requires events != [] && AlwaysInTime(events)
    ensures var n := |events| - 1; AlwaysInTime(events[..n]) && InTime(events[..n], events[n])
  {
    hide InTime;
    var before := events[..|events| - 1];
    assert forall i :: 0 <= i < |before| ==> before[i] == events[i] && before[..i] == events[..i];
  }

  /** A container that reports healthy and in time is never restarted. */
  lemma {:induction false} HealthyNeverRestarts(events: seq<Event>)
    requires AlwaysInTime(events)
    ensures RestartingTicks(events) == 0
    ensures Quiet(events, "liveness") && Quiet(events, "readiness")
  {
    hide TooLong, LastReport, Decision, Quiet, AlwaysInTime;
    if events == [] {
      EmptyIsQuiet();
    } else {
      var before, e := events[..|events| - 1], events[|events| - 1];
      assert before + [e] == events;
      InTimeBefore(events);
      HealthyNeverRestarts(before);
      StaysQuiet(before, e, "liveness");
      StaysQuiet(before, e, "readiness");
      if e.Tick? {
        NothingDueMeansNoRestart(before, e.at);
      }
    }
  }

  lemma EmptyIsQuiet()
    ensures Quiet([], "liveness") && Quiet([], "readiness")
  {
  }

  // ---- The status shown for a container ----

  /** Reports that set the status whatever it was: those of liveness, and healthy ones of readiness. */
  predicate Decisive(e: Event) {
    e.Report? && (e.probe == "liveness" || (e.probe == "readiness" && e.status == "healthy"))
  }

  predicate LastDecisive(events: seq<Event>, i: int) {
    0 <= i < |events| && Decisive(events[i]) && forall j :: i < j < |events| ==> !Decisive(events[j])
  }

  /** A container shows as failed exactly when the last decisive report was an unhealthy one of liveness. */
  lemma {:induction false} FailedIff(h: Health, events: seq<Event>)
    ensures Run(h, events).status == "failed" <==>
            (exists i :: LastDecisive(events, i) && events[i].probe == "liveness" && events[i].status != "healthy")
            || ((forall i :: 0 <= i < |events| ==> !Decisive(events[i])) && h.status == "failed")
  {
    if events != [] {
      var n := |events| - 1;
      var before, e := events[..n], events[n];
      FailedIff(h, before);
      StatusStep(Run(h, before), e);
      if Decisive(e) {
        assert LastDecisive(events, n);
        assert forall i :: LastDecisive(events, i) ==> i == n;
      } else {
        assert forall i :: 0 <= i < n ==> before[i] == events[i];
        assert forall i :: LastDecisive(events, i) <==> LastDecisive(before, i);
      }
    }
  }

  lemma StatusStep(h: Health, e: Event)
    ensures Step(h, e).status == "failed" <==>
            if Decisive(e) then e.probe == "liveness" && e.status != "healthy" else h.status == "failed"
  {
    assert "liveness"[0] == 'l' && "readiness"[0] == 'r' && "running"[0] == 'r'
        && "not ready"[0] == 'n' && "failed"[0] == 'f';
  }

  /**
   In full: the last decisive report shows the container as failed or running, and a running one, or one no decisive
   report was about, as not ready once a readiness report, then an unhealthy one, has come after it.
   */
  lemma {:induction false} StatusTold(h: Health, events: seq<Event>, i: int)
    requires LastDecisive(events, i) || (i == -1 && forall j :: 0 <= j < |events| ==> !Decisive(events[j]))
    ensures var base := if i == -1 then h.status else if events[i].status == "healthy" then "running" else "failed";
            Run(h, events).status == if base != "failed" && ReadinessAfter(events, i) then "not ready" else base
  {
    hide Step, Decisive;
    if events != [] {
      var n := |events| - 1;
      var before, e := events[..n], events[n];
      assert forall j :: 0 <= j < n ==> before[j] == events[j];
      StatusChange(Run(h, before), e);
      if i < n {
        StatusTold(h, before, i);
        OneMoreReadiness(events, i);
      }
    }
  }

  lemma StatusChange(h: Health, e: Event)
    ensures Step(h, e).status
            == if Decisive(e) then (if e.status == "healthy" then "running" else "failed")
               else if IsReadiness(e) && h.status != "failed" then "not ready" else h.status
  {
    assert "liveness"[0] == 'l' && "readiness"[0] == 'r';
  }

  lemma OneMoreReadiness(events: seq<Event>, i: int)
    requires events != [] && -1 <= i < |events| - 1
    ensures ReadinessAfter(events, i)
            <==> ReadinessAfter(events[..|events| - 1], i) || IsReadiness(events[|events| - 1])
  {
    var before := events[..|events| - 1];
    assert forall j :: 0 <= j < |before| ==> before[j] == events[j];
  }

  predicate IsReadiness(e: Event) {
    e.Report? && e.probe == "readiness"
  }

  predicate ReadinessAfter(events: seq<Event>, i: int)
    requires -1 <= i
  {
    exists j :: i < j < |events| && IsReadiness(events[j])
  }
}
