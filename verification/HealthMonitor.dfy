/** The health monitor of cdocker: probe reports and ticks update counters, and a tick may restart containers. */
module HealthMonitor {

  const LIVENESS := "liveness"
  const READINESS := "readiness"
  const HEALTHY := "healthy"
  const RUNNING := "running"
  const FAILED := "failed"
  const NOT_READY := "not ready"
  const THRESHOLD := 3
  const PROBE_TIMEOUT := 180

  class ContainerInfo {
    var status: string
    var restarts: int

    constructor (status: string)
      ensures this.status == status && restarts == 0
    {
      this.status := status;
      restarts := 0;
    }
  }

  class HealthState {
    var livenessFails: int
    var readinessFails: int
    var lastLivenessTime: int
    var lastReadinessTime: int

    constructor ()
      ensures livenessFails == readinessFails == lastLivenessTime == lastReadinessTime == 0
    {
      livenessFails, readinessFails, lastLivenessTime, lastReadinessTime := 0, 0, 0, 0;
    }
  }

  /** The counter of one probe and the time of its last report. */
  datatype Probe = Probe(fails: int, last: int)

  /** All the monitor knows of one container; tracked once it has reported. */
  datatype Health = Health(tracked: bool, liveness: Probe, readiness: Probe, status: string, restarts: int)

  predicate IsSilent(last: int, now: int) {
    last > 0 && now - last > PROBE_TIMEOUT
  }

  function Reported(p: Probe, healthy: bool, now: int): Probe {
    Probe(if healthy then 0 else p.fails + 1, now)
  }

  /** One report about the container. */
  function AfterReport(h: Health, probe: string, status: string, now: int): Health {
    var healthy := status == HEALTHY;
    if probe == LIVENESS then
      h.(tracked := true, liveness := Reported(h.liveness, healthy, now), status := if healthy then RUNNING else FAILED)
    else if probe == READINESS then
      h.(tracked := true, readiness := Reported(h.readiness, healthy, now),
         status := if healthy then RUNNING else if h.status != FAILED then NOT_READY else h.status)
    else h.(tracked := true)
  }

  function Overdue(p: Probe, now: int): Probe {
    if IsSilent(p.last, now) then p.(fails := THRESHOLD) else p
  }

  /** One tick of the monitor, for a container it tracks. */
  function AfterTick(h: Health, now: int): Health {
    var l, r := Overdue(h.liveness, now), Overdue(h.readiness, now);
    if l.fails >= THRESHOLD then h.(liveness := l.(fails := 0), readiness := r, restarts := h.restarts + 1)
    else if r.fails >= THRESHOLD then h.(liveness := l, readiness := r.(fails := 0), restarts := h.restarts + 1)
    else h.(liveness := l, readiness := r)
  }

  function AfterAnyTick(h: Health, now: int): Health {
    if h.tracked then AfterTick(h, now) else h
  }

  class Monitor {
    const containers: map<string, ContainerInfo>
    var states: map<string, HealthState>

    constructor (containers: map<string, ContainerInfo>)
      requires forall m, n :: m in containers && n in containers && m != n ==> containers[m] != containers[n]
      ensures Valid() && this.containers == containers && states == map[]
    {
      this.containers := containers;
      states := map[];
    }

    /** Every tracked container is known, and no two names share an object. */
    ghost predicate Valid()
      reads this
    {
      && (forall n :: n in states ==> n in containers)
      && (forall m, n :: m in containers && n in containers && m != n ==> containers[m] != containers[n])
      && (forall m, n :: m in states && n in states && m != n ==> states[m] != states[n])
    }

    ghost function Objects(): set<object>
      reads this
    {
      (set n | n in containers :: containers[n] as object) + (set n | n in states :: states[n] as object)
    }

    ghost function View(name: string): Health
      requires name in containers
      reads this, Objects()
    {
      var c := containers[name];
      if name in states then
        var s := states[name];
        Health(true, Probe(s.livenessFails, s.lastLivenessTime), Probe(s.readinessFails, s.lastReadinessTime),
               c.status, c.restarts)
      else Health(false, Probe(0, 0), Probe(0, 0), c.status, c.restarts)
    }

    method HandleProbeReport(containerName: string, probeName: string, status: string, now: int)
      requires Valid() && containerName in containers
      modifies this, Objects()
      ensures Valid() && states.Keys == old(states.Keys) + {containerName}
      ensures fresh(Objects() - old(Objects()))
      ensures View(containerName) == AfterReport(old(View(containerName)), probeName, status, now)
      ensures forall n :: n in containers && n != containerName ==> View(n) == old(View(n))
    {
      if containerName !in states {
        Track(containerName);
      }
      Count(containerName, probeName, status, now);
    }

    /** The state created by a container's first report. */
    method Track(containerName: string)
      requires Valid() && containerName in containers && containerName !in states
      modifies this
      ensures Valid() && states.Keys == old(states.Keys) + {containerName}
      ensures fresh(Objects() - old(Objects()))
      ensures forall n :: n in containers ==>
                View(n) == if n == containerName then old(View(n)).(tracked := true) else old(View(n))
    {
      var created := new HealthState();
      states := states[containerName := created];
    }

    /** What a report changes once the container is tracked. */
    method Count(containerName: string, probeName: string, status: string, now: int)
      requires Valid() && containerName in states
      modifies states[containerName], containers[containerName]
      ensures View(containerName) == AfterReport(old(View(containerName)), probeName, status, now)
      ensures forall n :: n in containers && n != containerName ==> View(n) == old(View(n))
    {
      assert LIVENESS[0] == 'l' && READINESS[0] == 'r';
      var state, info := states[containerName], containers[containerName];
      if probeName == LIVENESS {
        state.lastLivenessTime := now;
        if status == HEALTHY {
          info.status := RUNNING;
          state.livenessFails := 0;
        } else {
          info.status := FAILED;
          state.livenessFails := state.livenessFails + 1;
        }
      }
      if probeName == READINESS {
        state.lastReadinessTime := now;
        if status == HEALTHY {
          info.status := RUNNING;
          state.readinessFails := 0;
        } else {
          if info.status != FAILED {
            info.status := NOT_READY;
          }
          state.readinessFails := state.readinessFails + 1;
        }
      }
    }

    method RestartContainer(containerName: string)
      requires containerName in containers
      modifies containers[containerName]
      ensures containers[containerName].status == old(containers[containerName].status)
      ensures containers[containerName].restarts == old(containers[containerName].restarts) + 1
    {
      var info := containers[containerName];
      info.restarts := info.restarts + 1;
    }

    /** The body of the loop of checkStates. */
    method CheckState(containerName: string, now: int)
      requires Valid() && containerName in states
      modifies states[containerName], containers[containerName]
      ensures View(containerName) == AfterTick(old(View(containerName)), now)
      ensures forall n :: n in containers && n != containerName ==> View(n) == old(View(n))
    {
      var state := states[containerName];
      if state.lastLivenessTime > 0 && now - state.lastLivenessTime > PROBE_TIMEOUT {
        state.livenessFails := THRESHOLD;
      }
      if state.lastReadinessTime > 0 && now - state.lastReadinessTime > PROBE_TIMEOUT {
        state.readinessFails := THRESHOLD;
      }
      if state.livenessFails >= THRESHOLD {
        RestartContainer(containerName);
        state.livenessFails := 0;
      } else if state.readinessFails >= THRESHOLD {
        RestartContainer(containerName);
        state.readinessFails := 0;
      }
    }

    /** checkStates: the map of states is walked in any order. */
    method CheckStates(now: int)
      requires Valid()
      modifies Objects()
      ensures Valid()
      ensures forall n :: n in containers ==> View(n) == AfterAnyTick(old(View(n)), now)
    {
      var rest := states.Keys;
      while rest != {}
        invariant rest <= states.Keys
        invariant forall n :: n in containers ==>
          View(n) == if n in rest then old(View(n)) else AfterAnyTick(old(View(n)), now)
        decreases rest
      {
        var n :| n in rest;
        CheckState(n, now);
        rest := rest - {n};
      }
    }
  }
}
