/** The circuit breaker of the sidecar: its entries, its three atomic steps, and the object that holds them. */
module Breaker {
  const UINT32_RANGE: nat := 0x1_0000_0000

  datatype Phase = Closed | Open | HalfOpen

  /** One breakerEntry. openedAt is meaningful only after the entry has opened. */
  datatype Entry = Entry(phase: Phase, failures: nat, openedAt: int, trialInFlight: bool)

  const FRESH := Entry(Closed, 0, 0, false)

  /** Settings the sidecar runs the breaker with; it leaves the layer out when the threshold is zero. */
  datatype Config = Config(threshold: nat, recovery: int) {
    ghost predicate Valid() {
      0 < threshold < UINT32_RANGE
    }
  }

  type Entries = map<string, Entry>

  function Lookup(es: Entries, key: string): Entry {
    if key in es then es[key] else FRESH
  }

  predicate Admits(cfg: Config, e: Entry, now: int) {
    match e.phase
    case Closed => true
    case Open => now - e.openedAt >= cfg.recovery
    case HalfOpen => !e.trialInFlight
  }

  function AfterAllow(cfg: Config, e: Entry, now: int): Entry {
    match e.phase
    case Closed => e
    case Open => if now - e.openedAt < cfg.recovery then e else e.(phase := HalfOpen, trialInFlight := true)
    case HalfOpen => e.(trialInFlight := true)
  }

  function AfterSuccess(e: Entry): Entry {
    e.(phase := Closed, failures := 0, trialInFlight := false)
  }

  /** The counter is a uint32, so the increment wraps. */
  function Incremented(failures: nat): nat {
    (failures + 1) % UINT32_RANGE
  }

  function AfterFailure(cfg: Config, e: Entry, now: int): Entry {
    match e.phase
    case HalfOpen => Entry(Open, cfg.threshold, now, false)
    case Open => e.(openedAt := now)
    case Closed =>
      var failures := Incremented(e.failures);
      if failures >= cfg.threshold then Entry(Open, failures, now, false) else e.(failures := failures)
  }

  /** breakerEntry, reached through a pointer held by the map. */
  class BreakerEntry {
    var phase: Phase
    var failures: nat
    var openedAt: int
    var trialInFlight: bool

    constructor ()
      ensures Value() == FRESH
    {
      phase, failures, openedAt, trialInFlight := Closed, 0, 0, false;
    }

    function Value(): Entry
      reads this
    {
      Entry(phase, failures, openedAt, trialInFlight)
    }
  }

  /** breakerMiddleware. Each method below is one critical section of its mutex; now is its clock reading. */
  class BreakerMiddleware {
    const cfg: Config
    var entries: map<string, BreakerEntry>

    /** No two keys share an entry. */
    ghost predicate Valid()
      reads this
    {
      forall j, k :: j in entries && k in entries && entries[j] == entries[k] ==> j == k
    }

    ghost function View(): Entries
      reads this, entries.Values
    {
      map k | k in entries :: entries[k].Value()
    }

    constructor (cfg: Config)
      ensures Valid() && View() == map[] && this.cfg == cfg
    {
      this.cfg := cfg;
      entries := map[];
    }

    /** What the map holds once every key but one has kept its value. */
    lemma ViewUpdated(was: Entries, key: string, e: Entry)
      requires entries.Keys == was.Keys + {key} && entries[key].Value() == e
      requires forall k :: k in was && k != key ==> entries[k].Value() == was[k]
      ensures View() == was[key := e]
    {
    }

    method GetOrCreateEntry(key: string) returns (entry: BreakerEntry)
      requires Valid()
      modifies this`entries
      ensures Valid() && key in entries && entries[key] == entry
      ensures old(key in entries) ==> entries == old(entries)
      ensures !old(key in entries) ==> fresh(entry) && entries == old(entries)[key := entry]
      ensures entry.Value() == Lookup(old(View()), key)
      ensures forall k :: k in entries && k != key ==> k in old(entries) && entries[k] == old(entries[k]) != entry
      ensures entries.Keys == old(View()).Keys + {key}
      ensures forall k :: k in old(View()) && k != key ==> k in entries && entries[k].Value() == old(View())[k]
    {
      if key in entries {
        return entries[key];
      }
      entry := new BreakerEntry();
      entries := entries[key := entry];
    }

    method Allow(key: string, now: int) returns (admitted: bool)
      requires Valid()
      modifies this`entries, entries.Values
      ensures Valid() && entries.Keys == old(entries.Keys) + {key}
      ensures admitted == Admits(cfg, Lookup(old(View()), key), now)
      ensures View() == old(View())[key := AfterAllow(cfg, Lookup(old(View()), key), now)]
    {
      hide Lookup, View, Valid;
      var entry := GetOrCreateEntry(key);
      ghost var before := entry.Value();
      if entry.phase == Open {
        if now - entry.openedAt < cfg.recovery {
          ViewUpdated(old(View()), key, before);
          return false;
        }
        entry.phase := HalfOpen;
        entry.trialInFlight := false;
      }
      if entry.phase == HalfOpen {
        if entry.trialInFlight {
          ViewUpdated(old(View()), key, before);
          return false;
        }
        entry.trialInFlight := true;
      }
      ViewUpdated(old(View()), key, AfterAllow(cfg, before, now));
      admitted := true;
    }

    method RecordSuccess(key: string)
      requires Valid()
      modifies this`entries, entries.Values
      ensures Valid() && entries.Keys == old(entries.Keys) + {key}
      ensures View() == old(View())[key := AfterSuccess(Lookup(old(View()), key))]
    {
      hide Lookup, View, Valid;
      var entry := GetOrCreateEntry(key);
      ghost var before := entry.Value();
      entry.phase := Closed;
      entry.failures := 0;
      entry.trialInFlight := false;
      ViewUpdated(old(View()), key, AfterSuccess(before));
    }

    method RecordFailure(key: string, now: int)
      requires Valid()
      modifies this`entries, entries.Values
      ensures Valid() && entries.Keys == old(entries.Keys) + {key}
      ensures View() == old(View())[key := AfterFailure(cfg, Lookup(old(View()), key), now)]
    {
      hide Incremented, Lookup, View, Valid;
      var entry := GetOrCreateEntry(key);
      ghost var before := entry.Value();
      if entry.phase == HalfOpen {
        entry.phase := Open;
        entry.openedAt := now;
        entry.failures := cfg.threshold;
        entry.trialInFlight := false;
        ViewUpdated(old(View()), key, AfterFailure(cfg, before, now));
        return;
      }
      if entry.phase == Open {
        entry.openedAt := now;
        ViewUpdated(old(View()), key, AfterFailure(cfg, before, now));
        return;
      }
      entry.failures := Incremented(entry.failures);
      if entry.failures >= cfg.threshold {
        entry.phase := Open;
        entry.openedAt := now;
        entry.trialInFlight := false;
      }
      ViewUpdated(old(View()), key, AfterFailure(cfg, before, now));
    }
  }
}
