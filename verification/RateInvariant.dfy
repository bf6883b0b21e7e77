/** Every interleaving keeps the store and the ledger in step. */
module RateInvariant {
  import opened Options
  import opened RateStore
  import opened RateLimiter
  import opened RateLedger
  import opened RateRequests

  /** Only places and completion differ. */
  predicate SameShape(log: seq<Entry>, other: seq<Entry>) {
    |log| == |other| && forall i :: 0 <= i < |log| ==> SameEntry(log[i], other[i])
  }

  predicate SameEntry(e: Entry, f: Entry) {
    && e.key == f.key && e.at == f.at && e.counted == f.counted && e.ahead == f.ahead && e.lost == f.lost
    && e.failed == f.failed
  }

  lemma BoundedSame(cfg: Config, log: seq<Entry>, other: seq<Entry>)
    requires Bounded(cfg, log) && SameShape(log, other)
    ensures Bounded(cfg, other)
  {
    forall n, t | 0 <= n < |other| ensures BoundAt(cfg, other, n, t) {
      assert BoundAt(cfg, log, n, t);
      var p := InTimeOf(other[n].key, t - cfg.window, t);
      NumberSame(log[..n + 1], other[..n + 1], p, p);
    }
  }

  lemma TimesGone(log: seq<Entry>, other: seq<Entry>, key: string)
    requires |log| == |other| && forall i :: 0 <= i < |log| ==> log[i].at == other[i].at
    requires forall i :: 0 <= i < |log| ==> !StoredOf(key)(other[i])
    ensures Times(other, key) == multiset{}
  {
    forall x ensures Times(other, key)[x] == 0 {
      TimesFiltered(log, other, key, x, false);
    }
  }

  // ---- Purging ----

  lemma PurgeTied(s: System, key: string, now: int)
    requires Tied(s)
    ensures Tied(Purge(s, key, now))
  {
    if s.store.Expired(key, now) {
      var p := Purge(s, key, now);
      forall k ensures multiset(p.store.Records(k)) == Times(p.log, k) {
        assert multiset(s.store.Records(k)) == Times(s.log, k);
        if k == key {
          TimesGone(s.log, p.log, key);
        } else {
          TimesSame(s.log, p.log, k);
          assert p.store.Records(k) == s.store.Records(k);
        }
      }
    }
  }

  lemma PurgeClocks(cfg: Config, s: System, key: string, now: int)
    requires Clocks(cfg, s) && Expiries(cfg, s) && s.clock <= now
    ensures Clocks(cfg, Purge(s, key, now))
  {
    var p := Purge(s, key, now);
    forall i | 0 <= i < |p.log| ensures EntryClocks(cfg, p.log[i], now) {
      assert EntryClocks(cfg, s.log[i], s.clock) && EntryExpiry(cfg, s.store.expires, s.log[i]);
    }
  }

  lemma PurgeLinked(s: System, key: string, now: int)
    requires Linked(s)
    ensures Linked(Purge(s, key, now))
  {
    var p := Purge(s, key, now);
    LogLinked(s, p);
  }

  /** Changing places keeps the links, as long as pending entries stay pending and no other becomes so. */
  lemma LogLinked(s: System, p: System)
    requires Linked(s) && SameShape(s.log, p.log) && p.flights == s.flights
    requires forall i :: 0 <= i < |s.log| ==>
               s.log[i].done == p.log[i].done && (s.log[i].place.Pending? <==> p.log[i].place.Pending?)
    ensures Linked(p)
  {
    forall id | id in p.flights ensures HasEntry(p.log, p.flights[id]) {
      assert HasEntry(s.log, s.flights[id]);
    }
    forall i | 0 <= i < |p.log| && !p.log[i].done && !p.log[i].failed ensures Owned(p, i) {
      assert Owned(s, i);
    }
  }

  lemma PurgeExpiries(cfg: Config, s: System, key: string, now: int)
    requires Expiries(cfg, s) && s.clock <= now
    ensures Expiries(cfg, Purge(s, key, now))
  {
    var p := Purge(s, key, now);
    forall i | 0 <= i < |p.log| ensures EntryExpiry(cfg, p.store.expires, p.log[i]) {
      assert EntryExpiry(cfg, s.store.expires, s.log[i]);
    }
  }

  lemma PurgeKeeps(cfg: Config, s: System, key: string, now: int)
    requires Inv(cfg, s) && s.clock <= now
    ensures Inv(cfg, Purge(s, key, now))
    ensures !Purge(s, key, now).store.Expired(key, now)
  {
    hide Tied, Clocks, Linked, Expiries, Bounded;
    PurgeTied(s, key, now);
    PurgeClocks(cfg, s, key, now);
    PurgeLinked(s, key, now);
    PurgeExpiries(cfg, s, key, now);
    BoundedSame(cfg, s.log, Purge(s, key, now).log);
  }

  // ---- Cleaning ----

  lemma {:induction false} OutsideCounts(s: seq<int>, from: int, to: int, x: int)
    ensures multiset(Outside(s, from, to))[x] == if from <= x <= to then 0 else multiset(s)[x]
  {
    if s != [] {
      OutsideCounts(s[1..], from, to, x);
      assert s == [s[0]] + s[1..];
    }
  }

  lemma SweepTied(cfg: Config, s: System, f: Flight, now: int)
    requires Tied(s) && Clocks(cfg, s) && !s.store.Expired(f.key, now) && Representable(cfg, f.at)
    ensures Tied(Clean(cfg, s, f, now))
  {
    hide Sweep, Outside, Store.Removed, Store.Records, Store.Valid, Times;
    var p, cutoff := Clean(cfg, s, f, now), f.at - cfg.window;
    assert multiset(s.store.Records(f.key)) == Times(s.log, f.key);
    RemovedRecords(s.store, f.key, ZERO_TIME_NANO, cutoff, now);
    forall x ensures multiset(p.store.Records(f.key))[x] == Times(p.log, f.key)[x] {
      SweptTimes(cfg, s, f, now, x);
    }
    forall k ensures multiset(p.store.Records(k)) == Times(p.log, k) {
      assert multiset(s.store.Records(k)) == Times(s.log, k);
      if k != f.key {
        OthersUnswept(s.log, f.key, cutoff, f.at, k);
      }
    }
  }

  lemma RemovedRecords(st: Store, key: string, from: int, to: int, now: int)
    requires st.Valid() && !st.Expired(key, now) && from <= to
    ensures var r := st.Removed(key, from, to, now);
            && r.Valid() && r.Records(key) == Outside(st.Records(key), from, to)
            && forall k :: k != key ==> r.Records(k) == st.Records(k)
  {
    hide Cut, Outside;
    CutRemovesRange(st.Records(key), from, to);
    CutKeepsSorted(st.Records(key), from, to);
  }

  lemma OthersUnswept(log: seq<Entry>, key: string, cutoff: int, reading: int, other: string)
    requires other != key
    ensures Times(Sweep(log, key, cutoff, reading), other) == Times(log, other)
  {
    TimesSame(log, Sweep(log, key, cutoff, reading), other);
  }

  lemma SweptTimes(cfg: Config, s: System, f: Flight, now: int, x: int)
    requires Clocks(cfg, s) && multiset(s.store.Records(f.key)) == Times(s.log, f.key)
    ensures var cutoff := f.at - cfg.window;
            multiset(Outside(s.store.Records(f.key), ZERO_TIME_NANO, cutoff))[x]
            == Times(Sweep(s.log, f.key, cutoff, f.at), f.key)[x]
  {
    var cutoff := f.at - cfg.window;
    OutsideCounts(s.store.Records(f.key), ZERO_TIME_NANO, cutoff, x);
    TimesFiltered(s.log, Sweep(s.log, f.key, cutoff, f.at), f.key, x, x > cutoff);
    if x < ZERO_TIME_NANO {
      forall i | 0 <= i < |s.log| ensures s.log[i].at != x {
        assert EntryClocks(cfg, s.log[i], s.clock);
      }
      TimesFiltered(s.log, s.log, f.key, x, false);
    }
  }

  lemma SweepClocks(cfg: Config, s: System, f: Flight, now: int)
    requires Clocks(cfg, s) && s.clock <= now && f.at <= s.clock && !s.store.Expired(f.key, now)
    ensures Clocks(cfg, Clean(cfg, s, f, now))
  {
    var p := Clean(cfg, s, f, now);
    forall i | 0 <= i < |p.log| ensures EntryClocks(cfg, p.log[i], now) {
      assert EntryClocks(cfg, s.log[i], s.clock);
    }
  }

  lemma SweepExpiries(cfg: Config, s: System, f: Flight, now: int)
    requires Expiries(cfg, s) && s.clock <= now && !s.store.Expired(f.key, now)
    ensures Expiries(cfg, Clean(cfg, s, f, now))
  {
    var p := Clean(cfg, s, f, now);
    forall i | 0 <= i < |p.log| ensures EntryExpiry(cfg, p.store.expires, p.log[i]) {
      assert EntryExpiry(cfg, s.store.expires, s.log[i]);
    }
  }

  lemma CleanKeeps(cfg: Config, s: System, f: Flight, now: int)
    requires Inv(cfg, s) && s.clock <= now && f.at <= s.clock && Representable(cfg, f.at)
    ensures Inv(cfg, Clean(cfg, s, f, now))
  {
    hide Tied, Clocks, Linked, Expiries, Bounded;
    if s.store.Expired(f.key, now) {
      PurgeKeeps(cfg, s, f.key, now);
    } else {
      var p := Clean(cfg, s, f, now);
      SweepTied(cfg, s, f, now);
      SweepClocks(cfg, s, f, now);
      LogLinked(s, p);
      SweepExpiries(cfg, s, f, now);
      BoundedSame(cfg, s.log, p.log);
    }
  }

  // ---- Admitting ----

  /** What a count finds in any window that still reaches it: records, and admissions pending or lost. */
  lemma FoundInWindow(cfg: Config, s: System, key: string, t: int)
    requires Tied(s) && Clocks(cfg, s) && s.clock <= t
    ensures Number(s.log, InTimeOf(key, t - cfg.window, t))
            <= |s.store.Records(key)| + Number(s.log, PendingOf(key))
               + Number(s.log, LostSince(key, s.clock - cfg.window))
  {
    var p, stored := InTimeOf(key, t - cfg.window, t), StoredOf(key);
    var unseen := UnseenOf(key, s.clock - cfg.window);
    forall i | 0 <= i < |s.log| && p(s.log[i]) ensures stored(s.log[i]) || unseen(s.log[i]) {
      assert EntryClocks(cfg, s.log[i], s.clock);
    }
    NumberSum(s.log, p, stored, unseen);
    NumberSum(s.log, unseen, PendingOf(key), LostSince(key, s.clock - cfg.window));
    assert multiset(s.store.Records(key)) == Times(s.log, key);
    TimesNumber(s.log, key);
    assert |multiset(s.store.Records(key))| == |s.store.Records(key)|;
  }

  lemma AdmitBounded(cfg: Config, s: System, f: Flight)
    requires Tied(s) && Clocks(cfg, s) && Bounded(cfg, s.log) && |s.store.Records(f.key)| < cfg.maxHits
    ensures Bounded(cfg, s.log + [NewEntry(cfg, s, f)])
  {
    hide Tied, Clocks;
    var e := NewEntry(cfg, s, f);
    var log := s.log + [e];
    forall n, t | 0 <= n < |log| ensures BoundAt(cfg, log, n, t) {
      if n < |s.log| {
        assert BoundAt(cfg, s.log, n, t);
        assert log[..n + 1] == s.log[..n + 1];
      } else {
        assert log[..n + 1] == log;
        if InTimeOf(f.key, t - cfg.window, t)(e) {
          FoundInWindow(cfg, s, f.key, t);
          NumberSnoc(s.log, e, InTimeOf(f.key, t - cfg.window, t));
        }
      }
    }
  }

  lemma AdmitLinked(cfg: Config, s: System, id: int)
    requires Linked(s) && id in s.flights && s.flights[id].stage.Cleaned?
    ensures Linked(Admit(cfg, s, id))
  {
    hide Number;
    var p := Admit(cfg, s, id);
    forall i | i in p.flights ensures HasEntry(p.log, p.flights[i]) {
      assert HasEntry(s.log, s.flights[i]);
    }
    forall i | 0 <= i < |p.log| && !p.log[i].done && !p.log[i].failed ensures Owned(p, i) {
      if i < |s.log| {
        assert Owned(s, i);
        var owner :| owner in s.flights && Slot(s.flights[owner]) == Some(i);
        assert Slot(p.flights[owner]) == Some(i);
      } else {
        assert Slot(p.flights[id]) == Some(i);
      }
    }
  }

  lemma AdmitTied(cfg: Config, s: System, id: int)
    requires Tied(s) && id in s.flights
    ensures Tied(Admit(cfg, s, id))
  {
    hide Number;
    var e := NewEntry(cfg, s, s.flights[id]);
    forall k ensures multiset(s.store.Records(k)) == Times(s.log + [e], k) {
      assert multiset(s.store.Records(k)) == Times(s.log, k);
      TimesSnoc(s.log, e, k);
    }
  }

  lemma AdmitClocks(cfg: Config, s: System, id: int)
    requires Clocks(cfg, s) && id in s.flights
    ensures Clocks(cfg, Admit(cfg, s, id))
  {
    hide Number;
  }

  lemma AdmitKeeps(cfg: Config, s: System, id: int)
    requires Inv(cfg, s) && id in s.flights && s.flights[id].stage.Cleaned?
    requires |s.store.Records(s.flights[id].key)| < cfg.maxHits
    ensures Inv(cfg, Admit(cfg, s, id))
  {
    AdmitTied(cfg, s, id);
    AdmitClocks(cfg, s, id);
    AdmitLinked(cfg, s, id);
    AdmitBounded(cfg, s, s.flights[id]);
    hide Tied, Clocks, Linked, Bounded, Number;
  }

  // ---- Adding and finishing ----

  lemma InsertTied(s: System, id: int, n: nat)
    requires Tied(s) && Linked(s) && id in s.flights && s.flights[id].stage == Admitted(n) && n < |s.log|
    requires !s.store.Expired(s.flights[id].key, s.clock)
    ensures Tied(Insert(s, id, n))
  {
    hide Inserted;
    var p, f := Insert(s, id, n), s.flights[id];
    assert HasEntry(s.log, f);
    var records := s.store.Records(f.key);
    InsertedAddsOne(records, f.at);
    forall k ensures multiset(p.store.Records(k)) == Times(p.log, k) {
      assert multiset(s.store.Records(k)) == Times(s.log, k);
      TimesAdded(s.log, n, p.log[n], k);
    }
  }

  lemma InsertLinked(s: System, id: int, n: nat)
    requires Linked(s) && id in s.flights && s.flights[id].stage == Admitted(n) && n < |s.log|
    ensures Linked(Insert(s, id, n))
  {
    var p := Insert(s, id, n);
    forall i | i in p.flights ensures HasEntry(p.log, p.flights[i]) {
      assert HasEntry(s.log, s.flights[i]);
      if i != id {
        assert Slot(s.flights[id]) != Slot(s.flights[i]);
      }
    }
    forall i | 0 <= i < |p.log| && !p.log[i].done && !p.log[i].failed ensures Owned(p, i) {
      assert Owned(s, i);
      var owner :| owner in s.flights && Slot(s.flights[owner]) == Some(i);
      assert Slot(p.flights[owner]) == Some(i);
    }
  }

  lemma InsertRest(cfg: Config, s: System, id: int, n: nat)
    requires Clocks(cfg, s) && Expiries(cfg, s) && Linked(s)
    requires id in s.flights && s.flights[id].stage == Admitted(n) && n < |s.log|
    requires !s.store.Expired(s.flights[id].key, s.clock)
    ensures Clocks(cfg, Insert(s, id, n)) && Expiries(cfg, Insert(s, id, n))
  {
    hide Inserted;
    var p := Insert(s, id, n);
    assert HasEntry(s.log, s.flights[id]);
    assert EntryClocks(cfg, s.log[n], s.clock);
    forall i | 0 <= i < |p.log|
      ensures EntryClocks(cfg, p.log[i], p.clock) && EntryExpiry(cfg, p.store.expires, p.log[i])
    {
      assert EntryClocks(cfg, s.log[i], s.clock) && EntryExpiry(cfg, s.store.expires, s.log[i]);
    }
  }

  lemma InsertKeeps(cfg: Config, s: System, id: int, n: nat)
    requires Inv(cfg, s) && id in s.flights && s.flights[id].stage == Admitted(n) && n < |s.log|
    requires !s.store.Expired(s.flights[id].key, s.clock)
    ensures Inv(cfg, Insert(s, id, n))
  {
    InsertTied(s, id, n);
    InsertLinked(s, id, n);
    InsertRest(cfg, s, id, n);
    hide Tied, Clocks, Linked, Expiries, Bounded;
    BoundedSame(cfg, s.log, Insert(s, id, n).log);
  }

  lemma ExpireLinked(cfg: Config, s: System, a: Action)
    requires Linked(s) && a.Expire? && Enabled(cfg, s, a)
    ensures Linked(Act(cfg, s, a))
  {
    var p, n := Act(cfg, s, a), s.flights[a.id].stage.n;
    assert HasEntry(s.log, s.flights[a.id]);
    forall i | i in p.flights ensures HasEntry(p.log, p.flights[i]) {
      assert HasEntry(s.log, s.flights[i]) && Slot(s.flights[a.id]) != Slot(s.flights[i]);
    }
    forall i | 0 <= i < |p.log| && !p.log[i].done && !p.log[i].failed ensures Owned(p, i) {
      assert Owned(s, i);
      var owner :| owner in s.flights && Slot(s.flights[owner]) == Some(i);
      assert owner in p.flights;
    }
  }

  lemma ExpireKeeps(cfg: Config, s: System, a: Action)
    requires Inv(cfg, s) && a.Expire? && Enabled(cfg, s, a)
    ensures Inv(cfg, Act(cfg, s, a))
  {
    var p, n := Act(cfg, s, a), s.flights[a.id].stage.n;
    assert HasEntry(s.log, s.flights[a.id]);
    ExpireLinked(cfg, s, a);
    hide Linked, Bounded;
    BoundedSame(cfg, s.log, p.log);
    forall i | 0 <= i < |p.log|
      ensures EntryClocks(cfg, p.log[i], p.clock) && EntryExpiry(cfg, p.store.expires, p.log[i])
    {
      assert EntryClocks(cfg, s.log[i], s.clock) && EntryExpiry(cfg, s.store.expires, s.log[i]);
    }
    forall k ensures multiset(p.store.Records(k)) == Times(p.log, k) {
      assert multiset(s.store.Records(k)) == Times(s.log, k);
      TimesSame(s.log, p.log, k);
    }
  }

  // ---- Failing ----

  /** Requests that fail only make windows emptier. */
  lemma BoundedFailed(cfg: Config, log: seq<Entry>, m: nat)
    requires Bounded(cfg, log) && m < |log|
    ensures Bounded(cfg, log[m := FailedEntry(log[m])])
  {
    var other := log[m := FailedEntry(log[m])];
    forall n, t | 0 <= n < |other| ensures BoundAt(cfg, other, n, t) {
      assert BoundAt(cfg, log, n, t);
      var p := InTimeOf(other[n].key, t - cfg.window, t);
      NumberAtMost(other[..n + 1], log[..n + 1], p, p);
    }
  }

  lemma FailLinked(s: System, id: int, now: int)
    requires Linked(s) && id in s.flights && HasEntry(s.log, s.flights[id])
    ensures Linked(Abort(s, id, now))
  {
    var p := Abort(s, id, now);
    forall i | i in p.flights ensures HasEntry(p.log, p.flights[i]) {
      assert HasEntry(s.log, s.flights[i]);
      assert Slot(s.flights[i]).Some? ==> Slot(s.flights[id]) != Slot(s.flights[i]);
    }
    forall i | 0 <= i < |p.log| && !p.log[i].done && !p.log[i].failed ensures Owned(p, i) {
      assert Owned(s, i);
      var owner :| owner in s.flights && Slot(s.flights[owner]) == Some(i);
      assert owner in p.flights;
    }
  }

  lemma FailRest(cfg: Config, s: System, id: int, now: int)
    requires Tied(s) && Clocks(cfg, s) && Expiries(cfg, s) && s.clock <= now
    requires id in s.flights && HasEntry(s.log, s.flights[id])
    ensures Tied(Abort(s, id, now)) && Clocks(cfg, Abort(s, id, now)) && Expiries(cfg, Abort(s, id, now))
  {
    var p := Abort(s, id, now);
    forall i | 0 <= i < |p.log|
      ensures EntryClocks(cfg, p.log[i], now) && EntryExpiry(cfg, p.store.expires, p.log[i])
    {
      assert EntryClocks(cfg, s.log[i], s.clock) && EntryExpiry(cfg, s.store.expires, s.log[i]);
    }
    forall k ensures multiset(p.store.Records(k)) == Times(p.log, k) {
      assert multiset(s.store.Records(k)) == Times(s.log, k);
      TimesSame(s.log, p.log, k);
    }
  }

  lemma FailKeeps(cfg: Config, s: System, id: int, now: int)
    requires Inv(cfg, s) && s.clock <= now && id in s.flights && HasEntry(s.log, s.flights[id])
    ensures Inv(cfg, Abort(s, id, now))
  {
    FailLinked(s, id, now);
    FailRest(cfg, s, id, now);
    hide Tied, Clocks, Linked, Expiries, Bounded;
    if Slot(s.flights[id]).Some? {
      BoundedFailed(cfg, s.log, Slot(s.flights[id]).value);
    }
  }

  lemma FlightEntry(cfg: Config, s: System, id: int)
    requires Inv(cfg, s) && id in s.flights
    ensures HasEntry(s.log, s.flights[id])
  {
  }

  // ---- Every step ----

  lemma FlightMoved(cfg: Config, s: System, id: int, f: Flight, clock: int)
    requires Inv(cfg, s) && s.clock <= clock && f.at <= clock && Representable(cfg, f.at) && Slot(f).None?
    requires id in s.flights ==> Slot(s.flights[id]).None?
    ensures Inv(cfg, s.(flights := s.flights[id := f], clock := clock))
    ensures Inv(cfg, s.(flights := s.flights - {id}, clock := clock))
  {
    MovedLinked(cfg, s, id, f, clock);
    hide Linked, Bounded;
    forall i | 0 <= i < |s.log| ensures EntryClocks(cfg, s.log[i], clock) {
      assert EntryClocks(cfg, s.log[i], s.clock);
    }
  }

  lemma MovedLinked(cfg: Config, s: System, id: int, f: Flight, clock: int)
    requires Linked(s) && Slot(f).None? && (id in s.flights ==> Slot(s.flights[id]).None?)
    ensures Linked(s.(flights := s.flights[id := f], clock := clock))
    ensures Linked(s.(flights := s.flights - {id}, clock := clock))
  {
    var p, q := s.(flights := s.flights[id := f], clock := clock), s.(flights := s.flights - {id}, clock := clock);
    forall i | 0 <= i < |s.log| && !s.log[i].done && !s.log[i].failed ensures Owned(p, i) && Owned(q, i) {
      assert Owned(s, i);
      var owner :| owner in s.flights && Slot(s.flights[owner]) == Some(i);
      assert owner != id && Slot(p.flights[owner]) == Some(i) && Slot(q.flights[owner]) == Some(i);
    }
  }

  lemma FlightClocks(cfg: Config, s: System, id: int)
    requires Inv(cfg, s) && id in s.flights
    ensures s.flights[id].at <= s.clock && Representable(cfg, s.flights[id].at)
  {
  }

  lemma ActKeeps(cfg: Config, s: System, a: Action)
    requires Inv(cfg, s) && Enabled(cfg, s, a)
    ensures Inv(cfg, Act(cfg, s, a))
  {
    hide Inv, Clean, Purge, Admit, Insert, Abort, Number;
    if a.Start? {
      FlightMoved(cfg, s, a.id, Flight(a.key, a.now, Started), a.now);
    } else {
      FlightClocks(cfg, s, a.id);
      var f := s.flights[a.id];
      match a
      case Remove(id, now) =>
        CleanKeeps(cfg, s, f, now);
        CleanFlights(cfg, s, f, now);
        FlightMoved(cfg, Clean(cfg, s, f, now), id, f.(stage := Cleaned), now);
      case Tally(id, now) =>
        PurgeKeeps(cfg, s, f.key, now);
        CountIsRecords(s, f.key, now);
        var p := Purge(s, f.key, now);
        if s.store.Count(f.key, now) >= cfg.maxHits {
          FlightMoved(cfg, p, id, f, now);
        } else {
          AdmitKeeps(cfg, p, id);
        }
      case Add(id, now) =>
        PurgeKeeps(cfg, s, f.key, now);
        CountIsRecords(s, f.key, now);
        InsertKeeps(cfg, Purge(s, f.key, now), id, f.stage.n);
      case Expire(_, _) =>
        ExpireKeeps(cfg, s, a);
      case Fail(id, now) =>
        FlightEntry(cfg, s, id);
        FailKeeps(cfg, s, id, now);
    }
  }

  lemma CleanFlights(cfg: Config, s: System, f: Flight, now: int)
    ensures var p := Clean(cfg, s, f, now); p.flights == s.flights && p.clock == now && |p.log| == |s.log|
  {
  }

  lemma CountIsRecords(s: System, key: string, now: int)
    ensures var p := Purge(s, key, now);
            && p.flights == s.flights && p.clock == now && |p.log| == |s.log|
            && s.store.Count(key, now) == |p.store.Records(key)|
  {
  }

  lemma IdleInv(cfg: Config, clock: int)
    ensures Inv(cfg, Idle(clock))
  {
  }

  /** From an idle limiter, every interleaving keeps the store and the ledger in step. */
  lemma {:induction false} RunKeeps(cfg: Config, s: System, acts: seq<Action>)
    requires Inv(cfg, s) && EnabledAll(cfg, s, acts)
    ensures Inv(cfg, ActAll(cfg, s, acts))
    decreases |acts|
  {
    hide Inv, Act, Enabled;
    if acts != [] {
      ActKeeps(cfg, s, acts[0]);
      RunKeeps(cfg, Act(cfg, s, acts[0]), acts[1..]);
    }
  }

  lemma AddedWasPending(cfg: Config, s: System, a: Action)
    requires Inv(cfg, s) && Enabled(cfg, s, a) && a.Add?
    ensures var e, f := s.log[s.flights[a.id].stage.n], s.flights[a.id];
            e.place.Pending? && e.key == f.key && e.at == f.at
  {
    assert HasEntry(s.log, s.flights[a.id]);
  }

  lemma RecordsAreStored(cfg: Config, s: System, key: string)
    requires Inv(cfg, s)
    ensures |s.store.Records(key)| == Number(s.log, StoredOf(key))
  {
    assert multiset(s.store.Records(key)) == Times(s.log, key);
    TimesNumber(s.log, key);
    assert |multiset(s.store.Records(key))| == |s.store.Records(key)|;
  }

  lemma InvClocks(cfg: Config, s: System)
    requires Inv(cfg, s)
    ensures Clocks(cfg, s)
  {
  }
}
