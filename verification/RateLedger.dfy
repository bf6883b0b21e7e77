/** Counting over the ledger of admissions. */
module RateLedger {

  /**
   Where the record of an admission is: not added yet, in the store, swept out of a window, lost to an expiry, or never
   added because the call failed.
   */
  datatype Place = Pending | InStore | Swept(reading: int) | Lost | Dropped

  /**
   One admission: the clock reading its request took first, and the one at which it was counted. done once its request
   has set the expiry of the key, failed if a later call failed and the request was not passed on after all. ahead and
   lost say how many admissions were pending and lost when it was counted.
   */
  datatype Entry = Entry(
    key: string, at: int, counted: int, place: Place, done: bool, failed: bool, ahead: nat, lost: nat)

  type Choice = Entry -> bool

  function Number(log: seq<Entry>, p: Choice): nat {
    if log == [] then 0 else Number(log[..|log| - 1], p) + if p(log[|log| - 1]) then 1 else 0
  }

  lemma NumberSnoc(log: seq<Entry>, e: Entry, p: Choice)
    ensures Number(log + [e], p) == Number(log, p) + if p(e) then 1 else 0
  {
    assert (log + [e])[..|log|] == log;
  }

  lemma {:induction false} NumberAtMost(log: seq<Entry>, other: seq<Entry>, p: Choice, q: Choice)
    requires |log| == |other| && forall i :: 0 <= i < |log| && p(log[i]) ==> q(other[i])
    ensures Number(log, p) <= Number(other, q)
  {
    if log != [] {
      NumberAtMost(log[..|log| - 1], other[..|log| - 1], p, q);
    }
  }

  lemma NumberSame(log: seq<Entry>, other: seq<Entry>, p: Choice, q: Choice)
    requires |log| == |other| && forall i :: 0 <= i < |log| ==> (p(log[i]) <==> q(other[i]))
    ensures Number(log, p) == Number(other, q)
  {
    NumberAtMost(log, other, p, q);
    NumberAtMost(other, log, q, p);
  }

  lemma {:induction false} NumberSum(log: seq<Entry>, p: Choice, q: Choice, r: Choice)
    requires forall i :: 0 <= i < |log| && p(log[i]) ==> q(log[i]) || r(log[i])
    ensures Number(log, p) <= Number(log, q) + Number(log, r)
  {
    if log != [] {
      NumberSum(log[..|log| - 1], p, q, r);
    }
  }

  lemma {:induction false} NumberSplits(log: seq<Entry>, p: Choice, q: Choice, r: Choice)
    requires forall i :: 0 <= i < |log| ==> (p(log[i]) <==> q(log[i]) || r(log[i])) && !(q(log[i]) && r(log[i]))
    ensures Number(log, p) == Number(log, q) + Number(log, r)
  {
    if log != [] {
      NumberSplits(log[..|log| - 1], p, q, r);
    }
  }

  lemma {:induction false} NumberNone(log: seq<Entry>, p: Choice)
    requires forall i :: 0 <= i < |log| ==> !p(log[i])
    ensures Number(log, p) == 0
  {
    if log != [] {
      NumberNone(log[..|log| - 1], p);
    }
  }

  lemma {:induction false} NumberUpTo(log: seq<Entry>, n: nat, p: Choice)
    requires n <= |log| && forall i :: n <= i < |log| ==> !p(log[i])
    ensures Number(log, p) == Number(log[..n], p)
  {
    if n == |log| {
      assert log[..n] == log;
    } else {
      var before := log[..|log| - 1];
      assert before[..n] == log[..n];
      NumberUpTo(before, n, p);
    }
  }

  /** Entries that belong to different members of a set are no more than its members. */
  lemma {:induction false} NumberByOwner(log: seq<Entry>, p: Choice, slots: map<int, nat>)
    requires forall i :: 0 <= i < |log| && p(log[i]) ==> exists id :: id in slots && slots[id] == i
    ensures Number(log, p) <= |slots|
    decreases |log|
  {
    if log != [] {
      var n := |log| - 1;
      var before := log[..n];
      assert forall i :: 0 <= i < n ==> before[i] == log[i];
      if p(log[n]) {
        var owner :| owner in slots && slots[owner] == n;
        var rest := slots - {owner};
        assert slots.Keys == rest.Keys + {owner};
        forall i | 0 <= i < |before| && p(before[i]) ensures exists id :: id in rest && rest[id] == i {
          var id :| id in slots && slots[id] == i;
          assert id in rest;
        }
        NumberByOwner(before, p, rest);
      } else {
        NumberByOwner(before, p, slots);
      }
    }
  }

  // ---- Choices ----

  function Either(p: Choice, q: Choice): Choice {
    (e: Entry) => p(e) || q(e)
  }

  function StoredOf(key: string): Choice {
    (e: Entry) => e.key == key && e.place.InStore?
  }

  function PendingOf(key: string): Choice {
    (e: Entry) => e.key == key && e.place.Pending?
  }

  /** Lost admissions that a window may still reach. */
  function LostSince(key: string, after: int): Choice {
    (e: Entry) => e.key == key && e.place.Lost? && e.at > after && !e.failed
  }

  function LostOf(key: string): Choice {
    (e: Entry) => e.key == key && e.place.Lost?
  }

  /** Admissions of a window that the store does not show, because they are not added yet or were lost. */
  function UnseenIn(key: string, after: int, upTo: int): Choice {
    (e: Entry) => e.key == key && (e.place.Pending? || e.place.Lost?) && after < e.at <= upTo && !e.failed
  }

  function UnseenOf(key: string, after: int): Choice {
    (e: Entry) => e.key == key && (e.place.Pending? || (e.place.Lost? && e.at > after && !e.failed))
  }

  /** Admissions whose request began in (after, upTo]. */
  function InWindow(key: string, after: int, upTo: int): Choice {
    (e: Entry) => e.key == key && after < e.at <= upTo && !e.failed
  }

  /** Those of them counted before the window had passed. */
  function InTimeOf(key: string, after: int, upTo: int): Choice {
    (e: Entry) => e.key == key && after < e.at <= upTo && e.counted <= upTo && !e.failed
  }

  /** Those of them still on their way to being counted when the window had passed. */
  function LateOf(key: string, after: int, upTo: int): Choice {
    (e: Entry) => e.key == key && after < e.at <= upTo < e.counted && !e.failed
  }

  /** Admissions of a window that another request's cleaning has taken, in a window that begins later. */
  function SweptIn(key: string, after: int, upTo: int): Choice {
    (e: Entry) => e.key == key && e.place.Swept? && after < e.at <= upTo && !e.failed
  }

  /** Records younger than a window. */
  function StoredAfter(key: string, upTo: int): Choice {
    (e: Entry) => e.key == key && e.place.InStore? && e.at > upTo
  }

  /** Records older than a window. */
  function StoredBefore(key: string, after: int, upTo: int): Choice {
    (e: Entry) => e.key == key && e.place.InStore? && e.at <= after && e.at <= upTo
  }

  /** Records of a window whose request was not passed on after all. */
  function FailedIn(key: string, after: int, upTo: int): Choice {
    (e: Entry) => e.key == key && e.place.InStore? && after < e.at <= upTo && e.failed
  }

  /** Records of a window whose request was passed on or is on its way to be. */
  function ShownIn(key: string, after: int, upTo: int): Choice {
    (e: Entry) => e.key == key && e.place.InStore? && after < e.at <= upTo && !e.failed
  }

  /** The times of the records the store should hold. */
  function Times(log: seq<Entry>, key: string): multiset<int> {
    if log == [] then multiset{}
    else
      var e := log[|log| - 1];
      Times(log[..|log| - 1], key) + if StoredOf(key)(e) then multiset{e.at} else multiset{}
  }

  lemma {:induction false} TimesNumber(log: seq<Entry>, key: string)
    ensures |Times(log, key)| == Number(log, StoredOf(key))
  {
    if log != [] {
      TimesNumber(log[..|log| - 1], key);
    }
  }

  lemma TimesSnoc(log: seq<Entry>, e: Entry, key: string)
    ensures Times(log + [e], key) == Times(log, key) + if StoredOf(key)(e) then multiset{e.at} else multiset{}
  {
    assert (log + [e])[..|log|] == log;
  }

  /** Multiplicities after a change of places, when each stored record is kept or not by its time alone. */
  lemma {:induction false} TimesFiltered(log: seq<Entry>, other: seq<Entry>, key: string, x: int, keep: bool)
    requires |log| == |other| && forall i :: 0 <= i < |log| ==> log[i].at == other[i].at
    requires forall i :: 0 <= i < |log| && log[i].at == x ==>
               (StoredOf(key)(other[i]) <==> StoredOf(key)(log[i]) && keep)
    ensures Times(other, key)[x] == if keep then Times(log, key)[x] else 0
  {
    if log != [] {
      var n := |log| - 1;
      TimesFiltered(log[..n], other[..n], key, x, keep);
    }
  }

  /** One pending admission is added. */
  lemma {:induction false} TimesAdded(log: seq<Entry>, n: nat, e: Entry, key: string)
    requires n < |log| && !log[n].place.InStore? && e.place.InStore?
    ensures Times(log[n := e], key) == Times(log, key) + if e.key == key then multiset{e.at} else multiset{}
  {
    var last := |log| - 1;
    if n < last {
      assert log[n := e][..last] == log[..last][n := e];
      TimesAdded(log[..last], n, e, key);
    } else {
      assert log[n := e][..last] == log[..last];
    }
  }

  lemma {:induction false} TimesSame(log: seq<Entry>, other: seq<Entry>, key: string)
    requires |log| == |other|
    requires forall i :: 0 <= i < |log| ==>
               log[i].at == other[i].at && (StoredOf(key)(log[i]) <==> StoredOf(key)(other[i]))
    ensures Times(log, key) == Times(other, key)
  {
    if log != [] {
      TimesSame(log[..|log| - 1], other[..|log| - 1], key);
    }
  }
}
