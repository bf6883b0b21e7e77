/**
 What the circuit breaker promises, stated over the history of one run and not over its state.

 A run is any sequence of the breaker's atomic steps. Requests stay in flight between their first and last
 step, so steps of different requests may be ordered in any way.
 */
module BreakerHistory {
  import opened Options
  import opened Breaker

  /** One critical section: allow, recordSuccess or recordFailure, with its key and clock reading. */
  datatype Op =
    | Ask(key: string, at: int)
    | Success(key: string)
    | Failure(key: string, at: int)

  function Step(cfg: Config, es: Entries, op: Op): Entries {
    var e := Lookup(es, op.key);
    es[op.key := match op
                 case Ask(_, at) => AfterAllow(cfg, e, at)
                 case Success(_) => AfterSuccess(e)
                 case Failure(_, at) => AfterFailure(cfg, e, at)]
  }

  function Run(cfg: Config, ops: seq<Op>): Entries {
    if ops == [] then map[] else Step(cfg, Run(cfg, ops[..|ops| - 1]), ops[|ops| - 1])
  }

  function EntryAfter(cfg: Config, ops: seq<Op>, key: string): Entry {
    Lookup(Run(cfg, ops), key)
  }

  predicate Admitted(cfg: Config, ops: seq<Op>, i: nat)
    requires i < |ops| && ops[i].Ask?
  {
    Admits(cfg, EntryAfter(cfg, ops[..i], ops[i].key), ops[i].at)
  }

  /** How many failures of key were recorded since its last recorded success. */
  function FailuresSinceSuccess(ops: seq<Op>, key: string): nat {
    if ops == [] then 0
    else
      var before, last := ops[..|ops| - 1], ops[|ops| - 1];
      if last == Success(key) then 0
      else FailuresSinceSuccess(before, key) + if last.Failure? && last.key == key then 1 else 0
  }

  /** The position of the last recorded failure of key. */
  function LastFailure(ops: seq<Op>, key: string): (r: Option<nat>)
    ensures r.Some? ==> r.value < |ops| && ops[r.value].Failure? && ops[r.value].key == key
    ensures forall i :: 0 <= i < |ops| && ops[i].Failure? && ops[i].key == key ==> r.Some? && i <= r.value
  {
    if ops == [] then None
    else
      var last := ops[|ops| - 1];
      if last.Failure? && last.key == key then Some(|ops| - 1) else LastFailure(ops[..|ops| - 1], key)
  }

  /**
   The reference definition of the breaker: a request for key is let through when fewer failures than the
   threshold were recorded since the last success, or when the recovery time has passed since the last
   failure and no request was let through after that failure.
   */
  ghost predicate MayPass(cfg: Config, ops: seq<Op>, key: string, now: int)
    decreases |ops|
  {
    FailuresSinceSuccess(ops, key) < cfg.threshold
    || (LastFailure(ops, key).Some?
        && now - ops[LastFailure(ops, key).value].at >= cfg.recovery
        && !TrialSent(cfg, ops, key))
  }

  /** Some request for key was let through after its last recorded failure. */
  ghost predicate TrialSent(cfg: Config, ops: seq<Op>, key: string)
    decreases |ops|, 0
  {
    exists i :: 0 <= i < |ops| && AskOf(ops, i, key)
      && (LastFailure(ops, key).Some? ==> LastFailure(ops, key).value < i)
      && MayPass(cfg, ops[..i], key, ops[i].at)
  }

  predicate AskOf(ops: seq<Op>, i: nat, key: string)
    requires i < |ops|
  {
    ops[i].Ask? && ops[i].key == key
  }

  /** What each field of an entry means in terms of the history. */
  ghost predicate Explained(cfg: Config, ops: seq<Op>, key: string) {
    var e := EntryAfter(cfg, ops, key);
    var failures := FailuresSinceSuccess(ops, key);
    && (e.phase == Closed <==> failures < cfg.threshold)
    && (e.phase == Closed ==> e.failures == failures)
    && (e.phase != Closed ==>
          && e.failures == cfg.threshold
          && LastFailure(ops, key).Some?
          && e.openedAt == ops[LastFailure(ops, key).value].at)
    && (e.phase == HalfOpen <==> failures >= cfg.threshold && TrialSent(cfg, ops, key))
    && (e.trialInFlight <==> e.phase == HalfOpen)
  }

  /** Request i was let through after the last recorded failure of key. */
  ghost predicate TrialAt(cfg: Config, ops: seq<Op>, i: nat, key: string)
    requires i < |ops|
  {
    AskOf(ops, i, key)
    && (LastFailure(ops, key).Some? ==> LastFailure(ops, key).value < i)
    && MayPass(cfg, ops[..i], key, ops[i].at)
  }

  lemma TrialSentAt(cfg: Config, ops: seq<Op>, key: string)
    ensures TrialSent(cfg, ops, key) <==> exists i :: 0 <= i < |ops| && TrialAt(cfg, ops, i, key)
  {
    hide MayPass, LastFailure;
    if TrialSent(cfg, ops, key) {
      var i :| 0 <= i < |ops| && AskOf(ops, i, key)
        && (LastFailure(ops, key).Some? ==> LastFailure(ops, key).value < i)
        && MayPass(cfg, ops[..i], key, ops[i].at);
      assert TrialAt(cfg, ops, i, key);
    }
    if i :| 0 <= i < |ops| && TrialAt(cfg, ops, i, key) {
      assert AskOf(ops, i, key);
    }
  }

  lemma TrialAtBefore(cfg: Config, ops: seq<Op>, n: nat, i: nat, key: string)
    requires i < n == |ops| - 1 && !(ops[n].Failure? && ops[n].key == key)
    ensures TrialAt(cfg, ops, i, key) <==> TrialAt(cfg, ops[..n], i, key)
  {
    hide MayPass;
    assert LastFailure(ops, key) == LastFailure(ops[..n], key);
    assert ops[..n][..i] == ops[..i];
  }

  /** The trial set after one more step. */
  lemma TrialSentStep(cfg: Config, ops: seq<Op>, key: string)
    requires ops != []
    ensures var before, last := ops[..|ops| - 1], ops[|ops| - 1];
            TrialSent(cfg, ops, key) <==>
            if last.Failure? && last.key == key then false
            else TrialSent(cfg, before, key)
                 || (last.Ask? && last.key == key && MayPass(cfg, before, key, last.at))
  {
    hide MayPass, TrialSent;
    var n := |ops| - 1;
    var before, last := ops[..n], ops[n];
    TrialSentAt(cfg, ops, key);
    TrialSentAt(cfg, before, key);
    if last.Failure? && last.key == key {
      assert LastFailure(ops, key) == Some(n);
    } else {
      LastTrial(cfg, ops, n, key);
      hide TrialAt;
      forall i | 0 <= i < n ensures TrialAt(cfg, ops, i, key) <==> TrialAt(cfg, before, i, key) {
        TrialAtBefore(cfg, ops, n, i, key);
      }
    }
  }

  lemma LastTrial(cfg: Config, ops: seq<Op>, n: nat, key: string)
    requires n == |ops| - 1 && !(ops[n].Failure? && ops[n].key == key)
    ensures TrialAt(cfg, ops, n, key) <==> AskOf(ops, n, key) && MayPass(cfg, ops[..n], key, ops[n].at)
  {
  }

  /** Every reachable entry is explained by its history, whatever the interleaving. */
  lemma {:induction false} AlwaysExplained(cfg: Config, ops: seq<Op>, key: string)
    requires cfg.Valid()
    ensures Explained(cfg, ops, key)
    ensures forall now :: Admits(cfg, EntryAfter(cfg, ops, key), now) <==> MayPass(cfg, ops, key, now)
  {
    if ops != [] {
      AlwaysExplained(cfg, ops[..|ops| - 1], key);
      TrialSentStep(cfg, ops, key);
    }
  }

  /** The breaker lets a request through exactly when the reference definition does. */
  lemma AdmissionMatchesHistory(cfg: Config, ops: seq<Op>, i: nat)
    requires cfg.Valid() && i < |ops| && ops[i].Ask?
    ensures Admitted(cfg, ops, i) <==> MayPass(cfg, ops[..i], ops[i].key, ops[i].at)
  {
    AlwaysExplained(cfg, ops[..i], ops[i].key);
  }

  /** Clock readings never go back from one step to the next. */
  ghost predicate ClockOrdered(ops: seq<Op>) {
    forall i, j :: 0 <= i < j < |ops| && !ops[i].Success? && !ops[j].Success? ==> ops[i].at <= ops[j].at
  }

  lemma {:induction false} FailuresGrow(ops: seq<Op>, i: nat, key: string)
    requires i <= |ops|
    requires forall k :: i <= k < |ops| ==> ops[k] != Success(key)
    ensures FailuresSinceSuccess(ops[..i], key) <= FailuresSinceSuccess(ops, key)
  {
    if i == |ops| {
      assert ops[..i] == ops;
    } else {
      var before := ops[..|ops| - 1];
      assert before[..i] == ops[..i];
      FailuresGrow(before, i, key);
    }
  }

  /**
   After step i left the entry open, nobody passes before its time plus the recovery time, unless a success
   of the same key is recorded in between.
   */
  lemma ClosedToAllUntilRecovery(cfg: Config, ops: seq<Op>, i: nat, j: nat)
    requires cfg.Valid() && ClockOrdered(ops) && i < j < |ops|
    requires ops[i].Failure? && EntryAfter(cfg, ops[..i + 1], ops[i].key).phase == Open
    requires AskOf(ops, j, ops[i].key) && Admitted(cfg, ops, j)
    requires forall k :: i < k < j ==> ops[k] != Success(ops[i].key)
    ensures ops[j].at >= ops[i].at + cfg.recovery
  {
    var key := ops[i].key;
    AlwaysExplained(cfg, ops[..i + 1], key);
    AdmissionMatchesHistory(cfg, ops, j);
    assert ops[..j][..i + 1] == ops[..i + 1];
    FailuresGrow(ops[..j], i + 1, key);
    assert ops[..j][i] == ops[i];
    var last := LastFailure(ops[..j], key).value;
    assert i <= last && ops[last].at >= ops[i].at;
  }

  /** After a trial was let through, nothing else is until an outcome of the key is recorded. */
  lemma TrialBlocksOthers(cfg: Config, ops: seq<Op>, i: nat, j: nat)
    requires cfg.Valid() && i < j < |ops|
    requires ops[i].Ask? && AskOf(ops, j, ops[i].key)
    requires Admitted(cfg, ops, i) && EntryAfter(cfg, ops[..i], ops[i].key).phase != Closed
    requires forall k :: i < k < j && ops[k].key == ops[i].key ==> ops[k].Ask?
    ensures !Admitted(cfg, ops, j)
  {
    var key := ops[i].key;
    AlwaysExplained(cfg, ops[..i], key);
    AdmissionMatchesHistory(cfg, ops, i);
    AdmissionMatchesHistory(cfg, ops, j);
    assert ops[..j][..i] == ops[..i];
    assert forall k :: i <= k < j ==> ops[..j][k] != Success(key);
    FailuresGrow(ops[..j], i, key);
    assert AskOf(ops[..j], i, key) && MayPass(cfg, ops[..j][..i], key, ops[..j][i].at);
  }

  /** Between two requests let through while the entry is not closed, an outcome of the key is recorded. */
  lemma OneTrialAtATime(cfg: Config, ops: seq<Op>, i: nat, j: nat)
    requires cfg.Valid() && i < j < |ops|
    requires ops[i].Ask? && AskOf(ops, j, ops[i].key)
    requires Admitted(cfg, ops, i) && Admitted(cfg, ops, j)
    requires EntryAfter(cfg, ops[..i], ops[i].key).phase != Closed
    ensures exists k :: i < k < j && !ops[k].Ask? && ops[k].key == ops[i].key
  {
    if forall k :: i < k < j && ops[k].key == ops[i].key ==> ops[k].Ask? {
      TrialBlocksOthers(cfg, ops, i, j);
    }
  }

  /** The run seen by one key. */
  function Only(ops: seq<Op>, key: string): seq<Op> {
    if ops == [] then []
    else Only(ops[..|ops| - 1], key) + if ops[|ops| - 1].key == key then [ops[|ops| - 1]] else []
  }

  /** Steps of other keys never matter to an entry. */
  lemma {:induction false} KeysAreIndependent(cfg: Config, ops: seq<Op>, key: string)
    ensures EntryAfter(cfg, ops, key) == EntryAfter(cfg, Only(ops, key), key)
  {
    if ops != [] {
      var before, last := ops[..|ops| - 1], ops[|ops| - 1];
      KeysAreIndependent(cfg, before, key);
      if last.key == key {
        var own := Only(ops, key);
        assert own[..|own| - 1] == Only(before, key) && own[|own| - 1] == last;
      } else {
        assert Only(ops, key) == Only(before, key);
      }
    }
  }
}
