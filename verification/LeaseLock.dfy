/** The lease lock on a pipe in `packages/x402-client/src/sqlite-state-store.js`. Clients share one
    table and see it only through the operations below; each of them is one SQL statement. */
module LeaseLock {
  import opened Wrappers

  type Key = string
  type Token = nat

  datatype Lease = Lease(token: Token, expiresAtMs: int)
  type Locks = map<Key, Lease>

  datatype Op =
    | TryAcquire(key: Key, token: Token, ttlMs: nat, now: int)
    | Release(key: Key, token: Token, now: int)
    | Purge(now: int)

  /** The table after `op`, and whether the operation changed a row of its key. */
  function Apply(locks: Locks, op: Op): (Locks, bool) {
    match op
    case TryAcquire(key, token, ttlMs, now) =>
      if key !in locks || locks[key].expiresAtMs <= now
      then (locks[key := Lease(token, now + ttlMs)], true)
      else (locks, false)
    case Release(key, token, _) =>
      if key in locks && locks[key].token == token then (locks - {key}, true) else (locks, false)
    case Purge(now) =>
      (map k | k in locks && locks[k].expiresAtMs > now :: locks[k], false)
  }

  function After(log: seq<Op>): Locks {
    if log == [] then map[] else Apply(After(log[..|log| - 1]), log[|log| - 1]).0
  }

  predicate Acquired(log: seq<Op>, i: nat) {
    i < |log| && log[i].TryAcquire? && Apply(After(log[..i]), log[i]).1
  }

  predicate Released(log: seq<Op>, i: nat) {
    i < |log| && log[i].Release? && Apply(After(log[..i]), log[i]).1
  }

  function Expiry(op: Op): int
    requires op.TryAcquire?
  {
    op.now + op.ttlMs
  }

  ghost predicate Chronological(log: seq<Op>) {
    forall i, j :: 0 <= i < j < |log| ==> log[i].now <= log[j].now
  }

  /** Every successful acquire carries a token of its own. */
  ghost predicate TokensAreFresh(log: seq<Op>) {
    forall i, j :: 0 <= i < j < |log| && Acquired(log, i) && Acquired(log, j) ==> log[i].token != log[j].token
  }

  /** The acquire `i` has not been given back before `j`. */
  ghost predicate NotGivenBack(log: seq<Op>, i: nat, j: nat)
    requires i < |log| && log[i].TryAcquire? && j <= |log|
  {
    forall m :: i < m < j ==> !(log[m].Release? && log[m].key == log[i].key && log[m].token == log[i].token)
  }

  // ---------- What a log leaves in the table ----------

  /** A lease that is running and not given back is in the table. */
  lemma {:induction false} LeaseStays(log: seq<Op>, i: nat, j: nat)
    requires Acquired(log, i) && i < j <= |log| && NotGivenBack(log, i, j)
    requires forall m :: i < m < j ==> log[m].now < Expiry(log[i])
    ensures var locks := After(log[..j]);
            log[i].key in locks && locks[log[i].key] == Lease(log[i].token, Expiry(log[i]))
    decreases j
  {
    assert log[..j][..j - 1] == log[..j - 1];
    if i < j - 1 {
      LeaseStays(log, i, j - 1);
    }
  }

  /** Every row of the table comes from the latest acquire of its key, which was not given back. */
  lemma {:induction false} RowHasOrigin(log: seq<Op>, n: nat, key: Key) returns (i: nat)
    requires n <= |log| && key in After(log[..n])
    ensures i < n && Acquired(log, i) && log[i].key == key && NotGivenBack(log, i, n)
    ensures After(log[..n])[key] == Lease(log[i].token, Expiry(log[i]))
    ensures forall m :: i < m < n && Acquired(log, m) ==> log[m].key != key
    decreases n
  {
    var op, before := log[n - 1], After(log[..n - 1]);
    assert log[..n][..n - 1] == log[..n - 1];
    if Acquired(log, n - 1) && op.key == key {
      i := n - 1;
    } else {
      i := RowHasOrigin(log, n - 1, key);
    }
  }

  // ---------- Properties ----------

  /** An attempt succeeds exactly when no earlier lease of the key is both running and not given back:
      expired rows, purged or not, never matter. */
  lemma AcquireSucceedsIff(log: seq<Op>, j: nat)
    requires Chronological(log) && j < |log| && log[j].TryAcquire?
    ensures Acquired(log, j)
       <==> forall i :: 0 <= i < j && Acquired(log, i) && log[i].key == log[j].key && log[j].now < Expiry(log[i])
                        ==> !NotGivenBack(log, i, j)
  {
    forall i | 0 <= i < j && Acquired(log, i) && log[i].key == log[j].key
               && log[j].now < Expiry(log[i]) && NotGivenBack(log, i, j)
      ensures !Acquired(log, j)
    {
      LeaseStays(log, i, j);
    }
    if !Acquired(log, j) {
      var i := RowHasOrigin(log, j, log[j].key);
    }
  }

  /** Two holders of one key overlap only if the first one outlives its lease. */
  lemma OverlapNeedsExpiredLease(log: seq<Op>, i: nat, j: nat)
    requires Chronological(log) && i < j && Acquired(log, i) && Acquired(log, j) && log[i].key == log[j].key
    ensures NotGivenBack(log, i, j) ==> log[j].now >= Expiry(log[i])
  {
    AcquireSucceedsIff(log, j);
  }

  /** A release that removes a row removes the releaser's own lease: no other client has acquired the key
      since. A late release therefore removes nothing. */
  lemma ReleaseRemovesOwnLease(log: seq<Op>, m: nat) returns (i: nat)
    requires TokensAreFresh(log) && Released(log, m)
    ensures i < m && Acquired(log, i) && log[i].key == log[m].key && log[i].token == log[m].token
    ensures forall k :: 0 <= k < m && Acquired(log, k) && log[k].token == log[m].token ==> k == i
    ensures forall k :: i < k < m && Acquired(log, k) ==> log[k].key != log[m].key
  {
    i := RowHasOrigin(log, m, log[m].key);
  }

  lemma LateReleaseRemovesNothing(log: seq<Op>, i: nat, j: nat, m: nat)
    requires TokensAreFresh(log) && i < j < m < |log|
    requires Acquired(log, i) && Acquired(log, j) && log[i].key == log[j].key
    requires log[m] == Release(log[i].key, log[i].token, log[m].now)
    ensures !Released(log, m) && After(log[..m + 1]) == After(log[..m])
  {
    assert log[..m + 1][..m] == log[..m];
    if Released(log, m) {
      var k := ReleaseRemovesOwnLease(log, m);
      assert false;
    }
  }

  /** Nobody else enters during the critical section that follows entry `at` before its lease ends. */
  lemma SectionIsExclusive(log: seq<Op>, at: nat, during: seq<Op>)
    requires Chronological(log) && Acquired(log, at)
    requires |log| == at + |during| + 2 && log[at + 1..|log| - 1] == during && log[|log| - 1].Release?
    requires forall op :: op in during && !op.Purge? ==> op.token != log[at].token
    ensures forall m :: at < m < |log| && Acquired(log, m) && log[m].key == log[at].key ==>
            log[m].now >= Expiry(log[at])
  {
    forall m | at < m < |log| && Acquired(log, m) && log[m].key == log[at].key ensures log[m].now >= Expiry(log[at]) {
      forall k | at < k < m ensures !(log[k].Release? && log[k].key == log[at].key && log[k].token == log[at].token) {
        assert log[k] == during[k - at - 1];
      }
      OverlapNeedsExpiredLease(log, at, m);
    }
  }

  // ---------- The store ----------

  lemma HistoryIsFixed(log: seq<Op>, longer: seq<Op>)
    requires log <= longer
    ensures forall i :: 0 <= i < |log| ==> (Acquired(longer, i) <==> Acquired(log, i))
  {
    assert forall i :: 0 <= i < |log| ==> longer[..i] == log[..i];
  }

  /** One poll: its two clock readings, then what other clients do while this one sleeps. */
  datatype Poll = Poll(deadlineCheck: int, now: int, meanwhile: seq<Op>)

  /** The log after a client that found it as `before` has polled in vain: one attempt per poll, then what the
      others do. */
  function PollLog(before: seq<Op>, key: Key, token: Token, ttlMs: nat, polls: seq<Poll>): (log: seq<Op>)
    ensures before <= log
  {
    if polls == [] then before
    else
      var last := polls[|polls| - 1];
      PollLog(before, key, token, ttlMs, polls[..|polls| - 1]) + [TryAcquire(key, token, ttlMs, last.now)]
      + last.meanwhile
  }

  /** No attempt with this token from entry `from` on has acquired. */
  ghost predicate StillOutside(log: seq<Op>, from: nat, token: Token) {
    forall k :: from <= k < |log| && log[k].TryAcquire? && log[k].token == token ==> !Acquired(log, k)
  }

  lemma FailedPollStaysOutside(log: seq<Op>, from: nat, attempt: Op, meanwhile: seq<Op>)
    requires from <= |log| && attempt.TryAcquire? && StillOutside(log, from, attempt.token)
    requires !Acquired(log + [attempt], |log|)
    requires forall op :: op in meanwhile && op.TryAcquire? ==> op.token != attempt.token
    ensures StillOutside(log + [attempt] + meanwhile, from, attempt.token)
  {
    var longer := log + [attempt] + meanwhile;
    HistoryIsFixed(log, longer);
    HistoryIsFixed(log + [attempt], longer);
    assert forall k :: |log| < k < |longer| ==> longer[k] in meanwhile;
  }

  class PipeLocks {
    var locks: Locks
    ghost var log: seq<Op>

    ghost predicate Valid() reads this { locks == After(log) }

    constructor ()
      ensures Valid() && log == []
    {
      locks, log := map[], [];
    }

    method Run(op: Op) returns (changed: bool)
      requires Valid()
      modifies this
      ensures Valid() && log == old(log) + [op]
      ensures changed == Apply(old(locks), op).1
      ensures op.TryAcquire? ==> (changed <==> Acquired(log, |old(log)|))
    {
      match op {
        case TryAcquire(key, token, ttlMs, now) =>
          changed := key !in locks || locks[key].expiresAtMs <= now;
          if changed {
            locks := locks[key := Lease(token, now + ttlMs)];
          }
        case Release(key, token, _) =>
          changed := key in locks && locks[key].token == token;
          if changed {
            locks := locks - {key};
          }
        case Purge(now) =>
          changed := false;
          locks := map k | k in locks && locks[k].expiresAtMs > now :: locks[k];
      }
      assert (log + [op])[..|log|] == log;
      log := log + [op];
    }

    /** `acquirePipeLock`: poll until the deadline, other clients acting in between. It sleeps through the first
        `slept` polls and decides at the next one. */
    method AcquirePipeLock(key: Key, token: Token, startedAt: int, timeoutMs: nat, ttlMs: nat, polls: seq<Poll>)
      returns (acquired: bool, ghost slept: nat)
      requires Valid()
      requires polls != [] && polls[|polls| - 1].deadlineCheck > startedAt + timeoutMs
      requires forall p, op :: p in polls && op in p.meanwhile && op.TryAcquire? ==> op.token != token
      modifies this
      ensures Valid()
      ensures slept < |polls| && (acquired <==> polls[slept].deadlineCheck <= startedAt + timeoutMs)
      ensures forall k :: 0 <= k < slept ==> polls[k].deadlineCheck <= startedAt + timeoutMs
      ensures var entered := PollLog(old(log), key, token, ttlMs, polls[..slept]);
              && log == (if acquired then entered + [TryAcquire(key, token, ttlMs, polls[slept].now)] else entered)
              && (acquired ==> Acquired(log, |entered|)) && StillOutside(entered, |old(log)|, token)
    {
      var deadline := startedAt + timeoutMs;
      var i := 0;
      slept := 0;
      while polls[i].deadlineCheck <= deadline
        invariant slept == i < |polls| && Valid()
        invariant forall k :: 0 <= k < i ==> polls[k].deadlineCheck <= deadline
        invariant log == PollLog(old(log), key, token, ttlMs, polls[..i])
        invariant StillOutside(log, |old(log)|, token)
        decreases |polls| - i
      {
        ghost var before := log;
        acquired := Run(TryAcquire(key, token, ttlMs, polls[i].now));
        if acquired {
          return;
        }
        Sleep(polls[i].meanwhile);
        FailedPollStaysOutside(before, |old(log)|, TryAcquire(key, token, ttlMs, polls[i].now), polls[i].meanwhile);
        assert polls[..i + 1][..i] == polls[..i];
        i, slept := i + 1, slept + 1;
      }
      acquired := false;
    }

    /** `withPipeLock`: acquire, run the critical section while other clients act, release at the end
        whether or not the section failed. The client sleeps through the first `slept` polls; the lock is taken
        at entry `at` of the log. */
    method WithPipeLock(key: Key, token: Token, startedAt: int, timeoutMs: nat, ttlMs: nat, polls: seq<Poll>,
                        during: seq<Op>, releasedAt: int)
      returns (ran: bool, ghost at: nat, ghost slept: nat)
      requires Valid()
      requires polls != [] && polls[|polls| - 1].deadlineCheck > startedAt + timeoutMs
      requires forall p, op :: p in polls && op in p.meanwhile && op.TryAcquire? ==> op.token != token
      requires forall op :: op in during && !op.Purge? ==> op.token != token
      modifies this
      ensures Valid()
      ensures slept < |polls| && (ran <==> polls[slept].deadlineCheck <= startedAt + timeoutMs)
      ensures forall k :: 0 <= k < slept ==> polls[k].deadlineCheck <= startedAt + timeoutMs
      ensures var before := PollLog(old(log), key, token, ttlMs, polls[..slept]);
              && at == |before| && (ran ==> Acquired(log, at))
              && log == if ran then before + [TryAcquire(key, token, ttlMs, polls[slept].now)]
                                           + during + [Release(key, token, releasedAt)]
                        else before
      ensures ran && Chronological(log) ==>
        forall m :: at < m < |log| && Acquired(log, m) && log[m].key == key ==> log[m].now >= Expiry(log[at])
      ensures ran && key in locks ==> locks[key].token != token
    {
      ran, slept := AcquirePipeLock(key, token, startedAt, timeoutMs, ttlMs, polls);
      at := if ran then |log| - 1 else |log|;
      if !ran {
        return;
      }
      RunSection(key, token, during, releasedAt);
    }

    /** The critical section of the client that has just acquired, and its `finally`. */
    method RunSection(key: Key, token: Token, during: seq<Op>, releasedAt: int)
      requires Valid()
      requires log != [] && Acquired(log, |log| - 1) && log[|log| - 1].key == key && log[|log| - 1].token == token
      requires forall op :: op in during && !op.Purge? ==> op.token != token
      modifies this
      ensures Valid() && log == old(log) + during + [Release(key, token, releasedAt)]
      ensures Acquired(log, |old(log)| - 1)
      ensures Chronological(log) ==>
        forall m :: |old(log)| <= m < |log| && Acquired(log, m) && log[m].key == key ==>
          log[m].now >= Expiry(log[|old(log)| - 1])
      ensures key in locks ==> locks[key].token != token
    {
      ghost var entered := log;
      Sleep(during);
      var _ := Run(Release(key, token, releasedAt));
      HistoryIsFixed(entered, log);
      if Chronological(log) {
        SectionIsExclusive(log, |entered| - 1, during);
      }
    }

    /** Other clients act. */
    method Sleep(meanwhile: seq<Op>)
      requires Valid()
      modifies this
      ensures Valid() && log == old(log) + meanwhile
    {
      for i := 0 to |meanwhile|
        invariant Valid() && log == old(log) + meanwhile[..i]
      {
        var _ := Run(meanwhile[i]);
      }
    }
  }
}
