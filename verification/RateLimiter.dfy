/** The fixed-window write rate limiter of `server/src/index.ts`, one counter per client. */
module RateLimiter {
  import opened Wrappers

  const WINDOW_MS: int := 60_000
  const SWEEP_THRESHOLD: nat := 10_000

  type Client = string
  datatype Counter = Counter(windowStartedAtMs: int, count: nat)
  type Counters = map<Client, Counter>
  datatype Decision = Admitted | Limited(retryAfterSeconds: int)
  datatype Request = Request(client: Client, now: int)

  predicate Expired(c: Counter, now: int) {
    now - c.windowStartedAtMs >= WINDOW_MS
  }

  function Swept(counters: Counters, now: int): Counters {
    if |counters| > SWEEP_THRESHOLD
    then map k | k in counters && !Expired(counters[k], now) :: counters[k]
    else counters
  }

  /** What one client's counter becomes, and what the client is told. */
  function Consumed(limit: int, slot: Option<Counter>, now: int): (Counter, Decision) {
    if slot == None || Expired(slot.value, now) then (Counter(now, 1), Admitted)
    else if slot.value.count >= limit then
      var remaining := WINDOW_MS - (now - slot.value.windowStartedAtMs);
      var retryAfterMs := if remaining > 1_000 then remaining else 1_000;
      (slot.value, Limited((retryAfterMs + 999) / 1_000))
    else (slot.value.(count := slot.value.count + 1), Admitted)
  }

  function Slot(counters: Counters, client: Client): Option<Counter> {
    if client in counters then Some(counters[client]) else None
  }

  function Next(limit: int, counters: Counters, r: Request): (Counters, Decision) {
    if limit <= 0 then (counters, Admitted)
    else
      var swept := Swept(counters, r.now);
      var (counter, decision) := Consumed(limit, Slot(swept, r.client), r.now);
      (swept[r.client := counter], decision)
  }

  class WriteRateLimiter {
    const peerWriteRateLimitPerMinute: int
    var counters: Counters

    constructor (limit: int)
      ensures peerWriteRateLimitPerMinute == limit && counters == map[]
    {
      peerWriteRateLimitPerMinute := limit;
      counters := map[];
    }

    method Consume(r: Request) returns (decision: Decision)
      modifies this
      ensures (counters, decision) == Next(peerWriteRateLimitPerMinute, old(counters), r)
    {
      if peerWriteRateLimitPerMinute <= 0 {
        return Admitted;
      }
      var now := r.now;
      if |counters| > SWEEP_THRESHOLD {
        var todo := counters.Keys;
        while todo != {}
          invariant todo <= old(counters.Keys)
          invariant counters == map k | k in old(counters) &&
                    (k in todo || !Expired(old(counters)[k], now)) :: old(counters)[k]
          decreases |todo|
        {
          var key :| key in todo;
          if now - counters[key].windowStartedAtMs >= WINDOW_MS {
            counters := counters - {key};
          }
          todo := todo - {key};
        }
      }
      assert counters == Swept(old(counters), now);
      if r.client !in counters || now - counters[r.client].windowStartedAtMs >= WINDOW_MS {
        counters := counters[r.client := Counter(now, 1)];
        return Admitted;
      }
      var existing := counters[r.client];
      if existing.count >= peerWriteRateLimitPerMinute {
        var elapsed := now - existing.windowStartedAtMs;
        var retryAfterMs := if WINDOW_MS - elapsed > 1_000 then WINDOW_MS - elapsed else 1_000;
        assert counters == counters[r.client := existing];
        return Limited((retryAfterMs + 999) / 1_000);
      }
      counters := counters[r.client := existing.(count := existing.count + 1)];
      return Admitted;
    }
  }

  // ---------- Runs ----------

  ghost predicate Chronological(rs: seq<Request>) {
    forall i, j :: 0 <= i < j < |rs| ==> rs[i].now <= rs[j].now
  }

  function After(limit: int, rs: seq<Request>): Counters {
    if rs == [] then map[] else Next(limit, After(limit, rs[..|rs| - 1]), rs[|rs| - 1]).0
  }

  /** Decision on the last request of a run that starts with no counters. */
  function LastDecision(limit: int, rs: seq<Request>): Decision
    requires rs != []
  {
    Next(limit, After(limit, rs[..|rs| - 1]), rs[|rs| - 1]).1
  }

  /** Reference: one client alone, whose counter is never swept. */
  function AloneAfter(limit: int, rs: seq<Request>, client: Client): Option<Counter> {
    if rs == [] then None
    else
      var before := AloneAfter(limit, rs[..|rs| - 1], client);
      if rs[|rs| - 1].client == client then Some(Consumed(limit, before, rs[|rs| - 1].now).0) else before
  }

  /** A client's counter is the reference counter, or was swept because that one has expired. */
  lemma {:induction false} CountersFollowReference(limit: int, rs: seq<Request>, client: Client)
    requires limit > 0 && Chronological(rs)
    ensures var alone, slot := AloneAfter(limit, rs, client), Slot(After(limit, rs), client);
            slot == alone || (slot == None && rs != [] && Expired(alone.value, rs[|rs| - 1].now))
    ensures rs != [] ==> Slot(After(limit, rs), rs[|rs| - 1].client) != None
  {
    if rs != [] {
      CountersFollowReference(limit, rs[..|rs| - 1], client);
    }
  }

  /** Other clients and the sweep never influence a decision. */
  lemma SweepAndOthersAreInvisible(limit: int, rs: seq<Request>)
    requires limit > 0 && Chronological(rs) && rs != []
    ensures var last := rs[|rs| - 1];
            LastDecision(limit, rs) == Consumed(limit, AloneAfter(limit, rs[..|rs| - 1], last.client), last.now).1
  {
    CountersFollowReference(limit, rs[..|rs| - 1], rs[|rs| - 1].client);
  }

  /** Requests of `client` admitted at times in `[from, from + 60 s)`. */
  function AdmittedFrom(limit: int, rs: seq<Request>, client: Client, from: int): nat {
    if rs == [] then 0
    else
      var last := rs[|rs| - 1];
      AdmittedFrom(limit, rs[..|rs| - 1], client, from)
      + if last.client == client && from <= last.now < from + WINDOW_MS && LastDecision(limit, rs) == Admitted
        then 1 else 0
  }

  /** The bound depends on where the current window of the client opened. */
  lemma {:induction false} AdmittedFromByWindow(limit: int, rs: seq<Request>, client: Client, from: int)
    requires limit > 0 && Chronological(rs)
    ensures rs != [] && rs[|rs| - 1].now < from ==> AdmittedFrom(limit, rs, client, from) == 0
    ensures var n, alone := AdmittedFrom(limit, rs, client, from), AloneAfter(limit, rs, client);
            match alone
            case None => n == 0
            case Some(c) =>
              && 1 <= c.count <= limit
              && rs != [] && c.windowStartedAtMs <= rs[|rs| - 1].now
              && if c.windowStartedAtMs < from then n <= c.count - 1
                 else if c.windowStartedAtMs < from + WINDOW_MS then n <= limit - 1 + c.count
                 else n <= 2 * limit - 1
  {
    if rs != [] {
      AdmittedFromByWindow(limit, rs[..|rs| - 1], client, from);
      SweepAndOthersAreInvisible(limit, rs);
    }
  }

  /** Any 60 s interval admits fewer than twice the limit from one client. */
  lemma FewerThanTwiceTheLimit(limit: int, rs: seq<Request>, client: Client, from: int)
    requires limit > 0 && Chronological(rs)
    ensures AdmittedFrom(limit, rs, client, from) <= 2 * limit - 1
  {
    AdmittedFromByWindow(limit, rs, client, from);
  }

  /** The counter is the number of requests admitted since its window opened. */
  lemma {:induction false} WindowCounts(limit: int, rs: seq<Request>, client: Client, from: int)
    requires limit > 0 && Chronological(rs)
    ensures match AloneAfter(limit, rs, client)
            case None => AdmittedFrom(limit, rs, client, from) == 0
            case Some(c) =>
              && rs != [] && c.windowStartedAtMs <= rs[|rs| - 1].now
              && AdmittedFrom(limit, rs, client, c.windowStartedAtMs) == c.count
              && (c.windowStartedAtMs + WINDOW_MS <= from ==> AdmittedFrom(limit, rs, client, from) == 0)
  {
    if rs != [] {
      WindowCounts(limit, rs[..|rs| - 1], client, from);
      WindowCounts(limit, rs[..|rs| - 1], client, rs[|rs| - 1].now);
      SweepAndOthersAreInvisible(limit, rs);
    }
  }

  /** Without a limit nobody is refused, and with one a refusal means that the last 60 s have seen exactly as
      many admissions of the client. */
  lemma RefusedAfterTheLimit(limit: int, rs: seq<Request>)
    requires Chronological(rs) && rs != []
    ensures limit <= 0 ==> LastDecision(limit, rs).Admitted?
    ensures LastDecision(limit, rs).Limited? ==>
              var earlier, last := rs[..|rs| - 1], rs[|rs| - 1];
              exists from :: from <= last.now < from + WINDOW_MS
                             && AdmittedFrom(limit, earlier, last.client, from) == limit
  {
    if limit > 0 {
      var last := rs[|rs| - 1];
      SweepAndOthersAreInvisible(limit, rs);
      WindowCounts(limit, rs[..|rs| - 1], last.client, 0);
      AdmittedFromByWindow(limit, rs[..|rs| - 1], last.client, 0);
      if LastDecision(limit, rs).Limited? {
        var c := AloneAfter(limit, rs[..|rs| - 1], last.client).value;
        assert AdmittedFrom(limit, rs[..|rs| - 1], last.client, c.windowStartedAtMs) == limit;
      }
    }
  }

  /** A client that waits the returned number of seconds, sending nothing meanwhile, is admitted. */
  lemma WaitingRetryAfterIsEnough(limit: int, rs: seq<Request>, i: nat)
    requires limit > 0 && Chronological(rs) && i < |rs| - 1
    requires LastDecision(limit, rs[..i + 1]).Limited?
    requires forall k :: i < k < |rs| - 1 ==> rs[k].client != rs[i].client
    requires rs[|rs| - 1].client == rs[i].client
    requires rs[|rs| - 1].now >= rs[i].now + 1_000 * LastDecision(limit, rs[..i + 1]).retryAfterSeconds
    ensures LastDecision(limit, rs) == Admitted
  {
    assert rs[..i + 1][..i] == rs[..i];
    SweepAndOthersAreInvisible(limit, rs[..i + 1]);
    SilenceKeepsCounter(limit, rs, rs[i].client, i + 1, |rs| - 1);
    SweepAndOthersAreInvisible(limit, rs);
  }

  /** Nor is the returned wait too long: a second less is not enough. */
  lemma RetryAfterIsTight(limit: int, rs: seq<Request>, i: nat)
    requires limit > 0 && Chronological(rs) && i < |rs| - 1
    requires LastDecision(limit, rs[..i + 1]).Limited?
    requires forall k :: i < k < |rs| - 1 ==> rs[k].client != rs[i].client
    requires rs[|rs| - 1].client == rs[i].client
    ensures 1 <= LastDecision(limit, rs[..i + 1]).retryAfterSeconds <= 60
    ensures LastDecision(limit, rs[..i + 1]).retryAfterSeconds >= 2
            && rs[|rs| - 1].now <= rs[i].now + 1_000 * (LastDecision(limit, rs[..i + 1]).retryAfterSeconds - 1)
            ==> LastDecision(limit, rs).Limited?
  {
    assert rs[..i + 1][..i] == rs[..i];
    SweepAndOthersAreInvisible(limit, rs[..i + 1]);
    SilenceKeepsCounter(limit, rs, rs[i].client, i + 1, |rs| - 1);
    SweepAndOthersAreInvisible(limit, rs);
    AdmittedFromByWindow(limit, rs[..i], rs[i].client, 0);
  }

  lemma {:induction false} SilenceKeepsCounter(limit: int, rs: seq<Request>, client: Client, i: nat, j: nat)
    requires i <= j <= |rs|
    requires forall k :: i <= k < j ==> rs[k].client != client
    ensures AloneAfter(limit, rs[..j], client) == AloneAfter(limit, rs[..i], client)
    decreases j
  {
    if i < j {
      SilenceKeepsCounter(limit, rs, client, i, j - 1);
      assert rs[..j][..j - 1] == rs[..j - 1];
    }
  }

  // ---------- The bound is attained ----------

  ghost predicate EndsBy(rs: seq<Request>, now: int) {
    Chronological(rs) && forall i :: 0 <= i < |rs| ==> rs[i].now <= now
  }

  /** One more request inside an open window with room is admitted and counted. */
  lemma OneMoreIsAdmitted(limit: int, rs: seq<Request>, r: Request, from: int)
    requires limit > 0 && EndsBy(rs, r.now) && from <= r.now < from + WINDOW_MS
    requires var alone := AloneAfter(limit, rs, r.client);
             alone == None || Expired(alone.value, r.now) || alone.value.count < limit
    ensures EndsBy(rs + [r], r.now)
    ensures AdmittedFrom(limit, rs + [r], r.client, from) == AdmittedFrom(limit, rs, r.client, from) + 1
    ensures AloneAfter(limit, rs + [r], r.client) == Some(Consumed(limit, AloneAfter(limit, rs, r.client), r.now).0)
  {
    assert (rs + [r])[..|rs|] == rs;
    SweepAndOthersAreInvisible(limit, rs + [r]);
  }

  /** `n` further requests at one instant, as long as the window has room for them. */
  lemma {:induction false} BurstIsAdmitted(limit: int, rs: seq<Request>, client: Client, now: int, n: nat, from: int)
    returns (all: seq<Request>)
    requires limit > 0 && EndsBy(rs, now) && from <= now < from + WINDOW_MS
    requires var alone := AloneAfter(limit, rs, client);
             alone.Some? && !Expired(alone.value, now) && alone.value.count + n <= limit
    ensures EndsBy(all, now)
    ensures AdmittedFrom(limit, all, client, from) == AdmittedFrom(limit, rs, client, from) + n
    ensures var before := AloneAfter(limit, rs, client).value;
            AloneAfter(limit, all, client) == Some(Counter(before.windowStartedAtMs, before.count + n))
    decreases n
  {
    all := rs;
    if n > 0 {
      var shorter := BurstIsAdmitted(limit, rs, client, now, n - 1, from);
      OneMoreIsAdmitted(limit, shorter, Request(client, now), from);
      all := shorter + [Request(client, now)];
    }
  }

  /** For every limit some run admits 2 * limit - 1 requests of one client within 60 s. */
  lemma BoundIsAttained(limit: int, client: Client) returns (rs: seq<Request>, from: int)
    requires limit > 0
    ensures Chronological(rs) && AdmittedFrom(limit, rs, client, from) == 2 * limit - 1
  {
    from := 1;
    rs := [Request(client, 0)];
    assert rs[..0] == [];
    rs := BurstIsAdmitted(limit, rs, client, WINDOW_MS - 1, limit - 1, from);
    OneMoreIsAdmitted(limit, rs, Request(client, WINDOW_MS), from);
    rs := rs + [Request(client, WINDOW_MS)];
    rs := BurstIsAdmitted(limit, rs, client, WINDOW_MS, limit - 1, from);
  }
}
