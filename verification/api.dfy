/**
 * The pure decisions of the upstream client: how a reply becomes a payload
 * or `null`, how a quota reply is normalised, and when a failed request is
 * retried and after how long. The transport itself is not modelled: a
 * reply is an input, and `None` stands for a request that threw.
 */
module Api {
  import opened Wrappers
  import opened Records

  /** A JSON reply `{ success, data }`; `data` may be missing. */
  datatype Reply<T> = Reply(success: bool, data: Option<T>)

  /**
   * `getProfileInfo` / `getVerificationData`: the payload when the reply
   * says `success`, and `null` otherwise, including when the request threw.
   */
  function Payload<T>(reply: Option<Reply<T>>): (r: Option<T>)
    ensures r.Some? <==> reply.Some? && reply.value.success && reply.value.data.Some?
    ensures r.Some? ==> r.value == reply.value.data.value
  {
    match reply
    case None => None
    case Some(Reply(success, data)) => if success then data else None
  }

  /** `quotaRemaining` as the server sends it: any field may be missing. */
  datatype RawQuota = RawQuota(daily: Option<int>, monthly: Option<int>, all: Option<int>, family: Option<int>)

  /** The quota endpoint's reply; `quotaRemaining` is `None` when it or `data` is missing. */
  datatype QuotaReply = QuotaReply(success: bool, quotaRemaining: Option<RawQuota>)

  /**
   * `getQuota`: no request without a customer-type name; otherwise the
   * normalised `quotaRemaining` of a successful reply, else `null`.
   */
  function GetQuota(v: Verification, reply: Option<QuotaReply>): (r: Option<Quota>)
    ensures !HasTypeName(v) ==> r.None?
    ensures r.Some? <==>
      HasTypeName(v) && reply.Some? && reply.value.success && reply.value.quotaRemaining.Some?
    ensures r.Some? ==>
      var q := reply.value.quotaRemaining.value;
      && (q.daily.Some? ==> r.value.daily == q.daily.value)
      && (q.daily.None? ==> r.value.daily == 0)
      && (q.monthly.Some? ==> r.value.monthly == q.monthly.value)
      && (q.monthly.None? ==> r.value.monthly == 0)
      && (q.all.Some? ==> r.value.all == q.all.value)
      && (q.all.None? ==> r.value.all == 0)
      && (q.family.Some? ==> r.value.family == FamilyCount(q.family.value))
      && (q.family.None? ==> r.value.family == FamilyNA)
  {
    if !HasTypeName(v) then None
    else match reply
      case None => None
      case Some(QuotaReply(success, remaining)) =>
        if success && remaining.Some? then
          var q := remaining.value;
          Some(Quota(
            daily := q.daily.GetOr(0),
            monthly := q.monthly.GetOr(0),
            family := match q.family case Some(f) => FamilyCount(f) case None => FamilyNA,
            all := q.all.GetOr(0)))
        else None
  }

  /** The raw quota a server would send for a normalised quota. */
  function ToRaw(q: Quota): RawQuota {
    RawQuota(Some(q.daily), Some(q.monthly), Some(q.all),
      match q.family case FamilyCount(f) => Some(f) case FamilyNA => None)
  }

  /** Normalisation loses nothing: a quota sent in full comes back unchanged. */
  lemma QuotaRoundTrip(v: Verification, q: Quota)
    requires HasTypeName(v)
    ensures GetQuota(v, Some(QuotaReply(true, Some(ToRaw(q))))) == Some(q)
  {
  }

  /** The answer does not depend on the reply when no request is sent. */
  lemma NoTypeNoRequest(v: Verification, a: Option<QuotaReply>, b: Option<QuotaReply>)
    requires !HasTypeName(v)
    ensures GetQuota(v, a) == GetQuota(v, b) == None
  {
  }

  // ---------------------------------------------------------------------
  // Retry policy of the response interceptor
  // ---------------------------------------------------------------------

  /** How a request failed: no response at all, or an HTTP status. */
  datatype Failure = NoResponse | Status(code: int)

  /** `config.retry`: how many retries, and the base delay in seconds. */
  datatype RetryConfig = RetryConfig(jumlah: int, jedaDetik: int)

  /** What the interceptor does with a failure. */
  datatype Decision = RetryAfter(retryCount: nat, delayMs: int) | GiveUp

  /** Server errors and missing responses are retried; client errors are not. */
  predicate IsRetryable(f: Failure) {
    f.NoResponse? || f.code >= 500
  }

  /** The interceptor's decision given the request's retry count so far. */
  function OnError(cfg: RetryConfig, f: Failure, retryCount: nat): (d: Decision)
    ensures d.RetryAfter? <==> IsRetryable(f) && retryCount < cfg.jumlah
    ensures d.RetryAfter? ==> d.retryCount == retryCount + 1 && d.retryCount <= cfg.jumlah
  {
    if IsRetryable(f) && retryCount < cfg.jumlah then
      RetryAfter(retryCount + 1, cfg.jedaDetik * (retryCount + 1) * 1000)
    else
      GiveUp
  }

  /**
   * The waits scheduled for one request whose successive attempts fail
   * with `failures` (the last attempt not listed succeeded or was never
   * made), starting from `retryCount` earlier retries.
   */
  function RetryDelays(cfg: RetryConfig, failures: seq<Failure>, retryCount: nat): seq<int>
    decreases |failures|
  {
    if |failures| == 0 then []
    else match OnError(cfg, failures[0], retryCount)
      case GiveUp => []
      case RetryAfter(n, delay) => [delay] + RetryDelays(cfg, failures[1..], n)
  }

  /**
   * The `i`-th wait is `jedaDetik * n * 1000` for retry number `n`, every
   * failure that was retried was retryable, and a request is retried at
   * most `jumlah` times in all.
   */
  lemma {:induction false} RetryDelaysShape(cfg: RetryConfig, failures: seq<Failure>, retryCount: nat)
    ensures var ds := RetryDelays(cfg, failures, retryCount);
      && |ds| <= |failures|
      && retryCount + |ds| <= (if retryCount < cfg.jumlah then cfg.jumlah else retryCount)
      && (forall i :: 0 <= i < |ds| ==> ds[i] == cfg.jedaDetik * (retryCount + i + 1) * 1000)
      && (forall i :: 0 <= i < |ds| ==> IsRetryable(failures[i]))
    decreases |failures|
  {
    if |failures| > 0 {
      match OnError(cfg, failures[0], retryCount)
      case GiveUp =>
      case RetryAfter(n, delay) =>
        RetryDelaysShape(cfg, failures[1..], n);
        var ds := RetryDelays(cfg, failures, retryCount);
        var rest := RetryDelays(cfg, failures[1..], n);
        assert ds == [delay] + rest;
        forall i | 0 <= i < |ds|
          ensures ds[i] == cfg.jedaDetik * (retryCount + i + 1) * 1000
          ensures IsRetryable(failures[i])
        {
          if i > 0 {
            assert ds[i] == rest[i - 1];
            assert failures[i] == failures[1..][i - 1];
          }
        }
    }
  }

  /** With a positive base delay each wait is strictly longer than the one before. */
  lemma RetryDelaysIncrease(cfg: RetryConfig, failures: seq<Failure>, retryCount: nat)
    requires cfg.jedaDetik > 0
    ensures var ds := RetryDelays(cfg, failures, retryCount);
      forall i :: 0 <= i < |ds| - 1 ==> ds[i] < ds[i + 1]
  {
    RetryDelaysShape(cfg, failures, retryCount);
    var ds := RetryDelays(cfg, failures, retryCount);
    forall i | 0 <= i < |ds| - 1
      ensures ds[i] < ds[i + 1]
    {
      var n := retryCount + i + 1;
      assert ds[i + 1] == cfg.jedaDetik * (n + 1) * 1000;
      assert cfg.jedaDetik * (n + 1) * 1000 == cfg.jedaDetik * n * 1000 + cfg.jedaDetik * 1000;
    }
  }

  /** A run of retryable failures is retried exactly `jumlah` times when it is long enough. */
  lemma {:induction false} RetriesExhausted(cfg: RetryConfig, failures: seq<Failure>, retryCount: nat)
    requires retryCount <= cfg.jumlah
    requires |failures| >= cfg.jumlah - retryCount
    requires forall i :: 0 <= i < |failures| ==> IsRetryable(failures[i])
    ensures |RetryDelays(cfg, failures, retryCount)| == cfg.jumlah - retryCount
    decreases |failures|
  {
    if retryCount < cfg.jumlah {
      assert IsRetryable(failures[0]);
      RetriesExhausted(cfg, failures[1..], retryCount + 1);
    } else if |failures| > 0 {
      assert OnError(cfg, failures[0], retryCount) == GiveUp;
    }
  }
}
