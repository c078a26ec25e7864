/**
 The add-in's access-token cache. `getAccessToken` hands out the cached
 token unless there is none or it is within 30 seconds of its `exp` claim,
 in which case it asks the Office host for a new one and caches it. The
 clock is a parameter (`Date.now()` in milliseconds), and so is how the
 host's `OfficeRuntime.auth.getAccessToken` settles.
 */
module TokenBroker {
  import opened Js

  /** How many seconds before its `exp` claim a token is replaced. */
  const EagerFetchSeconds := 30
  const MillisPerSecond := 1000

  /** A token as cached: the raw JWT and what reading its `exp` claim gives.
      Decoding the payload (`atob` then `JSON.parse`) can throw. The test
      `threshold >= expiry` converts the claim with `Number`:
      - a claim that converts to NaN (missing, a non-numeric string, a
        non-array object) or to `Infinity` is `None`, and the test is then
        false; an array converts as the text its elements join to, so `[]`
        gives 0 and `[5]` gives 5;
      - any other claim is `Some` of the least integer not below its number:
        `null`, `false` and `''` give 0, `true` gives 1, a numeric string
        gives its number, and a fractional NumericDate gives its ceiling,
        which the integer threshold compares with in the same way. `-Infinity`
        gives 0 as well, because the clock is never negative. */
  datatype AccessToken = AccessToken(raw: string, exp: Call<Option<int>>)

  /** `isTokenNearingExpiry(token)` at clock reading `nowMs`. */
  function NearingExpiry(token: AccessToken, nowMs: nat): (r: Call<bool>)
    ensures r.Throws? <==> token.exp.Throws?
    ensures r == Returns(true) <==>
      token.exp.Returns? && token.exp.value.Some?
      && nowMs >= (token.exp.value.value - EagerFetchSeconds) * MillisPerSecond
  {
    match token.exp
    case Throws => Throws
    case Returns(None) => Returns(false)
    case Returns(Some(exp)) =>
      ThresholdWithoutDivision(nowMs, exp);
      Returns(nowMs / MillisPerSecond + EagerFetchSeconds >= exp)
  }

  /** `Math.floor(now / 1000) + 30 >= exp` holds exactly from millisecond
      `(exp - 30) * 1000` on. */
  lemma ThresholdWithoutDivision(nowMs: nat, exp: int)
    ensures nowMs / MillisPerSecond + EagerFetchSeconds >= exp <==> nowMs >= (exp - EagerFetchSeconds) * MillisPerSecond
  {
    var q := nowMs / MillisPerSecond;
    assert nowMs == q * MillisPerSecond + nowMs % MillisPerSecond;
    if q + EagerFetchSeconds < exp {
      assert q + 1 <= exp - EagerFetchSeconds;
      assert (q + 1) * MillisPerSecond <= (exp - EagerFetchSeconds) * MillisPerSecond;
    } else {
      assert q * MillisPerSecond >= (exp - EagerFetchSeconds) * MillisPerSecond;
    }
  }

  /** The cache after a call, what the call yields, and whether it asked the host. */
  datatype TokenCall = TokenCall(cache: Option<AccessToken>, result: Call<string>, askedHost: bool)

  /** `getAccessToken(options)` with cache `cache` at `nowMs`, when the host's
      token request would settle as `host`. A failed request leaves the cache
      as it was; so does a cached token whose payload cannot be decoded. */
  function GetAccessToken(cache: Option<AccessToken>, nowMs: nat, host: Call<AccessToken>): (r: TokenCall)
    ensures r.askedHost <==> cache.None? || NearingExpiry(cache.value, nowMs) == Returns(true)
    ensures r.askedHost && host.Returns? ==> r.cache == Some(host.value) && r.result == Returns(host.value.raw)
    ensures !(r.askedHost && host.Returns?) ==> r.cache == cache
    ensures !r.askedHost && r.result.Returns? ==> r.result == Returns(cache.value.raw)
    ensures r.result.Returns? ==> r.cache.Some? && r.result.value == r.cache.value.raw
    ensures r.result.Throws? <==>
      (r.askedHost && host.Throws?) || (cache.Some? && cache.value.exp.Throws?)
  {
    if cache.None? then Refresh(cache, host)
    else
      match NearingExpiry(cache.value, nowMs)
      case Throws => TokenCall(cache, Throws, false)
      case Returns(true) => Refresh(cache, host)
      case Returns(false) => TokenCall(cache, Returns(cache.value.raw), false)
  }

  /** Asking the host and caching what it returns. */
  function Refresh(cache: Option<AccessToken>, host: Call<AccessToken>): TokenCall {
    match host
    case Throws => TokenCall(cache, Throws, true)
    case Returns(token) => TokenCall(Some(token), Returns(token.raw), true)
  }

  /** A sequence of calls, each at a clock reading and with the host's
      answer should it be asked: the final cache and how often the host
      was asked. */
  function Replay(cache: Option<AccessToken>, calls: seq<(nat, Call<AccessToken>)>): (Option<AccessToken>, nat)
    decreases |calls|
  {
    if |calls| == 0 then (cache, 0)
    else
      var step := GetAccessToken(cache, calls[0].0, calls[0].1);
      var (last, asked) := Replay(step.cache, calls[1..]);
      (last, asked + (if step.askedHost then 1 else 0))
  }

  /** Once a decodable token is cached, no call made more than 30 seconds
      before its expiry reaches the host, and the cache stays as it is. */
  lemma {:induction false} NoRefreshWhileFresh(token: AccessToken, calls: seq<(nat, Call<AccessToken>)>)
    requires token.exp.Returns? && token.exp.value.Some?
    requires forall i :: 0 <= i < |calls| ==> calls[i].0 < (token.exp.value.value - EagerFetchSeconds) * MillisPerSecond
    ensures Replay(Some(token), calls) == (Some(token), 0)
    decreases |calls|
  {
    if |calls| > 0 {
      assert GetAccessToken(Some(token), calls[0].0, calls[0].1).cache == Some(token);
      NoRefreshWhileFresh(token, calls[1..]);
    }
  }

  /** A token whose `exp` claim converts to NaN (or `Infinity`) is never
      replaced: the comparison is false at every clock reading. */
  lemma {:induction false} MissingExpiryNeverRefreshes(token: AccessToken, calls: seq<(nat, Call<AccessToken>)>)
    requires token.exp == Returns(None)
    ensures Replay(Some(token), calls) == (Some(token), 0)
    decreases |calls|
  {
    if |calls| > 0 {
      assert GetAccessToken(Some(token), calls[0].0, calls[0].1).cache == Some(token);
      MissingExpiryNeverRefreshes(token, calls[1..]);
    }
  }

  /** A claim that converts to 0, such as `null` or `false`, makes a token
      due at every clock reading: while the host keeps answering with such
      tokens, every call asks it again. */
  lemma {:induction false} ZeroExpiryAlwaysRefreshes(token: AccessToken, calls: seq<(nat, Call<AccessToken>)>)
    requires token.exp == Returns(Some(0))
    requires forall i :: 0 <= i < |calls| ==> calls[i].1.Returns? && calls[i].1.value.exp == Returns(Some(0))
    ensures Replay(Some(token), calls).1 == |calls|
    decreases |calls|
  {
    if |calls| > 0 {
      var step := GetAccessToken(Some(token), calls[0].0, calls[0].1);
      assert step.askedHost && step.cache == Some(calls[0].1.value);
      ZeroExpiryAlwaysRefreshes(calls[0].1.value, calls[1..]);
    }
  }

  /** Nearing expiry is monotone in time: a token due for replacement stays due. */
  lemma NearingExpiryStays(token: AccessToken, t1: nat, t2: nat)
    requires t1 <= t2
    requires NearingExpiry(token, t1) == Returns(true)
    ensures NearingExpiry(token, t2) == Returns(true)
  {
  }

  /** The first call always asks the host; a successful answer is served
      from the cache by an immediately following call while it is fresh. */
  lemma FirstCallFetchesThenCaches(now: nat, later: nat, token: AccessToken, host: Call<AccessToken>)
    requires token.exp.Returns? && token.exp.value.Some?
    requires now <= later < (token.exp.value.value - EagerFetchSeconds) * MillisPerSecond
    ensures var first := GetAccessToken(None, now, Returns(token));
      && first.askedHost && first.result == Returns(token.raw)
      && var second := GetAccessToken(first.cache, later, host);
         !second.askedHost && second.result == Returns(token.raw) && second.cache == first.cache
  {
  }
}
