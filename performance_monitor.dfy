/**
 * The request performance monitor: two bounded sliding windows over completed requests
 * (every request's duration, and the records of the slow ones), the read-only summary
 * served at `/performance`, and the cache headers added to successful responses.
 *
 * Durations are reals measured by the caller: the clock and the process memory probe
 * are parameters of `AfterRequest`, not read here.
 */
module PerformanceMonitoring {
  import opened Wrappers

  /** How many request durations the monitor keeps. */
  const MaxTracked: nat := 100
  /** How many slow-request records the monitor keeps. */
  const MaxSlow: nat := 20
  /** A request is slow when it took strictly longer than this many seconds. */
  const SlowThreshold: real := 2.0
  /** How many of the newest slow records the summary shows. */
  const RecentShown: nat := 5
  /** The cache lifetime in seconds used when the caller gives none. */
  const DefaultCacheTimeout: int := 300

  /** One completed request, as recorded for a slow request. */
  datatype RequestRecord = RequestRecord(
    url: string,
    httpMethod: string,
    duration: real,
    memoryDelta: real,
    timestamp: real)

  predicate IsSlow(r: RequestRecord) {
    r.duration > SlowThreshold
  }

  /** The `Cache-Control` directives of a response that the monitor touches. */
  datatype CacheControl = CacheControl(maxAge: Option<int>, isPublic: bool)

  datatype Response = Response(statusCode: int, body: string, cacheControl: CacheControl)

  /** What `/performance` reports: nothing yet, or a summary of the windows. */
  datatype Stats =
    | NoData
    | Summary(
        requestsTracked: nat,
        maxResponseTime: real,
        slowRequestsCount: nat,
        recentSlowRequests: seq<RequestRecord>)

  /** The newest `n` entries of `s` (all of them when there are fewer), oldest first: Python's `s[-n:]` for `n > 0`. */
  function Newest<T>(s: seq<T>, n: nat): (r: seq<T>)
    ensures |r| == if |s| <= n then |s| else n
    ensures r == s[|s| - |r|..]
  {
    if |s| > n then s[|s| - n..] else s
  }

  /**
   * Trimming a window and then appending and trimming again keeps exactly the newest
   * entries of the whole history: trimming after every append loses nothing that a
   * single trim at the end would keep.
   */
  lemma NewestAppend<T>(s: seq<T>, x: T, n: nat)
    ensures Newest(Newest(s, n) + [x], n) == Newest(s + [x], n)
  {
  }

  /** The durations of the recorded requests, in arrival order. */
  function Durations(log: seq<RequestRecord>): (ds: seq<real>)
    ensures |ds| == |log|
    ensures forall i | 0 <= i < |log| :: ds[i] == log[i].duration
  {
    seq(|log|, i requires 0 <= i < |log| => log[i].duration)
  }

  /** The slow requests of `log`, in arrival order. */
  function SlowOnes(log: seq<RequestRecord>): (r: seq<RequestRecord>)
    ensures |r| <= |log|
    ensures forall i | 0 <= i < |r| :: IsSlow(r[i])
    ensures forall x :: x in r <==> x in log && IsSlow(x)
  {
    if log == [] then []
    else (if IsSlow(log[0]) then [log[0]] else []) + SlowOnes(log[1..])
  }

  /** Recording one more request adds it to the slow ones exactly when it is slow. */
  lemma {:induction false} SlowOnesAppend(log: seq<RequestRecord>, x: RequestRecord)
    ensures SlowOnes(log + [x]) == SlowOnes(log) + (if IsSlow(x) then [x] else [])
  {
    if log != [] {
      assert (log + [x])[1..] == log[1..] + [x];
      SlowOnesAppend(log[1..], x);
    }
  }

  /**
   * One more recorded request moves both windows exactly as appending to the
   * trimmed window and trimming again does.
   */
  lemma RecordStep(log: seq<RequestRecord>, x: RequestRecord)
    ensures Newest(Durations(log + [x]), MaxTracked)
         == Newest(Newest(Durations(log), MaxTracked) + [x.duration], MaxTracked)
    ensures Newest(SlowOnes(log + [x]), MaxSlow)
         == if IsSlow(x) then Newest(Newest(SlowOnes(log), MaxSlow) + [x], MaxSlow)
            else Newest(SlowOnes(log), MaxSlow)
  {
    assert Durations(log + [x]) == Durations(log) + [x.duration];
    NewestAppend(Durations(log), x.duration, MaxTracked);
    SlowOnesAppend(log, x);
    if IsSlow(x) {
      NewestAppend(SlowOnes(log), x, MaxSlow);
    }
  }

  /** The largest duration: Python's `max` over a non-empty list. */
  function MaxOf(s: seq<real>): (m: real)
    requires s != []
    ensures m in s
    ensures forall i | 0 <= i < |s| :: s[i] <= m
  {
    if |s| == 1 then s[0]
    else
      var rest := MaxOf(s[1..]);
      if s[0] >= rest then s[0] else rest
  }

  /**
   * `add_cache_headers`: a response with status 200 becomes publicly cacheable for
   * `cacheTimeout` seconds (300 unless given); any other response is returned as it came.
   */
  function AddCacheHeaders(response: Response, cacheTimeout: int := DefaultCacheTimeout): (r: Response)
    ensures r.statusCode == response.statusCode && r.body == response.body
    ensures response.statusCode == 200 ==> r.cacheControl.maxAge == Some(cacheTimeout) && r.cacheControl.isPublic
    ensures response.statusCode != 200 ==> r == response
  {
    if response.statusCode == 200 then
      response.(cacheControl := response.cacheControl.(maxAge := Some(cacheTimeout), isPublic := true))
    else
      response
  }

  /** Adding the cache headers a second time changes nothing. */
  lemma AddCacheHeadersIdempotent(response: Response, cacheTimeout: int)
    ensures AddCacheHeaders(AddCacheHeaders(response, cacheTimeout), cacheTimeout)
         == AddCacheHeaders(response, cacheTimeout)
  {
  }

  class PerformanceMonitor {
    /** The durations of the newest tracked requests, oldest first. */
    var requestTimes: seq<real>
    /** The records of the newest slow requests, oldest first. */
    var slowRequests: seq<RequestRecord>
    /** Every completed request that had a recorded start time, oldest first. */
    ghost var log: seq<RequestRecord>

    /** Both windows hold the newest entries of the history, in arrival order. */
    ghost predicate Valid()
      reads this
    {
      requestTimes == Newest(Durations(log), MaxTracked) &&
      slowRequests == Newest(SlowOnes(log), MaxSlow)
    }

    /** `__init__`: both windows start empty. */
    constructor ()
      ensures Valid()
      ensures log == [] && requestTimes == [] && slowRequests == []
    {
      requestTimes := [];
      slowRequests := [];
      log := [];
    }

    /**
     * `after_request`. When the request had a start time, its duration joins
     * `requestTimes`, its record joins `slowRequests` if it took more than
     * `SlowThreshold`, and each window is cut back to its newest entries.
     * The response is returned unchanged in every case.
     */
    method AfterRequest(hasStart: bool, duration: real, url: string, httpMethod: string,
                        memoryDelta: real, timestamp: real, response: Response)
      returns (r: Response)
      requires Valid()
      modifies this
      ensures Valid()
      ensures r == response
      ensures !hasStart ==> log == old(log) && requestTimes == old(requestTimes) && slowRequests == old(slowRequests)
      ensures hasStart ==> log == old(log) + [RequestRecord(url, httpMethod, duration, memoryDelta, timestamp)]
      ensures hasStart ==> requestTimes == Newest(old(requestTimes) + [duration], MaxTracked)
      ensures hasStart && duration > SlowThreshold ==>
                slowRequests == Newest(old(slowRequests) + [RequestRecord(url, httpMethod, duration, memoryDelta, timestamp)], MaxSlow)
      ensures !(hasStart && duration > SlowThreshold) ==> slowRequests == old(slowRequests)
      ensures |requestTimes| <= MaxTracked && |slowRequests| <= MaxSlow
      ensures forall i | 0 <= i < |slowRequests| :: slowRequests[i].duration > SlowThreshold
    {
      if hasStart {
        var record := RequestRecord(url, httpMethod, duration, memoryDelta, timestamp);
        var times := requestTimes + [duration];
        var slow := slowRequests;
        if duration > SlowThreshold {
          slow := slow + [record];
        }
        if |times| > MaxTracked {
          times := times[|times| - MaxTracked..];
        }
        if |slow| > MaxSlow {
          slow := slow[|slow| - MaxSlow..];
        }
        assert times == Newest(requestTimes + [duration], MaxTracked);
        assert duration > SlowThreshold ==> slow == Newest(slowRequests + [record], MaxSlow);
        RecordStep(log, record);
        requestTimes, slowRequests, log := times, slow, log + [record];
      }
      WindowsHoldNewest(this);
      r := response;
    }

    /**
     * `get_stats`, without the averages and the process figures: no data until a
     * request was tracked; otherwise the window sizes, the longest tracked duration
     * and the newest slow records.
     */
    function GetStats(): (st: Stats)
      reads this
      ensures st.NoData? <==> requestTimes == []
      ensures st.Summary? ==>
                st.requestsTracked == |requestTimes| &&
                st.slowRequestsCount == |slowRequests| &&
                st.maxResponseTime in requestTimes &&
                (forall i | 0 <= i < |requestTimes| :: requestTimes[i] <= st.maxResponseTime)
      ensures st.Summary? ==>
                |st.recentSlowRequests| == (if |slowRequests| < RecentShown then |slowRequests| else RecentShown) &&
                st.recentSlowRequests == slowRequests[|slowRequests| - |st.recentSlowRequests|..]
    {
      if requestTimes == [] then NoData
      else
        Summary(
          |requestTimes|,
          MaxOf(requestTimes),
          |slowRequests|,
          if slowRequests != [] then Newest(slowRequests, RecentShown) else [])
    }
  }

  /**
   * What a valid monitor holds, in terms of its history: the newest min(100, n)
   * durations in arrival order (newest last), and the newest min(20, s) of the
   * s slow records, in arrival order.
   */
  lemma WindowsHoldNewest(m: PerformanceMonitor)
    requires m.Valid()
    ensures |m.requestTimes| == (if |m.log| < MaxTracked then |m.log| else MaxTracked)
    ensures forall i | 0 <= i < |m.requestTimes| ::
              m.requestTimes[i] == m.log[|m.log| - |m.requestTimes| + i].duration
    ensures |m.slowRequests| == (if |SlowOnes(m.log)| < MaxSlow then |SlowOnes(m.log)| else MaxSlow)
    ensures m.slowRequests == SlowOnes(m.log)[|SlowOnes(m.log)| - |m.slowRequests|..]
    ensures forall i | 0 <= i < |m.slowRequests| :: IsSlow(m.slowRequests[i]) && m.slowRequests[i] in m.log
  {
  }

  /** After the first tracked request, `get_stats` reports a summary whose count follows the history. */
  lemma StatsFollowHistory(m: PerformanceMonitor)
    requires m.Valid()
    ensures m.GetStats().NoData? <==> m.log == []
    ensures m.GetStats().Summary? ==>
              m.GetStats().requestsTracked == (if |m.log| < MaxTracked then |m.log| else MaxTracked)
  {
  }
}
