/** The fixed-window rate limiter of the request middleware: one counter per
    `ip:path` key, restarted when its window has passed. The clock is a
    parameter: `now` is the request's time in milliseconds. */
module RateLimit {
  import opened Wrappers

  /** A bucket: the requests counted in the current window and when it ends. */
  datatype Entry = Entry(count: int, reset: int)

  const DefaultWindowMs: int := 60000
  const DefaultMax: int := 60

  /** The options object of `rateLimit`, each field possibly undefined. */
  datatype Options = Options(windowMs: Option<int>, max: Option<int>)

  /** `{ windowMs = 60000, max = 60 } = {}`: a setting left undefined takes its default. */
  function Settings(windowMs: Option<int>, max: Option<int>): (r: (int, int))
    ensures windowMs.None? ==> r.0 == DefaultWindowMs
    ensures windowMs.Some? ==> r.0 == windowMs.value
    ensures max.None? ==> r.1 == DefaultMax
    ensures max.Some? ==> r.1 == max.value
  {
    (windowMs.GetOr(DefaultWindowMs), max.GetOr(DefaultMax))
  }

  /** `${req.ip}:${req.path}`. */
  function Key(ip: string, path: string): string {
    ip + ":" + path
  }

  /** Express paths start with `/`; an address without `/` is then recovered
      from the key, so two different (address, path) pairs never share a bucket. */
  lemma KeyInjective(ip1: string, path1: string, ip2: string, path2: string)
    requires '/' !in ip1 && '/' !in ip2
    requires |path1| > 0 && path1[0] == '/' && |path2| > 0 && path2[0] == '/'
    requires Key(ip1, path1) == Key(ip2, path2)
    ensures ip1 == ip2 && path1 == path2
  {
    var k := Key(ip1, path1);
    assert k[|ip1| + 1] == '/';
    assert k[|ip2| + 1] == '/';
    assert ip1 == k[..|ip1|] == ip2;
    assert path1 == k[|ip1| + 1..] == path2;
  }

  /** What one request does to the bucket of its key: a missing bucket starts
      a window at `now`, a bucket whose window has passed restarts, and the
      count then goes up by one whether or not the request is let through. */
  function Step(entry: Option<Entry>, now: int, windowMs: int): (r: Entry)
    ensures entry.None? || now > entry.value.reset ==> r == Entry(1, now + windowMs)
    ensures entry.Some? && now <= entry.value.reset ==> r == Entry(entry.value.count + 1, entry.value.reset)
  {
    var e := entry.GetOr(Entry(0, now + windowMs));
    var e' := if now > e.reset then Entry(0, now + windowMs) else e;
    e'.(count := e'.count + 1)
  }

  /** `entry.count > max` answers 429. */
  predicate Admits(e: Entry, max: int) {
    e.count <= max
  }

  /** The bucket of one key after a series of requests at the given times. */
  function Replay(entry: Option<Entry>, times: seq<int>, windowMs: int): Option<Entry> {
    if times == [] then entry
    else Some(Step(Replay(entry, times[..|times| - 1], windowMs), times[|times| - 1], windowMs))
  }

  /** How many of those requests are let through. */
  function Admitted(entry: Option<Entry>, times: seq<int>, windowMs: int, max: int): nat {
    if times == [] then 0
    else
      var prefix := times[..|times| - 1];
      Admitted(entry, prefix, windowMs, max)
      + (if Admits(Step(Replay(entry, prefix, windowMs), times[|times| - 1], windowMs), max) then 1 else 0)
  }

  function Min(a: int, b: int): int {
    if a <= b then a else b
  }

  /** Requests on a fresh key that all fall within the window opened by the
      first one are counted one by one in that window, and at most `max` of
      them are let through: exactly the first `max`. */
  lemma {:induction false} OneWindow(times: seq<int>, windowMs: int, max: nat)
    requires times != [] && windowMs >= 0
    requires forall i :: 0 <= i < |times| ==> times[i] <= times[0] + windowMs
    ensures Replay(None, times, windowMs) == Some(Entry(|times|, times[0] + windowMs))
    ensures Admitted(None, times, windowMs, max) == Min(|times|, max)
  {
    var prefix := times[..|times| - 1];
    if |times| == 1 {
      assert prefix == [];
    } else {
      assert prefix[0] == times[0];
      OneWindow(prefix, windowMs, max);
    }
  }

  /** With the default settings, requests on a fresh key within one minute of
      the first are let through sixty at most: exactly the first sixty. */
  lemma DefaultsAdmitSixtyPerMinute(times: seq<int>)
    requires times != []
    requires forall i :: 0 <= i < |times| ==> times[i] <= times[0] + 60000
    ensures var (windowMs, max) := Settings(None, None);
            Replay(None, times, windowMs) == Some(Entry(|times|, times[0] + 60000))
            && Admitted(None, times, windowMs, max) == Min(|times|, 60)
  {
    OneWindow(times, DefaultWindowMs, DefaultMax);
  }

  /** The module-level `buckets` map, shared by every route the limiter guards. */
  class Buckets {
    var entries: map<string, Entry>

    constructor ()
      ensures entries == map[]
    {
      entries := map[];
    }

    /** The middleware `rateLimit(options)` returns, for one request: updates
        the key's bucket, leaves every other bucket alone, and answers whether
        the request may go on; options left undefined take their defaults. */
    method Handle(options: Options, ip: string, path: string, now: int) returns (allowed: bool)
      modifies this
      ensures var key := Key(ip, path);
              var before := if key in old(entries) then Some(old(entries)[key]) else None;
              entries == old(entries)[key := Step(before, now, Settings(options.windowMs, options.max).0)]
      ensures allowed <==> Admits(entries[Key(ip, path)], Settings(options.windowMs, options.max).1)
    {
      var (windowMs, max) := Settings(options.windowMs, options.max);
      var key := Key(ip, path);
      var entry := if key in entries then entries[key] else Entry(0, now + windowMs);
      if now > entry.reset {
        entry := Entry(0, now + windowMs);
      }
      entry := entry.(count := entry.count + 1);
      entries := entries[key := entry];
      allowed := !(entry.count > max);
    }
  }
}
