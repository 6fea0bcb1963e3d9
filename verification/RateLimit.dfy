/** runtime/ratelimit.go: a token bucket per client, and the eviction of idle clients. Times are seconds. */
module RateLimit {
  import opened Text

  /** Requests per minute and burst, as NewRateLimiter settles them. */
  datatype Limits = Limits(rpm: int, burst: int)

  const IDLE := 600.0
  const MANY := 10000

  /** The documented token bucket: it starts full, and gains `rpm` tokens a minute up to `burst`. A bucket
      with a limit of zero or less gains nothing. */
  datatype Bucket = Bucket(tokens: real, last: real)

  datatype Client = Client(bucket: Bucket, lastSeen: real)

  type Clients = map<string, Client>

  /** The tokens gained in `d` seconds. */
  function Gain(l: Limits, d: real): real {
    if l.rpm > 0 then l.rpm as real * d / 60.0 else 0.0
  }

  function Min(x: real, y: real): real {
    if x <= y then x else y
  }

  /** The tokens in the bucket at a later time. */
  function Tokens(l: Limits, b: Bucket, now: real): real {
    Min(l.burst as real, b.tokens + Gain(l, now - b.last))
  }

  function FreshBucket(l: Limits, now: real): Bucket {
    Bucket(l.burst as real, now)
  }

  /** Limiter.Allow. */
  function Allow(l: Limits, b: Bucket, now: real): (Bucket, bool) {
    var tokens := Tokens(l, b, now);
    if tokens >= 1.0 then (Bucket(tokens - 1.0, now), true) else (b, false)
  }

  function BucketOf(l: Limits, clients: Clients, key: string, now: real): Bucket {
    if key in clients then clients[key].bucket else FreshBucket(l, now)
  }

  predicate IsIdle(c: Client, now: real) {
    now - c.lastSeen > IDLE
  }

  /** The clients that stay: all of them, unless there are very many. */
  function Kept(clients: Clients, now: real): Clients {
    if |clients| > MANY then map key | key in clients && !IsIdle(clients[key], now) :: clients[key] else clients
  }

  datatype Request = Request(key: string, now: real)

  /** One request without any eviction. */
  function ServePlain(l: Limits, clients: Clients, q: Request): (Clients, bool) {
    var (bucket, allowed) := Allow(l, BucketOf(l, clients, q.key, q.now), q.now);
    (clients[q.key := Client(bucket, q.now)], allowed)
  }

  /** One request through the middleware. */
  function Serve(l: Limits, clients: Clients, q: Request): (Clients, bool) {
    var (after, allowed) := ServePlain(l, clients, q);
    (Kept(after, q.now), allowed)
  }

  class RateLimiter {
    var clients: Clients
    const limits: Limits

    /** NewRateLimiter. */
    constructor (requestsPerMinute: int, burst: int)
      ensures clients == map[] && limits.rpm == requestsPerMinute && limits.burst >= 1
      ensures burst >= 1 ==> limits.burst == burst
      ensures burst < 1 && requestsPerMinute >= 4 ==> limits.burst == requestsPerMinute / 4
      ensures burst < 1 && requestsPerMinute < 4 ==> limits.burst == 1
    {
      clients := map[];
      limits := Limits(requestsPerMinute,
        if burst >= 1 then burst else if requestsPerMinute / 4 > 1 then requestsPerMinute / 4 else 1);
    }

    /** The locked section of Middleware. */
    method Admit(key: string, now: real) returns (allowed: bool)
      modifies this
      ensures (clients, allowed) == Serve(limits, old(clients), Request(key, now))
    {
      hide Tokens;
      var entry;
      if key in clients {
        entry := clients[key];
      } else {
        entry := Client(FreshBucket(limits, now), now);
      }
      var (bucket, ok) := Allow(limits, entry.bucket, now);
      allowed := ok;
      clients := clients[key := Client(bucket, now)];
      if |clients| > MANY {
        Evict(now);
      }
    }

    /** The eviction loop. */
    method Evict(now: real)
      modifies this
      ensures clients == map key | key in old(clients) && !IsIdle(old(clients)[key], now) :: old(clients)[key]
    {
      hide IsIdle;
      var rest := clients.Keys;
      while rest != {}
        invariant rest <= clients.Keys <= old(clients).Keys
        invariant forall key :: key in old(clients).Keys ==>
          (key in clients.Keys <==> key in rest || !IsIdle(old(clients)[key], now))
        invariant forall key :: key in clients.Keys ==> clients[key] == old(clients)[key]
      {
        var candidate :| candidate in rest;
        rest := rest - {candidate};
        if IsIdle(clients[candidate], now) {
          clients := clients - {candidate};
        }
      }
    }
  }

  /** Nobody is evicted from 10000 clients or fewer; from more, whoever was last seen over ten minutes ago. */
  lemma EvictsFromCrowds(l: Limits, clients: Clients, q: Request, key: string)
    ensures var all, after := ServePlain(l, clients, q).0, Serve(l, clients, q).0;
      && (key in after <==> key in all && (|all| <= 10000 || q.now - all[key].lastSeen <= 600.0))
      && (key in after ==> after[key] == all[key])
  {
    hide Allow;
  }

  // ----- gains --------------------------------------------------------------------------------------

  lemma GainAdds(l: Limits, d: real, e: real)
    ensures Gain(l, d + e) == Gain(l, d) + Gain(l, e)
  {}

  lemma GainGrows(l: Limits, d: real)
    requires d >= 0.0
    ensures Gain(l, d) >= 0.0
  {}

  lemma GainIdle(l: Limits, d: real)
    requires d >= IDLE && l.rpm > 0
    ensures Gain(l, d) >= (10 * l.rpm) as real
  {}

  predicate BucketSafe(l: Limits, b: Bucket, now: real) {
    0.0 <= b.tokens <= l.burst as real && b.last <= now
  }

  lemma TokensSafe(l: Limits, b: Bucket, now: real)
    requires l.burst >= 1 && BucketSafe(l, b, now)
    ensures 0.0 <= Tokens(l, b, now) <= l.burst as real
  {
    GainGrows(l, now - b.last);
    hide Gain;
  }

  /** In `d` more seconds a bucket gains no more than the rate allows, and loses nothing. */
  lemma TokensLater(l: Limits, b: Bucket, now: real, later: real)
    requires l.burst >= 1 && BucketSafe(l, b, now) && now <= later
    ensures Tokens(l, b, now) <= Tokens(l, b, later) <= Tokens(l, b, now) + Gain(l, later - now)
  {
    GainAdds(l, now - b.last, later - now);
    GainGrows(l, later - now);
    assert now - b.last + (later - now) == later - b.last;
    hide Gain;
  }

  lemma AllowSafe(l: Limits, b: Bucket, now: real)
    requires l.burst >= 1 && BucketSafe(l, b, now)
    ensures BucketSafe(l, Allow(l, b, now).0, now)
    ensures Tokens(l, Allow(l, b, now).0, now) == Tokens(l, b, now) - if Allow(l, b, now).1 then 1.0 else 0.0
  {
    TokensSafe(l, b, now);
    if Tokens(l, b, now) >= 1.0 {
      FullTokens(l, Bucket(Tokens(l, b, now) - 1.0, now));
    }
    hide Tokens;
  }

  lemma FullTokens(l: Limits, b: Bucket)
    requires b.tokens <= l.burst as real
    ensures Tokens(l, b, b.last) == b.tokens
  {}

  // ----- when a bucket may be forgotten -------------------------------------------------------------

  /** A bucket that has been idle is as good as a fresh one, whatever it held. */
  ghost predicate IdleIsFresh(l: Limits) {
    forall b: Bucket, seen: real, now: real ::
      BucketSafe(l, b, seen) && IsIdle(Client(b, seen), now) ==> Tokens(l, b, now) == l.burst as real
  }

  lemma IdleBucketIsFull(l: Limits, b: Bucket, seen: real, now: real)
    requires 1 <= l.burst <= 10 * l.rpm && BucketSafe(l, b, seen) && now - seen > IDLE
    ensures Tokens(l, b, now) == l.burst as real
  {
    GainIdle(l, now - b.last);
    hide Gain;
  }

  lemma EmptyBucketIsNotFull(l: Limits)
    requires l.burst >= 1 && l.burst > 10 * l.rpm
    ensures !IdleIsFresh(l)
  {
    var d := if l.rpm > 0 then IDLE + 30.0 / l.rpm as real else IDLE + 1.0;
    var b := Bucket(0.0, 0.0);
    SmallGain(l);
    hide Gain;
    assert BucketSafe(l, b, 0.0) && IsIdle(Client(b, 0.0), d);
    assert Tokens(l, b, d) < l.burst as real;
  }

  lemma SmallGain(l: Limits)
    requires l.burst >= 1 && l.burst > 10 * l.rpm
    ensures l.rpm > 0 ==> 30.0 / l.rpm as real > 0.0 && Gain(l, IDLE + 30.0 / l.rpm as real - 0.0) < l.burst as real
    ensures l.rpm <= 0 ==> Gain(l, IDLE + 1.0 - 0.0) < l.burst as real
  {
    if l.rpm > 0 {
      var rpm := l.rpm as real;
      var e := 30.0 / rpm;
      assert rpm * e == 30.0;
      assert rpm * (IDLE + e) == 600.0 * rpm + rpm * e;
    }
  }

  /** Ten minutes refill any bucket exactly if the burst is at most ten minutes' worth of requests. A
      limiter for zero requests a minute, whose burst is 1 by default, is one where they do not. */
  lemma IdleIsFreshExactly(l: Limits)
    requires l.burst >= 1
    ensures IdleIsFresh(l) <==> l.burst <= 10 * l.rpm
  {
    if l.burst <= 10 * l.rpm {
      forall b: Bucket, seen: real, now: real | BucketSafe(l, b, seen) && IsIdle(Client(b, seen), now)
        ensures Tokens(l, b, now) == l.burst as real
      {
        IdleBucketIsFull(l, b, seen, now);
      }
    } else {
      EmptyBucketIsNotFull(l);
    }
  }

  /** The default burst of a limiter with a positive rate is small enough. */
  lemma DefaultBurstIsSmall(rpm: int)
    requires rpm > 0
    ensures var burst := if rpm / 4 > 1 then rpm / 4 else 1; 1 <= burst <= 10 * rpm
  {}

  // ----- runs ----------------------------------------------------------------------------------------

  predicate InOrder(qs: seq<Request>) {
    forall i, j :: 0 <= i < j < |qs| ==> qs[i].now <= qs[j].now
  }

  /** The clients after some requests, with or without eviction. */
  function After(l: Limits, qs: seq<Request>, evict: bool): Clients {
    if qs == [] then map[]
    else
      var q, before := qs[|qs| - 1], After(l, qs[..|qs| - 1], evict);
      if evict then Serve(l, before, q).0 else ServePlain(l, before, q).0
  }

  /** Whether the last of some requests is let through. */
  function Decision(l: Limits, qs: seq<Request>, evict: bool): bool
    requires qs != []
  {
    var q, before := qs[|qs| - 1], After(l, qs[..|qs| - 1], evict);
    if evict then Serve(l, before, q).1 else ServePlain(l, before, q).1
  }

  /** A client that is still there is the same with and without eviction; an evicted one has a full bucket. */
  predicate ClientAgrees(l: Limits, some: Clients, all: Clients, key: string, now: real) {
    && (key in some ==> key in all && some[key] == all[key])
    && (key in all ==> BucketSafe(l, all[key].bucket, all[key].lastSeen) && all[key].lastSeen <= now)
    && (key in all && key !in some ==> Tokens(l, all[key].bucket, now) == l.burst as real)
  }

  ghost predicate Agrees(l: Limits, some: Clients, all: Clients, now: real) {
    forall key :: ClientAgrees(l, some, all, key, now)
  }

  lemma ClientAgreesLater(l: Limits, some: Clients, all: Clients, key: string, now: real, later: real)
    requires l.burst >= 1 && now <= later && ClientAgrees(l, some, all, key, now)
    ensures ClientAgrees(l, some, all, key, later)
  {
    if key in all && key !in some {
      TokensLater(l, all[key].bucket, now, later);
      TokensSafe(l, all[key].bucket, later);
    }
    hide Tokens, Gain;
  }

  /** Serving the client itself, both ways. */
  lemma ServedAgrees(l: Limits, some: Clients, all: Clients, q: Request)
    requires 1 <= l.burst && ClientAgrees(l, some, all, q.key, q.now)
    ensures Allow(l, BucketOf(l, some, q.key, q.now), q.now) == Allow(l, BucketOf(l, all, q.key, q.now), q.now)
    ensures BucketSafe(l, Allow(l, BucketOf(l, all, q.key, q.now), q.now).0, q.now)
  {
    FullTokens(l, FreshBucket(l, q.now));
    AllowSafe(l, BucketOf(l, all, q.key, q.now), q.now);
    hide Tokens, Gain;
  }

  lemma ServeAgrees(l: Limits, some: Clients, all: Clients, q: Request, now: real)
    requires 1 <= l.burst <= 10 * l.rpm && now <= q.now && Agrees(l, some, all, now)
    ensures Agrees(l, Serve(l, some, q).0, ServePlain(l, all, q).0, q.now)
    ensures Serve(l, some, q).1 == ServePlain(l, all, q).1
  {
    ClientAgreesLater(l, some, all, q.key, now, q.now);
    ServedAgrees(l, some, all, q);
    hide Allow, Tokens, Gain;
    var after, afterAll := ServePlain(l, some, q).0, ServePlain(l, all, q).0;
    forall key
      ensures ClientAgrees(l, Kept(after, q.now), afterAll, key, q.now)
    {
      ClientAgreesLater(l, some, all, key, now, q.now);
      if key in after {
        assert after[key] == afterAll[key];
        if IsIdle(after[key], q.now) {
          IdleBucketIsFull(l, after[key].bucket, after[key].lastSeen, q.now);
        }
      }
    }
  }

  /** With a burst of at most ten minutes' worth of requests, evicting idle clients changes no decision. */
  lemma {:induction false} EvictionChangesNothing(l: Limits, qs: seq<Request>)
    requires 1 <= l.burst <= 10 * l.rpm && InOrder(qs) && qs != []
    ensures Decision(l, qs, true) == Decision(l, qs, false)
    ensures Agrees(l, After(l, qs, true), After(l, qs, false), qs[|qs| - 1].now)
  {
    hide ServePlain, Serve, Tokens, Gain, Kept;
    var before := qs[..|qs| - 1];
    if before == [] {
      NothingAgrees(l, qs[0].now);
      ServeAgrees(l, map[], map[], qs[0], qs[0].now);
    } else {
      EvictionChangesNothing(l, before);
      hide Agrees;
      ServeAgrees(l, After(l, before, true), After(l, before, false), qs[|qs| - 1], before[|before| - 1].now);
    }
  }

  lemma NothingAgrees(l: Limits, now: real)
    ensures Agrees(l, map[], map[], now)
  {}

  // ----- how many requests a window lets through --------------------------------------------------------

  /** How many requests of a client the middleware let through between two times. */
  function Admitted(l: Limits, qs: seq<Request>, evict: bool, key: string, from: real, until: real): nat {
    if qs == [] then 0
    else
      var q := qs[|qs| - 1];
      Admitted(l, qs[..|qs| - 1], evict, key, from, until) +
      if q.key == key && from <= q.now <= until && Decision(l, qs, evict) then 1 else 0
  }

  lemma {:induction false} SameAdmitted(l: Limits, qs: seq<Request>, key: string, from: real, until: real)
    requires 1 <= l.burst <= 10 * l.rpm && InOrder(qs)
    ensures Admitted(l, qs, true, key, from, until) == Admitted(l, qs, false, key, from, until)
  {
    hide Decision, Agrees;
    if qs != [] {
      SameAdmitted(l, qs[..|qs| - 1], key, from, until);
      EvictionChangesNothing(l, qs);
    }
  }

  /** What the client's bucket holds at a time, without eviction. */
  function Holds(l: Limits, clients: Clients, key: string, now: real): real {
    if key in clients then Tokens(l, clients[key].bucket, now) else l.burst as real
  }

  lemma {:induction false} PlainSafe(l: Limits, qs: seq<Request>, key: string)
    requires l.burst >= 1 && InOrder(qs) && key in After(l, qs, false)
    ensures qs != [] && BucketSafe(l, After(l, qs, false)[key].bucket, qs[|qs| - 1].now)
  {
    hide Tokens, Gain, Allow;
    var before, q := qs[..|qs| - 1], qs[|qs| - 1];
    if key in After(l, before, false) {
      PlainSafe(l, before, key);
    }
    if key == q.key {
      AllowSafe(l, BucketOf(l, After(l, before, false), key, q.now), q.now);
    }
  }

  /** Serving a request takes a token from its client's bucket if it is let through. */
  lemma ServeHolds(l: Limits, clients: Clients, q: Request, key: string)
    requires l.burst >= 1 && (key in clients ==> BucketSafe(l, clients[key].bucket, q.now))
    ensures var (after, allowed) := ServePlain(l, clients, q);
      Holds(l, after, key, q.now) == Holds(l, clients, key, q.now) - if key == q.key && allowed then 1.0 else 0.0
  {
    if key == q.key {
      AllowSafe(l, BucketOf(l, clients, key, q.now), q.now);
      FullTokens(l, FreshBucket(l, q.now));
    }
    hide Tokens, Gain, Allow;
  }

  lemma HoldsLater(l: Limits, clients: Clients, key: string, now: real, later: real)
    requires l.burst >= 1 && now <= later && (key in clients ==> BucketSafe(l, clients[key].bucket, now))
    ensures Holds(l, clients, key, later) <= Holds(l, clients, key, now) + Gain(l, later - now)
    ensures Holds(l, clients, key, later) <= l.burst as real
  {
    GainGrows(l, later - now);
    if key in clients {
      TokensLater(l, clients[key].bucket, now, later);
      TokensSafe(l, clients[key].bucket, later);
    }
    hide Tokens, Gain;
  }

  /** Requests let through since `from`, and tokens left, are paid for by the burst and the gain. */
  lemma {:induction false} AdmittedIsPaid(l: Limits, qs: seq<Request>, key: string, from: real, until: real)
    requires l.burst >= 1 && InOrder(qs) && qs != [] && from <= qs[|qs| - 1].now <= until
    ensures Admitted(l, qs, false, key, from, until) as real + Holds(l, After(l, qs, false), key, qs[|qs| - 1].now)
      <= l.burst as real + Gain(l, qs[|qs| - 1].now - from)
  {
    var before, q := qs[..|qs| - 1], qs[|qs| - 1];
    var clients := After(l, before, false);
    if key in clients {
      PlainSafe(l, before, key);
    }
    ServeHolds(l, clients, q, key);
    assert Holds(l, After(l, qs, false), key, q.now) ==
      Holds(l, clients, key, q.now) - if key == q.key && Decision(l, qs, false) then 1.0 else 0.0;
    GainGrows(l, q.now - from);
    if before != [] && from <= before[|before| - 1].now {
      var now := before[|before| - 1].now;
      AdmittedIsPaid(l, before, key, from, until);
      HoldsLater(l, clients, key, now, q.now);
      GainAdds(l, now - from, q.now - now);
      assert now - from + (q.now - now) == q.now - from;
    } else {
      NoneBefore(l, before, key, from, until);
      HoldsLater(l, clients, key, q.now, q.now);
    }
    hide Gain, Holds, Decision, After;
  }

  lemma {:induction false} NoneBefore(l: Limits, qs: seq<Request>, key: string, from: real, until: real)
    requires InOrder(qs) && (qs == [] || qs[|qs| - 1].now < from)
    ensures Admitted(l, qs, false, key, from, until) == 0
  {
    hide Decision;
    if qs != [] {
      NoneBefore(l, qs[..|qs| - 1], key, from, until);
    }
  }

  lemma {:induction false} PlainWindow(l: Limits, qs: seq<Request>, key: string, from: real, until: real)
    requires l.burst >= 1 && InOrder(qs) && from <= until
    ensures Admitted(l, qs, false, key, from, until) as real <= l.burst as real + Gain(l, until - from)
  {
    GainGrows(l, until - from);
    if qs != [] {
      var q := qs[|qs| - 1];
      if q.now > until {
        PlainWindow(l, qs[..|qs| - 1], key, from, until);
      } else if q.now < from {
        NoneBefore(l, qs, key, from, until);
      } else {
        AdmittedIsPaid(l, qs, key, from, until);
        if key in After(l, qs, false) {
          PlainSafe(l, qs, key);
          TokensSafe(l, After(l, qs, false)[key].bucket, q.now);
        }
        GainAdds(l, q.now - from, until - q.now);
        GainGrows(l, until - q.now);
        assert q.now - from + (until - q.now) == until - from;
      }
    }
    hide Gain, Tokens, After, Decision;
  }

  /** Any window of T seconds lets through at most burst + rate * T requests of a client, evictions or not. */
  lemma WindowBound(l: Limits, qs: seq<Request>, key: string, from: real, until: real)
    requires 1 <= l.burst <= 10 * l.rpm && InOrder(qs) && from <= until
    ensures Admitted(l, qs, true, key, from, until) as real <= l.burst as real + Gain(l, until - from)
  {
    SameAdmitted(l, qs, key, from, until);
    PlainWindow(l, qs, key, from, until);
    hide Admitted, Gain;
  }

  // ----- which requests are let through -------------------------------------------------------------------

  /** When requests of a client were let through. */
  function AdmittedAt(l: Limits, qs: seq<Request>, evict: bool, key: string): seq<real> {
    if qs == [] then []
    else
      var q := qs[|qs| - 1];
      AdmittedAt(l, qs[..|qs| - 1], evict, key) + if q.key == key && Decision(l, qs, evict) then [q.now] else []
  }

  /** A window that began at `since`, with `count` requests in it, has room for `n` more: it then holds no more
      than the burst and what the rate gives in that time. */
  predicate RoomSince(l: Limits, count: int, since: real, n: real, now: real) {
    count as real + n <= l.burst as real + if l.rpm > 0 then l.rpm as real * (now - since) / 60.0 else 0.0
  }

  /** That holds for the window from each of these times until now. */
  ghost predicate HasRoom(l: Limits, times: seq<real>, n: real, now: real) {
    forall i :: 0 <= i < |times| ==> RoomSince(l, |times| - i, times[i], n, now)
  }

  lemma RoomMoves(l: Limits, count: int, more: int, since: real, n: real, now: real, later: real)
    ensures RoomSince(l, count + more, since, n, later) <==>
      RoomSince(l, count, since, n + more as real - Gain(l, later - now), now)
  {
    GainAdds(l, later - now, now - since);
    assert later - now + (now - since) == later - since;
  }

  lemma RoomNext(l: Limits, times: seq<real>, t: real, n: real, now: real)
    ensures HasRoom(l, times + [t], n, now) <==>
      HasRoom(l, times, n + 1.0 - Gain(l, now - t), t) && n + 1.0 - Gain(l, now - t) <= l.burst as real
  {
    var all, count := times + [t], |times|;
    assert all[count] == t && forall i :: 0 <= i < count ==> all[i] == times[i];
    assert RoomSince(l, 1, t, n, now) <==> n + 1.0 - Gain(l, now - t) <= l.burst as real;
    forall i | 0 <= i < count
      ensures RoomSince(l, |all| - i, all[i], n, now) <==>
        RoomSince(l, count - i, times[i], n + 1.0 - Gain(l, now - t), t)
    {
      RoomMoves(l, count - i, 1, times[i], n, t, now);
    }
    hide Gain, RoomSince;
  }

  lemma RoomLater(l: Limits, times: seq<real>, n: real, now: real, later: real)
    ensures HasRoom(l, times, n, later) <==> HasRoom(l, times, n - Gain(l, later - now), now)
  {
    forall i | 0 <= i < |times|
      ensures RoomSince(l, |times| - i, times[i], n, later) <==>
        RoomSince(l, |times| - i, times[i], n - Gain(l, later - now), now)
    {
      RoomMoves(l, |times| - i, 0, times[i], n, now, later);
    }
    hide Gain, RoomSince;
  }

  lemma HoldsLaterExactly(l: Limits, clients: Clients, key: string, now: real, later: real)
    requires l.burst >= 1 && now <= later && (key in clients ==> BucketSafe(l, clients[key].bucket, now))
    ensures Holds(l, clients, key, later) == Min(l.burst as real, Holds(l, clients, key, now) + Gain(l, later - now))
  {
    GainGrows(l, later - now);
    if key in clients {
      var b := clients[key].bucket;
      GainAdds(l, now - b.last, later - now);
      assert now - b.last + (later - now) == later - b.last;
    }
    hide Gain;
  }

  /** A bucket holds `n` tokens exactly if there is room for `n` more requests. */
  lemma {:induction false} TokensExactly(l: Limits, qs: seq<Request>, key: string, n: real, now: real)
    requires l.burst >= 1 && InOrder(qs) && (qs != [] ==> qs[|qs| - 1].now <= now) && n <= l.burst as real
    ensures Holds(l, After(l, qs, false), key, now) >= n <==> HasRoom(l, AdmittedAt(l, qs, false, key), n, now)
  {
    if qs != [] {
      var before, q := qs[..|qs| - 1], qs[|qs| - 1];
      var gain := Gain(l, now - q.now);
      GainGrows(l, now - q.now);
      if key in After(l, before, false) {
        PlainSafe(l, before, key);
      }
      if key in After(l, qs, false) {
        PlainSafe(l, qs, key);
      }
      HoldsLaterExactly(l, After(l, qs, false), key, q.now, now);
      ServeHolds(l, After(l, before, false), q, key);
      var times := AdmittedAt(l, before, false, key);
      hide Holds, Gain, HasRoom, ServePlain;
      if q.key == key && Decision(l, qs, false) {
        RoomNext(l, times, q.now, n, now);
        if n + 1.0 - gain <= l.burst as real {
          TokensExactly(l, before, key, n + 1.0 - gain, q.now);
        } else {
          HoldsAtMost(l, before, key, q.now);
        }
      } else {
        RoomLater(l, times, n, q.now, now);
        TokensExactly(l, before, key, n - gain, q.now);
        assert times + [] == times;
      }
    }
  }

  lemma HoldsAtMost(l: Limits, qs: seq<Request>, key: string, now: real)
    ensures Holds(l, After(l, qs, false), key, now) <= l.burst as real
  {
    hide After, Gain;
  }

  /** Without eviction, a request is let through exactly if there is room for one more in every window that
      ends with it. */
  lemma PlainDecision(l: Limits, qs: seq<Request>)
    requires l.burst >= 1 && InOrder(qs) && qs != []
    ensures var q, before := qs[|qs| - 1], qs[..|qs| - 1];
      Decision(l, qs, false) <==> HasRoom(l, AdmittedAt(l, before, false, q.key), 1.0, q.now)
  {
    var q, before := qs[|qs| - 1], qs[..|qs| - 1];
    TokensExactly(l, before, q.key, 1.0, q.now);
    FullTokens(l, FreshBucket(l, q.now));
    hide Tokens, HasRoom;
  }

  lemma {:induction false} SameAdmittedAt(l: Limits, qs: seq<Request>, key: string)
    requires 1 <= l.burst <= 10 * l.rpm && InOrder(qs)
    ensures AdmittedAt(l, qs, true, key) == AdmittedAt(l, qs, false, key)
  {
    hide Decision, Agrees;
    if qs != [] {
      SameAdmittedAt(l, qs[..|qs| - 1], key);
      EvictionChangesNothing(l, qs);
    }
  }

  /** The limiter is exact: a request is refused only if letting it through would put more than the burst and the
      rate's share into some window. */
  lemma LetThroughExactly(l: Limits, qs: seq<Request>)
    requires 1 <= l.burst <= 10 * l.rpm && InOrder(qs) && qs != []
    ensures var q, before := qs[|qs| - 1], qs[..|qs| - 1];
      Decision(l, qs, true) <==> HasRoom(l, AdmittedAt(l, before, true, q.key), 1.0, q.now)
  {
    hide Decision, Agrees, HasRoom, AdmittedAt;
    EvictionChangesNothing(l, qs);
    SameAdmittedAt(l, qs[..|qs| - 1], qs[|qs| - 1].key);
    PlainDecision(l, qs);
  }

  // ----- with a larger burst, eviction is visible ---------------------------------------------------------

  /** Eviction changes no decision, in any run. */
  ghost predicate EvictionIsInvisible(l: Limits) {
    forall qs :: InOrder(qs) && qs != [] ==> Decision(l, qs, true) == Decision(l, qs, false)
  }

  lemma {:induction false} InvisibleSameAdmitted(l: Limits, qs: seq<Request>, key: string, from: real, until: real)
    requires EvictionIsInvisible(l) && InOrder(qs)
    ensures Admitted(l, qs, true, key, from, until) == Admitted(l, qs, false, key, from, until)
  {
    hide Decision;
    if qs != [] {
      InvisibleSameAdmitted(l, qs[..|qs| - 1], key, from, until);
    }
  }

  /** `n` requests of one client at once. */
  function Drain(key: string, n: nat, now: real): seq<Request> {
    seq(n, _ => Request(key, now))
  }

  /** One request of each of `n` other clients. */
  function Crowd(n: nat, now: real): seq<Request> {
    seq(n, i requires 0 <= i < n => Request(Decimal(i), now))
  }

  lemma AfterStep(l: Limits, qs: seq<Request>, q: Request)
    ensures After(l, qs + [q], true) == Serve(l, After(l, qs, true), q).0
    ensures Decision(l, qs + [q], true) == Serve(l, After(l, qs, true), q).1
  {
    assert (qs + [q])[..|qs|] == qs;
    hide Serve;
  }

  lemma AdmittedStep(l: Limits, qs: seq<Request>, q: Request, key: string, from: real, until: real)
    ensures Admitted(l, qs + [q], true, key, from, until) == Admitted(l, qs, true, key, from, until) +
      if q.key == key && from <= q.now <= until && Decision(l, qs + [q], true) then 1 else 0
  {
    assert (qs + [q])[..|qs|] == qs;
    hide Decision;
  }

  /** The client that is served is not evicted. */
  lemma ServedStays(l: Limits, clients: Clients, q: Request)
    ensures q.key in Serve(l, clients, q).0 && Serve(l, clients, q).0[q.key] == ServePlain(l, clients, q).0[q.key]
    ensures Serve(l, clients, q).0[q.key].lastSeen == q.now
  {
    hide Allow;
  }

  /** From a full bucket, a burst of requests is let through, and leaves an empty one. */
  lemma {:induction false} DrainAdmitted(l: Limits, qs: seq<Request>, key: string, n: nat, now: real, from: real)
    requires n <= l.burst && 1 <= l.burst && from <= now && Holds(l, After(l, qs, true), key, now) == l.burst as real
    requires var clients := After(l, qs, true); key in clients ==> BucketSafe(l, clients[key].bucket, now)
    ensures var clients := After(l, qs + Drain(key, n, now), true);
      && Holds(l, clients, key, now) == l.burst as real - n as real
      && (n > 0 ==> key in clients)
      && (key in clients ==> BucketSafe(l, clients[key].bucket, now))
      && Admitted(l, qs + Drain(key, n, now), true, key, from, now) == Admitted(l, qs, true, key, from, now) + n
  {
    hide *;
    DrainSnoc(key, 0, now);
    NoMore(qs);
    if n > 0 {
      DrainAdmitted(l, qs, key, n - 1, now, from);
      var before, q := qs + Drain(key, n - 1, now), Request(key, now);
      DrainSnoc(key, n - 1, now);
      OneMoreRequest(qs, Drain(key, n - 1, now), q);
      DrainStep(l, After(l, before, true), q);
      AfterStep(l, before, q);
      AdmittedStep(l, before, q, key, from, now);
    }
  }

  lemma NoMore(qs: seq<Request>)
    ensures qs + [] == qs
  {}

  lemma OneMoreRequest(qs: seq<Request>, more: seq<Request>, q: Request)
    ensures qs + (more + [q]) == (qs + more) + [q]
  {}

  lemma DrainStep(l: Limits, clients: Clients, q: Request)
    requires l.burst >= 1 && Holds(l, clients, q.key, q.now) >= 1.0
    requires q.key in clients ==> BucketSafe(l, clients[q.key].bucket, q.now)
    ensures Serve(l, clients, q).1
    ensures Holds(l, Serve(l, clients, q).0, q.key, q.now) == Holds(l, clients, q.key, q.now) - 1.0
    ensures q.key in Serve(l, clients, q).0 && BucketSafe(l, Serve(l, clients, q).0[q.key].bucket, q.now)
  {
    ServedStays(l, clients, q);
    ServeHolds(l, clients, q, q.key);
    AllowSafe(l, BucketOf(l, clients, q.key, q.now), q.now);
    FullTokens(l, FreshBucket(l, q.now));
    hide Tokens, Gain, Kept;
  }

  /** While nobody is idle, everybody stays. */
  ghost predicate AllSeenAt(clients: Clients, now: real) {
    forall key :: key in clients ==> clients[key].lastSeen == now
  }

  lemma NobodyLeaves(l: Limits, clients: Clients, q: Request)
    requires AllSeenAt(clients, q.now)
    ensures Serve(l, clients, q).0 == ServePlain(l, clients, q).0
    ensures Serve(l, clients, q).0.Keys == clients.Keys + {q.key} && AllSeenAt(Serve(l, clients, q).0, q.now)
  {
    hide Allow, BucketOf;
    var after := ServePlain(l, clients, q).0;
    assert AllSeenAt(after, q.now);
    assert Kept(after, q.now) == after;
  }

  lemma NobodyAtFirst(l: Limits, now: real)
    ensures After(l, [], true) == map[] && AllSeenAt(map[], now)
  {}

  lemma DrainSnoc(key: string, n: nat, now: real)
    ensures Drain(key, 0, now) == [] && Drain(key, n + 1, now) == Drain(key, n, now) + [Request(key, now)]
  {}

  lemma CrowdSnoc(qs: seq<Request>, n: nat, now: real)
    ensures qs + Crowd(0, now) == qs && qs + Crowd(n + 1, now) == qs + Crowd(n, now) + [Request(Decimal(n), now)]
  {
    hide Decimal;
  }

  lemma {:induction false} DrainKeys(l: Limits, key: string, n: nat, now: real)
    ensures After(l, Drain(key, n, now), true).Keys == if n == 0 then {} else {key}
    ensures AllSeenAt(After(l, Drain(key, n, now), true), now)
  {
    hide Serve, Drain, AllSeenAt, After;
    NobodyAtFirst(l, now);
    DrainSnoc(key, 0, now);
    if n > 0 {
      DrainKeys(l, key, n - 1, now);
      DrainSnoc(key, n - 1, now);
      AfterStep(l, Drain(key, n - 1, now), Request(key, now));
      NobodyLeaves(l, After(l, Drain(key, n - 1, now), true), Request(key, now));
    }
  }

  function CrowdKeys(n: nat): set<string> {
    if n == 0 then {} else CrowdKeys(n - 1) + {Decimal(n - 1)}
  }

  lemma {:induction false} CrowdKeysAre(n: nat, m: nat)
    requires n <= m
    ensures |CrowdKeys(n)| == n && Decimal(m) !in CrowdKeys(n) && "a" !in CrowdKeys(n)
  {
    if n > 0 {
      CrowdKeysAre(n - 1, m);
      CrowdKeysAre(n - 1, n - 1);
      if Decimal(m) == Decimal(n - 1) {
        DecimalInjective(m, n - 1);
      }
      NoDigit(n - 1);
    }
    hide Decimal;
  }

  lemma NoDigit(n: nat)
    ensures Decimal(n) != "a"
  {
    assert IsDigit(Decimal(n)[0]);
    hide Decimal;
  }

  lemma {:induction false} CrowdStays(l: Limits, qs: seq<Request>, n: nat, now: real, from: real, until: real)
    requires AllSeenAt(After(l, qs, true), now)
    ensures After(l, qs + Crowd(n, now), true).Keys == After(l, qs, true).Keys + CrowdKeys(n)
    ensures AllSeenAt(After(l, qs + Crowd(n, now), true), now)
    ensures Admitted(l, qs + Crowd(n, now), true, "a", from, until) == Admitted(l, qs, true, "a", from, until)
  {
    hide Serve, Crowd, AllSeenAt, Decimal, Decision, Admitted, After;
    CrowdSnoc(qs, 0, now);
    if n > 0 {
      CrowdStays(l, qs, n - 1, now, from, until);
      CrowdSnoc(qs, n - 1, now);
      var before, q := qs + Crowd(n - 1, now), Request(Decimal(n - 1), now);
      NoDigit(n - 1);
      AfterStep(l, before, q);
      AdmittedStep(l, before, q, "a", from, until);
      NobodyLeaves(l, After(l, before, true), q);
    }
  }

  /** One more client, after more than ten minutes: everybody else is evicted. */
  lemma EverybodyLeaves(l: Limits, clients: Clients, q: Request, seen: real)
    requires AllSeenAt(clients, seen) && q.now - seen > IDLE && |clients| > MANY && q.key != "a"
    ensures "a" !in Serve(l, clients, q).0
  {
    hide Allow, BucketOf;
    var after := ServePlain(l, clients, q).0;
    if q.key !in clients {
      assert clients.Keys <= after.Keys;
      KeysSize(clients, after);
    } else {
      assert after.Keys == clients.Keys;
      KeysSize(clients, after);
    }
  }

  lemma KeysSize(m: Clients, n: Clients)
    requires m.Keys <= n.Keys
    ensures |m| <= |n|
  {
    var rest := n.Keys - m.Keys;
    assert n.Keys == m.Keys + rest;
    assert |m| == |m.Keys| && |n| == |n.Keys|;
  }

  /** A run that is decided differently: a client uses its burst, ten thousand others come, and after ten
      minutes one more; then the first client uses its burst again. */
  function TellTale(l: Limits, t: real): seq<Request>
    requires l.burst >= 1
  {
    Drain("a", l.burst, 0.0) + Crowd(MANY, 0.0) + [Request("z", t)] + Drain("a", l.burst, t)
  }

  lemma TellTaleInOrder(l: Limits, t: real)
    requires l.burst >= 1 && t >= 0.0
    ensures InOrder(TellTale(l, t))
  {
    hide Decimal;
  }

  lemma TellTaleAdmitted(l: Limits, t: real)
    requires l.burst >= 1 && t > IDLE
    ensures Admitted(l, TellTale(l, t), true, "a", 0.0, t) == 2 * l.burst
  {
    var first := Drain("a", l.burst, 0.0);
    var crowded := first + Crowd(MANY, 0.0);
    var q := Request("z", t);
    FirstBurst(l, t);
    DrainKeys(l, "a", l.burst, 0.0);
    CrowdStays(l, first, MANY, 0.0, 0.0, t);
    CrowdKeysAre(MANY, MANY);
    CrowdIsMany(l, crowded);
    AfterStep(l, crowded, q);
    EverybodyLeaves(l, After(l, crowded, true), q, 0.0);
    AdmittedStep(l, crowded, q, "a", 0.0, t);
    DrainAdmitted(l, crowded + [q], "a", l.burst, t, 0.0);
    hide Drain, Crowd, After, Decision, Serve, Admitted, AllSeenAt, CrowdKeys;
  }

  lemma CrowdIsMany(l: Limits, crowded: seq<Request>)
    requires After(l, crowded, true).Keys == {"a"} + CrowdKeys(MANY) && |CrowdKeys(MANY)| == MANY
    requires "a" !in CrowdKeys(MANY)
    ensures |After(l, crowded, true)| > MANY
  {
    hide After, CrowdKeys;
    var clients := After(l, crowded, true);
    assert |clients| == |clients.Keys|;
  }

  lemma FirstBurst(l: Limits, t: real)
    requires l.burst >= 1 && t >= 0.0
    ensures Admitted(l, Drain("a", l.burst, 0.0), true, "a", 0.0, t) == l.burst
  {
    hide Admitted, Holds, After, BucketSafe;
    NobodyAtFirst(l, 0.0);
    NothingUsed(l, "a", 0.0);
    DrainAdmitted(l, [], "a", l.burst, 0.0, 0.0);
    assert [] + Drain("a", l.burst, 0.0) == Drain("a", l.burst, 0.0);
    LaterEnd(l, Drain("a", l.burst, 0.0), 0.0, t);
  }

  lemma NothingUsed(l: Limits, key: string, now: real)
    ensures Holds(l, map[], key, now) == l.burst as real && Admitted(l, [], true, key, now, now) == 0
  {}

  lemma {:induction false} LaterEnd(l: Limits, qs: seq<Request>, now: real, until: real)
    requires now <= until && forall i :: 0 <= i < |qs| ==> qs[i].now == now
    ensures Admitted(l, qs, true, "a", now, until) == Admitted(l, qs, true, "a", now, now)
  {
    hide Decision;
    if qs != [] {
      LaterEnd(l, qs[..|qs| - 1], now, until);
    }
  }

  lemma LargeBurstIsVisible(l: Limits)
    requires l.burst >= 1 && l.burst > 10 * l.rpm
    ensures !EvictionIsInvisible(l)
  {
    var d := if l.rpm > 0 then IDLE + 30.0 / l.rpm as real else IDLE + 1.0;
    SmallGain(l);
    TellTaleInOrder(l, d);
    TellTaleAdmitted(l, d);
    PlainWindow(l, TellTale(l, d), "a", 0.0, d);
    hide Gain, Admitted, TellTale, EvictionIsInvisible;
    if EvictionIsInvisible(l) {
      InvisibleSameAdmitted(l, TellTale(l, d), "a", 0.0, d);
    }
  }

  /** Evicting idle clients changes no decision in any run, exactly if the burst is at most ten minutes'
      worth of requests. */
  lemma EvictionIsInvisibleExactly(l: Limits)
    requires l.burst >= 1
    ensures EvictionIsInvisible(l) <==> l.burst <= 10 * l.rpm
  {
    hide EvictionIsInvisible;
    if l.burst <= 10 * l.rpm {
      SmallBurstIsInvisible(l);
    } else {
      LargeBurstIsVisible(l);
    }
  }

  lemma SmallBurstIsInvisible(l: Limits)
    requires 1 <= l.burst <= 10 * l.rpm
    ensures EvictionIsInvisible(l)
  {
    hide Decision, Agrees, InOrder;
    forall qs | InOrder(qs) && qs != []
      ensures Decision(l, qs, true) == Decision(l, qs, false)
    {
      EvictionChangesNothing(l, qs);
    }
  }
}
