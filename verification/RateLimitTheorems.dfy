/** What the rate limiter promises over whole runs.  A run is any sequence of
    requests from any clients with a clock that does not go backwards. */
module RateLimitTheorems {
  import opened TokenBucket

  datatype Request = Request(key: string, now: nat)

  ghost predicate Ordered(reqs: seq<Request>) {
    forall i, j :: 0 <= i < j < |reqs| ==> reqs[i].now <= reqs[j].now
  }

  function Init<T>(s: seq<T>): seq<T>
    requires s != []
  {
    s[..|s| - 1]
  }

  function Last<T>(s: seq<T>): T
    requires s != []
  {
    s[|s| - 1]
  }

  function EndTime(reqs: seq<Request>): nat {
    if reqs == [] then 0 else Last(reqs).now
  }

  // The store after a run that started empty.
  function Run(cfg: Config, reqs: seq<Request>): Store
    requires cfg.rps >= 1
  {
    if reqs == [] then Store(map[], 0)
    else Allow(cfg, Run(cfg, Init(reqs)), Last(reqs).key, Last(reqs).now).0
  }

  // The answer to the run's last request.
  function LastAnswer(cfg: Config, reqs: seq<Request>): Answer
    requires cfg.rps >= 1 && reqs != []
  {
    Allow(cfg, Run(cfg, Init(reqs)), Last(reqs).key, Last(reqs).now).1
  }

  // --- the reference: one bucket per client that is never evicted ----------

  function Only(reqs: seq<Request>, key: string): seq<nat> {
    if reqs == [] then []
    else if Last(reqs).key == key then Only(Init(reqs), key) + [Last(reqs).now]
    else Only(Init(reqs), key)
  }

  function Solo(cfg: Config, times: seq<nat>): Limiter
    requires cfg.rps >= 1
  {
    if times == [] then Full(cfg) else TakeToken(cfg, Solo(cfg, Init(times)), Last(times)).0
  }

  function SoloAnswer(cfg: Config, times: seq<nat>): Answer
    requires cfg.rps >= 1 && times != []
  {
    TakeToken(cfg, Solo(cfg, Init(times)), Last(times)).1
  }

  // --- eviction is invisible exactly when the TTL refills a bucket ---------

  // The store answers `key` like `solo` does: either it holds that very bucket,
  // or it holds none and `solo` has filled up by now.
  ghost predicate Synced(cfg: Config, s: Store, solo: Limiter, key: string, now: nat) {
    && 0 <= solo.tokens <= cfg.Capacity()
    && solo.last <= now
    && (key in s.buckets ==> s.buckets[key] == Entry(solo, solo.last))
    && (key !in s.buckets ==> Refill(cfg, solo, now) == cfg.Capacity())
  }

  lemma ProductGrows(x: nat, a: nat, b: nat)
    requires a <= b
    ensures x * a <= x * b
  {
  }

  lemma FullStaysFull(cfg: Config, l: Limiter, t: nat, t': nat)
    requires l.last <= t <= t' && Refill(cfg, l, t) == cfg.Capacity()
    ensures Refill(cfg, l, t') == cfg.Capacity()
  {
    ProductGrows(cfg.rps, t - l.last, t' - l.last);
  }

  lemma IdleRefills(cfg: Config, l: Limiter, now: nat)
    requires cfg.Refills() && l.tokens >= 0 && l.last <= now && Idle(cfg, l.last, now)
    ensures Refill(cfg, l, now) == cfg.Capacity()
  {
    ProductGrows(cfg.rps, cfg.ttl + 1, now - l.last);
  }

  lemma OrderedInit(reqs: seq<Request>)
    requires reqs != [] && Ordered(reqs)
    ensures Ordered(Init(reqs)) && EndTime(Init(reqs)) <= Last(reqs).now
  {
  }

  // The bucket the store uses holds as many tokens as the client's own one.
  lemma SameAnswer(cfg: Config, s: Store, solo: Limiter, key: string, t: nat, now: nat)
    requires cfg.Enabled() && Synced(cfg, s, solo, key, t) && t <= now
    ensures Allow(cfg, s, key, now).1 == TakeToken(cfg, solo, now).1
    ensures Synced(cfg, Allow(cfg, s, key, now).0, TakeToken(cfg, solo, now).0, key, now)
  {
    if key !in s.buckets {
      FullStaysFull(cfg, solo, t, now);
    }
    ProductGrows(cfg.rps, 0, Elapsed(solo, now));
    assert Refill(cfg, LimiterOf(cfg, s, key), now) == Refill(cfg, solo, now);
  }

  lemma OthersKeepSync(cfg: Config, s: Store, solo: Limiter, key: string, other: string, t: nat, now: nat)
    requires cfg.Enabled() && cfg.Refills() && Synced(cfg, s, solo, key, t) && t <= now && other != key
    ensures Synced(cfg, Allow(cfg, s, other, now).0, solo, key, now)
  {
    if key !in s.buckets {
      FullStaysFull(cfg, solo, t, now);
    } else if Idle(cfg, solo.last, now) {
      IdleRefills(cfg, solo, now);
    }
  }

  lemma {:induction false} StoreTracksSolo(cfg: Config, reqs: seq<Request>, key: string)
    requires cfg.Enabled() && cfg.Refills() && Ordered(reqs)
    ensures Synced(cfg, Run(cfg, reqs), Solo(cfg, Only(reqs, key)), key, EndTime(reqs))
  {
    if reqs == [] {
    } else {
      var s, solo := Run(cfg, Init(reqs)), Solo(cfg, Only(Init(reqs), key));
      OrderedInit(reqs);
      StoreTracksSolo(cfg, Init(reqs), key);
      if Last(reqs).key == key {
        assert Init(Only(reqs, key)) == Only(Init(reqs), key);
        SameAnswer(cfg, s, solo, key, EndTime(Init(reqs)), Last(reqs).now);
      } else {
        OthersKeepSync(cfg, s, solo, key, Last(reqs).key, EndTime(Init(reqs)), Last(reqs).now);
      }
    }
  }

  /** A refilling TTL makes eviction invisible: every request of every run is
      answered as by a bucket of the client's own that is never evicted. */
  lemma EvictionInvisible(cfg: Config, reqs: seq<Request>)
    requires cfg.Enabled() && cfg.Refills() && Ordered(reqs) && reqs != []
    ensures LastAnswer(cfg, reqs) == SoloAnswer(cfg, Only(reqs, Last(reqs).key))
  {
    var key := Last(reqs).key;
    var s, solo := Run(cfg, Init(reqs)), Solo(cfg, Only(Init(reqs), key));
    OrderedInit(reqs);
    StoreTracksSolo(cfg, Init(reqs), key);
    SameAnswer(cfg, s, solo, key, EndTime(Init(reqs)), Last(reqs).now);
    assert Init(Only(reqs, key)) == Only(Init(reqs), key);
  }

  // --- the admission rate --------------------------------------------------

  // How many of the client's requests in the window [t1, t2] got a token.
  function AdmittedIn(cfg: Config, reqs: seq<Request>, key: string, t1: nat, t2: nat): nat
    requires cfg.rps >= 1
  {
    if reqs == [] then 0
    else
      AdmittedIn(cfg, Init(reqs), key, t1, t2)
      + (if Last(reqs).key == key && t1 <= Last(reqs).now <= t2 && LastAnswer(cfg, reqs).ok then 1 else 0)
  }

  ghost predicate WithinRate(cfg: Config, reqs: seq<Request>, key: string, t1: nat, t2: nat)
    requires cfg.rps >= 1 && t1 <= t2
  {
    AdmittedIn(cfg, reqs, key, t1, t2) * SECOND <= cfg.Capacity() + cfg.rps * (t2 - t1)
  }

  // Every token spent since t1 was in the bucket at t1 or came in since.
  ghost predicate Accounted(cfg: Config, l: Limiter, spent: int, t1: nat, t2: nat) {
    && (l.last < t1 ==> spent == 0)
    && (t1 <= l.last <= t2 ==> spent + l.tokens <= cfg.Capacity() + cfg.rps * (l.last - t1))
    && (t1 <= t2 < l.last ==> spent <= cfg.Capacity() + cfg.rps * (t2 - t1))
  }

  lemma AccountedIsBounded(cfg: Config, l: Limiter, spent: int, t1: nat, t2: nat)
    requires t1 <= t2 && l.tokens >= 0 && Accounted(cfg, l, spent, t1, t2)
    ensures spent <= cfg.Capacity() + cfg.rps * (t2 - t1)
  {
    ProductGrows(cfg.rps, 0, t2 - t1);
    if t1 <= l.last <= t2 {
      ProductGrows(cfg.rps, l.last - t1, t2 - t1);
    }
  }

  lemma TakeIsAccounted(cfg: Config, l: Limiter, now: nat, spent: int, t1: nat, t2: nat)
    requires cfg.rps >= 1 && l.last <= now && t1 <= t2 && 0 <= l.tokens <= cfg.Capacity()
    requires Accounted(cfg, l, spent, t1, t2)
    ensures var (left, answer) := TakeToken(cfg, l, now);
            Accounted(cfg, left, spent + if t1 <= now <= t2 && answer.ok then SECOND else 0, t1, t2)
  {
    if t2 < now {
      AccountedIsBounded(cfg, l, spent, t1, t2);
    } else if t1 <= now {
      ProductGrows(cfg.rps, 0, now - t1);
      if t1 <= l.last {
        assert cfg.rps * (now - l.last) + cfg.rps * (l.last - t1) == cfg.rps * (now - t1);
      }
    }
  }

  lemma {:induction false} SpendingIsAccounted(cfg: Config, reqs: seq<Request>, key: string, t1: nat, t2: nat)
    requires cfg.Enabled() && cfg.Refills() && Ordered(reqs) && t1 <= t2
    ensures Accounted(cfg, Solo(cfg, Only(reqs, key)), AdmittedIn(cfg, reqs, key, t1, t2) * SECOND, t1, t2)
  {
    if reqs == [] {
    } else {
      OrderedInit(reqs);
      SpendingIsAccounted(cfg, Init(reqs), key, t1, t2);
      if Last(reqs).key == key {
        var spent := AdmittedIn(cfg, Init(reqs), key, t1, t2) * SECOND;
        StoreTracksSolo(cfg, Init(reqs), key);
        EvictionInvisible(cfg, reqs);
        assert Init(Only(reqs, key)) == Only(Init(reqs), key);
        TakeIsAccounted(cfg, Solo(cfg, Only(Init(reqs), key)), Last(reqs).now, spent, t1, t2);
      }
    }
  }

  /** Over any window a client is admitted at most burst + rps * seconds times. */
  lemma AdmissionRate(cfg: Config, reqs: seq<Request>, key: string, t1: nat, t2: nat)
    requires cfg.Enabled() && cfg.Refills() && Ordered(reqs) && t1 <= t2
    ensures WithinRate(cfg, reqs, key, t1, t2)
  {
    var solo := Solo(cfg, Only(reqs, key));
    SpendingIsAccounted(cfg, reqs, key, t1, t2);
    StoreTracksSolo(cfg, reqs, key);
    AccountedIsBounded(cfg, solo, AdmittedIn(cfg, reqs, key, t1, t2) * SECOND, t1, t2);
  }

  // --- the failing run, for every configuration that does not refill -------

  function Client(i: nat): string {
    seq(i, _ => 'c')
  }

  function Repeat(r: Request, n: nat): seq<Request> {
    if n == 0 then [] else Repeat(r, n - 1) + [r]
  }

  // Clients 1 to n, one request each, at time zero.
  function Crowd(n: nat): seq<Request> {
    if n == 0 then [] else Crowd(n - 1) + [Request(Client(n), 0)]
  }

  // Client "" spends its burst, 62 others arrive, and one nanosecond after the
  // TTL a 64th client triggers the sweep.
  function UntilSweep(cfg: Config): seq<Request> {
    Repeat(Request("", 0), cfg.burst) + Crowd(62) + [Request(Client(63), cfg.ttl + 1)]
  }

  // Then client "" comes back for another n requests.
  function Comeback(cfg: Config, n: nat): seq<Request> {
    UntilSweep(cfg) + Repeat(Request("", cfg.ttl + 1), n)
  }

  // A store in which r's client has just been admitted n times at one moment.
  ghost predicate Spent(cfg: Config, s: Store, r: Request, n: nat) {
    r.key in s.buckets && s.buckets[r.key] == Entry(Limiter(cfg.Capacity() - n * SECOND, r.now), r.now)
  }

  lemma SpendFirst(cfg: Config, s: Store, r: Request)
    requires cfg.Enabled() && r.key !in s.buckets
    ensures var (s', answer) := Allow(cfg, s, r.key, r.now);
            && answer.ok && Spent(cfg, s', r, 1) && s'.inserts == s.inserts + 1
            && s'.buckets.Keys <= s.buckets.Keys + {r.key}
  {
    ProductGrows(cfg.rps, 0, r.now);
  }

  lemma SpendNext(cfg: Config, s: Store, r: Request, n: nat)
    requires cfg.Enabled() && n < cfg.burst && Spent(cfg, s, r, n)
    ensures var (s', answer) := Allow(cfg, s, r.key, r.now);
            && answer.ok && Spent(cfg, s', r, n + 1) && s'.inserts == s.inserts
            && s'.buckets.Keys == s.buckets.Keys
  {
    assert (cfg.burst - n) * SECOND == cfg.Capacity() - n * SECOND;
    assert (n + 1) * SECOND == n * SECOND + SECOND;
  }

  // A new client's n requests at one moment, all admitted.
  ghost predicate Bursts(cfg: Config, before: seq<Request>, r: Request, n: nat, t1: nat, t2: nat)
    requires cfg.Enabled() && n > 0
  {
    var reqs := before + Repeat(r, n);
    && AdmittedIn(cfg, reqs, r.key, t1, t2) == AdmittedIn(cfg, before, r.key, t1, t2) + n
    && LastAnswer(cfg, reqs).ok
    && Spent(cfg, Run(cfg, reqs), r, n)
    && Run(cfg, reqs).inserts == Run(cfg, before).inserts + 1
    && Run(cfg, reqs).buckets.Keys <= Run(cfg, before).buckets.Keys + {r.key}
  }

  lemma RepeatAppends(before: seq<Request>, r: Request, n: nat)
    requires n > 0
    ensures var reqs := before + Repeat(r, n);
            reqs != [] && Init(reqs) == before + Repeat(r, n - 1) && Last(reqs) == r
  {
  }

  lemma BurstBegins(cfg: Config, before: seq<Request>, r: Request, t1: nat, t2: nat)
    requires cfg.Enabled() && r.key !in Run(cfg, before).buckets && t1 <= r.now <= t2
    ensures Bursts(cfg, before, r, 1, t1, t2)
  {
    RepeatAppends(before, r, 1);
    assert before + Repeat(r, 0) == before;
    SpendFirst(cfg, Run(cfg, before), r);
  }

  lemma BurstGoesOn(cfg: Config, before: seq<Request>, r: Request, n: nat, t1: nat, t2: nat)
    requires cfg.Enabled() && 1 < n <= cfg.burst && t1 <= r.now <= t2 && Bursts(cfg, before, r, n - 1, t1, t2)
    ensures Bursts(cfg, before, r, n, t1, t2)
  {
    RepeatAppends(before, r, n);
    SpendNext(cfg, Run(cfg, before + Repeat(r, n - 1)), r, n - 1);
  }

  lemma {:induction false} FreshBurst(cfg: Config, before: seq<Request>, r: Request, n: nat, t1: nat, t2: nat)
    requires cfg.Enabled() && r.key !in Run(cfg, before).buckets && 0 < n <= cfg.burst && t1 <= r.now <= t2
    ensures Bursts(cfg, before, r, n, t1, t2)
    decreases n
  {
    if n == 1 {
      BurstBegins(cfg, before, r, t1, t2);
    } else {
      FreshBurst(cfg, before, r, n - 1, t1, t2);
      BurstGoesOn(cfg, before, r, n, t1, t2);
    }
  }

  // While the crowd arrives every bucket was last seen at time zero, and only
  // clients up to n are known.
  ghost predicate Crowded(s: Store, n: nat) {
    && s.inserts == n + 1
    && (forall k :: k in s.buckets ==> s.buckets[k].lastSeen == 0 && |k| <= n)
  }

  lemma OneMoreArrives(cfg: Config, s: Store, n: nat)
    requires cfg.rps >= 1 && 0 < n <= 62 && Crowded(s, n - 1)
    ensures Crowded(Allow(cfg, s, Client(n), 0).0, n)
  {
    assert |Client(n)| == n;
    assert !Sweeps(s, Client(n));
  }

  // After the burst and n more clients.
  ghost predicate Arrived(cfg: Config, n: nat, t2: nat)
    requires cfg.Enabled() && n <= 62
  {
    var reqs := Repeat(Request("", 0), cfg.burst) + Crowd(n);
    Crowded(Run(cfg, reqs), n) && AdmittedIn(cfg, reqs, "", 0, t2) == cfg.burst
  }

  lemma NobodyElseYet(cfg: Config, t2: nat)
    requires cfg.Enabled()
    ensures Arrived(cfg, 0, t2)
  {
    var r := Request("", 0);
    assert Repeat(r, cfg.burst) + Crowd(0) == [] + Repeat(r, cfg.burst);
    FreshBurst(cfg, [], r, cfg.burst, 0, t2);
  }

  lemma NextArrives(cfg: Config, n: nat, t2: nat)
    requires cfg.Enabled() && 0 < n <= 62 && Arrived(cfg, n - 1, t2)
    ensures Arrived(cfg, n, t2)
  {
    var burst := Repeat(Request("", 0), cfg.burst);
    var reqs := burst + Crowd(n);
    assert Init(reqs) == burst + Crowd(n - 1) && Last(reqs) == Request(Client(n), 0);
    assert |Client(n)| == n && Client(n) != "";
    OneMoreArrives(cfg, Run(cfg, Init(reqs)), n);
  }

  lemma {:induction false} CrowdArrives(cfg: Config, n: nat, t2: nat)
    requires cfg.Enabled() && n <= 62
    ensures Arrived(cfg, n, t2)
    decreases n
  {
    if n == 0 {
      NobodyElseYet(cfg, t2);
    } else {
      CrowdArrives(cfg, n - 1, t2);
      NextArrives(cfg, n, t2);
    }
  }

  lemma SweptAway(cfg: Config)
    requires cfg.Enabled()
    ensures var s := Run(cfg, UntilSweep(cfg));
            "" !in s.buckets && AdmittedIn(cfg, UntilSweep(cfg), "", 0, cfg.ttl + 1) == cfg.burst
  {
    var reqs := UntilSweep(cfg);
    assert Init(reqs) == Repeat(Request("", 0), cfg.burst) + Crowd(62);
    assert Last(reqs) == Request(Client(63), cfg.ttl + 1);
    CrowdArrives(cfg, 62, cfg.ttl + 1);
    assert Sweeps(Run(cfg, Init(reqs)), Client(63));
  }

  // Client ""'s own times in the failing run.
  function Times(t: nat, n: nat): seq<nat> {
    if n == 0 then [] else Times(t, n - 1) + [t]
  }

  lemma {:induction false} OnlyAppends(a: seq<Request>, b: seq<Request>, key: string)
    ensures Only(a + b, key) == Only(a, key) + Only(b, key)
  {
    if b == [] {
      assert a + b == a;
    } else {
      assert Init(a + b) == a + Init(b) && Last(a + b) == Last(b);
      OnlyAppends(a, Init(b), key);
    }
  }

  lemma {:induction false} OnlyRepeats(key: string, t: nat, n: nat)
    ensures Only(Repeat(Request(key, t), n), key) == Times(t, n)
  {
    if n == 0 {
    } else {
      OnlyRepeats(key, t, n - 1);
      assert Init(Repeat(Request(key, t), n)) == Repeat(Request(key, t), n - 1);
    }
  }

  lemma {:induction false} OnlyCrowd(n: nat)
    ensures Only(Crowd(n), "") == []
  {
    if n == 0 {
    } else {
      OnlyCrowd(n - 1);
      assert Init(Crowd(n)) == Crowd(n - 1);
    }
  }

  lemma OwnTimesUntilSweep(cfg: Config)
    ensures Only(UntilSweep(cfg), "") == Times(0, cfg.burst)
  {
    var early, last := Repeat(Request("", 0), cfg.burst), Request(Client(63), cfg.ttl + 1);
    OnlyRepeats("", 0, cfg.burst);
    OnlyCrowd(62);
    OnlyAppends(early, Crowd(62), "");
    assert Init(UntilSweep(cfg)) == early + Crowd(62) && Last(UntilSweep(cfg)) == last;
    assert Client(63) != "";
  }

  lemma OwnTimes(cfg: Config, n: nat)
    ensures Only(Comeback(cfg, n), "") == Times(0, cfg.burst) + Times(cfg.ttl + 1, n)
  {
    OwnTimesUntilSweep(cfg);
    OnlyRepeats("", cfg.ttl + 1, n);
    OnlyAppends(UntilSweep(cfg), Repeat(Request("", cfg.ttl + 1), n), "");
  }

  // n requests at one moment leave a bucket that held `tokens` with either n
  // tokens less or less than a whole one.
  ghost predicate Drained(cfg: Config, l: Limiter, t: nat, tokens: int, n: nat) {
    && l.last == t && 0 <= l.tokens <= cfg.Capacity()
    && (l.tokens < SECOND || l.tokens == tokens - n * SECOND)
    && (tokens >= n * SECOND ==> l.tokens == tokens - n * SECOND)
  }

  lemma DrainOne(cfg: Config, l: Limiter, t: nat, tokens: int, n: nat)
    requires cfg.Enabled() && Drained(cfg, l, t, tokens, n)
    ensures Drained(cfg, TakeToken(cfg, l, t).0, t, tokens, n + 1)
  {
    assert (n + 1) * SECOND == n * SECOND + SECOND;
  }

  lemma {:induction false} Drain(cfg: Config, before: seq<nat>, t: nat, n: nat)
    requires cfg.Enabled() && n > 0 && Refill(cfg, Solo(cfg, before), t) >= 0
    ensures Drained(cfg, Solo(cfg, before + Times(t, n)), t, Refill(cfg, Solo(cfg, before), t), n)
  {
    var times, tokens := before + Times(t, n), Refill(cfg, Solo(cfg, before), t);
    assert Init(times) == before + Times(t, n - 1) && Last(times) == t;
    if n == 1 {
      assert Init(times) == before;
    } else {
      Drain(cfg, before, t, n - 1);
      DrainOne(cfg, Solo(cfg, Init(times)), t, tokens, n - 1);
    }
  }

  lemma SoloEmpties(cfg: Config)
    requires cfg.Enabled()
    ensures Solo(cfg, Times(0, cfg.burst)) == Limiter(0, 0)
  {
    assert [] + Times(0, cfg.burst) == Times(0, cfg.burst);
    Drain(cfg, [], 0, cfg.burst);
  }

  // The client's own bucket is empty after the first burst, and one TTL later
  // it is still a token short of a second one.
  lemma SoloRefuses(cfg: Config)
    requires cfg.Enabled() && !cfg.Refills()
    ensures !SoloAnswer(cfg, Times(0, cfg.burst) + Times(cfg.ttl + 1, cfg.burst)).ok
  {
    var early, t, n := Times(0, cfg.burst), cfg.ttl + 1, cfg.burst;
    SoloEmpties(cfg);
    ProductGrows(cfg.rps, 0, t);
    var times := early + Times(t, n);
    assert Init(times) == early + Times(t, n - 1) && Last(times) == t;
    if n == 1 {
      assert Init(times) == early;
    } else {
      Drain(cfg, early, t, n - 1);
      assert (n - 1) * SECOND == n * SECOND - SECOND;
    }
  }

  ghost predicate Between(lo: nat, reqs: seq<Request>, hi: nat) {
    forall r :: r in reqs ==> lo <= r.now <= hi
  }

  lemma OrderedConcat(a: seq<Request>, b: seq<Request>, lo: nat, mid: nat, hi: nat)
    requires Ordered(a) && Ordered(b) && lo <= mid <= hi && Between(lo, a, mid) && Between(mid, b, hi)
    ensures Ordered(a + b) && Between(lo, a + b, hi)
  {
  }

  lemma {:induction false} RepeatIsOrdered(r: Request, n: nat)
    ensures Ordered(Repeat(r, n)) && Between(r.now, Repeat(r, n), r.now)
  {
    if n == 0 {
    } else {
      RepeatIsOrdered(r, n - 1);
      OrderedConcat(Repeat(r, n - 1), [r], r.now, r.now, r.now);
    }
  }

  lemma {:induction false} CrowdIsOrdered(n: nat)
    ensures Ordered(Crowd(n)) && Between(0, Crowd(n), 0)
  {
    if n == 0 {
    } else {
      CrowdIsOrdered(n - 1);
      OrderedConcat(Crowd(n - 1), [Request(Client(n), 0)], 0, 0, 0);
    }
  }

  lemma ComebackIsOrdered(cfg: Config, n: nat)
    ensures Ordered(Comeback(cfg, n))
  {
    var early, t := Repeat(Request("", 0), cfg.burst), cfg.ttl + 1;
    RepeatIsOrdered(Request("", 0), cfg.burst);
    CrowdIsOrdered(62);
    OrderedConcat(early, Crowd(62), 0, 0, 0);
    OrderedConcat(early + Crowd(62), [Request(Client(63), t)], 0, 0, t);
    RepeatIsOrdered(Request("", t), n);
    OrderedConcat(UntilSweep(cfg), Repeat(Request("", t), n), 0, t, t);
  }

  /** Without a refilling TTL there is a run whose last request is admitted by
      the evicting store and refused by the client's own bucket, and in which
      the client gets more than its rate. */
  lemma EvictionVisible(cfg: Config) returns (reqs: seq<Request>)
    requires cfg.Enabled() && !cfg.Refills()
    ensures reqs != [] && Ordered(reqs)
    ensures LastAnswer(cfg, reqs).ok && !SoloAnswer(cfg, Only(reqs, Last(reqs).key)).ok
    ensures !WithinRate(cfg, reqs, Last(reqs).key, 0, cfg.ttl + 1)
  {
    var r := Request("", cfg.ttl + 1);
    reqs := Comeback(cfg, cfg.burst);
    ComebackIsOrdered(cfg, cfg.burst);
    SweptAway(cfg);
    FreshBurst(cfg, UntilSweep(cfg), r, cfg.burst, 0, cfg.ttl + 1);
    OwnTimes(cfg, cfg.burst);
    SoloRefuses(cfg);
    assert Last(reqs) == r;
    assert (cfg.burst + cfg.burst) * SECOND == cfg.Capacity() + cfg.Capacity();
  }

  /** The comment on the sweep, made exact: evicting buckets changes no answer
      of any run if and only if the TTL refills an empty bucket. */
  lemma EvictionInvisibleIff(cfg: Config)
    requires cfg.Enabled()
    ensures cfg.Refills() <==>
            forall reqs: seq<Request> :: Ordered(reqs) && reqs != [] ==>
              LastAnswer(cfg, reqs) == SoloAnswer(cfg, Only(reqs, Last(reqs).key))
  {
    if cfg.Refills() {
      forall reqs: seq<Request> | Ordered(reqs) && reqs != []
        ensures LastAnswer(cfg, reqs) == SoloAnswer(cfg, Only(reqs, Last(reqs).key))
      {
        EvictionInvisible(cfg, reqs);
      }
    } else {
      var reqs := EvictionVisible(cfg);
    }
  }

  /** The limiter limits, over every window of every run, under the same condition. */
  lemma AdmissionRateIff(cfg: Config)
    requires cfg.Enabled()
    ensures cfg.Refills() <==>
            forall reqs, key, t1, t2 :: Ordered(reqs) && t1 <= t2 ==> WithinRate(cfg, reqs, key, t1, t2)
  {
    if cfg.Refills() {
      forall reqs, key, t1: nat, t2: nat | Ordered(reqs) && t1 <= t2
        ensures WithinRate(cfg, reqs, key, t1, t2)
      {
        AdmissionRate(cfg, reqs, key, t1, t2);
      }
    } else {
      var reqs := EvictionVisible(cfg);
    }
  }

  // --- how large the map gets ----------------------------------------------

  // The last request brought a new client and with it a sweep.
  ghost predicate Swept(cfg: Config, reqs: seq<Request>)
    requires cfg.rps >= 1
  {
    reqs != [] && Sweeps(Run(cfg, Init(reqs)), Last(reqs).key)
  }

  ghost function KeptAtLastSweep(cfg: Config, reqs: seq<Request>): nat
    requires cfg.rps >= 1
  {
    if reqs == [] then 0
    else if Swept(cfg, reqs) then |Run(cfg, reqs).buckets|
    else KeptAtLastSweep(cfg, Init(reqs))
  }

  ghost predicate Holds(s: Store, kept: nat) {
    |s.buckets| == kept + s.inserts % SWEEP_EVERY
  }

  lemma WithoutSweepGrows(cfg: Config, s: Store, key: string, now: nat)
    requires cfg.rps >= 1 && !Sweeps(s, key)
    ensures var s' := Allow(cfg, s, key, now).0;
            && |s'.buckets| == |s.buckets| + (if key in s.buckets then 0 else 1)
            && s'.inserts == s.inserts + (if key in s.buckets then 0 else 1)
  {
    var s' := Allow(cfg, s, key, now).0;
    assert s'.buckets.Keys == s.buckets.Keys + {key};
  }

  lemma CountsToNextSweep(inserts: nat)
    ensures (inserts + 1) % SWEEP_EVERY == if (inserts + 1) % SWEEP_EVERY == 0 then 0 else inserts % SWEEP_EVERY + 1
  {
  }

  lemma OneRequestGrowsBy(cfg: Config, s: Store, key: string, now: nat, kept: nat)
    requires cfg.rps >= 1 && Holds(s, kept)
    ensures var s' := Allow(cfg, s, key, now).0;
            Holds(s', if Sweeps(s, key) then |s'.buckets| else kept)
  {
    if !Sweeps(s, key) {
      WithoutSweepGrows(cfg, s, key, now);
      CountsToNextSweep(s.inserts);
    }
  }

  /** The map holds what the last sweep kept and the clients that came since,
      of which there are fewer than SWEEP_EVERY. */
  lemma {:induction false} MapSize(cfg: Config, reqs: seq<Request>)
    requires cfg.Enabled()
    ensures Holds(Run(cfg, reqs), KeptAtLastSweep(cfg, reqs))
  {
    if reqs == [] {
    } else {
      MapSize(cfg, Init(reqs));
      OneRequestGrowsBy(cfg, Run(cfg, Init(reqs)), Last(reqs).key, Last(reqs).now,
        KeptAtLastSweep(cfg, Init(reqs)));
    }
  }

  ghost predicate Tracked(cfg: Config, reqs: seq<Request>, key: string)
    requires cfg.rps >= 1
  {
    var buckets, own := Run(cfg, reqs).buckets, Only(reqs, key);
    && (key in buckets ==> own != [] && buckets[key].lastSeen == Last(own))
    && (key !in buckets && own != [] ==> Idle(cfg, Last(own), EndTime(reqs)))
    && (own != [] ==> Last(own) <= EndTime(reqs))
  }

  lemma {:induction false} StoreTracksClients(cfg: Config, reqs: seq<Request>, key: string)
    requires cfg.Enabled() && Ordered(reqs)
    ensures Tracked(cfg, reqs, key)
  {
    if reqs == [] {
    } else {
      OrderedInit(reqs);
      StoreTracksClients(cfg, Init(reqs), key);
    }
  }

  /** A sweep leaves exactly the clients seen within the TTL, the one that
      triggered it among them. */
  lemma SweepKeepsActive(cfg: Config, reqs: seq<Request>, key: string)
    requires cfg.Enabled() && Ordered(reqs) && Swept(cfg, reqs)
    ensures key in Run(cfg, reqs).buckets <==>
            Only(reqs, key) != [] && !Idle(cfg, Last(Only(reqs, key)), Last(reqs).now)
    ensures Last(reqs).key in Run(cfg, reqs).buckets
  {
    OrderedInit(reqs);
    StoreTracksClients(cfg, Init(reqs), key);
  }

  // --- nobody is refused for less --------------------------------------------

  // The client's bucket was full at t1, and has since gained all that came in and
  // lost what was admitted.
  ghost predicate FullSince(cfg: Config, reqs: seq<Request>, key: string, t1: nat)
    requires cfg.rps >= 1
  {
    var buckets := Run(cfg, reqs).buckets;
    && key in buckets && t1 <= buckets[key].lastSeen
    && buckets[key].limiter.tokens ==
       cfg.Capacity() + cfg.rps * (buckets[key].lastSeen - t1) - AdmittedIn(cfg, reqs, key, t1, EndTime(reqs)) * SECOND
  }

  ghost predicate Justified(cfg: Config, reqs: seq<Request>, key: string)
    requires cfg.rps >= 1
  {
    var buckets := Run(cfg, reqs).buckets;
    key in buckets ==>
      && buckets[key].limiter.last == buckets[key].lastSeen <= EndTime(reqs)
      && 0 <= buckets[key].limiter.tokens <= cfg.Capacity()
      && exists t1 :: FullSince(cfg, reqs, key, t1)
  }

  // A window that reaches past the end of the run holds no more than the run.
  lemma {:induction false} AdmittedByTheEnd(cfg: Config, reqs: seq<Request>, key: string, t1: nat, t2: nat)
    requires cfg.rps >= 1 && Ordered(reqs) && EndTime(reqs) <= t2
    ensures AdmittedIn(cfg, reqs, key, t1, t2) == AdmittedIn(cfg, reqs, key, t1, EndTime(reqs))
  {
    if reqs == [] {
    } else {
      OrderedInit(reqs);
      AdmittedByTheEnd(cfg, Init(reqs), key, t1, t2);
      AdmittedByTheEnd(cfg, Init(reqs), key, t1, EndTime(reqs));
    }
  }

  lemma {:induction false} NoneAdmittedSince(cfg: Config, reqs: seq<Request>, key: string, t1: nat, t2: nat)
    requires cfg.Enabled() && Ordered(reqs) && (Only(reqs, key) != [] ==> Last(Only(reqs, key)) < t1)
    ensures AdmittedIn(cfg, reqs, key, t1, t2) == 0
  {
    if reqs == [] {
    } else {
      OrderedInit(reqs);
      StoreTracksClients(cfg, Init(reqs), key);
      NoneAdmittedSince(cfg, Init(reqs), key, t1, t2);
    }
  }

  lemma AdmittedGrows(cfg: Config, reqs: seq<Request>, key: string, t1: nat)
    requires cfg.rps >= 1 && reqs != [] && Ordered(reqs) && t1 <= Last(reqs).now
    ensures AdmittedIn(cfg, reqs, key, t1, EndTime(reqs)) ==
            AdmittedIn(cfg, Init(reqs), key, t1, EndTime(Init(reqs)))
            + if Last(reqs).key == key && LastAnswer(cfg, reqs).ok then 1 else 0
  {
    OrderedInit(reqs);
    AdmittedByTheEnd(cfg, Init(reqs), key, t1, EndTime(reqs));
  }

  // A bucket that is full at a request of its client, and not only since an
  // earlier one at the same moment.
  lemma FullNow(cfg: Config, reqs: seq<Request>)
    requires cfg.Enabled() && reqs != [] && Ordered(reqs)
    requires var r := Last(reqs);
             && Refill(cfg, LimiterOf(cfg, Run(cfg, Init(reqs)), r.key), r.now) == cfg.Capacity()
             && (Only(Init(reqs), r.key) != [] ==> Last(Only(Init(reqs), r.key)) < r.now)
    ensures FullSince(cfg, reqs, Last(reqs).key, Last(reqs).now)
  {
    var r := Last(reqs);
    OrderedInit(reqs);
    NoneAdmittedSince(cfg, Init(reqs), r.key, r.now, EndTime(Init(reqs)));
    AdmittedGrows(cfg, reqs, r.key, r.now);
  }

  lemma StillFullSince(cfg: Config, reqs: seq<Request>, t1: nat)
    requires cfg.Enabled() && reqs != [] && Ordered(reqs)
    requires Justified(cfg, Init(reqs), Last(reqs).key) && FullSince(cfg, Init(reqs), Last(reqs).key, t1)
    requires var r, l := Last(reqs), Run(cfg, Init(reqs)).buckets[Last(reqs).key].limiter;
             l.tokens + cfg.rps * (r.now - l.last) <= cfg.Capacity()
    ensures FullSince(cfg, reqs, Last(reqs).key, t1)
  {
    var r, l := Last(reqs), Run(cfg, Init(reqs)).buckets[Last(reqs).key].limiter;
    OrderedInit(reqs);
    AdmittedGrows(cfg, reqs, r.key, t1);
    assert cfg.rps * (r.now - l.last) + cfg.rps * (l.last - t1) == cfg.rps * (r.now - t1);
  }

  lemma OwnRequestJustified(cfg: Config, reqs: seq<Request>)
    requires cfg.Enabled() && reqs != [] && Ordered(reqs) && Justified(cfg, Init(reqs), Last(reqs).key)
    ensures exists t1 :: FullSince(cfg, reqs, Last(reqs).key, t1)
  {
    var r, before := Last(reqs), Run(cfg, Init(reqs)).buckets;
    OrderedInit(reqs);
    StoreTracksClients(cfg, Init(reqs), r.key);
    if r.key !in before {
      ProductGrows(cfg.rps, 0, r.now);
      FullNow(cfg, reqs);
    } else {
      var l := before[r.key].limiter;
      if l.tokens + cfg.rps * (r.now - l.last) > cfg.Capacity() {
        FullNow(cfg, reqs);
      } else {
        var t1 :| FullSince(cfg, Init(reqs), r.key, t1);
        StillFullSince(cfg, reqs, t1);
      }
    }
  }

  lemma OtherRequestJustified(cfg: Config, reqs: seq<Request>, key: string)
    requires cfg.Enabled() && reqs != [] && Ordered(reqs) && Justified(cfg, Init(reqs), key) && Last(reqs).key != key
    ensures Justified(cfg, reqs, key)
  {
    OrderedInit(reqs);
    if key in Run(cfg, reqs).buckets {
      var t1 :| FullSince(cfg, Init(reqs), key, t1);
      AdmittedGrows(cfg, reqs, key, t1);
      assert FullSince(cfg, reqs, key, t1);
    }
  }

  lemma TokensStayInRange(cfg: Config, reqs: seq<Request>)
    requires cfg.Enabled() && reqs != [] && Ordered(reqs) && Justified(cfg, Init(reqs), Last(reqs).key)
    ensures var entry := Run(cfg, reqs).buckets[Last(reqs).key];
            0 <= entry.limiter.tokens <= cfg.Capacity() && entry.limiter.last == entry.lastSeen == Last(reqs).now
  {
    var r, s := Last(reqs), Run(cfg, Init(reqs));
    OrderedInit(reqs);
    ProductGrows(cfg.rps, 0, Elapsed(LimiterOf(cfg, s, r.key), r.now));
  }

  lemma {:induction false} EveryBucketJustified(cfg: Config, reqs: seq<Request>, key: string)
    requires cfg.Enabled() && Ordered(reqs)
    ensures Justified(cfg, reqs, key)
  {
    if reqs == [] {
    } else {
      OrderedInit(reqs);
      EveryBucketJustified(cfg, Init(reqs), key);
      if Last(reqs).key == key {
        OwnRequestJustified(cfg, reqs);
        TokensStayInRange(cfg, reqs);
      } else {
        OtherRequestJustified(cfg, reqs, key);
      }
    }
  }

  // Admitting the run's last request keeps its client within its rate since t1.
  ghost predicate Affordable(cfg: Config, reqs: seq<Request>, t1: nat)
    requires cfg.rps >= 1 && reqs != [] && t1 <= Last(reqs).now
  {
    var r := Last(reqs);
    (AdmittedIn(cfg, Init(reqs), r.key, t1, r.now) + 1) * SECOND <= cfg.Capacity() + cfg.rps * (r.now - t1)
  }

  /** A request is only refused, in any run and under any TTL, if admitting it
      would put its client over its rate in some window that ends with it. */
  lemma RefusedForCause(cfg: Config, reqs: seq<Request>)
    requires cfg.Enabled() && Ordered(reqs) && reqs != [] && !LastAnswer(cfg, reqs).ok
    ensures exists t1: nat :: t1 <= Last(reqs).now && !Affordable(cfg, reqs, t1)
  {
    var r, s := Last(reqs), Run(cfg, Init(reqs));
    OrderedInit(reqs);
    EveryBucketJustified(cfg, Init(reqs), r.key);
    if r.key !in s.buckets {
      ProductGrows(cfg.rps, 0, r.now);
    }
    var t1 :| FullSince(cfg, Init(reqs), r.key, t1);
    var l := s.buckets[r.key].limiter;
    AdmittedByTheEnd(cfg, Init(reqs), r.key, t1, r.now);
    assert cfg.rps * (r.now - l.last) + cfg.rps * (l.last - t1) == cfg.rps * (r.now - t1);
    assert !Affordable(cfg, reqs, t1);
  }

  /** The limiter, without a bucket: if the TTL refills one, a request is admitted
      exactly if that keeps its client within its rate in every window that ends
      with it. */
  lemma AdmittedIffAffordable(cfg: Config, reqs: seq<Request>)
    requires cfg.Enabled() && cfg.Refills() && Ordered(reqs) && reqs != []
    ensures LastAnswer(cfg, reqs).ok <==> forall t1: nat :: t1 <= Last(reqs).now ==> Affordable(cfg, reqs, t1)
  {
    if LastAnswer(cfg, reqs).ok {
      forall t1: nat | t1 <= Last(reqs).now ensures Affordable(cfg, reqs, t1) {
        AdmissionRate(cfg, reqs, Last(reqs).key, t1, Last(reqs).now);
      }
    } else {
      RefusedForCause(cfg, reqs);
    }
  }

  // --- Retry-After ---------------------------------------------------------

  lemma {:induction false} TokensInRange(cfg: Config, reqs: seq<Request>, key: string)
    requires cfg.Enabled() && Ordered(reqs) && key in Run(cfg, reqs).buckets
    ensures var l := Run(cfg, reqs).buckets[key].limiter;
            0 <= l.tokens <= cfg.Capacity() && l.last <= EndTime(reqs)
  {
    var r := Last(reqs);
    OrderedInit(reqs);
    if key in Run(cfg, Init(reqs)).buckets {
      TokensInRange(cfg, Init(reqs), key);
    }
    ProductGrows(cfg.rps, 0, Elapsed(LimiterOf(cfg, Run(cfg, Init(reqs)), key), r.now));
  }

  lemma {:induction false} OthersLeaveBucketAlone(cfg: Config, reqs: seq<Request>, more: seq<Request>, key: string)
    requires cfg.Enabled() && (forall r :: r in more ==> r.key != key)
    ensures var after := Run(cfg, reqs + more).buckets;
            key in after ==> key in Run(cfg, reqs).buckets && after[key] == Run(cfg, reqs).buckets[key]
  {
    if more == [] {
      assert reqs + more == reqs;
    } else {
      assert Init(reqs + more) == reqs + Init(more) && Last(reqs + more) == Last(more);
      OthersLeaveBucketAlone(cfg, reqs, Init(more), key);
    }
  }

  // A refused request reports the least wait that is long enough.
  lemma WaitIsExact(cfg: Config, l: Limiter, now: nat, later: nat)
    requires cfg.Enabled() && now <= later && !TakeToken(cfg, l, now).1.ok
    ensures var (left, refused) := TakeToken(cfg, l, now);
            TakeToken(cfg, left, later).1.ok <==> later >= now + refused.wait
  {
    var (left, refused) := TakeToken(cfg, l, now);
    CeilDivIsLeast(SECOND - left.tokens, cfg.rps, later - now);
    assert cfg.Capacity() >= SECOND;
  }

  /** A refused client is told to wait one second, and if it makes no request
      meanwhile it is admitted exactly from the end of the wait on, whatever the
      other clients do, or as soon as its bucket has been evicted. */
  lemma RetryAfterIsHonest(cfg: Config, reqs: seq<Request>, more: seq<Request>, later: nat)
    requires cfg.Enabled() && Ordered(reqs) && reqs != [] && !LastAnswer(cfg, reqs).ok
    requires (forall r :: r in more ==> r.key != Last(reqs).key) && later >= Last(reqs).now
    ensures var r, wait := Last(reqs), LastAnswer(cfg, reqs).wait;
            var s := Run(cfg, reqs + more);
            && 1 <= wait <= SECOND && RetryAfter(wait) == 1
            && (Allow(cfg, s, r.key, later).1.ok <==> later >= r.now + wait || r.key !in s.buckets)
  {
    var r, wait := Last(reqs), LastAnswer(cfg, reqs).wait;
    var l := LimiterOf(cfg, Run(cfg, Init(reqs)), r.key);
    var tokens := Refill(cfg, l, r.now);
    TokensInRange(cfg, reqs, r.key);
    CeilDivIsLeast(SECOND - tokens, cfg.rps, SECOND);
    CeilDivIsLeast(SECOND - tokens, cfg.rps, 0);
    ProductGrows(SECOND, 1, cfg.rps);
    CeilDivIsLeast(wait, SECOND, 1);
    WaitIsExact(cfg, l, r.now, later);
    OthersLeaveBucketAlone(cfg, reqs, more, r.key);
    if r.key !in Run(cfg, reqs + more).buckets {
      ProductGrows(cfg.rps, 0, later);
    }
  }

  // --- the default TTL -------------------------------------------------------

  /** With the default TTL, which is what any TTL of zero or less stands for,
      eviction is invisible if and only if a client's burst is at most ten
      minutes' worth of its rate, or a nanosecond's worth more. */
  lemma DefaultTtlSuffices(rps: nat, burst: nat, idleTtl: int)
    requires rps >= 1 && burst >= 1 && idleTtl <= 0
    ensures var cfg := NewConfig(rps, burst, idleTtl);
            (forall reqs: seq<Request> :: Ordered(reqs) && reqs != [] ==>
               LastAnswer(cfg, reqs) == SoloAnswer(cfg, Only(reqs, Last(reqs).key))) <==>
            burst * SECOND <= 600 * rps * SECOND + rps
  {
    EvictionInvisibleIff(NewConfig(rps, burst, idleTtl));
    DefaultRefills(NewConfig(rps, burst, idleTtl));
  }

  lemma DefaultRefills(cfg: Config)
    requires cfg.ttl == DEFAULT_IDLE_TTL
    ensures cfg.Refills() <==> cfg.burst * SECOND <= 600 * cfg.rps * SECOND + cfg.rps
  {
    assert cfg.rps * (DEFAULT_IDLE_TTL + 1) == 600 * cfg.rps * SECOND + cfg.rps;
  }
}
