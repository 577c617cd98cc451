/** The per-client rate limiter: one token bucket per client key, a map of
    buckets that grows with every new client, and a sweep that evicts the idle
    ones every SWEEP_EVERY-th insert.

    Time is counted in nanoseconds.  Tokens are scaled so that a bucket gains
    `rps` units per nanosecond and one request costs SECOND units, which keeps
    every quantity an integer. */
module TokenBucket {
  const SECOND: nat := 1_000_000_000
  const SWEEP_EVERY: nat := 64
  const DEFAULT_IDLE_TTL: nat := 600 * SECOND

  datatype Config = Config(rps: nat, burst: nat, ttl: nat) {
    // The middleware is only installed when both limits are at least one.
    predicate Enabled() {
      rps >= 1 && burst >= 1
    }

    function Capacity(): nat {
      burst * SECOND
    }

    // The shortest gap that can evict a bucket, ttl + 1 nanoseconds, is enough
    // to fill an empty one.
    predicate Refills() {
      rps * (ttl + 1) >= Capacity()
    }
  }

  /** A bucket store's configuration: an idle time of zero or less is the default. */
  function NewConfig(rps: nat, burst: nat, idleTtl: int): (cfg: Config)
    ensures cfg.ttl >= 1 && cfg.rps == rps && cfg.burst == burst
    ensures idleTtl >= 1 ==> cfg.ttl == idleTtl
    ensures idleTtl <= 0 ==> cfg.ttl == DEFAULT_IDLE_TTL
  {
    Config(rps, burst, if idleTtl <= 0 then DEFAULT_IDLE_TTL else idleTtl)
  }

  // --- one limiter ---------------------------------------------------------

  datatype Limiter = Limiter(tokens: int, last: nat)

  datatype Answer = Answer(wait: nat, ok: bool)

  function Full(cfg: Config): Limiter {
    Limiter(cfg.Capacity(), 0)
  }

  function Elapsed(l: Limiter, now: nat): nat {
    if now < l.last then 0 else now - l.last
  }

  function Refill(cfg: Config, l: Limiter, now: nat): int {
    var grown := l.tokens + cfg.rps * Elapsed(l, now);
    if grown > cfg.Capacity() then cfg.Capacity() else grown
  }

  function CeilDiv(x: nat, y: nat): nat
    requires y > 0
  {
    (x + y - 1) / y
  }

  // A reservation always takes its token, going into debt if it has to, and
  // reports how long the debt takes to pay off.
  function Reserve(cfg: Config, l: Limiter, now: nat): (Limiter, nat)
    requires cfg.rps >= 1
  {
    var tokens := Refill(cfg, l, now) - SECOND;
    (Limiter(tokens, now), if tokens < 0 then CeilDiv(-tokens, cfg.rps) else 0)
  }

  function Cancel(cfg: Config, l: Limiter, now: nat): Limiter {
    var tokens := Refill(cfg, l, now) + SECOND;
    Limiter(if tokens > cfg.Capacity() then cfg.Capacity() else tokens, now)
  }

  // What one request gets: a token, or nothing but the time until one is there.
  function TakeToken(cfg: Config, l: Limiter, now: nat): (Limiter, Answer)
    requires cfg.rps >= 1
  {
    var tokens := Refill(cfg, l, now);
    if tokens >= SECOND then
      (Limiter(tokens - SECOND, now), Answer(0, true))
    else
      (Limiter(tokens, now), Answer(CeilDiv(SECOND - tokens, cfg.rps), false))
  }

  lemma CeilDivIsLeast(x: nat, y: nat, d: nat)
    requires y > 0
    ensures CeilDiv(x, y) <= d <==> x <= y * d
  {
    var q := CeilDiv(x, y);
    if q <= d {
      assert y * q <= y * d;
    } else {
      assert y * d <= y * (q - 1);
    }
  }

  /** Reserving and giving the reservation back leaves exactly the refilled bucket. */
  lemma ReserveThenCancel(cfg: Config, l: Limiter, now: nat)
    requires cfg.Enabled()
    ensures var (reserved, delay) := Reserve(cfg, l, now);
            TakeToken(cfg, l, now) ==
              if delay > 0 then (Cancel(cfg, reserved, now), Answer(delay, false))
              else (reserved, Answer(0, true))
  {
    var tokens := Refill(cfg, l, now) - SECOND;
    if tokens < 0 {
      CeilDivIsLeast(-tokens, cfg.rps, 0);
    }
  }

  // --- the store as a value ------------------------------------------------

  datatype Entry = Entry(limiter: Limiter, lastSeen: nat)

  datatype Store = Store(buckets: map<string, Entry>, inserts: nat)

  predicate Idle(cfg: Config, lastSeen: nat, now: nat) {
    now - lastSeen > cfg.ttl
  }

  function Sweep(cfg: Config, buckets: map<string, Entry>, now: nat): map<string, Entry> {
    map k | k in buckets && !Idle(cfg, buckets[k].lastSeen, now) :: buckets[k]
  }

  predicate Sweeps(s: Store, key: string) {
    key !in s.buckets && (s.inserts + 1) % SWEEP_EVERY == 0
  }

  // The store once `key` is known to have a bucket.
  function Admit(cfg: Config, s: Store, key: string, now: nat): Store {
    if key in s.buckets then s
    else
      var grown := s.buckets[key := Entry(Full(cfg), now)];
      Store(if Sweeps(s, key) then Sweep(cfg, grown, now) else grown, s.inserts + 1)
  }

  function LimiterOf(cfg: Config, s: Store, key: string): Limiter {
    if key in s.buckets then s.buckets[key].limiter else Full(cfg)
  }

  function Allow(cfg: Config, s: Store, key: string, now: nat): (Store, Answer)
    requires cfg.rps >= 1
  {
    var seen := Admit(cfg, s, key, now);
    var (left, answer) := TakeToken(cfg, LimiterOf(cfg, s, key), now);
    (Store(seen.buckets[key := Entry(left, now)], seen.inserts), answer)
  }

  // --- the store as the middleware runs it ---------------------------------

  class Bucket {
    var limiter: Limiter
    var lastSeen: nat

    constructor (limiter: Limiter, lastSeen: nat)
      ensures this.limiter == limiter && this.lastSeen == lastSeen
    {
      this.limiter := limiter;
      this.lastSeen := lastSeen;
    }

    function Value(): Entry
      reads this
    {
      Entry(limiter, lastSeen)
    }

    /** Reserve, and cancel the reservation again if it could not be met now. */
    method Take(cfg: Config, now: nat) returns (wait: nat, ok: bool)
      requires cfg.Enabled()
      modifies this`limiter
      ensures limiter == TakeToken(cfg, old(limiter), now).0
      ensures Answer(wait, ok) == TakeToken(cfg, old(limiter), now).1
    {
      ReserveThenCancel(cfg, limiter, now);
      var (reserved, delay) := Reserve(cfg, limiter, now);
      limiter := reserved;
      if delay > 0 {
        limiter := Cancel(cfg, limiter, now);
        return delay, false;
      }
      return 0, true;
    }
  }

  class BucketStore {
    const cfg: Config
    var buckets: map<string, Bucket>
    var inserts: nat
    ghost var Repr: set<Bucket>

    // Every bucket belongs to the store, and no two clients share one.
    ghost predicate Valid()
      reads this
    {
      && cfg.Enabled()
      && (forall k :: k in buckets ==> buckets[k] in Repr)
      && (forall k, k' :: k in buckets && k' in buckets && k != k' ==> buckets[k] != buckets[k'])
    }

    ghost function Model(): Store
      requires Valid()
      reads this, Repr
    {
      Store(map k | k in buckets :: buckets[k].Value(), inserts)
    }

    constructor (cfg: Config)
      requires cfg.Enabled()
      ensures Valid() && Repr == {} && this.cfg == cfg && Model() == Store(map[], 0)
    {
      this.cfg := cfg;
      buckets := map[];
      inserts := 0;
      Repr := {};
    }

    /** Drops exactly the buckets nobody has used for longer than the TTL. */
    method SweepLocked(now: nat)
      requires Valid()
      modifies this`buckets
      ensures Valid()
      ensures Model() == Store(Sweep(cfg, old(Model()).buckets, now), inserts)
      ensures forall k :: k in buckets <==> k in old(buckets) && !Idle(cfg, old(buckets)[k].lastSeen, now)
      ensures forall k :: k in buckets ==> buckets[k] == old(buckets)[k]
    {
      ghost var before := buckets;
      var todo := buckets.Keys;
      while todo != {}
        invariant todo <= buckets.Keys
        invariant forall k :: k in buckets <==>
          k in before && (k in todo || !Idle(cfg, before[k].lastSeen, now))
        invariant forall k :: k in buckets ==> buckets[k] == before[k]
        decreases |todo|
      {
        var key :| key in todo;
        todo := todo - {key};
        if now - buckets[key].lastSeen > cfg.ttl {
          buckets := buckets - {key};
        }
      }
    }

    /** A new client starts with a full bucket. */
    method Insert(key: string, now: nat) returns (b: Bucket)
      requires Valid() && key !in buckets
      modifies this`buckets, this`inserts, this`Repr
      ensures Valid() && fresh(b) && Repr == old(Repr) + {b}
      ensures buckets == old(buckets)[key := b] && b.Value() == Entry(Full(cfg), now)
      ensures Model() == Store(old(Model()).buckets[key := Entry(Full(cfg), now)], old(inserts) + 1)
    {
      b := new Bucket(Full(cfg), now);
      buckets := buckets[key := b];
      Repr := Repr + {b};
      inserts := inserts + 1;
    }

    /** The client's bucket.  A new client's bucket survives the sweep that its
        own insertion sets off. */
    method FindOrInsert(key: string, now: nat) returns (b: Bucket)
      requires Valid()
      modifies this`buckets, this`inserts, this`Repr
      ensures Valid() && fresh(Repr - old(Repr))
      ensures key in buckets && buckets[key] == b && (b in old(Repr) || fresh(b))
      ensures Model() == Admit(cfg, old(Model()), key, now)
      ensures b.limiter == LimiterOf(cfg, old(Model()), key)
    {
      if key in buckets {
        return buckets[key];
      }
      b := Insert(key, now);
      if inserts % SWEEP_EVERY == 0 {
        SweepLocked(now);
      }
    }

    // Changing one client's bucket changes that client's entry and no other.
    twostate lemma OneBucketChanged(key: string)
      requires old(Valid()) && old(key in buckets) && Valid() && buckets == old(buckets) && inserts == old(inserts)
      requires forall b :: b in Repr && b != buckets[key] ==> b in old(Repr) && b.Value() == old(b.Value())
      ensures key in buckets
      ensures Model() == Store(old(Model()).buckets[key := buckets[key].Value()], old(inserts))
    {
    }

    /** Takes one token for `key`, or reports the wait: the value-level Allow,
        performed on the shared buckets. */
    method TryTake(key: string, now: nat) returns (wait: nat, ok: bool)
      requires Valid()
      modifies this`buckets, this`inserts, this`Repr, Repr
      ensures Valid() && fresh(Repr - old(Repr))
      ensures Model() == Allow(cfg, old(Model()), key, now).0
      ensures Answer(wait, ok) == Allow(cfg, old(Model()), key, now).1
    {
      var b := FindOrInsert(key, now);
      label entered:
      assert b.Value() == Model().buckets[key];
      b.lastSeen := now;
      wait, ok := b.Take(cfg, now);
      OneBucketChanged@entered(key);
    }
  }

  /** Whole seconds for the Retry-After header: the fewest that cover the wait,
      and never less than one. */
  function RetryAfter(wait: nat): (seconds: nat)
    ensures seconds >= 1 && wait <= SECOND * seconds
    ensures seconds > 1 ==> SECOND * (seconds - 1) < wait
  {
    var seconds := CeilDiv(wait, SECOND);
    if seconds < 1 then 1 else seconds
  }
}
