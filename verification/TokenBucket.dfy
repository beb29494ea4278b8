/** The in-memory token bucket of the agent module's rate limiter.

    One bucket for each user or address, refilled at `rate / per` tokens a second up to `rate`.
    The clock is a parameter: `created` is read when a key is first seen, `now` on every call.
 */
module TokenBucket {

  datatype Bucket = Bucket(tokens: real, last: real)

  datatype Config = Config(rate: nat, per: int) {
    ghost predicate Valid() { per > 0 }
    function Flow(): real
      requires per != 0
    {
      rate as real / per as real
    }
    function Cap(): real { rate as real }
    /** What flows in during a time span. */
    function Inflow(span: real): real
      requires per != 0
    {
      span * Flow()
    }
  }

  function Min(a: real, b: real): real { if b < a then b else a }

  class Limiter {
    const cfg: Config
    var buckets: map<string, Bucket>

    constructor (cfg: Config)
      ensures this.cfg == cfg && buckets == map[]
    {
      this.cfg, buckets := cfg, map[];
    }

    /** One request of `key`; true lets it through. */
    method Call(key: string, created: real, now: real) returns (admitted: bool)
      requires cfg.Valid()
      modifies this
      ensures (buckets, admitted) == Serve(old(buckets), cfg, Request(key, created, now))
    {
      if key !in buckets {
        buckets := buckets[key := Bucket(cfg.rate as real, created)];
      }
      var bucket := buckets[key];
      var elapsed := now - bucket.last;
      bucket := bucket.(tokens := Min(cfg.rate as real, bucket.tokens + elapsed * (cfg.rate as real / cfg.per as real)));
      bucket := bucket.(last := now);
      assert bucket.tokens == Refilled(old(buckets), cfg, Request(key, created, now));
      if bucket.tokens >= 1.0 {
        bucket := bucket.(tokens := bucket.tokens - 1.0);
        admitted := true;
      } else {
        admitted := false;
      }
      buckets := buckets[key := bucket];
      assert buckets == old(buckets)[key := bucket];
    }
  }

  // ---- Whole runs ----

  datatype Request = Request(key: string, created: real, now: real)

  function Refilled(buckets: map<string, Bucket>, cfg: Config, q: Request): real
    requires cfg.Valid()
  {
    var b := if q.key in buckets then buckets[q.key] else Bucket(cfg.rate as real, q.created);
    Min(cfg.Cap(), b.tokens + cfg.Inflow(q.now - b.last))
  }

  function Serve(buckets: map<string, Bucket>, cfg: Config, q: Request): (map<string, Bucket>, bool)
    requires cfg.Valid()
  {
    var level := Refilled(buckets, cfg, q);
    if level >= 1.0 then (buckets[q.key := Bucket(level - 1.0, q.now)], true)
    else (buckets[q.key := Bucket(level, q.now)], false)
  }

  function Run(qs: seq<Request>, cfg: Config): map<string, Bucket>
    requires cfg.Valid()
  {
    if qs == [] then map[] else Serve(Run(qs[..|qs| - 1], cfg), cfg, qs[|qs| - 1]).0
  }

  /** How many requests of `key` made between `from` and `to` were let through. */
  function Admitted(qs: seq<Request>, cfg: Config, key: string, from: real, to: real): nat
    requires cfg.Valid()
  {
    if qs == [] then 0
    else
      var front, q := qs[..|qs| - 1], qs[|qs| - 1];
      Admitted(front, cfg, key, from, to)
      + if q.key == key && from <= q.now <= to && Serve(Run(front, cfg), cfg, q).1 then 1 else 0
  }

  /** The clock never goes back. */
  predicate Timed(qs: seq<Request>) {
    && (forall i | 0 <= i < |qs| :: qs[i].created <= qs[i].now)
    && (forall i, j | 0 <= i < j < |qs| :: qs[i].now <= qs[j].created)
  }

  lemma TimedFront(qs: seq<Request>)
    requires Timed(qs) && qs != []
    ensures var (front, q) := (qs[..|qs| - 1], qs[|qs| - 1]);
            Timed(front) && q.created <= q.now && forall p <- front :: p.now <= q.created
  {}

  lemma Flows(cfg: Config, a: real, b: real)
    requires cfg.Valid()
    ensures cfg.Inflow(a) + cfg.Inflow(b) == cfg.Inflow(a + b)
    ensures a >= 0.0 ==> cfg.Inflow(a) >= 0.0
    ensures cfg.Inflow(0.0) == 0.0
  {
    assert cfg.Flow() >= 0.0;
  }

  /** A bucket is within range, and its last call is one of the calls made. */
  predicate Sound(b: Bucket, qs: seq<Request>, cfg: Config) {
    0.0 <= b.tokens <= cfg.Cap() && exists q <- qs :: q.now == b.last
  }

  lemma {:induction false} LevelStaysInRange(qs: seq<Request>, cfg: Config)
    requires cfg.Valid() && Timed(qs)
    ensures forall k <- Run(qs, cfg) :: Sound(Run(qs, cfg)[k], qs, cfg)
    decreases |qs|, 1
  {
    if qs != [] {
      var front, q := qs[..|qs| - 1], qs[|qs| - 1];
      TimedFront(qs);
      LevelStaysInRange(front, cfg);
      Refill(qs, cfg);
      assert q in qs && forall p <- front :: p in qs;
      forall k <- Run(qs, cfg)
        ensures Sound(Run(qs, cfg)[k], qs, cfg)
      {
        hide Refilled;
        if k != q.key { assert Sound(Run(front, cfg)[k], front, cfg); }
      }
    }
  }

  /** What the last request of a run finds in its bucket. */
  lemma Refill(qs: seq<Request>, cfg: Config)
    requires cfg.Valid() && Timed(qs) && qs != []
    ensures var (bs, q) := (Run(qs[..|qs| - 1], cfg), qs[|qs| - 1]);
            && 0.0 <= Refilled(bs, cfg, q) <= cfg.Cap()
            && (q.key !in bs ==> Refilled(bs, cfg, q) == cfg.Cap())
            && (q.key in bs ==>
                  var b := bs[q.key];
                  && b.last <= q.now && Refilled(bs, cfg, q) >= b.tokens
                  && Refilled(bs, cfg, q) == Min(cfg.Cap(), b.tokens + cfg.Inflow(q.now - b.last)))
    decreases |qs|, 0
  {
    hide Run;
    hide Config.Inflow;
    var front, q := qs[..|qs| - 1], qs[|qs| - 1];
    TimedFront(qs);
    LevelStaysInRange(front, cfg);
    var bs := Run(front, cfg);
    if q.key in bs {
      assert Sound(bs[q.key], front, cfg);
      Flows(cfg, q.now - bs[q.key].last, 0.0);
    } else {
      Flows(cfg, q.now - q.created, 0.0);
    }
  }

  /** One unfolding of a run and of its count: `bs` before the last request, `level` what it found. */
  lemma LastStep(qs: seq<Request>, cfg: Config, key: string, from: real, to: real)
    returns (bs: map<string, Bucket>, level: real, hit: nat)
    requires cfg.Valid() && Timed(qs) && qs != []
    ensures var (front, q) := (qs[..|qs| - 1], qs[|qs| - 1]);
            && bs == Run(front, cfg) && Timed(front) && (front != [] ==> front[|front| - 1].now <= q.now)
            && hit == (if level >= 1.0 then 1 else 0)
            && Serve(bs, cfg, q).1 == (hit == 1)
            && Run(qs, cfg) == bs[q.key := Bucket(level - hit as real, q.now)]
            && Admitted(qs, cfg, key, from, to)
            == Admitted(front, cfg, key, from, to) + (if q.key == key && from <= q.now <= to then hit else 0)
            && 0.0 <= level <= cfg.Cap()
            && (q.key !in bs ==> level == cfg.Cap())
            && (q.key in bs ==>
                  bs[q.key].last <= q.now && level == Min(cfg.Cap(), bs[q.key].tokens + cfg.Inflow(q.now - bs[q.key].last)))
  {
    var front := qs[..|qs| - 1];
    bs := Run(front, cfg);
    level := Refilled(bs, cfg, qs[|qs| - 1]);
    hit := if level >= 1.0 then 1 else 0;
    TimedFront(qs);
    Refill(qs, cfg);
    hide Refilled;
    hide Config.Inflow;
  }

  /** `n` admissions since `from` and what is left are at most a full bucket and the inflow. */
  predicate Bounded(n: nat, b: Bucket, cfg: Config, from: real)
    requires cfg.Valid()
  {
    n as real + b.tokens <= cfg.Cap() + cfg.Inflow(b.last - from)
  }

  lemma BoundedStep(n: nat, b: Bucket, now: real, level: real, hit: nat, cfg: Config, from: real)
    requires cfg.Valid() && Bounded(n, b, cfg, from) && level <= b.tokens + cfg.Inflow(now - b.last)
    ensures Bounded(n + hit, Bucket(level - hit as real, now), cfg, from)
  {
    Flows(cfg, b.last - from, now - b.last);
    assert b.last - from + (now - b.last) == now - from;
    hide Config.Inflow;
  }

  /** The state of a key after a run: its admissions since `from` are bounded by its bucket. */
  predicate Potential(bs: map<string, Bucket>, n: nat, cfg: Config, key: string, from: real)
    requires cfg.Valid()
  {
    if key in bs && bs[key].last >= from then Bounded(n, bs[key], cfg, from) else n == 0
  }

  lemma PotentialStep(bs: map<string, Bucket>, n: nat, q: Request, level: real, hit: nat, cfg: Config, key: string, from: real)
    requires cfg.Valid() && Potential(bs, n, cfg, key, from)
    requires level <= cfg.Cap()
    requires q.key in bs ==> bs[q.key].last <= q.now && level <= bs[q.key].tokens + cfg.Inflow(q.now - bs[q.key].last)
    ensures Potential(bs[q.key := Bucket(level - hit as real, q.now)],
                      if q.key == key && from <= q.now then n + hit else n, cfg, key, from)
  {
    if q.key == key {
      if key in bs && bs[key].last >= from {
        BoundedStep(n, bs[key], q.now, level, hit, cfg, from);
      } else {
        Flows(cfg, q.now - from, 0.0);
      }
    }
    hide Config.Inflow;
  }

  lemma {:induction false} PotentialHolds(qs: seq<Request>, cfg: Config, key: string, from: real, to: real)
    requires cfg.Valid() && Timed(qs) && (qs != [] ==> qs[|qs| - 1].now <= to)
    ensures Potential(Run(qs, cfg), Admitted(qs, cfg, key, from, to), cfg, key, from)
  {
    if qs != [] {
      var front, q := qs[..|qs| - 1], qs[|qs| - 1];
      var bs, level, hit := LastStep(qs, cfg, key, from, to);
      PotentialHolds(front, cfg, key, from, to);
      PotentialStep(bs, Admitted(front, cfg, key, from, to), q, level, hit, cfg, key, from);
      hide *;
      assert Potential(Run(qs, cfg), Admitted(qs, cfg, key, from, to), cfg, key, from);
    }
  }

  /** A full bucket, and what flows in during a time span. */
  function Allowance(rate: nat, per: int, span: real): real
    requires per > 0
  {
    rate as real + span * (rate as real / per as real)
  }

  lemma AllowanceIs(cfg: Config, span: real)
    requires cfg.Valid()
    ensures cfg.Cap() + cfg.Inflow(span) == Allowance(cfg.rate, cfg.per, span)
  {}

  /** In every interval a key gets at most a full bucket plus what flows in meanwhile. */
  lemma {:induction false} AdmissionBound(qs: seq<Request>, cfg: Config, key: string, from: real, to: real)
    requires cfg.Valid() && Timed(qs) && from <= to
    ensures Admitted(qs, cfg, key, from, to) as real <= Allowance(cfg.rate, cfg.per, to - from)
  {
    AllowanceIs(cfg, to - from);
    Flows(cfg, to - from, 0.0);
    if qs != [] {
      var front, q := qs[..|qs| - 1], qs[|qs| - 1];
      TimedFront(qs);
      if q.now > to {
        AdmissionBound(front, cfg, key, from, to);
      } else {
        PotentialHolds(qs, cfg, key, from, to);
        LevelStaysInRange(qs, cfg);
        var bs := Run(qs, cfg);
        hide Run;
        hide Admitted;
        if key in bs && bs[key].last >= from {
          assert Sound(bs[key], qs, cfg);
          Flows(cfg, bs[key].last - from, to - bs[key].last);
          Flows(cfg, to - bs[key].last, 0.0);
        }
        hide Config.Inflow;
        hide Config.Flow;
      }
    }
  }

  /** The other side of `Bounded`: since `from` the bucket was never full, so nothing was lost. */
  predicate Spent(n: nat, b: Bucket, cfg: Config, from: real)
    requires cfg.Valid()
  {
    from <= b.last && n as real + b.tokens >= cfg.Cap() + cfg.Inflow(b.last - from)
  }

  lemma SpentStep(n: nat, b: Bucket, now: real, level: real, hit: nat, n': nat, cfg: Config, from: real)
    requires cfg.Valid() && Spent(n, b, cfg, from) && b.last <= now
    requires level == b.tokens + cfg.Inflow(now - b.last) && n' >= n + hit
    ensures Spent(n', Bucket(level - hit as real, now), cfg, from)
  {
    Flows(cfg, b.last - from, now - b.last);
    assert b.last - from + (now - b.last) == now - from;
    hide Config.Inflow;
  }

  /** The limiter wastes nothing: some interval ending at the key's last call is spent in full. */
  lemma {:induction false} NothingWasted(qs: seq<Request>, cfg: Config, key: string) returns (from: real)
    requires cfg.Valid() && Timed(qs) && key in Run(qs, cfg)
    ensures var b := Run(qs, cfg)[key];
            Spent(Admitted(qs, cfg, key, from, b.last), b, cfg, from)
  {
    var front, q := qs[..|qs| - 1], qs[|qs| - 1];
    var bs, level, hit := LastStep(qs, cfg, key, q.now, q.now);
    if q.key != key {
      from := NothingWasted(front, cfg, key);
      bs, level, hit := LastStep(qs, cfg, key, from, bs[key].last);
    } else if key in bs && bs[key].tokens + cfg.Inflow(q.now - bs[key].last) <= cfg.Cap() {
      from := NothingWasted(front, cfg, key);
      LaterEnd(front, cfg, key, from, bs[key].last, q.now);
      bs, level, hit := LastStep(qs, cfg, key, from, q.now);
      SpentStep(Admitted(front, cfg, key, from, bs[key].last), bs[key], q.now, level, hit,
                Admitted(qs, cfg, key, from, q.now), cfg, from);
    } else {
      from := q.now;
      Flows(cfg, 0.0, 0.0);
    }
    hide Run;
    hide Admitted;
    hide Config.Inflow;
  }

  lemma {:induction false} LaterEnd(qs: seq<Request>, cfg: Config, key: string, from: real, to: real, later: real)
    requires cfg.Valid() && to <= later
    ensures Admitted(qs, cfg, key, from, to) <= Admitted(qs, cfg, key, from, later)
  {
    if qs != [] { LaterEnd(qs[..|qs| - 1], cfg, key, from, to, later); }
  }

  /** A request is refused only when the bound of `AdmissionBound` has less than one token to spare. */
  lemma RefusalIsJustified(qs: seq<Request>, cfg: Config) returns (from: real)
    requires cfg.Valid() && Timed(qs) && qs != []
    requires !Serve(Run(qs[..|qs| - 1], cfg), cfg, qs[|qs| - 1]).1
    ensures var q := qs[|qs| - 1];
            && from <= q.now
            && Admitted(qs, cfg, q.key, from, q.now) as real > Allowance(cfg.rate, cfg.per, q.now - from) - 1.0
  {
    from := NothingWasted(qs, cfg, qs[|qs| - 1].key);
    AllowanceIs(cfg, qs[|qs| - 1].now - from);
    hide Config.Inflow;
    hide Admitted;
  }
}
