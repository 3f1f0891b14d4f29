/** UUIDv7: how one is built, and the clock arithmetic of its validator. */
module UuidTime {
  import opened Datamodel
  import opened Bits

  /** system_clock counts nanoseconds since the Unix epoch. */
  const TICKS_PER_MS := 1_000_000

  /** std::chrono's conversion to a coarser unit truncates toward zero. */
  function ToMs(ticks: int): int {
    if ticks >= 0 then ticks / TICKS_PER_MS else -((-ticks) / TICKS_PER_MS)
  }

  /** The layout of section 5.7 of RFC 9562: 48 bits of Unix milliseconds, version 7,
      12 random bits; variant 10b, 62 random bits. */
  function V7(ms: int, randA: nat, randB: nat): UUID {
    UUID(ms % 0x1_0000_0000_0000 * 0x1_0000 + 7 * 0x1000 + randA % 0x1000,
         2 * 0x4000_0000_0000_0000 + randB % 0x4000_0000_0000_0000)
  }

  /** A source is a callable that may give something else at every call: what it gives at
      its n-th call since it was set. */
  type Source<T> = nat -> T

  class UuidBuilder {
    const testing: bool
    var timeSource: Option<Source<int>>
    var randomSource: Option<Source<nat>>
    var timeCalls: nat
    var randomCalls: nat

    constructor (testing: bool)
      ensures this.testing == testing && timeSource == None && randomSource == None
    {
      this.testing := testing;
      timeSource, randomSource, timeCalls, randomCalls := None, None, 0, 0;
    }

    /** Refused (std::domain_error) outside of testing. */
    method WithTimeSource(source: Source<int>) returns (ok: bool)
      modifies this`timeSource, this`timeCalls
      ensures ok == testing
      ensures ok ==> timeSource == Some(source) && timeCalls == 0
      ensures !ok ==> timeSource == old(timeSource) && timeCalls == old(timeCalls)
    {
      if testing { timeSource, timeCalls := Some(source), 0; }
      return testing;
    }

    method WithRandomSource(source: Source<nat>) returns (ok: bool)
      modifies this`randomSource, this`randomCalls
      ensures ok == testing
      ensures ok ==> randomSource == Some(source) && randomCalls == 0
      ensures !ok ==> randomSource == old(randomSource) && randomCalls == old(randomCalls)
    {
      if testing { randomSource, randomCalls := Some(source), 0; }
      return testing;
    }

    /** `clock`, `randA` and `randB` are what the real clock and generator give.  A time source
        is called once, a random source twice. */
    method Build(clock: int, randA: nat, randB: nat) returns (uuid: UUID)
      modifies this`timeCalls, this`randomCalls
      ensures uuid == V7(
        ToMs(match timeSource case None => clock case Some(f) => f(old(timeCalls))),
        match randomSource case None => randA case Some(f) => f(old(randomCalls)),
        match randomSource case None => randB case Some(f) => f(old(randomCalls) + 1))
      ensures timeCalls == old(timeCalls) + if timeSource.Some? then 1 else 0
      ensures randomCalls == old(randomCalls) + if randomSource.Some? then 2 else 0
    {
      var now := clock;
      if timeSource.Some? {
        now, timeCalls := timeSource.value(timeCalls), timeCalls + 1;
      }
      var count := Wrap(ToMs(now));
      var msb := Wrap(count * 0x1_0000);
      msb := Or(msb, 7 * 0x1000);
      var a := randA;
      if randomSource.Some? {
        a, randomCalls := randomSource.value(randomCalls), randomCalls + 1;
      }
      msb := Or(msb, And(a, 0xFFF));
      MsbParts(ToMs(now), a);
      var b := randB;
      if randomSource.Some? {
        b, randomCalls := randomSource.value(randomCalls), randomCalls + 1;
      }
      var lsb: nat := And(b, 0x3FFF_FFFF_FFFF_FFFF);
      lsb := Or(lsb, 2 * 0x4000_0000_0000_0000);
      LsbParts(b);
      return UUID(msb, lsb);
    }
  }

  lemma CountWraps(ms: int)
    ensures Wrap(Wrap(ms) * 0x1_0000) == ms % 0x1_0000_0000_0000 * 0x1_0000
  {
    var count := ms % 0x1_0000_0000_0000_0000;
    var q, r := count / 0x1_0000_0000_0000, count % 0x1_0000_0000_0000;
    assert count == q * 0x1_0000_0000_0000 + r;
    assert count * 0x1_0000 == q * 0x1_0000_0000_0000_0000 + r * 0x1_0000;
    DivModUnique(count * 0x1_0000, 0x1_0000_0000_0000_0000, q, r * 0x1_0000);
    var k := ms / 0x1_0000_0000_0000_0000;
    assert ms == k * 0x1_0000_0000_0000_0000 + count;
    assert ms == (k * 0x1_0000 + q) * 0x1_0000_0000_0000 + r;
    ModOf(ms, 0x1_0000_0000_0000, k * 0x1_0000 + q, r);
  }

  lemma ModOf(a: int, d: nat, q: int, r: nat)
    requires d > 0 && a == q * d + r && r < d
    ensures a % d == r
  {
    var q', r' := a / d, a % d;
    var k := q - q';
    assert k * d == q * d - q' * d == r' - r;
    if k >= 1 {
      MulAtLeast(k, d);
    } else if k <= -1 {
      MulAtLeast(-k, d);
    }
  }

  lemma MsbParts(ms: int, randA: nat)
    ensures Or(Or(Wrap(Wrap(ms) * 0x1_0000), 7 * 0x1000), And(randA, 0xFFF))
         == ms % 0x1_0000_0000_0000 * 0x1_0000 + 7 * 0x1000 + randA % 0x1000
  {
    CountWraps(ms);
    var ts := ms % 0x1_0000_0000_0000;
    OrField(ts, 0x1_0000, 7 * 0x1000);
    assert And(randA, 0xFFF) == randA % 0x1000 by { Mask(randA, 0x1000); }
    OrField(ts * 0x10 + 7, 0x1000, randA % 0x1000);
  }

  lemma LsbParts(randB: nat)
    ensures Or(And(randB, 0x3FFF_FFFF_FFFF_FFFF), 2 * 0x4000_0000_0000_0000)
         == 2 * 0x4000_0000_0000_0000 + randB % 0x4000_0000_0000_0000
  {
    Mask(randB, 0x4000_0000_0000_0000);
    OrCommutes(randB % 0x4000_0000_0000_0000, 2 * 0x4000_0000_0000_0000);
    OrField(2, 0x4000_0000_0000_0000, randB % 0x4000_0000_0000_0000);
  }

  // ---------------------------------------------------------------- validator

  datatype Reason = WrongVersion | UnsupportedVariant | FromTheFuture | HasExpired

  function TimestampMs(u: UUID): nat { And(u.msb / 0x1_0000, 0xFFFF_FFFF_FFFF) }
  function Version(u: UUID): nat { And(u.msb / 0x1000, 0xF) }
  function Variant(u: UUID): nat { And(u.lsb / 0x4000_0000_0000_0000, 3) }

  /** The timestamp as a clock reading. */
  function Ticks(u: UUID): nat { TimestampMs(u) * TICKS_PER_MS }

  /** Why `u` is not a UUID this library accepts at clock reading `now`, if so. */
  function IsUuid(u: UUID, now: int): Option<Reason> {
    if Version(u) != 7 then Some(WrongVersion)
    else if Variant(u) != 2 then Some(UnsupportedVariant)
    else if Ticks(u) > now then Some(FromTheFuture)
    else None
  }

  /** `now` and `later` are the two clock readings of one call. */
  function IsExpired(u: UUID, ttl: int, now: int, later: int): (bool, Option<Reason>) {
    if IsUuid(u, now).Some? then (false, IsUuid(u, now))
    else if later - Ticks(u) > ttl * TICKS_PER_MS then (true, Some(HasExpired))
    else (false, None)
  }

  /** None stands for the InvalidUuid exception; the three readings are in call order. */
  function ElapsedMs(u: UUID, t1: int, t2: int, t3: int): Option<int> {
    if IsUuid(u, t1).Some? || IsUuid(u, t3).Some? then None else Some(ToMs(t2 - Ticks(u)))
  }

  function RemainingMs(u: UUID, ttl: int, t1: int, t2: int, t3: int): Option<int> {
    match ElapsedMs(u, t1, t2, t3)
    case None => None
    case Some(e) => Some(if ttl - e > 0 then ttl - e else 0)
  }

  // ---------------------------------------------------------------- laws

  /** A built UUID has version 7 and variant 10b, keeps its random bits, and its
      timestamp reads back as the millisecond it was built in. */
  lemma BuiltFieldsReadBack(ms: int, randA: nat, randB: nat)
    ensures var u := V7(ms, randA, randB);
      && Version(u) == 7 && Variant(u) == 2 && TimestampMs(u) == ms % 0x1_0000_0000_0000
      && And(u.msb, 0xFFF) == randA % 0x1000 && And(u.lsb, 0x3FFF_FFFF_FFFF_FFFF) == randB % 0x4000_0000_0000_0000
    ensures 0 <= ms < 0x1_0000_0000_0000 ==> TimestampMs(V7(ms, randA, randB)) == ms
  {
    var u := V7(ms, randA, randB);
    var ts, a, b := ms % 0x1_0000_0000_0000, randA % 0x1000, randB % 0x4000_0000_0000_0000;
    DivModUnique(u.msb, 0x1_0000, ts, 7 * 0x1000 + a);
    MaskBelow(ts, 0x1_0000_0000_0000);
    DivModUnique(u.msb, 0x1000, ts * 0x10 + 7, a);
    Mask(ts * 0x10 + 7, 0x10);
    DivModUnique(ts * 0x10 + 7, 0x10, ts, 7);
    Mask(u.msb, 0x1000);
    DivModUnique(u.lsb, 0x4000_0000_0000_0000, 2, b);
    MaskBelow(2, 4);
    Mask(u.lsb, 0x4000_0000_0000_0000);
  }

  /** UUIDs built in a later millisecond sort later (section 6.11 of RFC 9562). */
  lemma LaterIsLarger(ms: nat, ms': nat, a: nat, a': nat, b: nat, b': nat)
    requires ms < ms' < 0x1_0000_0000_0000
    ensures V7(ms, a, b).msb < V7(ms', a', b').msb
  {
    assert ms % 0x1_0000_0000_0000 == ms && ms' % 0x1_0000_0000_0000 == ms';
  }

  /** A UUID built at `now` is accepted at every reading from `now` on, and before its
      millisecond at none. */
  lemma BuiltIsAcceptedFrom(now: int, randA: nat, randB: nat, t: int)
    requires 0 <= now && ToMs(now) < 0x1_0000_0000_0000
    ensures var u := V7(ToMs(now), randA, randB);
      && (IsUuid(u, t) == None <==> ToMs(now) * TICKS_PER_MS <= t)
      && (now <= t ==> IsUuid(u, t) == None)
  {
    BuiltFieldsReadBack(ToMs(now), randA, randB);
  }

  /** What is expired stays expired. */
  lemma ExpiryIsMonotone(u: UUID, ttl: int, now: int, later: int, now': int, later': int)
    requires now <= now' && later <= later' && IsExpired(u, ttl, now, later).0
    ensures IsExpired(u, ttl, now', later').0
  {
  }

  lemma ElapsedTruncates(elapsed: nat, ttl: int)
    ensures ToMs(elapsed) >= ttl <==> elapsed >= ttl * TICKS_PER_MS
  {
    var e, r := elapsed / TICKS_PER_MS, elapsed % TICKS_PER_MS;
    assert elapsed == e * TICKS_PER_MS + r;
  }

  /** Expired implies no time remaining, despite the truncation to milliseconds; the two
      differ only at the very tick the TTL runs out. */
  lemma ExpiredAgainstRemaining(u: UUID, ttl: int, t1: int, t2: int, t3: int)
    requires IsUuid(u, t1) == None && t1 <= t2 <= t3
    ensures RemainingMs(u, ttl, t1, t2, t3).Some?
    ensures IsExpired(u, ttl, t1, t2).0 <==>
      RemainingMs(u, ttl, t1, t2, t3) == Some(0) && t2 - Ticks(u) != ttl * TICKS_PER_MS
  {
    ElapsedTruncates(t2 - Ticks(u), ttl);
  }

  /** What remains counts down by whole milliseconds of the time that has passed, and is zero
      from the end of the TTL on. */
  lemma RemainingCountsDown(u: UUID, ttl: int, t1: int, t2: int, t3: int, n: int)
    requires t1 <= t2 <= t3
    ensures RemainingMs(u, ttl, t1, t2, t3) == None <==> IsUuid(u, t1) != None
    ensures n > 0 ==>
      (RemainingMs(u, ttl, t1, t2, t3) == Some(n) <==>
        && IsUuid(u, t1) == None
        && (ttl - n) * TICKS_PER_MS <= t2 - Ticks(u) < (ttl - n + 1) * TICKS_PER_MS)
    ensures RemainingMs(u, ttl, t1, t2, t3) == Some(0) <==>
      IsUuid(u, t1) == None && t2 - Ticks(u) >= ttl * TICKS_PER_MS
  {
    if IsUuid(u, t1) == None {
      var elapsed := t2 - Ticks(u);
      ElapsedTruncates(elapsed, ttl);
      ElapsedTruncates(elapsed, ttl - n);
      ElapsedTruncates(elapsed, ttl - n + 1);
    }
  }

  /** The accepted UUIDs are exactly those of the version 7 layout whose millisecond has come. */
  lemma AcceptedIff(u: UUID, now: int)
    ensures IsUuid(u, now) == None <==>
      exists ms: nat, a: nat, b: nat :: IsV7(u, ms, a, b) && ms * TICKS_PER_MS <= now
  {
    if IsUuid(u, now) == None {
      var ms, a, b := FieldsOf(u);
      assert IsV7(u, ms, a, b) && ms * TICKS_PER_MS <= now;
    }
    if ms: nat, a: nat, b: nat :| IsV7(u, ms, a, b) && ms * TICKS_PER_MS <= now {
      BuiltFieldsReadBack(ms, a, b);
    }
  }

  predicate IsV7(u: UUID, ms: nat, a: nat, b: nat) {
    ms < 0x1_0000_0000_0000 && a < 0x1000 && b < 0x4000_0000_0000_0000 && u == V7(ms, a, b)
  }

  lemma FieldsOf(u: UUID) returns (ms: nat, a: nat, b: nat)
    requires Version(u) == 7 && Variant(u) == 2
    ensures IsV7(u, ms, a, b) && TimestampMs(u) == ms
  {
    ms, a, b := u.msb / 0x1_0000, u.msb % 0x1000, u.lsb % 0x4000_0000_0000_0000;
    MaskBelow(ms, 0x1_0000_0000_0000);
    Mask(u.msb / 0x1000, 0x10);
    MaskBelow(u.lsb / 0x4000_0000_0000_0000, 4);
    assert u.msb / 0x1000 == ms * 0x10 + u.msb / 0x1000 % 0x10 by { NibbleSplit(u.msb); }
  }

  lemma NibbleSplit(w: Word64)
    ensures w / 0x1000 / 0x10 == w / 0x1_0000
  {
    var q, r := w / 0x1_0000, w % 0x1_0000;
    DivModUnique(w, 0x1000, q * 0x10 + r / 0x1000, r % 0x1000);
  }

  /** Version, variant and time are tested in this order, and a refused UUID does not count as
      expired. */
  lemma RefusedIff(u: UUID, ttl: int, now: int, later: int)
    ensures IsUuid(u, now) == Some(WrongVersion) <==> Version(u) != 7
    ensures IsUuid(u, now) == Some(UnsupportedVariant) <==> Version(u) == 7 && Variant(u) != 2
    ensures IsUuid(u, now) == Some(FromTheFuture) <==> Version(u) == 7 && Variant(u) == 2 && now < Ticks(u)
    ensures IsUuid(u, now) != Some(HasExpired)
    ensures IsUuid(u, now) != None ==> IsExpired(u, ttl, now, later) == (false, IsUuid(u, now))
    ensures IsExpired(u, ttl, now, later).0 <==> IsExpired(u, ttl, now, later).1 == Some(HasExpired)
  {
  }
}
