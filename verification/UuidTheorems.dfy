/** Both UUID codecs lose nothing, and they agree digit by digit. */
module UuidTheorems {
  import opened Datamodel
  import opened Bits
  import opened Hex
  import opened UuidText

  predicate InRange(g: Groups) {
    g.a < 0x1_0000_0000 && g.b < 0x1_0000 && g.c < 0x1_0000 && g.d < 0x1_0000 && g.e < 0x1_0000_0000_0000
  }

  /** The two words whose big-endian digits are the groups. */
  function Join(g: Groups): UUID
    requires InRange(g)
  {
    UUID(g.a * 0x1_0000_0000 + g.b * 0x1_0000 + g.c, g.d * 0x1_0000_0000_0000 + g.e)
  }

  lemma JoinSplit(u: UUID)
    ensures InRange(Split(u)) && Join(Split(u)) == u
  {
    MsbArithmetic(u.msb);
    LsbArithmetic(u.lsb);
    var high := u.msb / 0x1_0000;
    assert u.msb == high * 0x1_0000 + u.msb % 0x1_0000;
    assert high == high / 0x1_0000 * 0x1_0000 + high % 0x1_0000;
  }

  lemma SplitJoin(g: Groups)
    requires InRange(g)
    ensures Split(Join(g)) == g
  {
    var u := Join(g);
    DivModUnique(u.msb, 0x1_0000_0000, g.a, g.b * 0x1_0000 + g.c);
    DivModUnique(u.msb, 0x1_0000, g.a * 0x1_0000 + g.b, g.c);
    DivModUnique(g.a * 0x1_0000 + g.b, 0x1_0000, g.a, g.b);
    DivModUnique(u.lsb, 0x1_0000_0000_0000, g.d, g.e);
  }

  lemma Fits(x: nat)
    requires x < 0x1_0000_0000_0000_0000
    ensures Wrap(x) == x
  {
  }

  lemma TimestampJoins(a: nat, b: nat)
    requires a < 0x1_0000_0000 && b < 0x1_0000
    ensures Wrap(Or(Wrap(a * 0x1_0000), b)) == a * 0x1_0000 + b
  {
    Fits(a * 0x1_0000);
    OrField(a, 0x1_0000, b);
    Fits(a * 0x1_0000 + b);
  }

  lemma VersionShifts(ts: nat, ver: nat)
    requires ts < 0x1_0000_0000_0000 && ver < 0x10
    ensures Or(Wrap(ts * 0x1_0000), ver * 0x1000) == (ts * 0x10 + ver) * 0x1000
  {
    Fits(ts * 0x1_0000);
    assert Or(ts * 0x1_0000, ver * 0x1000) == ts * 0x1_0000 + ver * 0x1000 by {
      OrField(ts, 0x1_0000, ver * 0x1000);
    }
  }

  lemma RandomAJoins(high: nat, randA: nat)
    requires high < 0x1_0000_0000_0000 * 0x10 && randA < 0x1000
    ensures Wrap(Or(high * 0x1000, randA)) == high * 0x1000 + randA
  {
    assert Or(high * 0x1000, randA) == high * 0x1000 + randA by {
      OrField(high, 0x1000, randA);
    }
    Fits(high * 0x1000 + randA);
  }

  lemma VersionJoins(ts: nat, c: nat)
    requires ts < 0x1_0000_0000_0000 && c < 0x1_0000
    ensures Wrap(Or(Or(Wrap(ts * 0x1_0000), And(c / 0x1000, 0xF) * 0x1000), And(c, 0xFFF))) == ts * 0x1_0000 + c
  {
    var ver, randA := c / 0x1000, c % 0x1000;
    assert c == ver * 0x1000 + randA && ver < 0x10;
    assert And(ver, 0xF) == ver by {
      MaskBelow(ver, 0x10);
    }
    assert And(c, 0xFFF) == randA by {
      Mask(c, 0x1000);
    }
    VersionShifts(ts, ver);
    RandomAJoins(ts * 0x10 + ver, randA);
  }

  lemma RandomJoins(d: nat, e: nat)
    requires d < 0x4000 && e < 0x1_0000_0000_0000
    ensures Wrap(Or(Wrap(d * 0x1_0000_0000_0000), e)) == d * 0x1_0000_0000_0000 + e
  {
    Fits(d * 0x1_0000_0000_0000);
    OrField(d, 0x1_0000_0000_0000, e);
    Fits(d * 0x1_0000_0000_0000 + e);
  }

  lemma VariantJoins(d: nat, randB: nat)
    requires d < 4 && randB < 0x4000_0000_0000_0000
    ensures Wrap(Or(Wrap(d * 0x4000_0000_0000_0000), randB)) == d * 0x4000_0000_0000_0000 + randB
  {
    Fits(d * 0x4000_0000_0000_0000);
    OrField(d, 0x4000_0000_0000_0000, randB);
    Fits(d * 0x4000_0000_0000_0000 + randB);
  }

  lemma AssembleMsbJoins(a: nat, b: nat, c: nat)
    requires a < 0x1_0000_0000 && b < 0x1_0000 && c < 0x1_0000
    ensures AssembleMsb(a, b, c) == (a * 0x1_0000 + b) * 0x1_0000 + c
  {
    var ts := a * 0x1_0000 + b;
    var low := c % 0x1_0000;
    assert low == c && ts < 0x1_0000_0000_0000;
    TimestampJoins(a, b);
    VersionJoins(ts, low);
    calc {
      AssembleMsb(a, b, c);
      Wrap(Or(Or(Wrap(ts * 0x1_0000), And(low / 0x1000, 0xF) * 0x1000), And(low, 0xFFF)));
      ts * 0x1_0000 + low;
    }
  }

  lemma AssembleLsbJoins(d: nat, e: nat)
    requires d < 0x1_0000 && e < 0x1_0000_0000_0000
    ensures AssembleLsb(d, e) == d * 0x1_0000_0000_0000 + e
  {
    assert d % 0x1_0000 == d;
    var v, r := d / 0x4000, d % 0x4000;
    assert d == v * 0x4000 + r && v < 4;
    assert And(v, 3) == v && And(d, 0x3FFF) == r by {
      MaskBelow(v, 4);
      Mask(d, 0x4000);
    }
    RandomJoins(r, e);
    VariantJoins(v, r * 0x1_0000_0000_0000 + e);
  }

  /** Read groups that fit their width are put together as they stand. */
  lemma AssembleIsJoin(g: Groups)
    requires InRange(g)
    ensures Assemble(g) == Join(g)
  {
    AssembleMsbJoins(g.a, g.b, g.c);
    AssembleLsbJoins(g.d, g.e);
  }

  lemma {:induction false} HexPrefixOf(s: string)
    requires AllHex(s)
    ensures HexPrefix(s) == s
  {
    if s != [] {
      HexPrefixOf(s[1..]);
      assert s == [s[0]] + s[1..];
    }
  }

  lemma DigitsOf(s: string)
    requires AllHex(s)
    ensures Digits(s) == s
  {
    HexPrefixOf(s);
    assert |s| > 1 ==> IsHexDigit(s[1]);
  }

  lemma StoullHex(s: string)
    requires AllHex(s) && s != [] && Value(s) < 0x1_0000_0000_0000_0000
    ensures Stoull(s) == Some(Value(s))
  {
    assert IsHexDigit(s[0]);
    assert SkipSpaces(s) == s;
    DigitsOf(s);
  }

  /** The groups of a text whose groups are all hex digits. */
  ghost predicate IsHexUuid(s: string) {
    HasShape(s) && AllHex(s[0..8]) && AllHex(s[9..13]) && AllHex(s[14..18]) && AllHex(s[19..23]) && AllHex(s[24..])
  }

  lemma Pow16Values()
    ensures Pow16(4) == 0x1_0000 && Pow16(8) == 0x1_0000_0000 && Pow16(12) == 0x1_0000_0000_0000
  {
  }

  lemma ParseHex(s: string)
    requires IsHexUuid(s)
    ensures var g := Groups(Value(s[0..8]), Value(s[9..13]), Value(s[14..18]), Value(s[19..23]), Value(s[24..]));
      InRange(g) && Parse(s) == Ok(Join(g))
  {
    Pow16Values();
    ValueBound(s[0..8]);
    ValueBound(s[9..13]);
    ValueBound(s[14..18]);
    ValueBound(s[19..23]);
    ValueBound(s[24..]);
    StoullHex(s[0..8]);
    StoullHex(s[9..13]);
    StoullHex(s[14..18]);
    StoullHex(s[19..23]);
    StoullHex(s[24..]);
    AssembleIsJoin(Groups(Value(s[0..8]), Value(s[9..13]), Value(s[14..18]), Value(s[19..23]), Value(s[24..])));
  }

  lemma LayoutGroups(g: Groups)
    ensures var s := Layout(g);
      && HasShape(s)
      && s[0..8] == Padded(g.a, 8) && s[9..13] == Padded(g.b, 4) && s[14..18] == Padded(g.c, 4)
      && s[19..23] == Padded(g.d, 4) && s[24..] == Padded(g.e, 12)
  {
  }

  /** Every 128-bit UUID reads back from its text. */
  lemma TextRoundTrip(u: UUID)
    ensures Parse(Text(u)) == Ok(u)
  {
    var g := Split(u);
    LayoutGroups(g);
    ParseHex(Text(u));
    Pow16Values();
    PaddedValue(g.a, 8);
    PaddedValue(g.b, 4);
    PaddedValue(g.c, 4);
    PaddedValue(g.d, 4);
    PaddedValue(g.e, 12);
    JoinSplit(u);
  }

  lemma {:induction false} LowerConcat(a: string, b: string)
    ensures Lower(a + b) == Lower(a) + Lower(b)
  {
    if b == [] {
      assert a + b == a;
    } else {
      var n := |b| - 1;
      LowerConcat(a, b[..n]);
      assert (a + b)[..|a + b| - 1] == a + b[..n];
    }
  }

  lemma LowerShape(s: string)
    requires HasShape(s)
    ensures Lower(s) == Lower(s[0..8]) + "-" + Lower(s[9..13]) + "-" + Lower(s[14..18])
                        + "-" + Lower(s[19..23]) + "-" + Lower(s[24..])
  {
    var a, b, c, d, e := s[0..8], s[9..13], s[14..18], s[19..23], s[24..];
    assert s == a + "-" + b + "-" + c + "-" + d + "-" + e;
    assert Lower("-") == "-" by { assert "-"[..0] == []; }
    LowerConcat(a + "-" + b + "-" + c + "-" + d + "-", e);
    LowerConcat(a + "-" + b + "-" + c + "-" + d, "-");
    LowerConcat(a + "-" + b + "-" + c + "-", d);
    LowerConcat(a + "-" + b + "-" + c, "-");
    LowerConcat(a + "-" + b + "-", c);
    LowerConcat(a + "-" + b, "-");
    LowerConcat(a + "-", b);
    LowerConcat(a, "-");
  }

  /** A well-formed text of hex digits prints back in lower case. */
  lemma TextIsLowerCase(s: string)
    requires IsHexUuid(s)
    ensures Parse(s).Ok? && Text(Parse(s).value) == Lower(s)
  {
    ParseHex(s);
    var g := Groups(Value(s[0..8]), Value(s[9..13]), Value(s[14..18]), Value(s[19..23]), Value(s[24..]));
    SplitJoin(g);
    PaddedOfValue(s[0..8]);
    PaddedOfValue(s[9..13]);
    PaddedOfValue(s[14..18]);
    PaddedOfValue(s[19..23]);
    PaddedOfValue(s[24..]);
    LowerShape(s);
  }

  // ---------------------------------------------------------------- bytes

  lemma WordRoundTrip(w: Word32)
    ensures FromBigEndian(BigEndian(w)) == w
  {
    var h := w / 0x100;
    var g := h / 0x100;
    assert w == h * 0x100 + w % 0x100 && h == g * 0x100 + h % 0x100 && g == g / 0x100 * 0x100 + g % 0x100;
  }

  lemma BytesRoundTripWord(b: seq<Byte>)
    requires |b| == 4
    ensures BigEndian(FromBigEndian(b)) == b
  {
    var g := (b[0] as int) * 0x100 + b[1] as int;
    var h := g * 0x100 + b[2] as int;
    DivModUnique(h * 0x100 + b[3] as int, 0x100, h, b[3]);
    DivModUnique(h, 0x100, g, b[2]);
    DivModUnique(g, 0x100, b[0], b[1]);
  }

  /** Every UUID reads back from its sixteen bytes. */
  lemma BytesRoundTrip(u: UUID)
    ensures |ToBytes(u)| == 16 && FromBytes(ToBytes(u)) == Ok(u)
  {
    var b := ToBytes(u);
    WordRoundTrip(u.msb / 0x1_0000_0000);
    WordRoundTrip(u.msb % 0x1_0000_0000);
    WordRoundTrip(u.lsb / 0x1_0000_0000);
    WordRoundTrip(u.lsb % 0x1_0000_0000);
    assert b[0..4] == BigEndian(u.msb / 0x1_0000_0000) && b[4..8] == BigEndian(u.msb % 0x1_0000_0000);
    assert b[8..12] == BigEndian(u.lsb / 0x1_0000_0000) && b[12..16] == BigEndian(u.lsb % 0x1_0000_0000);
  }

  /** Exactly the vectors of sixteen bytes are accepted, and each is the bytes of what it
      reads as: together with BytesRoundTrip, a bijection. */
  lemma BytesAreBijective(b: seq<Byte>)
    ensures FromBytes(b).Ok? <==> |b| == 16
    ensures |b| == 16 ==> ToBytes(FromBytes(b).value) == b
  {
    if |b| == 16 {
      BytesRoundTripWord(b[0..4]);
      BytesRoundTripWord(b[4..8]);
      BytesRoundTripWord(b[8..12]);
      BytesRoundTripWord(b[12..16]);
      assert b == b[0..4] + b[4..8] + b[8..12] + b[12..16];
    }
  }

  // ---------------------------------------------------------------- text against bytes

  function HexOf(b: seq<Byte>): string {
    if b == [] then "" else HexOf(b[..|b| - 1]) + Padded(b[|b| - 1], 2)
  }

  function WithoutDashes(s: string): string
    requires HasShape(s)
  {
    s[0..8] + s[9..13] + s[14..18] + s[19..23] + s[24..]
  }

  lemma PaddedByte(n: nat, width: nat)
    requires width >= 2
    ensures Padded(n, width) == Padded(n / 0x100, width - 2) + Padded(n % 0x100, 2)
  {
    var m, r0 := n / 16, n % 16;
    var q, r1 := m / 16, m % 16;
    DivModUnique(n, 0x100, q, 16 * r1 + r0);
    DivModUnique(16 * r1 + r0, 16, r1, r0);
    assert Padded(m, width - 1) == Padded(q, width - 2) + [LowerDigit(r1)];
    assert Padded(r1, 1) == Padded(0, 0) + [LowerDigit(r1)];
    assert Padded(16 * r1 + r0, 2) == Padded(r1, 1) + [LowerDigit(r0)];
  }

  lemma ConcatStep(high: nat, low: nat, p: nat, q: nat, n: nat)
    requires p == 16 * q && n == high * p + low && low < p
    ensures n / 16 == high * q + low / 16 && n % 16 == low % 16 && low / 16 < q
  {
    assert high * (16 * q) == 16 * (high * q);
    DivModUnique(n, 16, high * q + low / 16, low % 16);
  }

  lemma PaddedJoins(n: nat, width: nat, front: string, low: nat, k: nat)
    requires width > 0 && k > 0 && n % 16 == low % 16
    requires Padded(n / 16, width - 1) == front + Padded(low / 16, k - 1)
    ensures Padded(n, width) == front + Padded(low, k)
  {
  }

  /** Printing two adjacent groups is printing their join. */
  lemma {:induction false} PaddedConcat(high: nat, low: nat, w: nat, k: nat, p: nat)
    requires p == Pow16(k) && low < p
    ensures Padded(high * p + low, w + k) == Padded(high, w) + Padded(low, k)
    decreases k
  {
    var n := high * p + low;
    if k > 0 {
      var q := Pow16(k - 1);
      ConcatStep(high, low, p, q, n);
      PaddedConcat(high, low / 16, w, k - 1, q);
      PaddedJoins(n, w + k, Padded(high, w), low, k);
    } else {
      assert n == high;
    }
  }

  lemma HexOfFour(b0: Byte, b1: Byte, b2: Byte, b3: Byte)
    ensures HexOf([b0, b1, b2, b3]) == Padded(b0, 2) + Padded(b1, 2) + Padded(b2, 2) + Padded(b3, 2)
  {
    HexOfConcat([b0, b1, b2], [b3]);
    HexOfConcat([b0, b1], [b2]);
    HexOfConcat([b0], [b1]);
    assert [b0, b1, b2, b3] == [b0, b1, b2] + [b3] && [b0, b1, b2] == [b0, b1] + [b2] && [b0, b1] == [b0] + [b1];
    assert forall b: Byte :: [b][..0] == [];
    assert HexOf([b0]) == Padded(b0, 2) && HexOf([b1]) == Padded(b1, 2);
    assert HexOf([b2]) == Padded(b2, 2) && HexOf([b3]) == Padded(b3, 2);
  }

  lemma HexOfWord(w: Word32)
    ensures HexOf(BigEndian(w)) == Padded(w, 8)
  {
    var h := w / 0x100;
    var g := h / 0x100;
    HexOfFour(g / 0x100, g % 0x100, h % 0x100, w % 0x100);
    PaddedByte(w, 8);
    PaddedByte(h, 6);
    PaddedByte(g, 4);
  }

  lemma {:induction false} HexOfConcat(a: seq<Byte>, b: seq<Byte>)
    ensures HexOf(a + b) == HexOf(a) + HexOf(b)
  {
    if b == [] {
      assert a + b == a;
    } else {
      var n := |b| - 1;
      HexOfConcat(a, b[..n]);
      assert (a + b)[..|a + b| - 1] == a + b[..n];
    }
  }

  lemma BytesDigits(u: UUID)
    ensures HexOf(ToBytes(u)) == Padded(u.msb / 0x1_0000_0000, 8) + Padded(u.msb % 0x1_0000_0000, 8)
                                 + Padded(u.lsb / 0x1_0000_0000, 8) + Padded(u.lsb % 0x1_0000_0000, 8)
  {
    var a, b, c, d := u.msb / 0x1_0000_0000, u.msb % 0x1_0000_0000, u.lsb / 0x1_0000_0000, u.lsb % 0x1_0000_0000;
    HexOfConcat(BigEndian(a) + BigEndian(b) + BigEndian(c), BigEndian(d));
    HexOfConcat(BigEndian(a) + BigEndian(b), BigEndian(c));
    HexOfConcat(BigEndian(a), BigEndian(b));
    HexOfWord(a);
    HexOfWord(b);
    HexOfWord(c);
    HexOfWord(d);
  }

  lemma GroupArithmetic(u: UUID)
    ensures var g := Split(u);
      && g.b * 0x1_0000 + g.c == u.msb % 0x1_0000_0000
      && g.d * 0x1_0000 + g.e / 0x1_0000_0000 == u.lsb / 0x1_0000_0000
      && g.e % 0x1_0000_0000 == u.lsb % 0x1_0000_0000
      && g.e / 0x1_0000_0000 < 0x1_0000
  {
    var g := Split(u);
    JoinSplit(u);
    DivModUnique(u.msb, 0x1_0000_0000, g.a, g.b * 0x1_0000 + g.c);
    var q, r := g.e / 0x1_0000_0000, g.e % 0x1_0000_0000;
    DivModUnique(u.lsb, 0x1_0000_0000, g.d * 0x1_0000 + q, r);
  }

  /** The hex digits of the text are those of the big-endian bytes (section 4 of RFC 9562). */
  lemma TextDigitsAreByteDigits(u: UUID)
    ensures HasShape(Text(u)) && WithoutDashes(Text(u)) == HexOf(ToBytes(u))
  {
    var g := Split(u);
    LayoutGroups(g);
    BytesDigits(u);
    WordDigits(u);
    Regroup(Padded(g.a, 8), Padded(g.b, 4), Padded(g.c, 4), Padded(g.d, 4),
            Padded(g.e / 0x1_0000_0000, 4), Padded(g.e % 0x1_0000_0000, 8));
  }

  lemma WordDigits(u: UUID)
    ensures var g := Split(u);
      && Padded(u.msb % 0x1_0000_0000, 8) == Padded(g.b, 4) + Padded(g.c, 4)
      && Padded(u.lsb / 0x1_0000_0000, 8) == Padded(g.d, 4) + Padded(g.e / 0x1_0000_0000, 4)
      && Padded(u.lsb % 0x1_0000_0000, 8) == Padded(g.e % 0x1_0000_0000, 8)
      && Padded(g.e, 12) == Padded(g.e / 0x1_0000_0000, 4) + Padded(g.e % 0x1_0000_0000, 8)
  {
    var g := Split(u);
    GroupArithmetic(u);
    JoinedDigits(u.msb % 0x1_0000_0000, g.b, g.c);
    JoinedDigits(u.lsb / 0x1_0000_0000, g.d, g.e / 0x1_0000_0000);
    LastGroupDigits(g.e, g.e / 0x1_0000_0000, g.e % 0x1_0000_0000);
  }

  lemma LastGroupDigits(e: nat, high: nat, low: nat)
    requires e == high * 0x1_0000_0000 + low && low < 0x1_0000_0000
    ensures Padded(e, 12) == Padded(high, 4) + Padded(low, 8)
  {
    Pow16Values();
    PaddedConcat(high, low, 4, 8, 0x1_0000_0000);
  }

  lemma JoinedDigits(x: nat, high: nat, low: nat)
    requires x == high * 0x1_0000 + low && low < 0x1_0000
    ensures Padded(x, 8) == Padded(high, 4) + Padded(low, 4)
  {
    Pow16Values();
    PaddedConcat(high, low, 4, 4, 0x1_0000);
  }

  lemma Regroup(a: string, b: string, c: string, d: string, e: string, f: string)
    ensures a + b + c + d + (e + f) == a + (b + c) + (d + e) + f
  {
  }

  /** A group as stoull accepts it starts, after white space and a sign, with a hex digit. */
  predicate StartsAsNumber(group: string) {
    var body := SkipSpaces(group);
    var digits := if body != [] && (body[0] == '-' || body[0] == '+') then body[1..] else body;
    digits != [] && IsHexDigit(digits[0])
  }

  /** Only texts of 36 characters with the four dashes and a number in every group are read. */
  lemma ReadHasShape(s: string)
    requires Parse(s).Ok?
    ensures |s| == 36 && s[8] == '-' && s[13] == '-' && s[18] == '-' && s[23] == '-'
    ensures StartsAsNumber(s[0..8]) && StartsAsNumber(s[9..13]) && StartsAsNumber(s[14..18])
    ensures StartsAsNumber(s[19..23]) && StartsAsNumber(s[24..])
  {
  }

  lemma {:induction false} SpacesSkipped(ws: string, rest: string)
    requires forall i | 0 <= i < |ws| :: ws[i] == ' ' || '\t' <= ws[i] <= '\r'
    requires rest != [] && !(rest[0] == ' ' || '\t' <= rest[0] <= '\r')
    ensures SkipSpaces(ws + rest) == rest
  {
    if ws == [] {
      assert ws + rest == rest;
    } else {
      SpacesSkipped(ws[1..], rest);
      assert (ws + rest)[1..] == ws[1..] + rest;
    }
  }

  lemma {:induction false} PrefixIsRun(digits: string, junk: string)
    requires AllHex(digits) && (junk != [] ==> !IsHexDigit(junk[0]))
    ensures HexPrefix(digits + junk) == digits
  {
    if digits == [] {
      assert digits + junk == junk;
    } else {
      PrefixIsRun(digits[1..], junk);
      assert (digits + junk)[1..] == digits[1..] + junk;
    }
  }

  lemma DigitsAreRun(digits: string, junk: string)
    requires digits != [] && AllHex(digits)
    requires junk != [] ==> !IsHexDigit(junk[0]) && junk[0] != 'x' && junk[0] != 'X'
    ensures Digits(digits + junk) == digits
  {
    PrefixIsRun(digits, junk);
    var s := digits + junk;
    if |s| > 1 {
      assert s[1] == if |digits| > 1 then digits[1] else junk[0];
    }
  }

  /** The sign and the digits stoull finds: it reads exactly those. */
  predicate Reads(s: string, minus: bool, digits: string) {
    var body := SkipSpaces(s);
    && body != [] && minus == (body[0] == '-')
    && digits == Digits(if body[0] == '-' || body[0] == '+' then body[1..] else body)
  }

  lemma StoullIs(s: string, minus: bool, digits: string)
    requires Reads(s, minus, digits) && digits != [] && Value(digits) < 0x1_0000_0000_0000_0000
    ensures Stoull(s) == Some(if minus then Wrap(-(Value(digits) as int)) else Value(digits))
  {
  }

  /** An optional 0x goes before the digits. */
  predicate IsPrefix(prefix: string) {
    prefix == "" || prefix == "0x" || prefix == "0X"
  }

  lemma PrefixSkipped(prefix: string, digits: string, junk: string)
    requires IsPrefix(prefix) && digits != [] && AllHex(digits)
    requires junk != [] ==> !IsHexDigit(junk[0]) && junk[0] != 'x' && junk[0] != 'X'
    ensures Digits(prefix + (digits + junk)) == digits
  {
    if prefix == "" {
      assert prefix + (digits + junk) == digits + junk;
      DigitsAreRun(digits, junk);
    } else {
      var s := prefix + (digits + junk);
      assert s[2] == digits[0] && s[2..] == digits + junk;
      PrefixIsRun(digits, junk);
    }
  }

  lemma ReadsNumber(ws: string, sign: string, prefix: string, digits: string, junk: string)
    requires forall i | 0 <= i < |ws| :: ws[i] == ' ' || '\t' <= ws[i] <= '\r'
    requires (sign == "" || sign == "+" || sign == "-") && IsPrefix(prefix)
    requires digits != [] && AllHex(digits)
    requires junk != [] ==> !IsHexDigit(junk[0]) && junk[0] != 'x' && junk[0] != 'X'
    ensures Reads(ws + (sign + (prefix + (digits + junk))), sign == "-", digits)
  {
    var number := prefix + (digits + junk);
    var body := sign + number;
    PrefixSkipped(prefix, digits, junk);
    assert number[0] == if prefix == "" then digits[0] else '0';
    if sign == "" {
      assert body == number;
    } else {
      assert body[1..] == number && body[0] == sign[0];
    }
    SpacesSkipped(ws, body);
  }

  /** stoull reads the number after white space, a sign and a 0x, up to the first character that
      is no digit, and a minus sign wraps around. */
  lemma StoullReads(ws: string, sign: string, prefix: string, digits: string, junk: string)
    requires forall i | 0 <= i < |ws| :: ws[i] == ' ' || '\t' <= ws[i] <= '\r'
    requires (sign == "" || sign == "+" || sign == "-") && IsPrefix(prefix)
    requires digits != [] && AllHex(digits) && Value(digits) < 0x1_0000_0000_0000_0000
    requires junk != [] ==> !IsHexDigit(junk[0]) && junk[0] != 'x' && junk[0] != 'X'
    ensures Stoull(ws + (sign + (prefix + (digits + junk)))) ==
      Some(if sign == "-" then Wrap(-(Value(digits) as int)) else Value(digits))
  {
    ReadsNumber(ws, sign, prefix, digits, junk);
    StoullIs(ws + (sign + (prefix + (digits + junk))), sign == "-", digits);
  }
}
