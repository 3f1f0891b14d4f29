/** The string and byte forms of a UUID. */
module UuidText {
  import opened Datamodel
  import opened Bits
  import opened Hex

  datatype Result<T> = Ok(value: T) | InvalidArgument

  type Byte = b: nat | b < 0x100

  // ---------------------------------------------------------------- to text

  /** The five groups of the text. */
  datatype Groups = Groups(a: nat, b: nat, c: nat, d: nat, e: nat)

  /** The groups of the big-endian digits of the two words. */
  function Split(u: UUID): Groups {
    Groups(u.msb / 0x1_0000_0000, u.msb / 0x1_0000 % 0x1_0000, u.msb % 0x1_0000,
           u.lsb / 0x1_0000_0000_0000, u.lsb % 0x1_0000_0000_0000)
  }

  function Layout(g: Groups): string {
    Padded(g.a, 8) + "-" + Padded(g.b, 4) + "-" + Padded(g.c, 4) + "-" + Padded(g.d, 4) + "-" + Padded(g.e, 12)
  }

  function Text(u: UUID): string { Layout(Split(u)) }

  /** `AsString::serialize`: takes the UUIDv7 fields apart and prints them. */
  method SerializeText(u: UUID) returns (ss: string)
    ensures ss == Text(u)
  {
    var unixTsMs := And(u.msb / 0x1_0000, 0xFFFF_FFFF_FFFF);
    var ver := And(u.msb / 0x1000, 0xF);
    var randA := And(u.msb, 0xFFF);
    var variant := And(u.lsb / 0x4000_0000_0000_0000, 3);
    var randB := And(u.lsb, 0x3FFF_FFFF_FFFF_FFFF);
    var third := Or(And(ver, 0xF) * 0x1000, And(randA, 0xFFF));
    var fourth := Or(And(variant, 3) * 0x4000, And(randB / 0x1_0000_0000_0000, 0x3FFF));
    MsbFields(u.msb, unixTsMs, ver, randA);
    LsbFields(u.lsb, variant, randB);
    ss := Padded(And(unixTsMs / 0x1_0000, 0xFFFF_FFFF), 8);
    ss := ss + "-" + Padded(And(unixTsMs, 0xFFFF), 4);
    ss := ss + "-" + Padded(third, 4);
    ss := ss + "-" + Padded(fourth, 4);
    ss := ss + "-" + Padded(And(randB, 0xFFFF_FFFF_FFFF), 12);
  }

  lemma MsbArithmetic(msb: Word64)
    ensures msb / 0x1_0000 < 0x1_0000_0000_0000 && msb / 0x1_0000_0000 < 0x1_0000_0000
    ensures msb / 0x1_0000 / 0x1_0000 == msb / 0x1_0000_0000
    ensures msb / 0x1000 % 0x10 * 0x1000 + msb % 0x1000 == msb % 0x1_0000
  {
    var h, l := msb / 0x1_0000, msb % 0x1_0000;
    var hh, hl := h / 0x1_0000, h % 0x1_0000;
    DivModUnique(msb, 0x1_0000_0000, hh, hl * 0x1_0000 + l);
    var v, a := l / 0x1000, l % 0x1000;
    DivModUnique(msb, 0x1000, h * 0x10 + v, a);
    DivModUnique(h * 0x10 + v, 0x10, h, v);
  }

  lemma LsbArithmetic(lsb: Word64)
    ensures var v, b := lsb / 0x4000_0000_0000_0000, lsb % 0x4000_0000_0000_0000;
      && v < 4 && b / 0x1_0000_0000_0000 < 0x4000 && b % 0x1_0000_0000_0000 == lsb % 0x1_0000_0000_0000
      && v * 0x4000 + b / 0x1_0000_0000_0000 == lsb / 0x1_0000_0000_0000
  {
    var v, b := lsb / 0x4000_0000_0000_0000, lsb % 0x4000_0000_0000_0000;
    var bh, bl := b / 0x1_0000_0000_0000, b % 0x1_0000_0000_0000;
    DivModUnique(lsb, 0x1_0000_0000_0000, v * 0x4000 + bh, bl);
  }

  lemma MsbFields(msb: Word64, unixTsMs: nat, ver: nat, randA: nat)
    requires unixTsMs == And(msb / 0x1_0000, 0xFFFF_FFFF_FFFF)
    requires ver == And(msb / 0x1000, 0xF) && randA == And(msb, 0xFFF)
    ensures And(unixTsMs / 0x1_0000, 0xFFFF_FFFF) == msb / 0x1_0000_0000
    ensures And(unixTsMs, 0xFFFF) == msb / 0x1_0000 % 0x1_0000
    ensures Or(And(ver, 0xF) * 0x1000, And(randA, 0xFFF)) == msb % 0x1_0000
  {
    MsbArithmetic(msb);
    MaskBelow(msb / 0x1_0000, 0x1_0000_0000_0000);
    MaskBelow(unixTsMs / 0x1_0000, 0x1_0000_0000);
    Mask(unixTsMs, 0x1_0000);
    Mask(msb / 0x1000, 0x10);
    Mask(msb, 0x1000);
    MaskBelow(ver, 0x10);
    MaskBelow(randA, 0x1000);
    OrField(ver, 0x1000, randA);
  }

  lemma LsbFields(lsb: Word64, variant: nat, randB: nat)
    requires variant == And(lsb / 0x4000_0000_0000_0000, 3) && randB == And(lsb, 0x3FFF_FFFF_FFFF_FFFF)
    ensures Or(And(variant, 3) * 0x4000, And(randB / 0x1_0000_0000_0000, 0x3FFF)) == lsb / 0x1_0000_0000_0000
    ensures And(randB, 0xFFFF_FFFF_FFFF) == lsb % 0x1_0000_0000_0000
  {
    LsbArithmetic(lsb);
    MaskBelow(lsb / 0x4000_0000_0000_0000, 4);
    MaskBelow(variant, 4);
    Mask(lsb, 0x4000_0000_0000_0000);
    MaskBelow(randB / 0x1_0000_0000_0000, 0x4000);
    Mask(randB, 0x1_0000_0000_0000);
    OrField(variant, 0x4000, randB / 0x1_0000_0000_0000);
  }

  // ---------------------------------------------------------------- from text

  function HexPrefix(s: string): (r: string)
    ensures r <= s && AllHex(r)
  {
    if s == [] || !IsHexDigit(s[0]) then [] else [s[0]] + HexPrefix(s[1..])
  }

  function SkipSpaces(s: string): string {
    if s != [] && (s[0] == ' ' || '\t' <= s[0] <= '\r') then SkipSpaces(s[1..]) else s
  }

  /** An optional 0x, then the longest run of hex digits. */
  function Digits(s: string): (r: string)
    ensures AllHex(r)
  {
    if |s| > 2 && s[0] == '0' && (s[1] == 'x' || s[1] == 'X') && IsHexDigit(s[2])
    then HexPrefix(s[2..]) else HexPrefix(s)
  }

  /** std::stoull in base 16: leading white space and a sign go before the digits, and a
      minus sign wraps around. */
  function Stoull(s: string): Option<Word64> {
    var body := SkipSpaces(s);
    var signed := body != [] && (body[0] == '-' || body[0] == '+');
    var digits := Digits(if signed then body[1..] else body);
    if digits == [] || Value(digits) >= 0x1_0000_0000_0000_0000 then None
    else Some(if signed && body[0] == '-' then Wrap(-(Value(digits) as int)) else Value(digits))
  }

  /** The fields of the UUID put together from the five numbers read. */
  function AssembleMsb(a: nat, b: nat, c: nat): Word64 {
    var unixTsMs := Wrap(Or(Wrap(a * 0x1_0000), b));
    var msbLow := c % 0x1_0000;
    var ver := And(msbLow / 0x1000, 0xF);
    var randA := And(msbLow, 0xFFF);
    Wrap(Or(Or(Wrap(unixTsMs * 0x1_0000), ver * 0x1000), randA))
  }

  function AssembleLsb(d: nat, e: nat): Word64 {
    var varRandB := d % 0x1_0000;
    var variant := And(varRandB / 0x4000, 3);
    var randB := Wrap(Or(Wrap(And(varRandB, 0x3FFF) * 0x1_0000_0000_0000), e));
    Wrap(Or(Wrap(variant * 0x4000_0000_0000_0000), randB))
  }

  function Assemble(g: Groups): UUID {
    UUID(AssembleMsb(g.a, g.b, g.c), AssembleLsb(g.d, g.e))
  }

  predicate HasShape(s: string) {
    |s| == 36 && s[8] == '-' && s[13] == '-' && s[18] == '-' && s[23] == '-'
  }

  function Parse(s: string): Result<UUID> {
    if !HasShape(s) then InvalidArgument
    else
      var a, b, c, d, e :=
        Stoull(s[0..8]), Stoull(s[9..13]), Stoull(s[14..18]), Stoull(s[19..23]), Stoull(s[24..]);
      if a.None? || b.None? || c.None? || d.None? || e.None? then InvalidArgument
      else Ok(Assemble(Groups(a.value, b.value, c.value, d.value, e.value)))
  }

  // ---------------------------------------------------------------- bytes

  /** htonl followed by memcpy: the four bytes of `w`, most significant first. */
  function BigEndian(w: Word32): seq<Byte> {
    var h := w / 0x100;
    var g := h / 0x100;
    [g / 0x100, g % 0x100, h % 0x100, w % 0x100]
  }

  function FromBigEndian(b: seq<Byte>): Word32
    requires |b| == 4
  {
    var g := (b[0] as int) * 0x100 + b[1] as int;
    var h := g * 0x100 + b[2] as int;
    h * 0x100 + b[3] as int
  }

  function ToBytes(u: UUID): seq<Byte> {
    BigEndian(u.msb / 0x1_0000_0000) + BigEndian(u.msb % 0x1_0000_0000)
    + BigEndian(u.lsb / 0x1_0000_0000) + BigEndian(u.lsb % 0x1_0000_0000)
  }

  function FromBytes(b: seq<Byte>): Result<UUID> {
    if |b| != 16 then InvalidArgument
    else Ok(UUID(FromBigEndian(b[0..4]) * 0x1_0000_0000 + FromBigEndian(b[4..8]),
                 FromBigEndian(b[8..12]) * 0x1_0000_0000 + FromBigEndian(b[12..16])))
  }

  /** std::memcpy of one big-endian word. */
  method CopyWord(bytes: array<Byte>, at: nat, w: Word32)
    requires at + 4 <= bytes.Length
    modifies bytes
    ensures bytes[..] == old(bytes[..at]) + BigEndian(w) + old(bytes[at + 4..])
  {
    var be := BigEndian(w);
    bytes[at], bytes[at + 1], bytes[at + 2], bytes[at + 3] := be[0], be[1], be[2], be[3];
  }

  /** `AsBytes::serialize`: four copies into a vector of sixteen bytes. */
  method SerializeBytes(u: UUID) returns (bytes: array<Byte>)
    ensures fresh(bytes) && bytes[..] == ToBytes(u)
  {
    bytes := new Byte[16](_ => 0);
    LowWord(u.msb);
    LowWord(u.lsb);
    CopyWord(bytes, 0, u.msb / 0x1_0000_0000);
    assert bytes[..4] == BigEndian(u.msb / 0x1_0000_0000);
    CopyWord(bytes, 4, And(u.msb, 0xFFFF_FFFF));
    assert bytes[..8] == BigEndian(u.msb / 0x1_0000_0000) + BigEndian(u.msb % 0x1_0000_0000);
    CopyWord(bytes, 8, u.lsb / 0x1_0000_0000);
    assert bytes[..12] == BigEndian(u.msb / 0x1_0000_0000) + BigEndian(u.msb % 0x1_0000_0000)
                          + BigEndian(u.lsb / 0x1_0000_0000);
    CopyWord(bytes, 12, And(u.lsb, 0xFFFF_FFFF));
  }

  lemma JoinWords(high: Word32, low: Word32)
    ensures Or(high * 0x1_0000_0000, low) == high * 0x1_0000_0000 + low
  {
    OrField(high, 0x1_0000_0000, low);
  }

  lemma LowWord(w: Word64)
    ensures And(w, 0xFFFF_FFFF) == w % 0x1_0000_0000
  {
    Mask(w, 0x1_0000_0000);
  }

  /** `AsBytes::deserialize`. */
  method DeserializeBytes(bytes: seq<Byte>) returns (r: Result<UUID>)
    ensures r == FromBytes(bytes)
  {
    if |bytes| != 16 {
      return InvalidArgument;
    }
    var msbHigh: nat, msbLow: nat := FromBigEndian(bytes[0..4]), FromBigEndian(bytes[4..8]);
    var lsbHigh: nat, lsbLow: nat := FromBigEndian(bytes[8..12]), FromBigEndian(bytes[12..16]);
    JoinWords(msbHigh, msbLow);
    JoinWords(lsbHigh, lsbLow);
    return Ok(UUID(Or(msbHigh * 0x1_0000_0000, msbLow), Or(lsbHigh * 0x1_0000_0000, lsbLow)));
  }
}
