/** Fixed-width unsigned integers and their little-endian byte layout, as
    Go's encoding/binary writes them. */
module Wire {

  newtype byte = x: int | 0 <= x < 0x100
  newtype u16 = x: int | 0 <= x < 0x1_0000
  newtype u32 = x: int | 0 <= x < 0x1_0000_0000

  const U32Modulus: int := 0x1_0000_0000

  /** Go's uint32 conversion of a non-negative integer: keep the low 32 bits. */
  function ToU32(n: nat): (r: u32)
    ensures n < U32Modulus ==> r as int == n
  {
    (n % U32Modulus) as u32
  }

  /** The conversion keeps the value modulo 2^32. */
  lemma ToU32Congruent(n: nat)
    ensures (ToU32(n) as int - n) % U32Modulus == 0
  {
  }

  /** binary.LittleEndian.PutUint16 */
  function LeU16(x: u16): (r: seq<byte>)
    ensures |r| == 2
  {
    [(x % 0x100) as byte, (x / 0x100) as byte]
  }

  /** binary.LittleEndian.PutUint32 */
  function LeU32(x: u32): (r: seq<byte>)
    ensures |r| == 4
  {
    var v := x as int;
    [(v % 0x100) as byte, (v / 0x100 % 0x100) as byte,
     (v / 0x100 / 0x100 % 0x100) as byte, (v / 0x100 / 0x100 / 0x100) as byte]
  }

  /** binary.LittleEndian.Uint16 */
  function ReadU16(b: seq<byte>): u16
    requires |b| >= 2
  {
    (b[0] as int + b[1] as int * 0x100) as u16
  }

  /** binary.LittleEndian.Uint32: reads the first four bytes. */
  function ReadU32(b: seq<byte>): u32
    requires |b| >= 4
  {
    (b[0] as int + b[1] as int * 0x100 + b[2] as int * 0x1_0000 + b[3] as int * 0x100_0000) as u32
  }

  lemma U16RoundTrip(x: u16)
    ensures ReadU16(LeU16(x)) == x
  {
  }

  /** Reading back the four bytes that PutUint32 wrote gives the value written. */
  lemma U32RoundTrip(x: u32)
    ensures ReadU32(LeU32(x)) == x
  {
    var v := x as int;
    var q1 := v / 0x100;
    var q2 := q1 / 0x100;
    var q3 := q2 / 0x100;
    assert v == q1 * 0x100 + v % 0x100;
    assert q1 == q2 * 0x100 + q1 % 0x100;
    assert q2 == q3 * 0x100 + q2 % 0x100;
    var b := LeU32(x);
    assert b[0] as int == v % 0x100 && b[1] as int == q1 % 0x100;
    assert b[2] as int == q2 % 0x100 && b[3] as int == q3;
  }

  /** Only the first two bytes matter to ReadU16. */
  lemma ReadU16Prefix(b: seq<byte>, rest: seq<byte>)
    requires |b| >= 2
    ensures ReadU16(b + rest) == ReadU16(b)
  {
  }

  /** Only the first four bytes matter to ReadU32. */
  lemma ReadU32Prefix(b: seq<byte>, rest: seq<byte>)
    requires |b| >= 4
    ensures ReadU32(b + rest) == ReadU32(b)
  {
  }
}
