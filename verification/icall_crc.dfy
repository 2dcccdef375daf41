/**
 * The bit-serial CRC-16 (polynomial 0x1021) used by the ICall start-up code
 * to validate a ROM image (common/cc26xx/icall_startup.c).
 */
module IcallCrc {

  const CRC16_POLYNOMIAL: bv16 := 0x1021

  /** One pass of the inner loop of `slow_crc16`: the register is shifted left,
      the data bit enters at bit 0, and the polynomial is XORed in when the
      bit shifted out of bit 15 was set. */
  function CrcBit(crc: bv16, dataBit: bool): bv16
  {
    var shifted := if dataBit then (crc << 1) | 1 else crc << 1;
    if crc & 0x8000 != 0 then shifted ^ CRC16_POLYNOMIAL else shifted
  }

  function Msb(b: bv8): bool { b & 0x80 != 0 }

  /** The `n` most significant bits of `b` fed in, most significant first. */
  function CrcBits(crc: bv16, b: bv8, n: nat): bv16
    requires n <= 8
    decreases n
  {
    if n == 0 then crc else CrcBits(CrcBit(crc, Msb(b)), b << 1, n - 1)
  }

  function CrcByte(crc: bv16, b: bv8): bv16
  {
    CrcBits(crc, b, 8)
  }

  /** The register after the bytes of `data`, first byte first. */
  function Crc(crc: bv16, data: seq<bv8>): bv16
    decreases |data|
  {
    if data == [] then crc else Crc(CrcByte(crc, data[0]), data[1..])
  }

  /** Feeding `a + b` is feeding `a`, then `b` from the register `a` left. */
  lemma {:induction false} CrcConcat(crc: bv16, a: seq<bv8>, b: seq<bv8>)
    ensures Crc(crc, a + b) == Crc(Crc(crc, a), b)
    decreases |a|
  {
    if a == [] {
      assert a + b == b;
    } else {
      assert (a + b)[0] == a[0] && (a + b)[1..] == a[1..] + b;
      CrcConcat(CrcByte(crc, a[0]), a[1..], b);
    }
  }

  /** The inner `for` loop of `slow_crc16` over one byte. */
  method ShiftInByte(crc0: bv16, value: bv8) returns (crc: bv16)
    ensures crc == CrcByte(crc0, value)
  {
    crc := crc0;
    var b := value;
    var i := 0;
    while i < 8
      invariant i <= 8
      invariant CrcBits(crc, b, 8 - i) == CrcByte(crc0, value)
    {
      crc := CrcBit(crc, b & 0x80 != 0);
      b := b << 1;
      i := i + 1;
    }
  }

  /** `slow_crc16`: the register after the first `len` bytes of `data`; with
      `len` 0 the register comes back unchanged. */
  method SlowCrc16(crc0: bv16, data: array<bv8>, len: nat) returns (crc: bv16)
    requires len <= data.Length && len < 0x1_0000_0000
    ensures crc == Crc(crc0, data[..len])
    ensures len == 0 ==> crc == crc0
  {
    crc := crc0;
    var p := 0;
    while p < len
      invariant p <= len
      invariant Crc(crc0, data[..len]) == Crc(crc, data[p..len])
    {
      crc := ShiftInByte(crc, data[p]);
      assert data[p..len] == [data[p]] + data[p + 1..len];
      p := p + 1;
    }
  }

  /** The 16-bit word stored little-endian at byte offset `end + 1`. */
  function StoredCrc(rom: seq<bv8>, end: nat): bv16
    requires end + 2 < |rom|
  {
    (rom[end + 1] as bv16) | ((rom[end + 2] as bv16) << 8)
  }

  /** `validChecksum`: the CRC from 0 over the image bytes `begin..end`
      (inclusive), continued over two zero bytes, compared with the stored
      word. */
  function ValidChecksum(rom: seq<bv8>, begin: nat, end: nat): (ok: bool)
    requires begin <= end && end + 2 < |rom|
    ensures ok <==> Crc(0, rom[begin..end + 1] + [0, 0]) == StoredCrc(rom, end)
  {
    CrcConcat(0, rom[begin..end + 1], [0, 0]);
    Crc(Crc(0, rom[begin..end + 1]), [0, 0]) == StoredCrc(rom, end)
  }
}
