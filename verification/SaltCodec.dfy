/** Storage form of a commit salt: each u16 as two little-endian bytes, the bytes as lower-case hex. */
module SaltCodec {
  import opened Base

  function ToLeBytes(salt: seq<u16>): (bytes: seq<u8>)
    ensures |bytes| == 2 * |salt|
  {
    if salt == [] then [] else [salt[0] % 256, salt[0] / 256] + ToLeBytes(salt[1..])
  }

  function FromLe(lo: u8, hi: u8): (x: u16) {
    lo as int + 256 * hi as int
  }

  /** Pairs of bytes become u16 values; a lone trailing byte becomes one u16. */
  function FromChunks(bytes: seq<u8>): (salt: seq<u16>) {
    if bytes == [] then []
    else if |bytes| == 1 then [bytes[0]]
    else [FromLe(bytes[0], bytes[1])] + FromChunks(bytes[2..])
  }

  function HexDigit(n: int): char
    requires 0 <= n < 16
  {
    if n < 10 then '0' + n as char else 'a' + (n - 10) as char
  }

  /** Both letter cases are accepted when reading. */
  function HexValue(c: char): (v: Option<u8>)
    ensures v.Some? ==> v.value < 16
  {
    if '0' <= c <= '9' then Some((c - '0') as int)
    else if 'a' <= c <= 'f' then Some((c - 'a') as int + 10)
    else if 'A' <= c <= 'F' then Some((c - 'A') as int + 10)
    else None
  }

  function HexEncode(bytes: seq<u8>): string {
    if bytes == [] then "" else [HexDigit(bytes[0] / 16), HexDigit(bytes[0] % 16)] + HexEncode(bytes[1..])
  }

  function HexDecode(s: string): Option<seq<u8>> {
    if s == "" then Some([])
    else if |s| == 1 then None
    else
      match (HexValue(s[0]), HexValue(s[1]), HexDecode(s[2..]))
      case (Some(hi), Some(lo), Some(rest)) => Some([16 * hi + lo] + rest)
      case _ => None
  }

  function SaltToHex(salt: seq<u16>): string {
    HexEncode(ToLeBytes(salt))
  }

  /** An undecodable string reads as the empty salt. */
  function GetSalt(hex: string): seq<u16> {
    match HexDecode(hex)
    case Some(bytes) => FromChunks(bytes)
    case None => []
  }

  lemma HexDigitValue(n: int)
    requires 0 <= n < 16
    ensures HexValue(HexDigit(n)) == Some(n)
  {
  }

  lemma {:induction false} HexRoundTrip(bytes: seq<u8>)
    ensures HexDecode(HexEncode(bytes)) == Some(bytes)
  {
    if bytes == [] {
    } else {
      HexRoundTrip(bytes[1..]);
      HexDigitValue(bytes[0] / 16);
      HexDigitValue(bytes[0] % 16);
      var s := HexEncode(bytes);
      assert s[2..] == HexEncode(bytes[1..]);
      assert bytes == [bytes[0]] + bytes[1..];
    }
  }

  lemma {:induction false} ChunkRoundTrip(salt: seq<u16>)
    ensures FromChunks(ToLeBytes(salt)) == salt
  {
    if salt == [] {
    } else {
      ChunkRoundTrip(salt[1..]);
      assert ToLeBytes(salt)[2..] == ToLeBytes(salt[1..]);
    }
  }

  /** What is read back for a reveal is the salt that was hashed into the commit. */
  lemma SaltRoundTrip(salt: seq<u16>)
    ensures GetSalt(SaltToHex(salt)) == salt
  {
    HexRoundTrip(ToLeBytes(salt));
    ChunkRoundTrip(salt);
  }

  /** The low byte comes first, and each byte's high digit. */
  lemma SaltExample()
    ensures SaltToHex([0x1234, 0xabcd]) == "3412cdab"
  {
    assert [0x1234, 0xabcd][1..] == [0xabcd] && [0xabcd][1..] == [];
    assert ToLeBytes([0xabcd]) == [0xcd, 0xab];
    assert ToLeBytes([0x1234, 0xabcd]) == [0x34, 0x12, 0xcd, 0xab];
    assert [0x34, 0x12, 0xcd, 0xab][1..] == [0x12, 0xcd, 0xab] && [0x12, 0xcd, 0xab][1..] == [0xcd, 0xab];
    assert [0xcd, 0xab][1..] == [0xab] && [0xab][1..] == [];
    assert HexEncode([0xab]) == "ab";
    assert HexEncode([0xcd, 0xab]) == "cdab";
    assert HexEncode([0x12, 0xcd, 0xab]) == "12cdab";
  }
}
