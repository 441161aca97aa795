/** The hash the engine records: SHA-256 as text. */
module RecordedHash {
  import opened Bits
  import opened Sha256
  import opened WorkspaceVerify

  const HEX: string := "0123456789abcdef"

  function HexDigit(n: nat): char
    requires n < 16
  {
    HEX[n]
  }

  /** support::to_hex: two digits for each byte, the high half first. */
  function ToHex(d: seq<bv8>): (s: string)
    ensures |s| == 2 * |d|
  {
    if d == [] then ""
    else
      var n := |d| - 1;
      ToHex(d[..n]) + HexOf(d[n])
  }

  function HexOf(x: bv8): (s: string)
    ensures |s| == 2
  {
    var v := x as nat;
    [HexDigit(v / 16), HexDigit(v % 16)]
  }

  method Hex(d: seq<bv8>) returns (s: string)
    ensures s == ToHex(d)
  {
    s := "";
    for i := 0 to |d|
      invariant s == ToHex(d[..i])
    {
      assert d[..i + 1][..i] == d[..i];
      var v := d[i] as nat;
      s := s + [HexDigit(v / 16)];
      s := s + [HexDigit(v % 16)];
    }
    assert d[..|d|] == d;
  }

  lemma HexExample()
    ensures ToHex([0xba, 0x05]) == "ba05"
  {
    assert [0xba, 0x05][..1] == [0xba] && [0xba][..0] == [];
    assert ToHex([0xba]) == "" + HexOf(0xba) == "ba" && HexOf(0x05) == "05";
  }

  function AsBytes(b: seq<byte>): (s: seq<bv8>)
    ensures |s| == |b| && forall i :: 0 <= i < |b| ==> s[i] == b[i] as bv8
  {
    seq(|b|, i requires 0 <= i < |b| => b[i] as bv8)
  }

  function HashText(b: seq<byte>): string {
    ToHex(Digest(AsBytes(b)))
  }

  lemma DigestLength(m: seq<bv8>)
    ensures |Digest(m)| == 32
  {
    hide HashBlocks, Padded;
  }

  /** It is a hash as the verification wants one: never empty, in fact always of 64 digits. */
  lemma HashTextIsReal()
    ensures RealHash(HashText) && forall b :: |HashText(b)| == 64
  {
    forall b: seq<byte>
      ensures |HashText(b)| == 64 && HashText(b) != ""
    {
      DigestLength(AsBytes(b));
    }
  }
}
