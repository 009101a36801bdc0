/**
 * The store's document identifiers (BSON ObjectIds): 12 bytes, rendered by
 * `str()` as 24 lowercase hexadecimal digits; `ObjectId.is_valid` accepts a
 * string of 24 hexadecimal digits of either case.
 */
module ObjectIds {
  import opened Encoding

  function Pow256(k: nat): (p: nat)
    ensures p >= 1
  {
    if k == 0 then 1 else 256 * Pow256(k - 1)
  }

  /** The number of distinct 12-byte identifiers. */
  const IdSpace: nat := 0x1_0000_0000_0000_0000_0000_0000

  lemma IdSpaceIsPow()
    ensures IdSpace == Pow256(12)
  {
  }

  /** An identifier, seen as the 96-bit number its 12 bytes spell. */
  type ObjectId = n: nat | n < IdSpace

  /** The `k` low-order bytes of `n`, most significant first. */
  function BigEndian(n: nat, k: nat): (bs: seq<byte>)
    ensures |bs| == k
  {
    if k == 0 then [] else BigEndian(n / 256, k - 1) + [(n % 256) as byte]
  }

  /** The number a big-endian byte string spells. */
  function FromBigEndian(bs: seq<byte>): (n: nat)
    ensures n < Pow256(|bs|)
  {
    if bs == [] then 0
    else
      var hi := FromBigEndian(bs[..|bs| - 1]);
      var lo := bs[|bs| - 1] as int;
      assert hi * 256 + lo < Pow256(|bs| - 1) * 256 by {
        assert hi + 1 <= Pow256(|bs| - 1);
        assert (hi + 1) * 256 <= Pow256(|bs| - 1) * 256;
      }
      hi * 256 + lo
  }

  lemma {:induction false} FromBigEndianOf(n: nat, k: nat)
    requires n < Pow256(k)
    ensures FromBigEndian(BigEndian(n, k)) == n
  {
    if k > 0 {
      var bs := BigEndian(n, k);
      assert n / 256 < Pow256(k - 1);
      FromBigEndianOf(n / 256, k - 1);
      assert bs[..k - 1] == BigEndian(n / 256, k - 1);
    }
  }

  lemma {:induction false} BigEndianOf(bs: seq<byte>)
    ensures BigEndian(FromBigEndian(bs), |bs|) == bs
    decreases |bs|
  {
    if bs != [] {
      var init := bs[..|bs| - 1];
      var n := FromBigEndian(bs);
      assert n / 256 == FromBigEndian(init) && n % 256 == bs[|bs| - 1] as int;
      BigEndianOf(init);
      assert bs == init + [bs[|bs| - 1]];
    }
  }

  /** `str(ObjectId)`: the hexadecimal rendering of the 12 bytes. */
  function IdString(id: ObjectId): string {
    Hex(BigEndian(id, 12))
  }

  /** `ObjectId.is_valid` on a string. */
  predicate IsValidId(s: string) {
    |s| == 24 && AllHexDigits(s)
  }

  /** `ObjectId(s)` for a valid string. */
  function ParseId(s: string): ObjectId
    requires IsValidId(s)
  {
    IdSpaceIsPow();
    FromBigEndian(FromHex(s))
  }

  /**
   * The string form of an identifier is 24 lowercase hexadecimal digits,
   * is valid, and parses back to the identifier.
   */
  lemma ParseIdString(id: ObjectId)
    ensures |IdString(id)| == 24 && forall k :: 0 <= k < 24 ==> IsLowerHexDigit(IdString(id)[k])
    ensures IsValidId(IdString(id)) && ParseId(IdString(id)) == id
  {
    FromHexOfHex(BigEndian(id, 12));
    IdSpaceIsPow();
    FromBigEndianOf(id, 12);
  }

  /**
   * A string `is_valid` accepts and that is written in lowercase is the
   * string form of the identifier `ObjectId(s)` builds from it, so
   * `ParseId` and `IdString` are inverse on the ids the store renders.
   */
  lemma ParseIdRendersBack(s: string)
    requires IsValidId(s) && forall k :: 0 <= k < |s| ==> IsLowerHexDigit(s[k])
    ensures IdString(ParseId(s)) == s
  {
    IdSpaceIsPow();
    BigEndianOf(FromHex(s));
    HexOfFromHex(s);
  }
}
