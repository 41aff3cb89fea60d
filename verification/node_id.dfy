/** 256-bit node identifiers: the XOR metric, the bucket index and the hexadecimal form. */
module NodeIds {
  import opened Wrappers
  import opened Bits

  const ID_BITS: nat := 256
  const ID_BYTES: nat := 32

  type Byte = b: nat | b < 256
  type Bytes = seq<Byte>
  type NodeId = id: Bytes | |id| == ID_BYTES witness seq(ID_BYTES, (i: nat) => 0)

  // ---------------------------------------------------------------------------
  // Big-endian integers
  // ---------------------------------------------------------------------------

  function FromBytes(s: Bytes): nat {
    if s == [] then 0 else 256 * FromBytes(s[..|s| - 1]) + s[|s| - 1]
  }

  function ToBytes(n: nat, length: nat): (s: Bytes)
    ensures |s| == length
  {
    if length == 0 then [] else ToBytes(n / 256, length - 1) + [n % 256]
  }

  lemma Pow2Byte(m: nat)
    ensures Pow2(m + 8) == 256 * Pow2(m)
  {
    assert Pow2(m + 4) == 16 * Pow2(m) by {
      assert Pow2(m + 2) == 4 * Pow2(m);
    }
    assert Pow2(m + 6) == 4 * Pow2(m + 4);
  }

  lemma {:induction false} FromBytesBound(s: Bytes)
    ensures FromBytes(s) < Pow2(8 * |s|)
  {
    if s != [] {
      FromBytesBound(s[..|s| - 1]);
      Pow2Byte(8 * |s| - 8);
    }
  }

  /** Byte strings are recovered from their integer and their length, ... */
  lemma {:induction false} ToBytesInvertsFromBytes(s: Bytes)
    ensures ToBytes(FromBytes(s), |s|) == s
  {
    if s != [] {
      ToBytesInvertsFromBytes(s[..|s| - 1]);
      assert s == s[..|s| - 1] + [s[|s| - 1]];
    }
  }

  /** ... and integers that fit are recovered from their bytes. */
  lemma {:induction false} FromBytesInvertsToBytes(n: nat, length: nat)
    requires n < Pow2(8 * length)
    ensures FromBytes(ToBytes(n, length)) == n
  {
    if length > 0 {
      Pow2Byte(8 * length - 8);
      FromBytesInvertsToBytes(n / 256, length - 1);
      var s := ToBytes(n, length);
      assert s[..length - 1] == ToBytes(n / 256, length - 1);
    }
  }

  /** Below 2^k one reads the bits of b, from there on those of x. */
  lemma {:induction false} BitOfSum(x: nat, b: nat, k: nat, n: nat)
    requires b < Pow2(k)
    ensures Bit(Pow2(k) * x + b, n) <==> if n < k then Bit(b, n) else Bit(x, n - k)
    decreases k
  {
    if k > 0 {
      var half := Pow2(k - 1) * x;
      assert Pow2(k) * x == 2 * half;
      assert (2 * half + b) / 2 == half + b / 2 && (2 * half + b) % 2 == b % 2;
      if n > 0 {
        BitOfSum(x, b / 2, k - 1, n - 1);
      }
    }
  }

  /** Big-endian: byte i from the left holds the bits from 8 * (length - 1 - i) on. */
  lemma {:induction false} FromBytesBit(s: Bytes, i: nat, j: nat)
    requires i < |s| && j < 8
    ensures Bit(FromBytes(s), 8 * (|s| - 1 - i) + j) <==> Bit(s[i], j)
  {
    var front, last := s[..|s| - 1], s[|s| - 1];
    Pow2Byte(0);
    BitOfSum(FromBytes(front), last, 8, 8 * (|s| - 1 - i) + j);
    if i < |s| - 1 {
      FromBytesBit(front, i, j);
    }
  }

  // ---------------------------------------------------------------------------
  // The XOR metric
  // ---------------------------------------------------------------------------

  /** The distance of two well-formed identifiers. */
  function Distance(a: NodeId, b: NodeId): nat {
    Xor(FromBytes(a), FromBytes(b))
  }

  /** The distance says bit for bit where two identifiers differ, the first byte weighing most. */
  lemma DistanceBit(a: NodeId, b: NodeId, i: nat, j: nat)
    requires i < ID_BYTES && j < 8
    ensures XorDistance(a, b) == Ok(Distance(a, b))
    ensures Bit(Distance(a, b), 8 * (ID_BYTES - 1 - i) + j) <==> (Bit(a[i], j) != Bit(b[i], j))
  {
    FromBytesBit(a, i, j);
    FromBytesBit(b, i, j);
    XorBit(FromBytes(a), FromBytes(b), 8 * (ID_BYTES - 1 - i) + j);
  }

  /** The public form, which rejects byte strings that are not identifiers. */
  function XorDistance(a: Bytes, b: Bytes): Result<nat> {
    if |a| != ID_BYTES then Err(ValueError)
    else if |b| != ID_BYTES then Err(ValueError)
    else Ok(Distance(a, b))
  }

  /** Identifiers at distance zero are equal. */
  lemma DistanceZeroIffEqual(a: NodeId, b: NodeId)
    ensures Distance(a, b) == 0 <==> a == b
  {
    XorZeroIffEqual(FromBytes(a), FromBytes(b));
    ToBytesInvertsFromBytes(a);
    ToBytesInvertsFromBytes(b);
  }

  lemma DistanceSymmetric(a: NodeId, b: NodeId)
    ensures Distance(a, b) == Distance(b, a)
  {
    XorCommutes(FromBytes(a), FromBytes(b));
  }

  /** Going through b composes the two distances by xor. */
  lemma DistanceComposes(a: NodeId, b: NodeId, c: NodeId)
    ensures Distance(a, c) == Xor(Distance(a, b), Distance(b, c))
  {
    XorCancel(FromBytes(a), FromBytes(b), FromBytes(c));
  }

  /** Exactly one identifier lies at any given distance from a. */
  lemma DistanceUnidirectional(a: NodeId, b: NodeId, c: NodeId)
    ensures Distance(a, b) == Distance(a, c) ==> b == c
  {
    DistanceSymmetric(a, b);
    DistanceComposes(b, a, c);
    XorZeroIffEqual(Distance(b, a), Distance(a, c));
    DistanceZeroIffEqual(b, c);
  }

  lemma DistanceBound(a: NodeId, b: NodeId)
    ensures Distance(a, b) < Pow2(ID_BITS)
  {
    FromBytesBound(a);
    FromBytesBound(b);
    BitLengthAtMost(FromBytes(a), ID_BITS);
    BitLengthAtMost(FromBytes(b), ID_BITS);
    XorBitLength(FromBytes(a), FromBytes(b));
    BitLengthAtMost(Distance(a, b), ID_BITS);
  }

  /** XorDistance is a metric on 32-byte strings, is defined on nothing else, and is unidirectional. */
  lemma XorDistanceIsMetric(a: Bytes, b: Bytes, c: Bytes)
    ensures XorDistance(a, b).Ok? <==> |a| == ID_BYTES && |b| == ID_BYTES
    ensures |a| == |b| == |c| == ID_BYTES ==>
              var ab, bc, ac := XorDistance(a, b).value, XorDistance(b, c).value, XorDistance(a, c).value;
              && (ab == 0 <==> a == b)
              && XorDistance(b, a).value == ab
              && ac <= ab + bc
              && ab < Pow2(ID_BITS)
              && (ab == ac ==> b == c)
  {
    if |a| == |b| == |c| == ID_BYTES {
      DistanceZeroIffEqual(a, b);
      DistanceSymmetric(a, b);
      DistanceComposes(a, b, c);
      XorAtMostSum(Distance(a, b), Distance(b, c));
      DistanceBound(a, b);
      DistanceUnidirectional(a, b, c);
    }
  }

  /** The identifier at distance d from a. */
  function AtDistance(a: NodeId, d: nat): NodeId {
    ToBytes(Xor(FromBytes(a), d), ID_BYTES)
  }

  /** Every distance below 2^256 is taken, so each identifier sees the whole space. */
  lemma EveryDistanceIsTaken(a: NodeId, d: nat)
    requires d < Pow2(ID_BITS)
    ensures Distance(a, AtDistance(a, d)) == d
  {
    var x := FromBytes(a);
    FromBytesBound(a);
    BitLengthAtMost(x, ID_BITS);
    BitLengthAtMost(d, ID_BITS);
    XorBitLength(x, d);
    BitLengthAtMost(Xor(x, d), ID_BITS);
    FromBytesInvertsToBytes(Xor(x, d), ID_BYTES);
    XorAssociates(x, x, d);
    XorZeroIffEqual(x, x);
    XorCommutes(0, d);
    XorZero(d);
  }

  /** The larger of two distances bounds the third side exactly when the top bit of the
      smaller one is set in the larger one: the metric is not an ultrametric. */
  lemma UltrametricExactlyWhen(a: NodeId, b: NodeId, c: NodeId)
    requires Distance(a, b) >= Distance(b, c)
    ensures Distance(a, c) <= Distance(a, b)
            <==> (Distance(b, c) == 0 || Bit(Distance(a, b), BitLength(Distance(b, c)) - 1))
  {
    var x, y := Distance(a, b), Distance(b, c);
    DistanceZeroIffEqual(b, c);
    DistanceComposes(a, b, c);
    XorZero(x);
    if y != 0 {
      XorCommutes(x, y);
      XorAssociates(y, x, x);
      XorZeroIffEqual(x, x);
      XorZero(y);
      XorZeroIffEqual(Xor(x, y), x);
      HighestDifferenceDecides(Xor(x, y), x, BitLength(y) - 1);
    }
  }

  /** Distances 1 and 2 add up to 3. */
  lemma UltrametricFails(a: NodeId)
    ensures var b := AtDistance(a, 1);
            var c := AtDistance(a, 3);
            Distance(a, b) == 1 && Distance(b, c) == 2 && Distance(a, c) == 3
  {
    assert Pow2(2) == 4;
    BitLengthAtMost(3, 2);
    BitLengthAtMost(3, ID_BITS);
    BitLengthAtMost(1, ID_BITS);
    EveryDistanceIsTaken(a, 1);
    EveryDistanceIsTaken(a, 3);
    var b, c := AtDistance(a, 1), AtDistance(a, 3);
    DistanceComposes(b, a, c);
    DistanceSymmetric(a, b);
    assert Xor(1, 3) == 2;
  }

  // ---------------------------------------------------------------------------
  // The bucket index
  // ---------------------------------------------------------------------------

  /** The position of the highest bit in which id differs from local. */
  function BucketIndex(local: NodeId, id: NodeId): (r: Result<nat>)
    ensures r.Err? <==> id == local
    ensures r.Ok? ==> r.value < ID_BITS
    ensures r.Ok? ==> Pow2(r.value) <= Distance(local, id) < Pow2(r.value + 1)
  {
    BucketIndexBounds(local, id);
    var d := Distance(local, id);
    if d == 0 then Err(ValueError) else Ok(BitLength(d) - 1)
  }

  lemma BucketIndexBounds(local: NodeId, id: NodeId)
    ensures Distance(local, id) == 0 <==> id == local
    ensures var d := Distance(local, id);
            d > 0 ==> Pow2(BitLength(d) - 1) <= d < Pow2(BitLength(d)) && BitLength(d) <= ID_BITS
  {
    var d := Distance(local, id);
    DistanceZeroIffEqual(local, id);
    DistanceBound(local, id);
    BitLengthAtMost(d, ID_BITS);
    if d > 0 {
      BitLengthBounds(d);
    }
  }

  /** The bucket index of a foreign identifier. */
  function Slot(local: NodeId, id: NodeId): (j: nat)
    requires id != local
    ensures j < ID_BITS
  {
    BucketIndex(local, id).value
  }

  /** The bucket index names the first byte from the left in which id differs from local, and in it the
      highest bit that differs. */
  lemma SlotIsFirstDifference(local: NodeId, id: NodeId, i: nat, j: nat)
    requires id != local && i < ID_BYTES && j < 8
    requires Slot(local, id) == 8 * (ID_BYTES - 1 - i) + j
    ensures local[..i] == id[..i]
    ensures Bit(local[i], j) != Bit(id[i], j)
    ensures forall h :: j < h < 8 ==> Bit(local[i], h) == Bit(id[i], h)
  {
    var d := Distance(local, id);
    TopBitSet(d);
    DistanceBit(local, id, i, j);
    forall h | j < h < 8
      ensures Bit(local[i], h) == Bit(id[i], h)
    {
      ShortHasNoHighBit(d, 8 * (ID_BYTES - 1 - i) + h);
      DistanceBit(local, id, i, h);
    }
    forall m | 0 <= m < i
      ensures local[m] == id[m]
    {
      forall h | 0 <= h < 8
        ensures Bit(local[m], h) == Bit(id[m], h)
      {
        ShortHasNoHighBit(d, 8 * (ID_BYTES - 1 - m) + h);
        DistanceBit(local, id, m, h);
      }
      SameBits(local[m], id[m], 8);
    }
  }

  lemma {:induction false} SameBits(x: nat, y: nat, n: nat)
    requires x < Pow2(n) && y < Pow2(n) && forall h :: 0 <= h < n ==> Bit(x, h) == Bit(y, h)
    ensures x == y
  {
    if n > 0 {
      assert Bit(x, 0) == Bit(y, 0);
      forall h | 0 <= h < n - 1
        ensures Bit(x / 2, h) == Bit(y / 2, h)
      {
        assert Bit(x, h + 1) == Bit(y, h + 1);
      }
      SameBits(x / 2, y / 2, n - 1);
    }
  }

  lemma {:induction false} TopBitSet(x: nat)
    requires x > 0
    ensures Bit(x, BitLength(x) - 1)
  {
    if x > 1 {
      TopBitSet(x / 2);
    }
  }

  /** The bucket index is an ultrametric, and every triangle is isosceles with a short base. */
  lemma SlotIsUltrametric(a: NodeId, b: NodeId, c: NodeId)
    requires a != b && b != c && a != c
    ensures Slot(a, b) == Slot(b, a)
    ensures Slot(a, c) <= if Slot(a, b) >= Slot(b, c) then Slot(a, b) else Slot(b, c)
    ensures Slot(a, b) != Slot(b, c) ==>
              Slot(a, c) == if Slot(a, b) >= Slot(b, c) then Slot(a, b) else Slot(b, c)
  {
    DistanceSymmetric(a, b);
    DistanceComposes(a, b, c);
    XorBitLength(Distance(a, b), Distance(b, c));
  }

  /** Two foreign identifiers in different buckets, seen from any target: the one in the higher
      bucket i is nearer exactly when bit i of the distance from local to the target is set. */
  lemma HigherBucketIsNearerIff(local: NodeId, target: NodeId, high: NodeId, low: NodeId)
    requires high != local && low != local
    requires Slot(local, high) > Slot(local, low)
    ensures Distance(high, target) != Distance(low, target)
    ensures Distance(high, target) < Distance(low, target)
            <==> Bit(Distance(local, target), Slot(local, high))
  {
    var i := Slot(local, high);
    var dh, dl := Distance(high, target), Distance(low, target);
    assert BitLength(Xor(dh, dl)) == i + 1 by {
      DistanceComposes(high, target, low);
      DistanceSymmetric(target, low);
      DistanceComposes(high, local, low);
      DistanceSymmetric(high, local);
      XorBitLength(Distance(local, high), Distance(local, low));
    }
    HighestDifferenceDecides(dh, dl, i);
    DistanceComposes(local, low, target);
    XorBit(Distance(local, low), dl, i);
    ShortHasNoHighBit(Distance(local, low), i);
  }

  lemma {:induction false} ShortHasNoHighBit(x: nat, i: nat)
    requires BitLength(x) <= i
    ensures !Bit(x, i)
    decreases i
  {
    if i > 0 {
      ShortHasNoHighBit(x / 2, i - 1);
    }
  }

  // ---------------------------------------------------------------------------
  // Hexadecimal form
  // ---------------------------------------------------------------------------

  function HexDigit(n: nat): char
    requires n < 16
  {
    if n < 10 then '0' + n as char else 'a' + (n - 10) as char
  }

  predicate IsSpace(c: char) {
    c in " \t\n\r" || c == 11 as char || c == 12 as char
  }

  function HexValue(c: char): (r: Option<nat>)
    ensures r.Some? ==> r.value < 16
  {
    if '0' <= c <= '9' then Some((c - '0') as int)
    else if 'a' <= c <= 'f' then Some((c - 'a') as int + 10)
    else if 'A' <= c <= 'F' then Some((c - 'A') as int + 10)
    else None
  }

  /** bytes.hex: two lower-case digits a byte. */
  function ToHex(s: Bytes): string {
    if s == [] then "" else [HexDigit(s[0] / 16), HexDigit(s[0] % 16)] + ToHex(s[1..])
  }

  /** bytes.fromhex: digits of either case in adjacent pairs, white space between pairs ignored. */
  function FromHex(s: string): Option<Bytes> {
    if s == "" then Some([])
    else if IsSpace(s[0]) then FromHex(s[1..])
    else if |s| == 1 then None
    else
      var hi, lo, rest := HexValue(s[0]), HexValue(s[1]), FromHex(s[2..]);
      if hi.None? || lo.None? || rest.None? then None
      else Some([16 * hi.value + lo.value] + rest.value)
  }

  function NodeIdToHex(id: Bytes): Result<string> {
    if |id| != ID_BYTES then Err(ValueError) else Ok(ToHex(id))
  }

  function NodeIdFromHex(s: string): (r: Result<NodeId>) {
    var raw := FromHex(s);
    if raw.None? || |raw.value| != ID_BYTES then Err(ValueError) else Ok(raw.value)
  }

  lemma {:induction false} FromHexInvertsToHex(s: Bytes)
    ensures FromHex(ToHex(s)) == Some(s)
  {
    if s != [] {
      var h, rest := ToHex(s), s[1..];
      FromHexInvertsToHex(rest);
      HexDigitValue(s[0] / 16);
      HexDigitValue(s[0] % 16);
      assert h == [HexDigit(s[0] / 16), HexDigit(s[0] % 16)] + ToHex(rest);
      assert h[2..] == ToHex(rest);
      assert FromHex(h) == Some([s[0]] + rest);
      assert s == [s[0]] + rest;
    }
  }

  lemma HexDigitValue(n: nat)
    requires n < 16
    ensures HexValue(HexDigit(n)) == Some(n) && !IsSpace(HexDigit(n))
  {
  }

  /** Byte i prints as two digits of the usual alphabet, the high half first. */
  lemma {:induction false} ToHexDigits(s: Bytes, i: nat)
    requires i < |s|
    ensures |ToHex(s)| == 2 * |s|
    ensures ToHex(s)[2 * i] == "0123456789abcdef"[s[i] / 16] && ToHex(s)[2 * i + 1] == "0123456789abcdef"[s[i] % 16]
  {
    UsualDigit(s[i] / 16);
    UsualDigit(s[i] % 16);
    ToHexLength(s);
    if i > 0 {
      ToHexDigits(s[1..], i - 1);
    }
  }

  lemma {:induction false} ToHexLength(s: Bytes)
    ensures |ToHex(s)| == 2 * |s|
  {
    if s != [] {
      ToHexLength(s[1..]);
    }
  }

  lemma UsualDigit(n: nat)
    requires n < 16
    ensures HexDigit(n) == "0123456789abcdef"[n]
  {
  }

  function UpperCase(s: string): string {
    seq(|s|, i requires 0 <= i < |s| => if 'a' <= s[i] <= 'z' then s[i] - 'a' + 'A' else s[i])
  }

  /** Upper-case spelling parses to the same bytes, ... */
  lemma {:induction false} UpperCaseParses(s: Bytes)
    ensures FromHex(UpperCase(ToHex(s))) == Some(s)
  {
    if s != [] {
      var h, u, rest := ToHex(s), UpperCase(ToHex(s)), s[1..];
      UpperCaseParses(rest);
      UpperDigitValue(s[0] / 16);
      UpperDigitValue(s[0] % 16);
      assert h == [HexDigit(s[0] / 16), HexDigit(s[0] % 16)] + ToHex(rest);
      assert u[2..] == UpperCase(ToHex(rest));
      assert FromHex(u) == Some([s[0]] + rest);
      assert s == [s[0]] + rest;
    }
  }

  lemma UpperDigitValue(n: nat)
    requires n < 16
    ensures var c := HexDigit(n);
            var u := if 'a' <= c <= 'z' then c - 'a' + 'A' else c;
            HexValue(u) == Some(n) && !IsSpace(u)
  {
  }

  /** ... and white space in front of a pair is skipped, while any other foreign character is an error. */
  lemma ForeignCharacter(c: char, t: string)
    requires c !in "0123456789abcdefABCDEF"
    ensures FromHex([c] + t) == if c in " \t\n\r" || c == 11 as char || c == 12 as char then FromHex(t) else None
  {
    assert ([c] + t)[1..] == t;
  }

  /** Parsing undoes printing, and printing never merges two identifiers. */
  lemma HexRoundTrip(id: NodeId)
    ensures NodeIdToHex(id).Ok? && NodeIdFromHex(NodeIdToHex(id).value) == Ok(id)
    ensures forall other: NodeId :: ToHex(other) == ToHex(id) ==> other == id
    ensures ToHex(id) != ""
  {
    FromHexInvertsToHex(id);
    forall other: NodeId | ToHex(other) == ToHex(id)
      ensures other == id
    {
      FromHexInvertsToHex(other);
    }
  }
}
