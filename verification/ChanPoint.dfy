/**
 Channel points as text: the funding transaction's id in hexadecimal, last byte first, a colon and the
 output index.
 */
module ChanPoint {

  import opened Decimal

  datatype Option<+T> = None | Some(value: T)

  newtype byte = b: int | 0 <= b < 256

  type Uint32 = n: nat | n < 0x1_0000_0000

  type Txid = s: seq<byte> | |s| == 32 witness seq(32, _ => 0)

  datatype ChannelPoint = ChannelPoint(txid: Txid, outputIndex: Uint32)

  const HEX := "0123456789abcdef"

  function Reversed(s: seq<byte>): (r: seq<byte>)
    ensures |r| == |s| && forall i :: 0 <= i < |s| ==> r[i] == s[|s| - 1 - i]
  {
    seq(|s|, i requires 0 <= i < |s| => s[|s| - 1 - i])
  }

  // ---------- Hexadecimal ----------

  function Pair(b: byte): (r: string)
    ensures |r| == 2
  {
    [HEX[b as int / 16], HEX[b as int % 16]]
  }

  function Encode(s: seq<byte>): (r: string)
    ensures |r| == 2 * |s|
  {
    if s == [] then "" else Encode(s[..|s| - 1]) + Pair(s[|s| - 1])
  }

  /** The value of a hexadecimal digit of either case. */
  function Nibble(c: char): (r: Option<int>)
    ensures r.Some? ==> 0 <= r.value < 16
  {
    if '0' <= c <= '9' then Some(c as int - '0' as int)
    else if 'a' <= c <= 'f' then Some(c as int - 'a' as int + 10)
    else if 'A' <= c <= 'F' then Some(c as int - 'A' as int + 10)
    else None
  }

  function ByteOf(hi: char, lo: char): Option<byte> {
    if Nibble(hi).None? || Nibble(lo).None? then None
    else Some((Nibble(hi).value * 16 + Nibble(lo).value) as byte)
  }

  function Decode(s: string): Option<seq<byte>> {
    if s == "" then Some([])
    else if |s| == 1 then None
    else
      var before, last := Decode(s[..|s| - 2]), ByteOf(s[|s| - 2], s[|s| - 1]);
      if before.None? || last.None? then None else Some(before.value + [last.value])
  }

  function Lower(c: char): char {
    if 'A' <= c <= 'Z' then (c as int + 32) as char else c
  }

  function LowerAll(s: string): (r: string)
    ensures |r| == |s| && forall i :: 0 <= i < |s| ==> r[i] == Lower(s[i])
  {
    seq(|s|, i requires 0 <= i < |s| => Lower(s[i]))
  }

  lemma NibbleHex(n: nat)
    requires n < 16
    ensures Nibble(HEX[n]) == Some(n)
  {}

  lemma HexNibble(c: char)
    requires Nibble(c).Some?
    ensures HEX[Nibble(c).value] == Lower(c)
  {}

  lemma ByteOfPair(b: byte)
    ensures ByteOf(Pair(b)[0], Pair(b)[1]) == Some(b)
  {
    hide Nibble;
    NibbleHex(b as int / 16);
    NibbleHex(b as int % 16);
  }

  lemma PairOfByte(hi: char, lo: char)
    requires ByteOf(hi, lo).Some?
    ensures Pair(ByteOf(hi, lo).value) == [Lower(hi), Lower(lo)]
  {
    hide Nibble, Lower;
    HexNibble(hi);
    HexNibble(lo);
    Split16(Nibble(hi).value, Nibble(lo).value);
  }

  lemma Split16(hi: int, lo: int)
    requires 0 <= hi < 16 && 0 <= lo < 16
    ensures (hi * 16 + lo) / 16 == hi && (hi * 16 + lo) % 16 == lo
  {}

  lemma {:induction false} DecodeEncode(s: seq<byte>)
    ensures Decode(Encode(s)) == Some(s)
  {
    hide Pair, ByteOf;
    if s != [] {
      var before, pair := s[..|s| - 1], Pair(s[|s| - 1]);
      DecodeEncode(before);
      ByteOfPair(s[|s| - 1]);
      var e := Encode(s);
      assert e == Encode(before) + pair && e[..|e| - 2] == Encode(before);
      assert e[|e| - 2] == pair[0] && e[|e| - 1] == pair[1];
      assert before + [s[|s| - 1]] == s;
    }
  }

  lemma {:induction false} EncodeDecode(s: string)
    requires Decode(s).Some?
    ensures |s| == 2 * |Decode(s).value| && Encode(Decode(s).value) == LowerAll(s)
  {
    hide Pair, ByteOf, Lower;
    if s != "" {
      var before, hi, lo := s[..|s| - 2], s[|s| - 2], s[|s| - 1];
      EncodeDecode(before);
      PairOfByte(hi, lo);
      var d := Decode(s).value;
      assert d[..|d| - 1] == Decode(before).value;
      LowerTwo(s);
    }
  }

  lemma LowerTwo(s: string)
    requires |s| >= 2
    ensures LowerAll(s) == LowerAll(s[..|s| - 2]) + [Lower(s[|s| - 2]), Lower(s[|s| - 1])]
  {}

  // ---------- Numbers and the whole ----------

  /** An unsigned number of 32 bits in decimal. */
  function ParseUint32(s: string): Option<Uint32> {
    if s == "" || (exists c :: c in s && !IsDigit(c)) then None
    else if 0 <= Value(s) < 0x1_0000_0000 then Some(Value(s))
    else None
  }

  function ToStr(cp: ChannelPoint): string {
    Encode(Reversed(cp.txid)) + ":" + Digits(cp.outputIndex)
  }

  /** The place of the first colon, or the length of the text. */
  function Colon(s: string): (p: nat)
    ensures p <= |s| && (p < |s| ==> s[p] == ':') && forall k :: 0 <= k < p ==> s[k] != ':'
  {
    if s == "" || s[0] == ':' then 0 else 1 + Colon(s[1..])
  }

  function FromStr(s: string): Option<ChannelPoint> {
    var p := Colon(s);
    if p == |s| || p != 64 then None
    else
      var txid, outIdx := Decode(s[..p]), ParseUint32(s[p + 1..]);
      if txid.None? || outIdx.None? then None
      else
        assert |txid.value| == 32 by { EncodeDecode(s[..p]); }
        Some(ChannelPoint(Reversed(txid.value), outIdx.value))
  }

  lemma ReversedTwice(s: seq<byte>)
    ensures Reversed(Reversed(s)) == s
  {}

  lemma {:induction false} EncodeNoColon(s: seq<byte>)
    ensures forall c :: c in Encode(s) ==> c != ':'
  {
    if s != [] { EncodeNoColon(s[..|s| - 1]); }
  }

  lemma {:induction false} EncodedAt(s: seq<byte>, i: nat)
    requires i < |s|
    ensures Encode(s)[2 * i] == HEX[s[i] as int / 16] && Encode(s)[2 * i + 1] == HEX[s[i] as int % 16]
  {
    if i < |s| - 1 { EncodedAt(s[..|s| - 1], i); }
  }

  /** The text has the bytes of the id last first, two digits each, then a colon and the index in decimal. */
  lemma TextIs(cp: ChannelPoint, i: nat)
    requires i < 32
    ensures var s, b := ToStr(cp), cp.txid[31 - i] as int;
            && |s| > 65 && s[2 * i] == HEX[b / 16] && s[2 * i + 1] == HEX[b % 16]
            && s[64] == ':' && s[65..] == Digits(cp.outputIndex) && Value(s[65..]) == cp.outputIndex
  {
    hide Encode, Digits;
    EncodedAt(Reversed(cp.txid), i);
    ValueOfDigits(cp.outputIndex);
    assert ToStr(cp)[65..] == Digits(cp.outputIndex);
  }

  /** A channel point is read back from its text. */
  lemma RoundTrip(cp: ChannelPoint)
    ensures FromStr(ToStr(cp)) == Some(cp)
  {
    hide Encode, Decode, Reversed, Digits, Colon, ParseUint32;
    var hex, idx := Encode(Reversed(cp.txid)), Digits(cp.outputIndex);
    EncodeNoColon(Reversed(cp.txid));
    SplitAtColon(hex, idx);
    DecodeEncode(Reversed(cp.txid));
    ReversedTwice(cp.txid);
    ParseDigits(cp.outputIndex);
  }

  lemma SplitAtColon(hex: string, idx: string)
    requires ':' !in hex
    ensures var s := hex + ":" + idx; Colon(s) == |hex| < |s| && s[..|hex|] == hex && s[|hex| + 1..] == idx
  {
    var s := hex + ":" + idx;
    hide Colon;
    assert s[|hex|] == ':';
    assert forall k :: 0 <= k < |hex| ==> s[k] == hex[k] && hex[k] in hex;
  }

  lemma ParseDigits(n: Uint32)
    ensures ParseUint32(Digits(n)) == Some(n)
  {
    hide Digits;
    ValueOfDigits(n);
  }

  /** A text that is read stands for a point whose text differs in the case of the id and leading zeros only. */
  lemma TextOfPoint(s: string)
    requires FromStr(s).Some?
    ensures var cp := FromStr(s).value;
            && ToStr(cp)[..64] == LowerAll(s[..64]) && s[64] == ToStr(cp)[64] == ':'
            && Value(s[65..]) == cp.outputIndex == Value(ToStr(cp)[65..])
  {
    var cp := FromStr(s).value;
    EncodeDecode(s[..64]);
    ReversedTwice(Decode(s[..64]).value);
    ValueOfDigits(cp.outputIndex);
    assert ToStr(cp)[65..] == Digits(cp.outputIndex);
  }

  /** Different points have different texts. */
  lemma TextsDiffer(a: ChannelPoint, b: ChannelPoint)
    requires ToStr(a) == ToStr(b)
    ensures a == b
  {
    RoundTrip(a);
    RoundTrip(b);
  }

  // ---------- In place ----------

  method ReverseInPlace(a: array<byte>)
    modifies a
    ensures a[..] == Reversed(old(a[..]))
  {
    var i, j := 0, a.Length - 1;
    while i < j
      invariant 0 <= i <= j + 2 && i + j == a.Length - 1
      invariant forall k :: 0 <= k < a.Length ==> a[k] == old(a[..])[if k < i || k > j then a.Length - 1 - k else k]
    {
      a[i], a[j] := a[j], a[i];
      i, j := i + 1, j - 1;
    }
  }

  method StrToChanPoint(s: string) returns (cp: Option<ChannelPoint>)
    ensures cp == FromStr(s)
  {
    var p := Colon(s);
    if p == |s| { return None; }
    var txid := s[..p];
    if |txid| != 64 { return None; }
    var decoded := Decode(txid);
    if decoded.None? { return None; }
    EncodeDecode(txid);
    var txidBytes := new byte[32](i requires 0 <= i < 32 => decoded.value[i]);
    assert txidBytes[..] == decoded.value;
    ReverseInPlace(txidBytes);
    var outIdx := ParseUint32(s[p + 1..]);
    if outIdx.None? { return None; }
    return Some(ChannelPoint(txidBytes[..], outIdx.value));
  }
}
