/** UTF-16 units of a string and the lossy way back. */
module Utf16 {
  import opened Bytes

  const REPLACEMENT: char := '\U{FFFD}'

  function EncodeChar(c: char): (us: seq<u16>)
    ensures 1 <= |us| <= 2
    ensures 0 in us <==> c == '\0'
  {
    var v := c as int;
    if v < 0x1_0000 then [v]
    else [0xd800 + (v - 0x1_0000) / 0x400, 0xdc00 + (v - 0x1_0000) % 0x400]
  }

  function Encode(s: string): seq<u16> {
    if s == [] then [] else EncodeChar(s[0]) + Encode(s[1..])
  }

  predicate IsHigh(u: u16) { 0xd800 <= u < 0xdc00 }
  predicate IsLow(u: u16) { 0xdc00 <= u < 0xe000 }

  /** Decodes units, replacing every unpaired surrogate. */
  function DecodeLossy(us: seq<u16>): string {
    if us == [] then []
    else if IsHigh(us[0]) then
      if |us| >= 2 && IsLow(us[1])
      then
        var hi: int, lo: int := us[0] - 0xd800, us[1] - 0xdc00;
        [(0x1_0000 + hi * 0x400 + lo) as char] + DecodeLossy(us[2..])
      else [REPLACEMENT] + DecodeLossy(us[1..])
    else if IsLow(us[0]) then [REPLACEMENT] + DecodeLossy(us[1..])
    else [us[0] as char] + DecodeLossy(us[1..])
  }

  /** Every string survives encoding and decoding. */
  lemma {:induction false} DecodeEncode(s: string)
    ensures DecodeLossy(Encode(s)) == s
  {
    if s != [] {
      DecodeEncode(s[1..]);
      var us := Encode(s);
      var head := EncodeChar(s[0]);
      assert us[|head|..] == Encode(s[1..]);
      assert s == [s[0]] + s[1..];
    }
  }

  /** A unit stays one unit through decoding, so re-encoding never grows a name,
      and it stays free of NUL. */
  lemma {:induction false} EncodeDecodeLength(us: seq<u16>)
    ensures |Encode(DecodeLossy(us))| == |us|
    ensures 0 !in us ==> '\0' !in DecodeLossy(us)
    decreases |us|
  {
    if us != [] {
      var s := DecodeLossy(us);
      var n := if IsHigh(us[0]) && |us| >= 2 && IsLow(us[1]) then 2 else 1;
      EncodeDecodeLength(us[n..]);
      assert s[1..] == DecodeLossy(us[n..]);
      assert Encode(s) == EncodeChar(s[0]) + Encode(s[1..]);
    }
  }

  /** NUL appears among the units exactly when it appears in the string. */
  lemma {:induction false} EncodeNul(s: string)
    ensures 0 in Encode(s) <==> '\0' in s
  {
    if s != [] {
      EncodeNul(s[1..]);
      assert s == [s[0]] + s[1..];
    }
  }

  /** Every surrogate is one of a high and low pair. */
  predicate Paired(us: seq<u16>)
    decreases |us|
  {
    if us == [] then true
    else if IsHigh(us[0]) then |us| >= 2 && IsLow(us[1]) && Paired(us[2..])
    else !IsLow(us[0]) && Paired(us[1..])
  }

  /** Units survive decoding and encoding exactly when no surrogate among them is unpaired. */
  lemma {:induction false} EncodeDecodeIff(us: seq<u16>)
    ensures Encode(DecodeLossy(us)) == us <==> Paired(us)
    decreases |us|
  {
    if us != [] {
      var s := DecodeLossy(us);
      var n := if IsHigh(us[0]) && |us| >= 2 && IsLow(us[1]) then 2 else 1;
      EncodeDecodeIff(us[n..]);
      assert s[1..] == DecodeLossy(us[n..]);
      var head, tail := EncodeChar(s[0]), Encode(s[1..]);
      assert Encode(s) == head + tail;
      assert us == us[..n] + us[n..];
      if head == us[..n] {
        if Encode(s) == us { assert tail == Encode(s)[n..] == us[n..]; }
      } else if |head| == n {
        assert Encode(s)[..n] == head;
      }
    }
  }
}
