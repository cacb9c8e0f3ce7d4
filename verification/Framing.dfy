/** Message framing of gem5/util/protolib.py: each message is preceded by its length as a
    base-128 varint, decoded with the 32-bit truncation of the original. */
module Framing {

  type Byte = b: nat | b < 256

  /** x << 7 * k. */
  function Shift(x: nat, k: nat): nat {
    if k == 0 then x else 128 * Shift(x, k - 1)
  }

  lemma {:induction false} ShiftAdds(x: nat, y: nat, k: nat)
    ensures Shift(x + 128 * y, k) == Shift(x, k) + Shift(y, k + 1)
  {
    if k > 0 { ShiftAdds(x, y, k - 1); }
  }

  const Two32: nat := 0x1_0000_0000
  const Two63: nat := 0x8000_0000_0000_0000

  /** Anything shifted by nine groups has 64 bits or more. */
  lemma {:induction false} ShiftNine(x: nat, k: nat)
    requires x >= 1 && k >= 9
    ensures Shift(x, k) >= Two63
  {
    if k == 9 {
      assert Shift(x, 1) == 128 * Shift(x, 0);
      assert Shift(x, 3) == 128 * Shift(x, 2) == 16384 * Shift(x, 1);
      assert Shift(x, 5) == 128 * Shift(x, 4) == 16384 * Shift(x, 3);
      assert Shift(x, 7) == 128 * Shift(x, 6) == 16384 * Shift(x, 5);
    } else {
      ShiftNine(x, k - 1);
    }
  }

  // ----- varints -----

  /** Seven bits per byte, low bits first, with the top bit on all but the last. */
  function Encode(v: nat): (s: seq<Byte>)
    ensures s != [] && s[|s| - 1] < 128 && forall i :: 0 <= i < |s| - 1 ==> s[i] >= 128
  {
    if v < 128 then [v] else [128 + v % 128] + Encode(v / 128)
  }

  /** _EncodeVarint32: or-ing 0x80 into seven bits adds 128. */
  method EncodeVarint32(out: seq<Byte>, value: nat) returns (out': seq<Byte>)
    ensures out' == out + Encode(value)
  {
    out' := out;
    var bits: nat, v: nat := value % 128, value / 128;
    while v != 0
      invariant 0 <= bits < 128
      invariant out' + (if v == 0 then [bits] else [128 + bits] + Encode(v)) == out + Encode(value)
      decreases v
    {
      out' := out' + [128 + bits];
      bits, v := v % 128, v / 128;
    }
    out' := out' + [bits];
  }

  /** `used` counts the bytes read. */
  datatype Varint = EndOfFile(used: nat) | TooMany(used: nat) | Value(result: int, used: nat)

  /** The final masking: a value above 63 bits is made negative, any other keeps its low
      32 bits. */
  function Mask(r: nat): int {
    if r >= Two63 then r % Two32 - Two32 else r % Two32
  }

  function Read(used: nat, r: Varint): Varint {
    match r
    case EndOfFile(n) => EndOfFile(used + n)
    case TooMany(n) => TooMany(used + n)
    case Value(x, n) => Value(x, used + n)
  }

  /** The rest of a decode that has gathered `result` from k bytes, with shift 7 * k;
      or-ing fresh bits in above the gathered ones is addition. */
  function Decode(s: seq<Byte>, result: nat, k: nat): Varint {
    if s == [] then EndOfFile(0)
    else
      var r := result + Shift(s[0] % 128, k);
      if s[0] < 128 then Value(r, 1)
      else if 7 * (k + 1) >= 64 then TooMany(1)
      else Read(1, Decode(s[1..], r, k + 1))
  }

  /** A length prefix: the gathered value, masked. */
  function DecodePrefix(s: seq<Byte>): Varint { Masked(Decode(s, 0, 0)) }

  function Masked(r: Varint): Varint {
    if r.Value? && r.result >= 0 then Value(Mask(r.result), r.used) else r
  }

  /** The fresh bits lie above the gathered ones. */
  lemma FreshBits(result: nat, bits: nat, k: nat)
    requires result < Shift(1, k) && bits < 128
    ensures result + Shift(bits, k) < Shift(1, k + 1)
  {
    ShiftUnit(bits, k);
    ShiftGroup(bits + 1, k);
  }

  lemma {:induction false} ShiftGroup(x: nat, k: nat)
    requires x <= 128
    ensures Shift(x, k) <= Shift(1, k + 1)
  {
    if k > 0 { ShiftGroup(x, k - 1); }
  }

  lemma {:induction false} ShiftUnit(x: nat, k: nat)
    ensures Shift(x + 1, k) == Shift(x, k) + Shift(1, k)
  {
    if k > 0 { ShiftUnit(x, k - 1); }
  }

  /** The decoder's next byte. */
  lemma NextByte(file: seq<Byte>, at: nat, result: nat, k: nat)
    requires at < |file|
    ensures
      var b, r := file[at], result + Shift(file[at] % 128, k);
      Decode(file[at..], result, k) ==
        if b < 128 then Value(r, 1)
        else if 7 * (k + 1) >= 64 then TooMany(1)
        else Read(1, Decode(file[at + 1..], r, k + 1))
  {
    assert file[at..][0] == file[at] && file[at..][1..] == file[at + 1..];
  }

  /** Where the loop stands after pos bytes from `start`. */
  ghost predicate Pending(file: seq<Byte>, start: nat, pos: nat, result: nat, answer: Varint) {
    start + pos <= |file| && Read(pos, Decode(file[start + pos..], result, pos)) == answer
  }

  lemma PendingEnds(file: seq<Byte>, start: nat, pos: nat, result: nat, answer: Varint)
    requires Pending(file, start, pos, result, answer) && start + pos == |file|
    ensures answer == EndOfFile(pos)
  {
    assert file[start + pos..] == [];
  }

  lemma PendingNext(file: seq<Byte>, start: nat, pos: nat, result: nat, answer: Varint, b: Byte, r: nat)
    requires Pending(file, start, pos, result, answer) && start + pos < |file|
    requires b == file[start + pos] && r == result + Shift(b % 128, pos)
    ensures b < 128 ==> answer == Value(r, pos + 1)
    ensures b >= 128 && 7 * (pos + 1) >= 64 ==> answer == TooMany(pos + 1)
    ensures b >= 128 && 7 * (pos + 1) < 64 ==> Pending(file, start, pos + 1, r, answer)
  {
    NextByte(file, start + pos, result, pos);
    ReadTwice(pos, Decode(file[start + pos + 1..], r, pos + 1));
  }

  /** _DecodeVarint32, reading from position `start`. */
  method DecodeVarint32(file: seq<Byte>, start: nat) returns (r: Varint)
    requires start <= |file|
    ensures r == DecodePrefix(file[start..])
    ensures r.used <= 10 && start + r.used <= |file|
  {
    ghost var answer := Decode(file[start..], 0, 0);
    PendingStart(file, start, answer);
    var result: nat, shift: nat, pos: nat := 0, 0, 0;
    while true
      invariant start + pos <= |file| && shift == 7 * pos < 64
      invariant result < Shift(1, pos)
      invariant Pending(file, start, pos, result, answer)
      decreases |file| - start - pos
    {
      if start + pos == |file| {
        PendingEnds(file, start, pos, result, answer);
        return EndOfFile(pos);
      }
      var b := file[start + pos];
      FreshBits(result, b % 128, pos);
      PendingNext(file, start, pos, result, answer, b, result + Shift(b % 128, pos));
      result := result + Shift(b % 128, pos);
      pos := pos + 1;
      if b < 128 {
        return Value(Mask(result), pos);
      }
      shift := shift + 7;
      if shift >= 64 {
        return TooMany(pos);
      }
    }
  }

  lemma PendingStart(file: seq<Byte>, start: nat, answer: Varint)
    requires start <= |file| && answer == Decode(file[start..], 0, 0)
    ensures Pending(file, start, 0, 0, answer)
  {
    assert start + 0 == start;
  }

  lemma ReadTwice(n: nat, r: Varint)
    ensures Read(n, Read(1, r)) == Read(n + 1, r)
  {}

  /** Whatever the input, a length prefix reads at most ten bytes. */
  lemma {:induction false} AtMostTenBytes(s: seq<Byte>, result: nat, k: nat)
    requires k < 10
    ensures Decode(s, result, k).used <= 10 - k && Decode(s, result, k).used <= |s|
    ensures Decode(s, result, k).Value? ==> Decode(s, result, k).used > 0
  {
    if s != [] && s[0] >= 128 && k + 1 < 10 {
      AtMostTenBytes(s[1..], result + Shift(s[0] % 128, k), k + 1);
    }
  }

  /** Decoding what was encoded, with anything behind it, gathers the value and reads
      exactly its bytes. */
  lemma {:induction false} DecodeEncode(v: nat, rest: seq<Byte>, result: nat, k: nat)
    requires k < 10 && result + Shift(v, k) < Two63
    ensures Decode(Encode(v) + rest, result, k) == Value(result + Shift(v, k), |Encode(v)|)
    decreases v
  {
    if v < 128 {
      assert (Encode(v) + rest)[0] == v && v % 128 == v;
    } else {
      var low, high := v % 128, v / 128;
      FirstGroup(low, high, v, rest);
      ShiftAdds(low, high, k);
      if k + 1 >= 9 { ShiftNine(high, k + 1); }
      DecodeEncode(high, rest, result + Shift(low, k), k + 1);
    }
  }

  lemma FirstGroup(low: nat, high: nat, v: nat, rest: seq<Byte>)
    requires v >= 128 && low == v % 128 && high == v / 128
    ensures v == low + 128 * high && high >= 1
    ensures |Encode(v)| == 1 + |Encode(high)| && (Encode(v) + rest)[0] == 128 + low && (128 + low) % 128 == low
    ensures (Encode(v) + rest)[1..] == Encode(high) + rest
  {}

  // ----- messages -----

  /** A message is its serialised bytes. */
  function EncodeMessage(m: seq<Byte>): seq<Byte> { Encode(|m|) + m }

  function EncodeAll(ms: seq<seq<Byte>>): seq<Byte> {
    if ms == [] then [] else EncodeMessage(ms[0]) + EncodeAll(ms[1..])
  }

  datatype Decoded = Message(buf: seq<Byte>, used: nat) | NoMessage

  /** decodeMessage: a zero length, the end of the file and an overlong prefix all answer
      False; a read stops at the end of the file; a negative length reads everything. */
  function DecodeMessage(file: seq<Byte>): (d: Decoded)
    ensures d.Message? ==> 0 < d.used <= |file|
  {
    var r := DecodePrefix(file);
    AtMostTenBytes(file, 0, 0);
    if !r.Value? || r.result == 0 then NoMessage
    else
      var rest := file[r.used..];
      var n := if 0 <= r.result <= |rest| then r.result else |rest|;
      Message(rest[..n], r.used + n)
  }

  /** The bytes at the front that announce another one. */
  function Lead(s: seq<Byte>): (n: nat)
    ensures n <= |s| && (n < |s| ==> s[n] < 128) && forall i :: 0 <= i < n ==> s[i] >= 128
  {
    if s == [] || s[0] < 128 then 0 else 1 + Lead(s[1..])
  }

  /** Base 128, the least significant group first. */
  function Groups(s: seq<Byte>): nat {
    if s == [] then 0 else s[0] % 128 + 128 * Groups(s[1..])
  }

  /** What the varint loop makes of any bytes at all. */
  lemma {:induction false} DecodeAny(s: seq<Byte>, result: nat, k: nat)
    requires k < 10
    ensures
      var n := Lead(s);
      Decode(s, result, k) == if n >= 10 - k then TooMany(10 - k)
                              else if n == |s| then EndOfFile(n)
                              else Value(result + Shift(Groups(s[..n + 1]), k), n + 1)
  {
    var n := Lead(s);
    if s != [] {
      var low := s[0] % 128;
      if s[0] < 128 {
        assert s[..1][1..] == [];
      } else if k < 9 {
        DecodeAny(s[1..], result + Shift(low, k), k + 1);
        if n < |s| {
          assert s[..n + 1][1..] == s[1..][..n];
          ShiftAdds(low, Groups(s[1..][..n]), k);
        }
      }
    }
  }

  /** decodeMessage on any file: no message if the prefix is cut off, is longer than ten
      bytes or is a multiple of 2^32; else as many bytes as its low 32 bits say, or all
      there are, and all of them if it has more than 63 bits. */
  lemma DecodeAnyFile(file: seq<Byte>)
    ensures
      var n := Lead(file);
      if n >= 10 || n == |file| then DecodeMessage(file) == NoMessage
      else
        var size, rest := Groups(file[..n + 1]), file[n + 1..];
        if size >= 0x8000_0000_0000_0000 then DecodeMessage(file) == Message(rest, |file|)
        else
          var length := size % 0x1_0000_0000;
          if length == 0 then DecodeMessage(file) == NoMessage
          else if length >= |rest| then DecodeMessage(file) == Message(rest, |file|)
          else DecodeMessage(file) == Message(rest[..length], n + 1 + length)
  {
    DecodeAny(file, 0, 0);
    var n := Lead(file);
    if n < |file| {
      var rest := file[n + 1..];
      assert rest[..|rest|] == rest;
    }
  }

  /** Messages read until the first False. */
  function DecodeAll(file: seq<Byte>): seq<seq<Byte>>
    decreases |file|
  {
    var d := DecodeMessage(file);
    if d.NoMessage? then [] else [d.buf] + DecodeAll(file[d.used..])
  }

  /** The reading loop of the trace tools. */
  method ReadMessages(file: seq<Byte>) returns (ms: seq<seq<Byte>>)
    ensures ms == DecodeAll(file)
  {
    ms := [];
    var rest := file;
    var d := DecodeMessage(rest);
    while d.Message?
      invariant d == DecodeMessage(rest)
      invariant ms + DecodeAll(rest) == DecodeAll(file)
      decreases |rest|
    {
      ms := ms + [d.buf];
      rest := rest[d.used..];
      d := DecodeMessage(rest);
    }
  }

  predicate Fits(m: seq<Byte>) { |m| < Two32 }

  /** What reading back one message gives: a string holds fewer than 2^63 bytes, and its
      length comes back modulo 2^32. */
  lemma DecodeOne(m: seq<Byte>, rest: seq<Byte>)
    requires |m| < Two63
    ensures |m| % Two32 == 0 ==> DecodeMessage(EncodeMessage(m) + rest) == NoMessage
    ensures |m| % Two32 != 0 ==> DecodeMessage(EncodeMessage(m) + rest) ==
                                 Message(m[..|m| % Two32], |Encode(|m|)| + |m| % Two32)
  {
    DecodeEncode(|m|, m + rest, 0, 0);
    assert EncodeMessage(m) + rest == Encode(|m|) + (m + rest);
    var file, n := EncodeMessage(m) + rest, |m| % Two32;
    assert file[|Encode(|m|)|..] == m + rest;
    assert (m + rest)[..n] == m[..n];
  }

  /** A non-empty message below 2^32 bytes is read back and the rest follows. */
  lemma ReadsBack(m: seq<Byte>, rest: seq<Byte>)
    requires m != [] && Fits(m)
    ensures DecodeAll(EncodeMessage(m) + rest) == [m] + DecodeAll(rest)
  {
    var file, n := EncodeMessage(m) + rest, |EncodeMessage(m)|;
    DecodeWhole(m, rest);
    assert file[n..] == rest;
    ReadsNext(file, m, n);
  }

  lemma DecodeWhole(m: seq<Byte>, rest: seq<Byte>)
    requires m != [] && Fits(m)
    ensures DecodeMessage(EncodeMessage(m) + rest) == Message(m, |EncodeMessage(m)|)
  {
    DecodeOne(m, rest);
    WholeMessage(m, DecodeMessage(EncodeMessage(m) + rest));
  }

  lemma WholeMessage(m: seq<Byte>, d: Decoded)
    requires m != [] && Fits(m)
    requires |m| % Two32 != 0 ==> d == Message(m[..|m| % Two32], |Encode(|m|)| + |m| % Two32)
    ensures d == Message(m, |EncodeMessage(m)|)
  {
    assert m[..|m|] == m;
  }

  lemma ReadsNext(file: seq<Byte>, m: seq<Byte>, n: nat)
    requires DecodeMessage(file) == Message(m, n) && n <= |file|
    ensures DecodeAll(file) == [m] + DecodeAll(file[n..])
  {}

  /** An empty message ends the reading, and one of 2^32 bytes or more comes back cut. */
  lemma ReadsCut(m: seq<Byte>, rest: seq<Byte>)
    requires |m| < Two63 && (m == [] || !Fits(m))
    ensures DecodeAll(EncodeMessage(m) + rest) == [] || DecodeAll(EncodeMessage(m) + rest)[0] != m
    ensures m == [] ==> DecodeAll(EncodeMessage(m) + rest) == []
  {
    DecodeOne(m, rest);
    var d := DecodeMessage(EncodeMessage(m) + rest);
    assert d.NoMessage? || |d.buf| < |m|;
  }

  /** The messages before the first empty one. */
  function UpToEmpty(ms: seq<seq<Byte>>): seq<seq<Byte>> {
    if ms == [] || ms[0] == [] then [] else [ms[0]] + UpToEmpty(ms[1..])
  }

  /** Decoding a written file gives back the messages before the first empty one, which
      is indistinguishable from the end of the file. */
  lemma {:induction false} DecodeEncodeAll(ms: seq<seq<Byte>>)
    requires forall i :: 0 <= i < |ms| ==> Fits(ms[i])
    ensures DecodeAll(EncodeAll(ms)) == UpToEmpty(ms)
  {
    if ms != [] {
      if ms[0] == [] {
        ReadsCut(ms[0], EncodeAll(ms[1..]));
      } else {
        ReadsBack(ms[0], EncodeAll(ms[1..]));
        DecodeEncodeAll(ms[1..]);
      }
    }
  }

  predicate AllReadable(ms: seq<seq<Byte>>) { forall i :: 0 <= i < |ms| ==> ms[i] != [] && Fits(ms[i]) }

  /** The round trip is exact if and only if every message has at least one byte and
      fewer than 2^32. */
  lemma {:induction false} FramingRoundTrip(ms: seq<seq<Byte>>)
    requires forall i :: 0 <= i < |ms| ==> |ms[i]| < Two63
    ensures DecodeAll(EncodeAll(ms)) == ms <==> AllReadable(ms)
  {
    if ms != [] {
      var m, rest := ms[0], EncodeAll(ms[1..]);
      if m != [] && Fits(m) {
        ReadsBack(m, rest);
        FramingRoundTrip(ms[1..]);
        HeadTail(m, DecodeAll(rest), ms);
        assert AllReadable(ms) <==> AllReadable(ms[1..]) by {
          if AllReadable(ms[1..]) {
            forall i | 0 <= i < |ms| ensures ms[i] != [] && Fits(ms[i]) {
              if i > 0 { assert ms[i] == ms[1..][i - 1]; }
            }
          }
        }
      } else {
        ReadsCut(m, rest);
      }
    }
  }

  lemma HeadTail<T>(x: T, tail: seq<T>, s: seq<T>)
    requires s != [] && s[0] == x
    ensures [x] + tail == s <==> tail == s[1..]
  {
    assert s == [x] + s[1..];
    assert ([x] + tail)[1..] == tail;
  }
}
