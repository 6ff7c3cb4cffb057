/**
 * UTF-8 as restore.js relies on it when it turns a directory entry's raw
 * name into a key: `fsnames[i].toString('utf8')` decodes the bytes and
 * `Buffer.from(fsname)` encodes the string again. The well-formed byte
 * sequences are those of Table 3-7 of the Unicode Standard (section 3.9).
 */
module Utf8 {
  import opened Wrappers

  newtype byte = b: int | 0 <= b < 256

  /** A continuation byte, 10xxxxxx. */
  predicate Cont(b: byte) {
    0x80 <= b <= 0xBF
  }

  /** The encoding of one scalar value: one to four bytes. */
  function EncodeChar(c: char): (e: seq<byte>)
    ensures 1 <= |e| <= 4
    ensures (c as int < 0x80) == (|e| == 1)
  {
    var v := c as int;
    if v < 0x80 then
      [v as byte]
    else if v < 0x800 then
      [(0xC0 + v / 64) as byte, (0x80 + v % 64) as byte]
    else if v < 0x10000 then
      [(0xE0 + v / 4096) as byte, (0x80 + (v / 64) % 64) as byte, (0x80 + v % 64) as byte]
    else
      [(0xF0 + v / 262144) as byte, (0x80 + (v / 4096) % 64) as byte,
       (0x80 + (v / 64) % 64) as byte, (0x80 + v % 64) as byte]
  }

  /** `Buffer.from(s)`: the UTF-8 encoding of a string. */
  function Encode(s: string): (e: seq<byte>)
    ensures |e| >= |s|
  {
    if s == [] then [] else EncodeChar(s[0]) + Encode(s[1..])
  }

  /** The length of the well-formed sequence that starts `b`, or 0 when its
      first bytes are not one (Table 3-7). */
  function SeqLen(b: seq<byte>): (n: nat)
    requires b != []
    ensures n <= 4 && n <= |b|
  {
    var b0 := b[0];
    if b0 < 0x80 then 1
    else if 0xC2 <= b0 <= 0xDF then
      if |b| >= 2 && Cont(b[1]) then 2 else 0
    else if 0xE0 <= b0 <= 0xEF then
      var lo: byte, hi: byte := if b0 == 0xE0 then 0xA0 else 0x80, if b0 == 0xED then 0x9F else 0xBF;
      if |b| >= 3 && lo <= b[1] <= hi && Cont(b[2]) then 3 else 0
    else if 0xF0 <= b0 <= 0xF4 then
      var lo: byte, hi: byte := if b0 == 0xF0 then 0x90 else 0x80, if b0 == 0xF4 then 0x8F else 0xBF;
      if |b| >= 4 && lo <= b[1] <= hi && Cont(b[2]) && Cont(b[3]) then 4 else 0
    else 0
  }

  /** The scalar value of the well-formed sequence of length `n` that starts `b`. */
  function CharOf(b: seq<byte>, n: nat): (c: char)
    requires b != [] && 1 <= n && n == SeqLen(b)
  {
    if n == 1 then
      b[0] as int as char
    else if n == 2 then
      ((b[0] as int - 0xC0) * 64 + (b[1] as int - 0x80)) as char
    else if n == 3 then
      ((b[0] as int - 0xE0) * 4096 + (b[1] as int - 0x80) * 64 + (b[2] as int - 0x80)) as char
    else
      ((b[0] as int - 0xF0) * 262144 + (b[1] as int - 0x80) * 4096
        + (b[2] as int - 0x80) * 64 + (b[3] as int - 0x80)) as char
  }

  /** Strict UTF-8 decoding: the string whose encoding `b` is, or None when
      `b` holds an ill-formed sequence. */
  function Decode(b: seq<byte>): (r: Option<string>)
  {
    if b == [] then Some([])
    else
      var n := SeqLen(b);
      if n == 0 then None
      else
        match Decode(b[n..])
        case None => None
        case Some(rest) => Some([CharOf(b, n)] + rest)
  }

  lemma Split64(v: int)
    requires v >= 0
    ensures v == (v / 64) * 64 + v % 64 && 0 <= v % 64 < 64
  {
  }

  lemma Join64(q: int, r: int)
    requires q >= 0 && 0 <= r < 64
    ensures (q * 64 + r) / 64 == q && (q * 64 + r) % 64 == r
  {
  }

  /** Two-byte sequences: the value's high and low six bits are the payloads. */
  lemma EncodeCharOf2(b: seq<byte>)
    requires |b| >= 2 && 0xC2 <= b[0] <= 0xDF && Cont(b[1])
    ensures EncodeChar(CharOf(b, 2)) == b[..2]
  {
    var hi, lo := b[0] as int - 0xC0, b[1] as int - 0x80;
    Join64(hi, lo);
  }

  lemma EncodeCharOf3(b: seq<byte>)
    requires |b| >= 3 && SeqLen(b) == 3
    ensures EncodeChar(CharOf(b, 3)) == b[..3]
  {
    var x, y, z := b[0] as int - 0xE0, b[1] as int - 0x80, b[2] as int - 0x80;
    var v := x * 4096 + y * 64 + z;
    Join64(x * 64 + y, z);
    Join64(x, y);
    assert v / 64 == x * 64 + y;
    assert v / 4096 == x;
  }

  lemma EncodeCharOf4(b: seq<byte>)
    requires |b| >= 4 && SeqLen(b) == 4
    ensures EncodeChar(CharOf(b, 4)) == b[..4]
  {
    var w, x, y, z := b[0] as int - 0xF0, b[1] as int - 0x80, b[2] as int - 0x80, b[3] as int - 0x80;
    var v := w * 262144 + x * 4096 + y * 64 + z;
    Join64(w * 4096 + x * 64 + y, z);
    Join64(w * 64 + x, y);
    Join64(w, x);
    assert v / 64 == w * 4096 + x * 64 + y;
    assert v / 4096 == w * 64 + x;
    assert v / 262144 == w;
  }

  /** Decoding one sequence and encoding the value gives the bytes back. */
  lemma EncodeCharOf(b: seq<byte>, n: nat)
    requires b != [] && 1 <= n && n == SeqLen(b)
    ensures EncodeChar(CharOf(b, n)) == b[..n]
  {
    if n == 2 {
      EncodeCharOf2(b);
    } else if n == 3 {
      EncodeCharOf3(b);
    } else if n == 4 {
      EncodeCharOf4(b);
    }
  }

  /** An encoded value is read back as one sequence of its own length. */
  lemma SeqLenOfEncoding(c: char, t: seq<byte>)
    ensures SeqLen(EncodeChar(c) + t) == |EncodeChar(c)|
    ensures CharOf(EncodeChar(c) + t, |EncodeChar(c)|) == c
  {
    var v := c as int;
    if v < 0x80 {
    } else if v < 0x800 {
      Split64(v);
      assert v / 64 >= 2;
    } else if v < 0x10000 {
      SeqLenOfEncoding3(c, t);
    } else {
      SeqLenOfEncoding4(c, t);
    }
  }

  lemma SeqLenOfEncoding3(c: char, t: seq<byte>)
    requires 0x800 <= c as int < 0x10000
    ensures SeqLen(EncodeChar(c) + t) == 3
    ensures CharOf(EncodeChar(c) + t, 3) == c
  {
    var v := c as int;
    var q := v / 64;
    Split64(v);
    Split64(q);
    assert v / 4096 == q / 64;
    assert v == (q / 64) * 4096 + (q % 64) * 64 + v % 64;
    assert v / 4096 == 0 ==> q % 64 >= 32;
    assert v / 4096 == 13 ==> q % 64 < 32;
  }

  lemma SeqLenOfEncoding4(c: char, t: seq<byte>)
    requires 0x10000 <= c as int
    ensures SeqLen(EncodeChar(c) + t) == 4
    ensures CharOf(EncodeChar(c) + t, 4) == c
  {
    var v := c as int;
    var q := v / 64;
    var r := q / 64;
    Split64(v);
    Split64(q);
    Split64(r);
    assert v / 4096 == r;
    assert v / 262144 == r / 64;
    assert v == (r / 64) * 262144 + (r % 64) * 4096 + (q % 64) * 64 + v % 64;
    assert v / 262144 == 0 ==> r % 64 >= 16;
    assert v / 262144 == 4 ==> r % 64 < 16;
  }

  lemma SplitAt(b: seq<byte>, n: nat)
    requires n <= |b|
    ensures b[..n] + b[n..] == b
  {
  }

  lemma EncodeCons(c: char, s: string)
    ensures Encode([c] + s) == EncodeChar(c) + Encode(s)
  {
    assert ([c] + s)[1..] == s;
  }

  /** What decodes re-encodes to the same bytes. */
  lemma {:induction false} EncodeDecode(b: seq<byte>)
    requires Decode(b).Some?
    ensures Encode(Decode(b).value) == b
    decreases |b|
  {
    if b != [] {
      var n := SeqLen(b);
      var c, rest := CharOf(b, n), Decode(b[n..]).value;
      assert Decode(b) == Some([c] + rest);
      EncodeDecode(b[n..]);
      EncodeCharOf(b, n);
      EncodeCons(c, rest);
      SplitAt(b, n);
      calc {
        Encode(Decode(b).value);
        Encode([c] + rest);
        EncodeChar(c) + Encode(rest);
        b[..n] + b[n..];
        b;
      }
    }
  }

  /** Every encoding decodes to the string encoded. */
  lemma {:induction false} DecodeEncode(s: string)
    ensures Decode(Encode(s)) == Some(s)
    decreases |s|
  {
    if s != [] {
      var e, t := EncodeChar(s[0]), Encode(s[1..]);
      SeqLenOfEncoding(s[0], t);
      assert (e + t)[|e|..] == t;
      DecodeEncode(s[1..]);
      assert [s[0]] + s[1..] == s;
    }
  }

  /** The `no-utf8-filename` test: the bytes survive the decode and re-encode
      exactly when they are the encoding of some string, the one decoded. */
  lemma RoundTrip(b: seq<byte>, s: string)
    ensures Decode(b) == Some(s) <==> Encode(s) == b
  {
    if Decode(b) == Some(s) {
      EncodeDecode(b);
    }
    if Encode(s) == b {
      DecodeEncode(s);
    }
  }

  /** A name without the byte 0x2F decodes to a string without '/'. */
  lemma {:induction false} NoSlash(s: string)
    requires forall i :: 0 <= i < |Encode(s)| ==> Encode(s)[i] != 0x2F
    ensures forall i :: 0 <= i < |s| ==> s[i] != '/'
    decreases |s|
  {
    if s != [] {
      var e, t := EncodeChar(s[0]), Encode(s[1..]);
      assert Encode(s) == e + t;
      assert e[0] == Encode(s)[0];
      forall i | 0 <= i < |t| ensures t[i] != 0x2F {
        assert t[i] == Encode(s)[|e| + i];
      }
      NoSlash(s[1..]);
      forall i | 1 <= i < |s| ensures s[i] != '/' {
        assert s[i] == s[1..][i - 1];
      }
    }
  }
}
