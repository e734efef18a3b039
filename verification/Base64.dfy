/**
 The table-driven codec: base64 of section 4 of RFC 4648 with '-' in place of '/'.
 Each 256-entry table is written as the formula its entries follow; bytes are 0..255, and the
 bit-wise or of two values without common bits is their sum.
 */
module Base64 {
  import Seqs

  type byte = x: int | 0 <= x < 256

  /** The character for a six-bit value. */
  function Sixty4(v: int): char
    requires 0 <= v < 64
  {
    if v < 26 then (65 + v) as char          // 'A'..'Z'
    else if v < 52 then (71 + v) as char     // 'a'..'z'
    else if v < 62 then (v - 4) as char      // '0'..'9'
    else if v == 62 then '+' else '-'
  }

  predicate InAlphabet(c: char) { 'A' <= c <= 'Z' || 'a' <= c <= 'z' || '0' <= c <= '9' || c == '+' || c == '-' }

  // Encoder tables. An index put together from two bytes is given by the two: the table for
  // ( x & 0x03 ) | ( y & 0xF0 ) depends on x % 4 and y / 16, the one for ( y & 0x0F ) | ( z & 0xC0 )
  // on y % 16 and z / 64.
  function High6(x: byte): char { Sixty4(x / 4) }
  function High24(x: byte, y: byte): char { Sixty4(x % 4 * 16 + y / 16) }
  function Low42(y: byte, z: byte): char { Sixty4(y % 16 * 4 + z / 64) }
  function Low6(z: byte): char { Sixty4(z % 64) }

  /** What all six decoder tables are made from; '/' is read like '-', anything foreign as 0. */
  function Value(c: char): (v: int)
    ensures 0 <= v < 64
  {
    if 'A' <= c <= 'Z' then c as int - 65
    else if 'a' <= c <= 'z' then c as int - 71
    else if '0' <= c <= '9' then c as int + 4
    else if c == '+' then 62
    else if c == '-' || c == '/' then 63
    else 0
  }

  // Decoder tables, joined as the three assignments of the loop join them.
  function First(a: char, b: char): byte { Value(a) * 4 + Value(b) / 16 }
  function Second(b: char, c: char): byte { Value(b) % 16 * 16 + Value(c) / 4 }
  function Third(c: char, d: char): byte { Value(c) % 4 * 64 + Value(d) }

  /** Four characters for three bytes. */
  function Quad(x: byte, y: byte, z: byte): (q: string)
    ensures |q| == 4
  {
    [High6(x), High24(x, y), Low42(y, z), Low6(z)]
  }

  function Rest(d: seq<byte>): (q: string)
    requires |d| < 3
    ensures |q| == if |d| == 0 then 0 else 4
  {
    if |d| == 2 then [High6(d[0]), High24(d[0], d[1]), Low42(d[1], 0), '=']
    else if |d| == 1 then [High6(d[0]), High24(d[0], 0), '=', '=']
    else ""
  }

  function Encoded(d: seq<byte>): (e: string)
    decreases |d|
  {
    if |d| < 3 then Rest(d) else Quad(d[0], d[1], d[2]) + Encoded(d[3..])
  }

  function Decoded(e: string): (d: seq<byte>)
    decreases |e|
  {
    if |e| < 4 then [] else [First(e[0], e[1]), Second(e[1], e[2]), Third(e[2], e[3])] + Decoded(e[4..])
  }

  // ---------------------------------------------------------------- the loops

  function SizeEncoded(x: int): int { (x + 2) / 3 * 4 + 1 }

  function Written<T>(e: seq<T>, at: nat, q: seq<T>): seq<T>
    requires at + |q| <= |e|
  {
    e[..at] + q + e[at + |q|..]
  }

  /** The assignments through the moving output pointer. */
  method Put<T>(e: array<T>, at: nat, q: seq<T>)
    requires at + |q| <= e.Length
    modifies e
    ensures e[..] == Written(old(e[..]), at, q)
  {
    forall k | 0 <= k < |q| { e[at + k] := q[k]; }
  }

  /** All but rest, the text of what is left of the input, has been written over was. */
  ghost predicate Progress<T>(whole: seq<T>, rest: seq<T>, e: seq<T>, was: seq<T>, at: nat) {
    && at + |rest| == |whole| && at <= |e| == |was|
    && whole == e[..at] + rest
    && e[at..] == was[at..]
  }

  lemma PutProgress<T>(whole: seq<T>, q: seq<T>, rest: seq<T>, e: seq<T>, was: seq<T>, at: nat)
    requires Progress(whole, q + rest, e, was, at) && at + |q| <= |e|
    ensures Progress(whole, rest, Written(e, at, q), was, at + |q|)
  {
    Seqs.Assoc(e[..at], q, rest);
    var e' := Written(e, at, q);
    assert e'[..at + |q|] == e[..at] + q;
    assert e'[at + |q|..] == e[at + |q|..];
    Seqs.DropDrop(e, at, at + |q|);
    Seqs.DropDrop(was, at, at + |q|);
  }

  /** The loop over whole groups: dp and ep are where the pointers stop. */
  method EncodeGroups(d: array<byte>, dlen: nat, e: array<char>) returns (dp: nat, ep: nat)
    requires dlen <= d.Length && |Encoded(d[..dlen])| < e.Length
    modifies e
    ensures dp == dlen - dlen % 3
    ensures Progress(Encoded(d[..dlen]) + ['\0'], Rest(d[dp..dlen]) + ['\0'], e[..], old(e[..]), ep)
  {
    ghost var whole, was := Encoded(d[..dlen]) + ['\0'], e[..];
    var i := dlen / 3;
    dp, ep := 0, 0;
    while i > 0
      invariant 0 <= i && dp == 3 * (dlen / 3 - i)
      invariant Progress(whole, Encoded(d[dp..dlen]) + ['\0'], e[..], was, ep)
    {
      ghost var now, left := e[..], d[dp..dlen];
      Put(e, ep, [High6(d[dp]), High24(d[dp], d[dp + 1]), Low42(d[dp + 1], d[dp + 2]), Low6(d[dp + 2])]);
      assert left[3..] == d[dp + 3..dlen];
      OneGroup(whole, left, now, was, ep);
      dp, ep, i := dp + 3, ep + 4, i - 1;
    }
  }

  lemma OneGroup(whole: string, left: seq<byte>, now: string, was: string, ep: nat)
    requires |left| >= 3 && Progress(whole, Encoded(left) + ['\0'], now, was, ep) && ep + 4 <= |now|
    ensures Progress(whole, Encoded(left[3..]) + ['\0'], Written(now, ep, Quad(left[0], left[1], left[2])), was, ep + 4)
  {
    Seqs.Assoc(Quad(left[0], left[1], left[2]), Encoded(left[3..]), ['\0']);
    PutProgress(whole, Quad(left[0], left[1], left[2]), Encoded(left[3..]) + ['\0'], now, was, ep);
  }

  /** fbase64_e: writes the text and its NUL at the front of e and touches nothing behind. */
  method Encode(d: array<byte>, dlen: nat, e: array<char>)
    requires dlen <= d.Length && SizeEncoded(dlen) <= e.Length
    modifies e
    ensures |Encoded(d[..dlen])| + 1 == SizeEncoded(dlen)
    ensures e[..] == Written(old(e[..]), 0, Encoded(d[..dlen]) + ['\0'])
  {
    EncodedLength(d[..dlen]);
    GroupsArePadded(dlen);
    ghost var whole := Encoded(d[..dlen]) + ['\0'];
    var dp, ep := EncodeGroups(d, dlen, e);
    ghost var now, left := e[..], d[dp..dlen];
    Seqs.Nil(Rest(left) + ['\0']);
    PutProgress(whole, Rest(left) + ['\0'], [], now, old(e[..]), ep);
    EncodeRest(d, dp, dlen % 3, e, ep);
    ProgressDone(whole, e[..], old(e[..]), ep + |Rest(left)| + 1);
  }

  /** The switch on what is left after the whole groups. */
  method EncodeRest(d: array<byte>, dp: nat, left: nat, e: array<char>, ep: nat)
    requires left < 3 && dp + left <= d.Length && ep + |Rest(d[dp..dp + left])| < e.Length
    modifies e
    ensures e[..] == Written(old(e[..]), ep, Rest(d[dp..dp + left]) + ['\0'])
  {
    if left == 2 {
      Put(e, ep, [High6(d[dp]), High24(d[dp], d[dp + 1]), Low42(d[dp + 1], 0), '=', '\0']);
    } else if left == 1 {
      Put(e, ep, [High6(d[dp]), High24(d[dp], 0), '=', '=', '\0']);
    } else {
      Put(e, ep, ['\0']);
    }
  }

  lemma ProgressDone<T>(whole: seq<T>, e: seq<T>, was: seq<T>, at: nat)
    requires Progress(whole, [], e, was, at)
    ensures e == Written(was, 0, whole)
  {
    Seqs.Cut(e, at);
  }

  /** fbase64_d. */
  method Decode(e: array<char>, elen: nat, d: array<byte>)
    requires elen % 4 == 0 && elen <= e.Length && elen / 4 * 3 <= d.Length
    modifies d
    ensures |Decoded(e[..elen])| == elen / 4 * 3
    ensures d[..] == Written(old(d[..]), 0, Decoded(e[..elen]))
  {
    ghost var whole := Decoded(e[..elen]);
    DecodedLength(e[..elen]);
    var i, dp, ep := elen / 4, 0, 0;
    Seqs.Cut(d[..], 0);
    while i > 0
      invariant 0 <= i && ep == 4 * (elen / 4 - i)
      invariant Progress(whole, Decoded(e[ep..elen]), d[..], old(d[..]), dp)
    {
      ghost var now, left := d[..], e[ep..elen];
      ghost var q := [First(left[0], left[1]), Second(left[1], left[2]), Third(left[2], left[3])];
      Put(d, dp, [First(e[ep], e[ep + 1]), Second(e[ep + 1], e[ep + 2]), Third(e[ep + 2], e[ep + 3])]);
      Seqs.DropDrop(e[..elen], ep, ep + 4);
      PutProgress(whole, q, Decoded(left[4..]), now, old(d[..]), dp);
      dp, ep, i := dp + 3, ep + 4, i - 1;
    }
    ProgressDone(whole, d[..], old(d[..]), dp);
  }

  // ---------------------------------------------------------------- properties

  /** Groups of three begun by n bytes, and how many bytes the last group lacks. */
  function Groups(n: nat): nat { if n == 0 then 0 else if n < 3 then 1 else 1 + Groups(n - 3) }
  function Pads(n: nat): nat { if n == 0 then 0 else if n < 3 then 3 - n else Pads(n - 3) }

  lemma {:induction false} GroupsArePadded(n: nat)
    ensures 3 * Groups(n) == n + Pads(n) && Pads(n) < 3
    ensures SizeEncoded(n) == 4 * Groups(n) + 1
  {
    if n >= 3 {
      GroupsArePadded(n - 3);
    }
  }

  /** Four characters for each three bytes begun. */
  lemma {:induction false} EncodedLength(d: seq<byte>)
    ensures |Encoded(d)| == 4 * Groups(|d|)
    decreases |d|
  {
    if |d| >= 3 {
      EncodedLength(d[3..]);
    }
  }

  lemma {:induction false} DecodedLength(e: string)
    requires |e| % 4 == 0
    ensures 4 * |Decoded(e)| == 3 * |e|
    decreases |e|
  {
    if |e| >= 4 {
      DecodedLength(e[4..]);
    }
  }

  function Zeros(n: nat): seq<byte> { seq(n, _ => 0) }

  lemma ValueOfSixty4(v: int)
    requires 0 <= v < 64
    ensures Value(Sixty4(v)) == v && InAlphabet(Sixty4(v))
  {
  }

  lemma TripleOf(v0: int, v1: int, v2: int, v3: int)
    requires 0 <= v0 < 64 && 0 <= v1 < 64 && 0 <= v2 < 64 && 0 <= v3 < 64
    ensures Triple([Sixty4(v0), Sixty4(v1), Sixty4(v2), Sixty4(v3)]) ==
            [v0 * 4 + v1 / 16, v1 % 16 * 16 + v2 / 4, v2 % 4 * 64 + v3]
  {
    ValueOfSixty4(v0);
    ValueOfSixty4(v1);
    ValueOfSixty4(v2);
    ValueOfSixty4(v3);
  }

  function Triple(q: string): seq<byte>
    requires |q| == 4
  {
    [First(q[0], q[1]), Second(q[1], q[2]), Third(q[2], q[3])]
  }

  lemma QuadInverse(x: byte, y: byte, z: byte)
    ensures Triple(Quad(x, y, z)) == [x, y, z]
  {
    var v1, v2 := Middle(x, y, z);
    TripleOf(x / 4, v1, v2, z % 64);
    Regroup(x, y, z, v1, v2);
  }

  /** The two values in the middle of a group hold the bits that they were put together from. */
  lemma Middle(x: byte, y: byte, z: byte) returns (v1: int, v2: int)
    ensures 0 <= v1 < 64 && 0 <= v2 < 64
    ensures v1 / 16 == x % 4 && v1 % 16 == y / 16 && v2 / 4 == y % 16 && v2 % 4 == z / 64
    ensures Quad(x, y, z) == [Sixty4(x / 4), Sixty4(v1), Sixty4(v2), Sixty4(z % 64)]
  {
    v1, v2 := x % 4 * 16 + y / 16, y % 16 * 4 + z / 64;
  }

  lemma Regroup(x: byte, y: byte, z: byte, v1: int, v2: int)
    requires v1 / 16 == x % 4 && v1 % 16 == y / 16 && v2 / 4 == y % 16 && v2 % 4 == z / 64
    ensures [x / 4 * 4 + v1 / 16, v1 % 16 * 16 + v2 / 4, v2 % 4 * 64 + z % 64] == [x as int, y as int, z as int]
  {
  }

  /** The decoder reads '=' as it reads the character for zero. */
  lemma PaddingReadsAsZero(a: char, b: char, c: char)
    ensures Triple([a, b, c, '=']) == Triple([a, b, c, Sixty4(0)])
    ensures Triple([a, b, '=', '=']) == Triple([a, b, Sixty4(0), Sixty4(0)])
  {
    assert Value('=') == Value(Sixty4(0));
  }

  lemma LastTwo(x: byte, y: byte)
    ensures Triple(Rest([x, y])) == [x, y, 0]
  {
    QuadInverse(x, y, 0);
    PaddingReadsAsZero(High6(x), High24(x, y), Low42(y, 0));
  }

  lemma LastOne(x: byte)
    ensures Triple(Rest([x])) == [x, 0, 0]
  {
    var a, b := High6(x), High24(x, 0);
    assert Rest([x]) == [a, b, '=', '='];
    PaddingReadsAsZero(a, b, '=');
    ZeroQuad(x);
    QuadInverse(x, 0, 0);
  }

  lemma ZeroQuad(x: byte)
    ensures Quad(x, 0, 0) == [High6(x), High24(x, 0), Sixty4(0), Sixty4(0)]
  {
  }

  lemma DecodeOfOne(x: byte)
    ensures Decoded(Encoded([x])) == [x] + Zeros(2)
  {
    LastOne(x);
    DecodedStep(Rest([x]), "");
    assert [x, 0, 0] == [x] + Zeros(2);
  }

  lemma DecodeOfTwo(x: byte, y: byte)
    ensures Decoded(Encoded([x, y])) == [x, y] + Zeros(1)
  {
    LastTwo(x, y);
    DecodedStep(Rest([x, y]), "");
    assert [x, y, 0] == [x, y] + Zeros(1);
  }

  /** Decoding what was encoded gives it back, followed by one zero byte for each '='. */
  lemma {:induction false} DecodeOfEncode(d: seq<byte>)
    ensures Decoded(Encoded(d)) == d + Zeros(Pads(|d|))
    decreases |d|
  {
    if |d| == 0 {
      assert d + Zeros(0) == [];
    } else if |d| == 1 {
      assert d == [d[0]];
      DecodeOfOne(d[0]);
    } else if |d| == 2 {
      assert d == [d[0], d[1]];
      DecodeOfTwo(d[0], d[1]);
    } else {
      DecodeOfEncode(d[3..]);
      GroupInFront(d[0], d[1], d[2], d[3..], Zeros(Pads(|d|)));
      assert [d[0], d[1], d[2]] + d[3..] == d;
    }
  }

  lemma GroupInFront(x: byte, y: byte, z: byte, d: seq<byte>, pad: seq<byte>)
    requires Decoded(Encoded(d)) == d + pad
    ensures Decoded(Encoded([x, y, z] + d)) == [x, y, z] + d + pad
  {
    QuadInverse(x, y, z);
    Seqs.TakeOfCat([x, y, z], d);
    assert Encoded([x, y, z] + d) == Quad(x, y, z) + Encoded(d);
    GroupThenRest(Quad(x, y, z), Encoded(d), [x, y, z], d, pad);
  }

  /** Decoding goes group by group. */
  lemma GroupThenRest(q: string, more: string, three: seq<byte>, d: seq<byte>, pad: seq<byte>)
    requires |q| == 4 && Triple(q) == three && Decoded(more) == d + pad
    ensures Decoded(q + more) == three + d + pad
  {
    DecodedStep(q, more);
    Seqs.Assoc(three, d, pad);
  }

  lemma DecodedStep(q: string, more: string)
    requires |q| == 4
    ensures Decoded(q + more) == Triple(q) + Decoded(more)
    ensures Decoded(q) == Triple(q)
  {
    assert (q + more)[4..] == more;
    assert q[4..] == "" && Triple(q) + [] == Triple(q);
  }

  ghost predicate AllInAlphabet(q: string) { forall c :: c in q ==> InAlphabet(c) }

  function Padding(n: nat): string { seq(n, _ => '=') }

  lemma Sixty4InAlphabet(v: int)
    requires 0 <= v < 64
    ensures InAlphabet(Sixty4(v)) && Sixty4(v) != '='
  {
  }

  lemma QuadInAlphabet(x: byte, y: byte, z: byte)
    ensures AllInAlphabet(Quad(x, y, z))
  {
    Sixty4InAlphabet(x / 4);
    Sixty4InAlphabet(x % 4 * 16 + y / 16);
    Sixty4InAlphabet(y % 16 * 4 + z / 64);
    Sixty4InAlphabet(z % 64);
  }

  /** The text is a string over the alphabet followed by its padding. */
  lemma {:induction false} EncodedAlphabet(d: seq<byte>) returns (body: string)
    ensures AllInAlphabet(body) && Encoded(d) == body + Padding(Pads(|d|))
    decreases |d|
  {
    if |d| == 0 {
      body := "";
      assert Encoded(d) == body + Padding(0);
    } else if |d| == 1 {
      QuadInAlphabet(d[0], 0, 0);
      body := Quad(d[0], 0, 0)[..2];
      assert Encoded(d) == body + Padding(2);
    } else if |d| == 2 {
      QuadInAlphabet(d[0], d[1], 0);
      body := Quad(d[0], d[1], 0)[..3];
      assert Encoded(d) == body + Padding(1);
    } else {
      var more := EncodedAlphabet(d[3..]);
      QuadInAlphabet(d[0], d[1], d[2]);
      body := Quad(d[0], d[1], d[2]) + more;
      Seqs.Assoc(Quad(d[0], d[1], d[2]), more, Padding(Pads(|d|)));
    }
  }

  /** Different byte strings have different texts, whatever their lengths. */
  lemma EncodeInjective(a: seq<byte>, b: seq<byte>)
    requires Encoded(a) == Encoded(b)
    ensures a == b
  {
    EncodedLength(a);
    EncodedLength(b);
    GroupsArePadded(|a|);
    GroupsArePadded(|b|);
    var s := EncodedAlphabet(a);
    var t := EncodedAlphabet(b);
    SamePadding(s, Pads(|a|), t, Pads(|b|));
    DecodeOfEncode(a);
    DecodeOfEncode(b);
    Seqs.TakeOfCat(a, Zeros(Pads(|a|)));
    Seqs.TakeOfCat(b, Zeros(Pads(|b|)));
  }

  lemma SamePadding(s: string, m: nat, t: string, n: nat)
    requires AllInAlphabet(s) && AllInAlphabet(t) && s + Padding(m) == t + Padding(n)
    ensures m == n
  {
    var u := s + Padding(m);
    FirstPad(u, s, m);
    FirstPad(u, t, n);
    assert |s| < |u| ==> u[|s|] == '=';
    assert |t| < |u| ==> u[|t|] == '=';
  }

  /** The padding begins at the first character outside the alphabet. */
  lemma FirstPad(u: string, s: string, m: nat)
    requires AllInAlphabet(s) && u == s + Padding(m)
    ensures forall k :: 0 <= k < |u| ==> (u[k] == '=' <==> k >= |s|)
  {
    assert forall k :: 0 <= k < |s| ==> u[k] == s[k] && s[k] in s;
  }

  // ---------------------------------------------------------------- the alphabet and the numbers

  const ALPHABET := "ABCDEFGHIJKLMNOPQRSTUVWXYZ" + "abcdefghijklmnopqrstuvwxyz" + "0123456789+-"

  /** The character for a value is that of the alphabet, and stands for it again; a '/' stands for 63 as well. */
  lemma AlphabetIs(v: int)
    requires 0 <= v < 64
    ensures |ALPHABET| == 64 && Sixty4(v) == ALPHABET[v] && Value(ALPHABET[v]) == v && Value('/') == 63
  {
    if v < 26 {
      assert ALPHABET[v] == "ABCDEFGHIJKLMNOPQRSTUVWXYZ"[v];
    } else if v < 52 {
      assert ALPHABET[v] == "abcdefghijklmnopqrstuvwxyz"[v - 26];
    } else {
      assert ALPHABET[v] == "0123456789+-"[v - 52];
    }
  }

  lemma InAlphabetIff(c: char)
    ensures InAlphabet(c) <==> c in ALPHABET
  {
    if InAlphabet(c) {
      AlphabetIs(Value(c));
    }
    if c in ALPHABET {
      var v :| 0 <= v < |ALPHABET| && ALPHABET[v] == c;
      AlphabetIs(0);
      AlphabetIs(v);
    }
  }

  /** The byte at k, or a zero behind the end. */
  function ByteAt(d: seq<byte>, k: nat): byte { if k < |d| then d[k] else 0 }

  /** Four characters, read as a number to the base 64. */
  function Number64(q: string): int
    requires |q| == 4
  {
    Value(q[0]) * 262144 + Value(q[1]) * 4096 + Value(q[2]) * 64 + Value(q[3])
  }

  lemma QuadNumber(x: byte, y: byte, z: byte)
    ensures Number64(Quad(x, y, z)) == x * 65536 + y * 256 + z
  {
    var v1, v2 := Middle(x, y, z);
    ValueOfSixty4(x / 4);
    ValueOfSixty4(v1);
    ValueOfSixty4(v2);
    ValueOfSixty4(z % 64);
  }

  lemma RestNumber(d: seq<byte>)
    requires 0 < |d| < 3
    ensures Number64(Rest(d)) == ByteAt(d, 0) * 65536 + ByteAt(d, 1) * 256
  {
    if |d| == 2 {
      PaddingNumber(High6(d[0]), High24(d[0], d[1]), Low42(d[1], 0));
      QuadNumber(d[0], d[1], 0);
    } else {
      PaddingNumber(High6(d[0]), High24(d[0], 0), '=');
      ZeroQuad(d[0]);
      QuadNumber(d[0], 0, 0);
    }
  }

  lemma PaddingNumber(a: char, b: char, c: char)
    ensures Number64([a, b, c, '=']) == Number64([a, b, c, Sixty4(0)])
    ensures Number64([a, b, '=', '=']) == Number64([a, b, Sixty4(0), Sixty4(0)])
  {
    assert Value('=') == Value(Sixty4(0));
  }

  /** The number of three bytes from k on. */
  function Number256(d: seq<byte>, k: nat): int { ByteAt(d, k) * 65536 + ByteAt(d, k + 1) * 256 + ByteAt(d, k + 2) }

  lemma NextGroup(d: seq<byte>, k: nat, q: string, rest: string, at: nat)
    requires |d| >= 3 && |q| == 4 && at + 4 <= |rest|
    ensures Number256(d, k + 3) == Number256(d[3..], k)
    ensures (q + rest)[at + 4..at + 8] == rest[at..at + 4]
  {
    assert ByteAt(d, k + 3) == ByteAt(d[3..], k);
    assert ByteAt(d, k + 4) == ByteAt(d[3..], k + 1);
    assert ByteAt(d, k + 5) == ByteAt(d[3..], k + 2);
  }

  lemma FirstGroup(d: seq<byte>)
    requires d != []
    ensures 4 <= |Encoded(d)| && Number64(Encoded(d)[..4]) == Number256(d, 0)
  {
    if |d| < 3 {
      RestNumber(d);
      assert Rest(d)[..4] == Rest(d);
    } else {
      var q, rest := Quad(d[0], d[1], d[2]), Encoded(d[3..]);
      QuadNumber(d[0], d[1], d[2]);
      assert (q + rest)[..4] == q;
    }
  }

  /** Every four characters are the number that the three bytes are to the base 256, the missing ones of the last group being zero. */
  lemma {:induction false} GroupNumber(d: seq<byte>, k: nat, at: nat)
    requires k < |d| && k % 3 == 0 && at == k / 3 * 4
    ensures at + 4 <= |Encoded(d)| && Number64(Encoded(d)[at..at + 4]) == Number256(d, k)
    decreases k
  {
    if k == 0 {
      FirstGroup(d);
    } else {
      GroupNumber(d[3..], k - 3, at - 4);
      NextGroup(d, k - 3, Quad(d[0], d[1], d[2]), Encoded(d[3..]), at - 4);
    }
  }
}
