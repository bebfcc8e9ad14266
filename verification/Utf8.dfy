/** UTF-8 as `String::from_utf8_lossy` decodes it, and what cutting the bytes does to the text. */
module Utf8 {
  import opened Text

  type Byte = x: int | 0 <= x < 256

  const REPLACEMENT: char := '\U{FFFD}'

  predicate IsContinuation(b: Byte) {
    0x80 <= b <= 0xBF
  }

  /** The length of a UTF-8 sequence by its first byte (RFC 3629, section 4); 0 when none starts so. */
  function Width(b: Byte): nat {
    if b < 0x80 then 1
    else if 0xC2 <= b <= 0xDF then 2
    else if 0xE0 <= b <= 0xEF then 3
    else if 0xF0 <= b <= 0xF4 then 4
    else 0
  }

  /** Which second bytes a first byte allows: no overlong forms, no surrogates, nothing above U+10FFFF. */
  predicate SecondFits(first: Byte, b: Byte) {
    if first == 0xE0 then 0xA0 <= b <= 0xBF
    else if first == 0xED then 0x80 <= b <= 0x9F
    else if first == 0xF0 then 0x90 <= b <= 0xBF
    else if first == 0xF4 then 0x80 <= b <= 0x8F
    else IsContinuation(b)
  }

  /** Whether `b` can stand at place `i` of a sequence that starts with `first`. */
  predicate Fits(first: Byte, i: nat, b: Byte) {
    0 < i < Width(first) && (if i == 1 then SecondFits(first, b) else IsContinuation(b))
  }

  /** How many bytes belong to the sequence at the front: it ends at the first byte that does not fit. */
  function Taken(bytes: seq<Byte>): (n: nat)
    requires bytes != []
    ensures 1 <= n <= |bytes|
    ensures n <= 4
  {
    if |bytes| < 2 || !Fits(bytes[0], 1, bytes[1]) then 1
    else if |bytes| < 3 || !Fits(bytes[0], 2, bytes[2]) then 2
    else if |bytes| < 4 || !Fits(bytes[0], 3, bytes[3]) then 3
    else 4
  }

  /** The character of a complete sequence; anything else becomes one replacement character. */
  function CharOf(bytes: seq<Byte>): char
    requires bytes != []
  {
    var n, b0: int := Taken(bytes), bytes[0];
    if n != Width(bytes[0]) then REPLACEMENT
    else if n == 1 then b0 as char
    else
      var b1: int := bytes[1] - 0x80;
      if n == 2 then ((b0 - 0xC0) * 0x40 + b1) as char
      else
        var b2: int := bytes[2] - 0x80;
        if n == 3 then ((b0 - 0xE0) * 0x1000 + b1 * 0x40 + b2) as char
        else
          var b3: int := bytes[3] - 0x80;
          ((b0 - 0xF0) * 0x40000 + b1 * 0x1000 + b2 * 0x40 + b3) as char
  }

  /** `String::from_utf8_lossy`. */
  function DecodeLossy(bytes: seq<Byte>): string {
    if bytes == [] then "" else [CharOf(bytes)] + DecodeLossy(bytes[Taken(bytes)..])
  }

  /** The UTF-8 form of a character (RFC 3629, section 3). */
  function Encode(c: char): (r: seq<Byte>)
    ensures r != []
  {
    var x := c as int;
    if x < 0x80 then [x]
    else if x < 0x800 then [0xC0 + x / 0x40, 0x80 + x % 0x40]
    else if x < 0x10000 then [0xE0 + x / 0x1000, 0x80 + x / 0x40 % 0x40, 0x80 + x % 0x40]
    else [0xF0 + x / 0x40000, 0x80 + x / 0x1000 % 0x40, 0x80 + x / 0x40 % 0x40, 0x80 + x % 0x40]
  }

  function EncodeAll(s: string): seq<Byte> {
    if s == "" then [] else Encode(s[0]) + EncodeAll(s[1..])
  }

  lemma EncodeOne(c: char, more: seq<Byte>)
    ensures var all := Encode(c) + more;
            Taken(all) == |Encode(c)| && CharOf(all) == c && all[Taken(all)..] == more
  {
    var x, all, r := c as int, Encode(c) + more, Encode(c);
    assert forall i | 0 <= i < |r| :: all[i] == r[i];
    if x >= 0x80 {
      assert x / 0x40 / 0x40 == x / 0x1000 && x / 0x1000 / 0x40 == x / 0x40000;
    }
  }

  /** Decoding gives back every text from its UTF-8 form. */
  lemma {:induction false} DecodeEncoded(s: string)
    ensures DecodeLossy(EncodeAll(s)) == s
  {
    if s != "" {
      EncodeOne(s[0], EncodeAll(s[1..]));
      DecodeEncoded(s[1..]);
    }
  }

  /** A sequence that has begun and is not complete. */
  predicate IsOpen(bytes: seq<Byte>) {
    bytes != [] && Taken(bytes) == |bytes| < Width(bytes[0])
  }

  /** The incomplete sequence at the end of the bytes, if there is one. */
  function Pending(bytes: seq<Byte>): seq<Byte> {
    if bytes == [] then []
    else if IsOpen(bytes) then bytes
    else Pending(bytes[Taken(bytes)..])
  }

  /** A cut between `a` and `b` splits a sequence: the next byte belongs to what `a` leaves incomplete. */
  predicate Splits(a: seq<Byte>, b: seq<Byte>) {
    var t := Pending(a);
    t != [] && b != [] && Fits(t[0], |t|, b[0])
  }

  /** Unless the sequence at the front is still open, further bytes do not change it. */
  lemma FrontIsFixed(a: seq<Byte>, b: seq<Byte>)
    requires a != [] && (!IsOpen(a) || b == [] || !Fits(a[0], |a|, b[0]))
    ensures Taken(a + b) == Taken(a) && CharOf(a + b) == CharOf(a)
    ensures (a + b)[Taken(a)..] == a[Taken(a)..] + b
  {
    var c := a + b;
    assert forall i | 0 <= i < |a| :: c[i] == a[i];
    assert b != [] ==> c[|a|] == b[0];
    assert Taken(c) == Taken(a);
    SameChar(a, c);
    TailOfConcat(a, b, Taken(a));
  }

  lemma SameChar(a: seq<Byte>, c: seq<Byte>)
    requires a != [] && c != [] && Taken(a) == Taken(c)
    requires forall i | 0 <= i < Taken(a) :: a[i] == c[i]
    ensures CharOf(a) == CharOf(c)
  {
  }

  lemma TailOfConcat<T>(a: seq<T>, b: seq<T>, n: nat)
    requires n <= |a|
    ensures (a + b)[n..] == a[n..] + b
  {
  }

  lemma LoneContinuations(b: seq<Byte>, k: nat)
    requires k <= |b| && forall i | 0 <= i < k :: IsContinuation(b[i])
    ensures |DecodeLossy(b)| == k + |DecodeLossy(b[k..])|
  {
    if k == 0 {
      assert b[0..] == b;
    } else {
      LoneContinuations(b[1..], k - 1);
      assert b[1..][k - 1..] == b[k..];
    }
  }

  /** Decoding two halves of a split sequence separately gives more characters than it has. */
  lemma SplitFront(a: seq<Byte>, b: seq<Byte>)
    requires IsOpen(a) && b != [] && Fits(a[0], |a|, b[0])
    ensures |DecodeLossy(a + b)| < |DecodeLossy(a)| + |DecodeLossy(b)|
  {
    var c := a + b;
    assert forall i | 0 <= i < |a| :: c[i] == a[i];
    assert forall i | 0 <= i < |b| :: c[|a| + i] == b[i];
    var k := Taken(c) - |a|;
    assert c[Taken(c)..] == b[k..];
    LoneContinuations(b, k);
    assert a[|a|..] == [];
    assert DecodeLossy(a) == [CharOf(a)] + "";
  }

  /**
   Two chunks decode to the same text as the bytes together exactly when the cut splits no
   sequence; otherwise the separate decoding is longer.
   */
  lemma {:induction false} DecodesApartIff(a: seq<Byte>, b: seq<Byte>)
    ensures DecodeLossy(a + b) == DecodeLossy(a) + DecodeLossy(b) <==> !Splits(a, b)
    ensures Splits(a, b) ==> |DecodeLossy(a + b)| < |DecodeLossy(a)| + |DecodeLossy(b)|
    decreases |a|
  {
    if a == [] {
      assert a + b == b;
      assert DecodeLossy(a) + DecodeLossy(b) == DecodeLossy(b);
    } else if IsOpen(a) && b != [] && Fits(a[0], |a|, b[0]) {
      SplitFront(a, b);
    } else {
      FrontIsFixed(a, b);
      var rest := a[Taken(a)..];
      DecodesApartIff(rest, b);
      Assoc([CharOf(a)], DecodeLossy(rest), DecodeLossy(b));
      if IsOpen(a) {
        assert rest == [] && rest + b == b;
      }
    }
  }

  /** The text the loop buffers: each chunk is decoded on its own. */
  function Decoded(chunks: seq<seq<Byte>>): seq<string> {
    seq(|chunks|, i requires 0 <= i < |chunks| => DecodeLossy(chunks[i]))
  }

  /** The cut in front of each chunk splits no sequence of the bytes before it. */
  predicate CleanCuts(chunks: seq<seq<Byte>>) {
    chunks == []
    || (CleanCuts(chunks[..|chunks| - 1]) && !Splits(Concat(chunks[..|chunks| - 1]), chunks[|chunks| - 1]))
  }

  /**
   The buffered text is the decoding of all bytes together exactly when no cut splits a
   sequence; otherwise it is longer.
   */
  lemma {:induction false} BytesDoNotMatterIff(chunks: seq<seq<Byte>>)
    ensures Concat(Decoded(chunks)) == DecodeLossy(Concat(chunks)) <==> CleanCuts(chunks)
    ensures !CleanCuts(chunks) ==> |Concat(Decoded(chunks))| > |DecodeLossy(Concat(chunks))|
  {
    if chunks != [] {
      var front, last := chunks[..|chunks| - 1], chunks[|chunks| - 1];
      BytesDoNotMatterIff(front);
      DecodesApartIff(Concat(front), last);
      MoreText(front, last);
      assert chunks == front + [last];
    }
  }

  lemma MoreBytes(front: seq<seq<Byte>>, last: seq<Byte>)
    ensures Concat(front + [last]) == Concat(front) + last
  {
    assert (front + [last])[..|front|] == front;
  }

  lemma MoreText(front: seq<seq<Byte>>, last: seq<Byte>)
    ensures Concat(Decoded(front + [last])) == Concat(Decoded(front)) + DecodeLossy(last)
  {
    assert Decoded(front + [last])[..|front|] == Decoded(front);
  }

  lemma MoreCuts(front: seq<seq<Byte>>, last: seq<Byte>)
    ensures CleanCuts(front + [last]) <==> CleanCuts(front) && !Splits(Concat(front), last)
  {
    assert (front + [last])[..|front|] == front;
  }
}
