/** The byte-bounded tail of a text: UTF-8 as in section 3 of RFC 3629, sliced at any byte and
    decoded again with replacement characters. */
module Tail {
  type Code = n: int | 0 <= n < 0x110000
  type Byte = n: int | 0 <= n < 0x100
  type Text = seq<Code>
  type Bytes = seq<Byte>

  const REPLACEMENT: Code := 0xFFFD
  const QUESTION_MARK: Code := 0x3F

  /** Half of a surrogate pair; a string may hold one, UTF-8 may not. */
  predicate Surrogate(c: Code) {
    0xD800 <= c <= 0xDFFF
  }

  // ---- encoding ----------------------------------------------------------------------------

  function EncodeOne(c: Code): Bytes {
    if c < 0x80 then [c]
    else if c < 0x800 then [0xC0 + c / 64, 0x80 + c % 64]
    else if Surrogate(c) then [QUESTION_MARK]
    else if c < 0x10000 then [0xE0 + c / 4096, 0x80 + c / 64 % 64, 0x80 + c % 64]
    else [0xF0 + c / 262144, 0x80 + c / 4096 % 64, 0x80 + c / 64 % 64, 0x80 + c % 64]
  }

  function Encode(text: Text): Bytes {
    if text == [] then [] else EncodeOne(text[0]) + Encode(text[1..])
  }

  /** What survives an encoding: surrogates become question marks. */
  function Scrubbed(text: Text): Text {
    seq(|text|, i requires 0 <= i < |text| => if Surrogate(text[i]) then QUESTION_MARK else text[i])
  }

  // ---- decoding ----------------------------------------------------------------------------

  predicate Continues(b: Byte) {
    0x80 <= b < 0xC0
  }

  /** The six bits a continuation byte carries. */
  function Low(b: Byte): int {
    b as int - 0x80
  }

  /** The second byte a lead byte of three or four admits: no overlong form, no surrogate, nothing
      beyond the last code point. */
  predicate Second(lead: int, b: Byte) {
    && Continues(b)
    && (lead == 0xE0 ==> b >= 0xA0) && (lead == 0xED ==> b < 0xA0)
    && (lead == 0xF0 ==> b >= 0x90) && (lead == 0xF4 ==> b < 0x90)
  }

  /** The first code point of a byte string and the bytes it takes; a broken sequence counts as one
      replacement character for as many bytes as could have begun a code point. */
  function DecodeOne(b: Bytes): (Code, nat)
    requires b != []
  {
    var lead: int := b[0];
    if lead < 0x80 then (lead, 1)
    else if 0xC2 <= lead < 0xE0 then
      if |b| < 2 || !Continues(b[1]) then (REPLACEMENT, 1)
      else ((lead - 0xC0) * 64 + Low(b[1]), 2)
    else if 0xE0 <= lead < 0xF0 then
      if |b| < 2 || !Second(lead, b[1]) then (REPLACEMENT, 1)
      else if |b| < 3 || !Continues(b[2]) then (REPLACEMENT, 2)
      else ((lead - 0xE0) * 4096 + Low(b[1]) * 64 + Low(b[2]), 3)
    else if 0xF0 <= lead < 0xF5 then
      if |b| < 2 || !Second(lead, b[1]) then (REPLACEMENT, 1)
      else if |b| < 3 || !Continues(b[2]) then (REPLACEMENT, 2)
      else if |b| < 4 || !Continues(b[3]) then (REPLACEMENT, 3)
      else ((lead - 0xF0) * 262144 + Low(b[1]) * 4096 + Low(b[2]) * 64 + Low(b[3]), 4)
    else (REPLACEMENT, 1)
  }

  function Decode(b: Bytes): Text
    decreases |b|
  {
    if b == [] then [] else
      var (c, n) := DecodeOne(b);
      [c] + Decode(b[n..])
  }

  lemma TwoBytes(c: Code, b: Bytes)
    requires 0x80 <= c < 0x800 && |b| >= 2
    requires b[0] == 0xC0 + c / 64 && b[1] == 0x80 + c % 64
    ensures DecodeOne(b) == (c, 2)
  {
  }

  lemma ThreeBytes(c: Code, b: Bytes)
    requires 0x800 <= c < 0x10000 && !Surrogate(c) && |b| >= 3
    requires b[0] == 0xE0 + c / 4096 && b[1] == 0x80 + c / 64 % 64 && b[2] == 0x80 + c % 64
    ensures DecodeOne(b) == (c, 3)
  {
    assert c / 4096 == c / 64 / 64;
    assert c == c / 64 * 64 + c % 64;
    assert Second(b[0], b[1]);
  }

  lemma FourBytes(c: Code, b: Bytes)
    requires 0x10000 <= c && |b| >= 4
    requires b[0] == 0xF0 + c / 262144 && b[1] == 0x80 + c / 4096 % 64
    requires b[2] == 0x80 + c / 64 % 64 && b[3] == 0x80 + c % 64
    ensures DecodeOne(b) == (c, 4)
  {
    var x, y := c / 64, c / 4096;
    assert y == x / 64 && c / 262144 == y / 64;
    assert c == x * 64 + c % 64 && x == y * 64 + x % 64 && y == y / 64 * 64 + y % 64;
    assert Second(b[0], b[1]);
  }

  lemma EncodedIsDecoded(c: Code, rest: Bytes)
    ensures DecodeOne(EncodeOne(c) + rest)
      == (if Surrogate(c) then QUESTION_MARK else c, |EncodeOne(c)|)
  {
    hide DecodeOne;
    var b := EncodeOne(c) + rest;
    if c < 0x80 || Surrogate(c) {
      OneByte(b);
    } else if c < 0x800 {
      TwoBytes(c, b);
    } else if c < 0x10000 {
      ThreeBytes(c, b);
    } else {
      FourBytes(c, b);
    }
  }

  lemma OneByte(b: Bytes)
    requires b != [] && b[0] < 0x80
    ensures DecodeOne(b) == (b[0], 1)
  {
  }

  /** The bytes behind a lead byte are all continuation bytes, three at most. */
  lemma TrailingBytes(c: Code)
    ensures 1 <= |EncodeOne(c)| <= 4
    ensures forall i | 1 <= i < |EncodeOne(c)| :: Continues(EncodeOne(c)[i])
  {
  }

  lemma DecodeStep(c: Code, rest: Bytes)
    ensures Decode(EncodeOne(c) + rest) == [if Surrogate(c) then QUESTION_MARK else c] + Decode(rest)
  {
    hide EncodeOne, DecodeOne;
    EncodedIsDecoded(c, rest);
    TrailingBytes(c);
    var all := EncodeOne(c) + rest;
    assert all[|EncodeOne(c)|..] == rest;
  }

  /** Decoding what was encoded gives the text back, surrogates aside. */
  lemma {:induction false} DecodeEncode(text: Text)
    ensures Decode(Encode(text)) == Scrubbed(text)
  {
    hide EncodeOne, DecodeOne;
    if text != [] {
      DecodeEncode(text[1..]);
      DecodeStep(text[0], Encode(text[1..]));
      assert Scrubbed(text) == [if Surrogate(text[0]) then QUESTION_MARK else text[0]] + Scrubbed(text[1..]);
    }
  }

  // ---- the tail ----------------------------------------------------------------------------

  /** encoded[-maxBytes:]: a bound of zero keeps everything, a negative one drops from the front. */
  function SliceStart(length: nat, maxBytes: int): nat {
    if maxBytes > 0 then (if maxBytes < length then length - maxBytes else 0)
    else if -maxBytes < length then -maxBytes
    else length
  }

  /** `_bounded_tail` on a text that is present. */
  function BoundedTail(text: Text, maxBytes: int): Text {
    var encoded := Encode(text);
    if text == [] || |encoded| <= maxBytes then text
    else Decode(encoded[SliceStart(|encoded|, maxBytes)..])
  }

  function Marks(n: nat): Text {
    seq(n, i => REPLACEMENT)
  }

  /** Where a cut at a byte falls: the first character kept whole, and how many bytes of the one
      before it are kept. */
  datatype Cut = Cut(next: nat, broken: nat)

  function CutAt(text: Text, start: nat): Cut
    requires start <= |Encode(text)|
  {
    if start == 0 then Cut(0, 0)
    else
      var n := |EncodeOne(text[0])|;
      if n <= start then
        var c := CutAt(text[1..], start - n);
        c.(next := c.next + 1)
      else Cut(1, n - start)
  }

  lemma StrayByte(b: Bytes)
    requires b != [] && Continues(b[0])
    ensures DecodeOne(b) == (REPLACEMENT, 1)
  {
  }

  lemma {:induction false} BrokenBytesAreMarks(broken: Bytes, rest: Bytes)
    requires forall i | 0 <= i < |broken| :: Continues(broken[i])
    ensures Decode(broken + rest) == Marks(|broken|) + Decode(rest)
  {
    hide DecodeOne;
    if broken == [] {
      assert broken + rest == rest && Marks(0) == [];
    } else {
      BrokenBytesAreMarks(broken[1..], rest);
      var all := broken + rest;
      StrayByte(all);
      assert all[1..] == broken[1..] + rest;
      assert Marks(|broken|) == [REPLACEMENT] + Marks(|broken| - 1);
    }
  }

  /** Decoding from any byte on: at most three marks, one per byte of the broken character, then a
      true suffix; no complete character is lost. */
  lemma {:induction false} SliceDecodes(text: Text, start: nat)
    requires start <= |Encode(text)|
    ensures var c := CutAt(text, start);
      && c.next <= |text| && c.broken <= 3
      && Decode(Encode(text)[start..]) == Marks(c.broken) + Scrubbed(text[c.next..])
      && c.broken + |Encode(text[c.next..])| == |Encode(text)| - start
    decreases |text|
  {
    hide EncodeOne, DecodeOne, Decode, Scrubbed;
    if start == 0 {
      assert Encode(text)[0..] == Encode(text) && text[0..] == text;
      DecodeEncode(text);
      assert Marks(0) + Scrubbed(text) == Scrubbed(text);
    } else {
      var head := EncodeOne(text[0]);
      var rest := Encode(text[1..]);
      TrailingBytes(text[0]);
      if |head| <= start {
        SliceDecodes(text[1..], start - |head|);
        assert (head + rest)[start..] == rest[start - |head|..];
        var c := CutAt(text[1..], start - |head|);
        assert text[1..][c.next..] == text[c.next + 1..];
      } else {
        assert (head + rest)[start..] == head[start..] + rest;
        BrokenBytesAreMarks(head[start..], rest);
        DecodeEncode(text[1..]);
      }
    }
  }

  lemma EncodeStep(c: Code, rest: Text)
    ensures Encode([c] + rest) == EncodeOne(c) + Encode(rest)
  {
    hide EncodeOne;
    assert ([c] + rest)[1..] == rest;
  }

  lemma {:induction false} EncodeAppends(a: Text, b: Text)
    ensures Encode(a + b) == Encode(a) + Encode(b)
    decreases |a|
  {
    hide Encode, EncodeOne;
    if a == [] {
      assert a + b == b;
      NothingEncoded();
    } else {
      var head, rest := a[0], a[1..];
      EncodeAppends(rest, b);
      EncodeStep(head, rest);
      EncodeStep(head, rest + b);
      assert a == [head] + rest && a + b == [head] + (rest + b);
    }
  }

  lemma NothingEncoded()
    ensures Encode([]) == []
  {
  }

  lemma {:induction false} MarksEncode(n: nat)
    ensures |Encode(Marks(n))| == 3 * n
  {
    if n > 0 {
      MarksEncode(n - 1);
      assert Marks(n)[1..] == Marks(n - 1);
    }
  }

  lemma {:induction false} ScrubbingKeepsTheBytes(text: Text)
    ensures Encode(Scrubbed(text)) == Encode(text)
  {
    if text != [] {
      ScrubbingKeepsTheBytes(text[1..]);
      assert Scrubbed(text)[1..] == Scrubbed(text[1..]);
    }
  }

  /** For a positive bound: a text that fits is returned as it is; of an over-long one the last
      bytes are kept, at most three of them as marks, and the rest is a true suffix. */
  lemma TailIsASuffix(text: Text, maxBytes: int)
    requires maxBytes > 0
    ensures |Encode(text)| <= maxBytes ==> BoundedTail(text, maxBytes) == text
    ensures |Encode(text)| > maxBytes ==>
      exists next, broken | 0 <= next <= |text| && 0 <= broken <= 3 ::
        && BoundedTail(text, maxBytes) == Marks(broken) + Scrubbed(text[next..])
        && broken + |Encode(text[next..])| == maxBytes
        && |Encode(BoundedTail(text, maxBytes))| == maxBytes + 2 * broken
  {
    if |Encode(text)| > maxBytes {
      var start := SliceStart(|Encode(text)|, maxBytes);
      SliceDecodes(text, start);
      var c := CutAt(text, start);
      Reencoded(c.broken, text[c.next..]);
    }
  }

  lemma Reencoded(n: nat, text: Text)
    ensures |Encode(Marks(n) + Scrubbed(text))| == 3 * n + |Encode(text)|
  {
    EncodeAppends(Marks(n), Scrubbed(text));
    MarksEncode(n);
    ScrubbingKeepsTheBytes(text);
  }

  ghost predicate Bounded(maxBytes: int) {
    forall text :: |Encode(BoundedTail(text, maxBytes))| <= maxBytes + 6
  }

  /** n letters. */
  function Letters(n: nat): Text {
    seq(n, i => 0x61)
  }

  lemma {:induction false} LettersEncode(n: nat)
    ensures |Encode(Letters(n))| == n
  {
    if n > 0 {
      LettersEncode(n - 1);
      assert Letters(n)[1..] == Letters(n - 1);
    }
  }

  /** The promised size holds for every text exactly when the bound is positive: a bound of zero
      returns the whole text, a negative one all but a prefix. */
  lemma BoundedExactly(maxBytes: int)
    ensures Bounded(maxBytes) <==> maxBytes > 0
  {
    if maxBytes > 0 {
      forall text ensures |Encode(BoundedTail(text, maxBytes))| <= maxBytes + 6 {
        TailIsASuffix(text, maxBytes);
      }
    } else {
      var n := 7 - maxBytes;
      LettersEncode(n);
      SliceDecodes(Letters(n), -maxBytes);
      var c := CutAt(Letters(n), -maxBytes);
      Reencoded(c.broken, Letters(n)[c.next..]);
      assert |Encode(BoundedTail(Letters(n), maxBytes))| > maxBytes + 6;
    }
  }

  // ---- the code itself ----------------------------------------------------------------------

  /** The code of RFC 3629: the number of bytes by range, the marker bits of each byte and the
      payload bits that make up the code point. */
  lemma EncodedBits(c: Code)
    requires !Surrogate(c)
    ensures var b := EncodeOne(c);
      && (c <= 0x7F ==> |b| == 1 && b[0] == c)
      && (0x80 <= c <= 0x7FF ==>
            && |b| == 2 && 0xC0 <= b[0] <= 0xDF && 0x80 <= b[1] <= 0xBF
            && c == (b[0] - 0xC0) * 64 + (b[1] as int - 0x80))
      && (0x800 <= c <= 0xFFFF ==>
            && |b| == 3 && 0xE0 <= b[0] <= 0xEF && 0x80 <= b[1] <= 0xBF && 0x80 <= b[2] <= 0xBF
            && c == (b[0] as int - 0xE0) * 4096 + (b[1] as int - 0x80) * 64 + (b[2] as int - 0x80))
      && (0x10000 <= c ==>
            && |b| == 4 && 0xF0 <= b[0] <= 0xF4
            && 0x80 <= b[1] <= 0xBF && 0x80 <= b[2] <= 0xBF && 0x80 <= b[3] <= 0xBF
            && c == (b[0] as int - 0xF0) * 262144 + (b[1] as int - 0x80) * 4096
                    + (b[2] as int - 0x80) * 64 + (b[3] as int - 0x80))
  {
    hide DecodeOne;
    var x, y := c / 64, c / 4096;
    assert y == x / 64 && c / 262144 == y / 64;
    assert c == x * 64 + c % 64 && x == y * 64 + x % 64 && y == y / 64 * 64 + y % 64;
  }

  /** A bound of zero returns the whole text, a negative one all but that many bytes in front. */
  lemma BoundsBelowOne(text: Text, maxBytes: int)
    requires maxBytes <= 0 && text != []
    ensures maxBytes == 0 ==> BoundedTail(text, maxBytes) == Scrubbed(text)
    ensures BoundedTail(text, maxBytes)
      == Decode(Encode(text)[if -maxBytes < |Encode(text)| then -maxBytes else |Encode(text)|..])
  {
    assert Encode(text) == EncodeOne(text[0]) + Encode(text[1..]);
    TrailingBytes(text[0]);
    DecodeEncode(text);
    assert Encode(text)[0..] == Encode(text);
  }

  /** A mark is U+FFFD, a surrogate is scrubbed to a question mark, all else is kept. */
  lemma MarksAndScrubs(n: nat, text: Text)
    ensures |Marks(n)| == n && forall i | 0 <= i < n :: Marks(n)[i] == 0xFFFD
    ensures |Scrubbed(text)| == |text| && forall i | 0 <= i < |text| ::
      Scrubbed(text)[i] == if 0xD800 <= text[i] <= 0xDFFF then 0x3F else text[i]
  {
  }
}
