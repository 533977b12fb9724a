/** UTF-8 as section 3 of RFC 3629 defines it, and the cut that
    apps/agent/src/tmux.js makes in a buffer of it. */
module Utf8 {
  import opened Numbers

  type byte = b: int | 0 <= b < 256

  // (b & 0xc0) === 0x80
  predicate Continuation(b: byte) { b / 64 == 2 }

  // The masks 0x80, 0xe0, 0xf0 and 0xf8 in turn.
  function SequenceLength(b: byte): nat {
    if b / 128 == 0 then 1
    else if b / 32 == 6 then 2
    else if b / 16 == 14 then 3
    else if b / 8 == 30 then 4
    else 1
  }

  /** The last position up to `i` that is not a continuation byte, or 0. */
  function Lead(buffer: seq<byte>, i: nat): (k: nat)
    requires i < |buffer|
    ensures k <= i
  {
    if i == 0 || !Continuation(buffer[i]) then i else Lead(buffer, i - 1)
  }

  lemma {:induction false} LeadIsLast(buffer: seq<byte>, i: nat)
    requires i < |buffer|
    ensures Lead(buffer, i) == 0 || !Continuation(buffer[Lead(buffer, i)])
    ensures forall m | Lead(buffer, i) < m <= i :: Continuation(buffer[m])
  {
    if i != 0 && Continuation(buffer[i]) {
      LeadIsLast(buffer, i - 1);
    }
  }

  function SafePrefix(buffer: seq<byte>, preferred: nat): nat {
    var length := Min(preferred, |buffer|);
    if length == 0 then 0
    else
      var lead := Lead(buffer, length - 1);
      var cut := if lead + SequenceLength(buffer[lead]) > length then lead else length;
      if cut == 0 && SequenceLength(buffer[0]) <= |buffer| then SequenceLength(buffer[0]) else cut
  }

  method Utf8SafePrefixLength(buffer: seq<byte>, preferred: nat) returns (length: nat)
    ensures length == SafePrefix(buffer, preferred)
    ensures length <= |buffer| && length <= Max(preferred, 4)
  {
    length := Min(preferred, |buffer|);
    if length == 0 {
      return 0;
    }
    var lead := length - 1;
    while lead > 0 && Continuation(buffer[lead])
      invariant 0 <= lead < length <= |buffer| && Lead(buffer, lead) == Lead(buffer, length - 1)
    {
      lead := lead - 1;
    }
    var expected := SequenceLength(buffer[lead]);
    if lead + expected > length {
      length := lead;
    }
    if length == 0 {
      var firstLength := SequenceLength(buffer[0]);
      if firstLength <= |buffer| {
        return firstLength;
      }
    }
  }

  // ---------- text ----------

  type scalar = c: int | 0 <= c < 0xD800 || 0xE000 <= c < 0x110000

  function Encode(c: scalar): (bytes: seq<byte>)
    ensures 1 <= |bytes| <= 4
  {
    if c < 0x80 then [c]
    else if c < 0x800 then [0xC0 + c / 0x40, 0x80 + c % 0x40]
    else if c < 0x10000 then [0xE0 + c / 0x1000, 0x80 + c / 0x40 % 0x40, 0x80 + c % 0x40]
    else [0xF0 + c / 0x40000, 0x80 + c / 0x1000 % 0x40, 0x80 + c / 0x40 % 0x40, 0x80 + c % 0x40]
  }

  function EncodeAll(text: seq<scalar>): seq<byte> {
    if text == [] then [] else Encode(text[0]) + EncodeAll(text[1..])
  }

  /** Where the `j`-th character starts. */
  function Offset(text: seq<scalar>, j: nat): nat
    requires j <= |text|
  {
    |EncodeAll(text[..j])|
  }

  /** The first byte of a character announces its length; the rest are continuations. */
  lemma EncodeShape(c: scalar)
    ensures !Continuation(Encode(c)[0]) && SequenceLength(Encode(c)[0]) == |Encode(c)|
    ensures forall m | 1 <= m < |Encode(c)| :: Continuation(Encode(c)[m])
  {
  }

  // The low bits of a byte: the payload of a lead byte, or of a continuation byte.
  function Payload(b: byte, modulus: nat): int
    requires modulus != 0
  {
    var n: int := b;
    n % modulus
  }

  /** The character whose bytes come first. */
  function DecodeFirst(bytes: seq<byte>): int
    requires bytes != [] && SequenceLength(bytes[0]) <= |bytes|
  {
    match SequenceLength(bytes[0])
    case 1 => bytes[0]
    case 2 => Payload(bytes[0], 0x20) * 0x40 + Payload(bytes[1], 0x40)
    case 3 => (Payload(bytes[0], 0x10) * 0x40 + Payload(bytes[1], 0x40)) * 0x40 + Payload(bytes[2], 0x40)
    case _ =>
      ((Payload(bytes[0], 0x08) * 0x40 + Payload(bytes[1], 0x40)) * 0x40 + Payload(bytes[2], 0x40)) * 0x40
      + Payload(bytes[3], 0x40)
  }

  lemma DecodesFirst(c: scalar, rest: seq<byte>)
    ensures SequenceLength((Encode(c) + rest)[0]) <= |Encode(c) + rest| && DecodeFirst(Encode(c) + rest) == c
  {
    var bytes := Encode(c) + rest;
    EncodeShape(c);
    assert forall m | 0 <= m < |Encode(c)| :: bytes[m] == Encode(c)[m];
    var high: int := c / 0x40;
    assert c == high * 0x40 + c % 0x40;
    assert c / 0x1000 == high / 0x40 && high == high / 0x40 * 0x40 + high % 0x40;
    assert c / 0x40000 == high / 0x40 / 0x40 && high / 0x40 == high / 0x40 / 0x40 * 0x40 + high / 0x40 % 0x40;
  }

  /** Text is determined by its bytes: decoding is unique. */
  lemma {:induction false} EncodeAllInjective(a: seq<scalar>, b: seq<scalar>)
    requires EncodeAll(a) == EncodeAll(b)
    ensures a == b
  {
    if a != [] && b != [] {
      DecodesFirst(a[0], EncodeAll(a[1..]));
      DecodesFirst(b[0], EncodeAll(b[1..]));
      assert EncodeAll(a)[|Encode(a[0])|..] == EncodeAll(a[1..]);
      assert EncodeAll(b)[|Encode(b[0])|..] == EncodeAll(b[1..]);
      EncodeAllInjective(a[1..], b[1..]);
      assert a == [a[0]] + a[1..] && b == [b[0]] + b[1..];
    }
  }

  lemma {:induction false} EncodeAllAppend(a: seq<scalar>, b: seq<scalar>)
    ensures EncodeAll(a + b) == EncodeAll(a) + EncodeAll(b)
  {
    if a == [] {
      assert a + b == b;
    } else {
      assert (a + b)[1..] == a[1..] + b;
      EncodeAllAppend(a[1..], b);
    }
  }

  lemma NextOffset(text: seq<scalar>, j: nat)
    requires j < |text|
    ensures Offset(text, j + 1) == Offset(text, j) + |Encode(text[j])|
  {
    assert text[..j + 1] == text[..j] + [text[j]];
    EncodeAllAppend(text[..j], [text[j]]);
    assert EncodeAll([text[j]]) == Encode(text[j]) + EncodeAll([]);
  }

  /** The bytes of a text split at the `j`-th character and after it. */
  lemma SplitAt(text: seq<scalar>, j: nat)
    requires j < |text|
    ensures EncodeAll(text) == EncodeAll(text[..j]) + Encode(text[j]) + EncodeAll(text[j + 1..])
    ensures Offset(text, j + 1) == Offset(text, j) + |Encode(text[j])|
  {
    assert text == text[..j] + text[j..];
    EncodeAllAppend(text[..j], text[j..]);
    assert text[j..][0] == text[j] && text[j..][1..] == text[j + 1..];
    assert EncodeAll(text[j..]) == Encode(text[j]) + EncodeAll(text[j + 1..]);
    NextOffset(text, j);
  }

  lemma OffsetWithin(text: seq<scalar>, j: nat)
    requires j <= |text|
    ensures Offset(text, j) <= |EncodeAll(text)| && EncodeAll(text)[..Offset(text, j)] == EncodeAll(text[..j])
    ensures EncodeAll(text)[Offset(text, j)..] == EncodeAll(text[j..])
  {
    assert text == text[..j] + text[j..];
    EncodeAllAppend(text[..j], text[j..]);
  }

  /** The character that byte `p` belongs to. */
  lemma {:induction false} Locate(text: seq<scalar>, p: nat) returns (k: nat)
    requires p < |EncodeAll(text)|
    ensures k < |text| && Offset(text, k) <= p < Offset(text, k + 1)
  {
    if p < |Encode(text[0])| {
      k := 0;
      SplitAt(text, 0);
    } else {
      var k' := Locate(text[1..], p - |Encode(text[0])|);
      k := k' + 1;
      assert text[..k][1..] == text[1..][..k'];
      assert text[..k + 1][1..] == text[1..][..k' + 1];
    }
  }

  lemma CharacterAt(text: seq<scalar>, k: nat)
    requires k < |text|
    ensures Offset(text, k) < |EncodeAll(text)|
    ensures var o := Offset(text, k); var bytes := EncodeAll(text);
            && Offset(text, k + 1) == o + SequenceLength(bytes[o]) <= |bytes|
            && !Continuation(bytes[o])
            && forall m | o < m < Offset(text, k + 1) :: Continuation(bytes[m])
  {
    SplitAt(text, k);
    EncodeShape(text[k]);
    var o, bytes := Offset(text, k), EncodeAll(text);
    forall m | o <= m < o + |Encode(text[k])| ensures bytes[m] == Encode(text[k])[m - o] {}
  }

  /** The lead byte found at or before byte `p` begins the character `p` belongs to. */
  lemma LeadOf(text: seq<scalar>, buffer: seq<byte>, p: nat) returns (k: nat)
    requires buffer <= EncodeAll(text) && p < |buffer|
    ensures k < |text| && Lead(buffer, p) == Offset(text, k) <= p
    ensures Offset(text, k + 1) == Offset(text, k) + SequenceLength(buffer[Offset(text, k)]) > p
    ensures Offset(text, k + 1) <= |EncodeAll(text)|
  {
    k := Locate(text, p);
    CharacterAt(text, k);
    LeadIsLast(buffer, p);
    var o, lead := Offset(text, k), Lead(buffer, p);
    assert buffer[o] == EncodeAll(text)[o];
    assert buffer[lead] == EncodeAll(text)[lead];
  }

  lemma NothingFirst(text: seq<scalar>)
    ensures Offset(text, 0) == 0
  {
    assert text[..0] == [];
  }

  /** Only the first character starts at the beginning. */
  lemma FirstCharacter(text: seq<scalar>, k: nat)
    requires k <= |text|
    ensures k > 0 ==> Offset(text, k) > 0
  {
    if k > 0 {
      assert text[..k] != [];
    }
  }

  /** Any buffer that continues a text from a character boundary, wherever it ends, is
      cut at a character boundary: the last one within the preferred length, or after the first
      character when that alone is longer and is there. */
  lemma CutAtBoundary(text: seq<scalar>, buffer: seq<byte>, preferred: nat) returns (j: nat)
    requires buffer <= EncodeAll(text)
    ensures j <= |text| && SafePrefix(buffer, preferred) == Offset(text, j) <= |buffer|
    ensures j < |text| ==> Offset(text, j + 1) > Min(preferred, |buffer|)
    ensures j <= 1 || Offset(text, j) <= preferred
    ensures preferred >= 1 && text != [] && Offset(text, 1) <= |buffer| ==> j >= 1
  {
    hide Encode, Lead;
    NothingFirst(text);
    var length := Min(preferred, |buffer|);
    if length == 0 {
      if text != [] {
        NextOffset(text, 0);
      }
      return 0;
    }
    var k := LeadOf(text, buffer, length - 1);
    j := if Offset(text, k + 1) > length then k else k + 1;
    if j < |text| {
      NextOffset(text, j);
    }
    if Offset(text, j) == 0 {
      var first := LeadOf(text, buffer, 0);
      FirstCharacter(text, first);
      FirstCharacter(text, j);
      if SequenceLength(buffer[0]) <= |buffer| {
        j := first + 1;
      }
    }
  }
}
