/**
The base64 recogniser for image data URLs, against the encoding of RFC 4648: it
accepts exactly the canonical encodings, padded or with all padding stripped.
*/
module Base64 {
  import opened Outcomes

  type byte = x: int | 0 <= x < 256

  const PAD: byte := '=' as int

  // ---------------------------------------------------------------------
  // The recogniser
  // ---------------------------------------------------------------------

  function Base64Value(c: byte): Option<int> {
    if 'A' as int <= c <= 'Z' as int then Some(c - 'A' as int)
    else if 'a' as int <= c <= 'z' as int then Some(c - 'a' as int + 26)
    else if '0' as int <= c <= '9' as int then Some(c - '0' as int + 52)
    else if c == '+' as int then Some(62)
    else if c == '/' as int then Some(63)
    else None
  }

  function TrailingPads(s: seq<byte>): (n: nat)
    ensures n <= |s|
  {
    if s != [] && s[|s| - 1] == PAD then 1 + TrailingPads(s[..|s| - 1]) else 0
  }

  predicate IsValidBase64(value: seq<byte>) {
    var padding := TrailingPads(value);
    var length := |value| - padding;
    var content := value[..length];
    var remainder := length % 4;
    && value != []
    && padding <= 2
    && length != 0
    && (forall i :: 0 <= i < length ==> Base64Value(content[i]).Some?)
    && PAD !in content
    && remainder != 1
    && (padding > 0 ==> |value| % 4 == 0 && ((remainder == 2 && padding == 2) || (remainder == 3 && padding == 1)))
    && (remainder == 2 ==> Base64Value(content[length - 1]).value % 16 == 0)
    && (remainder == 3 ==> Base64Value(content[length - 1]).value % 4 == 0)
  }

  // ---------------------------------------------------------------------
  // The encoding (RFC 4648, section 4)
  // ---------------------------------------------------------------------

  /** The alphabet of Table 1. */
  function Letter(v: int): byte
    requires 0 <= v < 64
  {
    if v < 26 then 'A' as int + v
    else if v < 52 then 'a' as int + (v - 26)
    else if v < 62 then '0' as int + (v - 52)
    else if v == 62 then '+' as int
    else '/' as int
  }

  // The four six-bit groups of three bytes.

  function Six0(x: byte): (v: int)
    ensures 0 <= v < 64
  {
    x / 4
  }

  function Six1(x: byte, y: byte): (v: int)
    ensures 0 <= v < 64
  {
    x % 4 * 16 + y / 16
  }

  function Six2(y: byte, z: byte): (v: int)
    ensures 0 <= v < 64
  {
    y % 16 * 4 + z / 64
  }

  function Six3(z: byte): (v: int)
    ensures 0 <= v < 64
  {
    z % 64
  }

  function Encode(bytes: seq<byte>): seq<byte> {
    if |bytes| == 0 then []
    else if |bytes| == 1 then [Letter(Six0(bytes[0])), Letter(Six1(bytes[0], 0)), PAD, PAD]
    else if |bytes| == 2 then
      [Letter(Six0(bytes[0])), Letter(Six1(bytes[0], bytes[1])), Letter(Six2(bytes[1], 0)), PAD]
    else
      [Letter(Six0(bytes[0])), Letter(Six1(bytes[0], bytes[1])), Letter(Six2(bytes[1], bytes[2])),
       Letter(Six3(bytes[2]))]
      + Encode(bytes[3..])
  }

  function Stripped(s: seq<byte>): seq<byte> {
    s[..|s| - TrailingPads(s)]
  }

  // ---------------------------------------------------------------------
  // The encoding without its padding
  // ---------------------------------------------------------------------

  predicate IsLetter(c: byte) {
    Base64Value(c).Some?
  }

  function V(c: byte): (v: int)
    requires IsLetter(c)
    ensures 0 <= v < 64
  {
    Base64Value(c).value
  }

  lemma LetterHasValue(v: int)
    requires 0 <= v < 64
    ensures IsLetter(Letter(v)) && V(Letter(v)) == v
  {
  }

  lemma ValueHasLetter(c: byte)
    requires IsLetter(c)
    ensures Letter(V(c)) == c && c != PAD
  {
  }

  /** All letters, a possible length, and no stray bits after the last byte. */
  ghost predicate IsContent(s: seq<byte>) {
    && (forall i :: 0 <= i < |s| ==> IsLetter(s[i]))
    && |s| % 4 != 1
    && (|s| % 4 == 2 ==> V(s[|s| - 1]) % 16 == 0)
    && (|s| % 4 == 3 ==> V(s[|s| - 1]) % 4 == 0)
  }

  function Pads(n: nat): seq<byte> {
    if n == 0 then [] else Pads(n - 1) + [PAD]
  }

  /** How many pads complete the last group. */
  function PadsNeeded(length: nat): (n: nat)
    ensures n <= 2
  {
    if length % 4 == 2 then 2 else if length % 4 == 3 then 1 else 0
  }

  lemma NothingTrails(content: seq<byte>)
    requires IsContent(content)
    ensures TrailingPads(content) == 0 && Stripped(content) == content
  {
    hide V;
    if content != [] { ValueHasLetter(content[|content| - 1]); }
  }

  lemma PadPush(s: seq<byte>)
    ensures TrailingPads(s + [PAD]) == TrailingPads(s) + 1
    ensures Stripped(s + [PAD]) == Stripped(s)
  {
    assert (s + [PAD])[..|s|] == s;
  }

  lemma {:induction false} PadsTrail(content: seq<byte>, n: nat)
    requires IsContent(content)
    ensures |Pads(n)| == n
    ensures TrailingPads(content + Pads(n)) == n
    ensures Stripped(content + Pads(n)) == content
  {
    hide IsContent, TrailingPads, Stripped;
    if n == 0 {
      assert content + [] == content;
      NothingTrails(content);
    } else {
      PadsTrail(content, n - 1);
      PadPush(content + Pads(n - 1));
      assert content + Pads(n) == content + Pads(n - 1) + [PAD];
    }
  }

  lemma {:induction false} TrailingPadsSplit(s: seq<byte>)
    ensures s == Stripped(s) + Pads(TrailingPads(s))
  {
    if s != [] && s[|s| - 1] == PAD {
      var init := s[..|s| - 1];
      TrailingPadsSplit(init);
      assert s == init + [PAD];
      assert Stripped(s) == Stripped(init);
    }
  }

  lemma PaddedLength(length: nat, padding: nat)
    requires padding > 0
    ensures padding == PadsNeeded(length) <==>
            (length + padding) % 4 == 0 && ((length % 4 == 2 && padding == 2) || (length % 4 == 3 && padding == 1))
  {
  }

  lemma LettersAreNoPads(content: seq<byte>)
    requires forall i :: 0 <= i < |content| ==> IsLetter(content[i])
    ensures PAD !in content
  {
    hide IsLetter;
    forall i | 0 <= i < |content|
      ensures content[i] != PAD
    {
      ValueHasLetter(content[i]);
    }
  }

  /** The recogniser in terms of the content before the padding. */
  lemma ValidByContent(s: seq<byte>)
    ensures IsValidBase64(s) <==>
      && Stripped(s) != [] && IsContent(Stripped(s))
      && (TrailingPads(s) == 0 || TrailingPads(s) == PadsNeeded(|Stripped(s)|))
  {
    hide TrailingPads, Base64Value, PadsNeeded;
    var content, padding := Stripped(s), TrailingPads(s);
    assert |s| == |content| + padding;
    if padding > 0 { PaddedLength(|content|, padding); }
    if forall i :: 0 <= i < |content| ==> IsLetter(content[i]) { LettersAreNoPads(content); }
  }


  function Decode(s: seq<byte>): seq<byte>
    requires IsContent(s)
  {
    if |s| == 0 then []
    else if |s| == 2 then [Byte0(V(s[0]), V(s[1]))]
    else if |s| == 3 then [Byte0(V(s[0]), V(s[1])), Byte1(V(s[1]), V(s[2]))]
    else
      ContentTail(s);
      [Byte0(V(s[0]), V(s[1])), Byte1(V(s[1]), V(s[2])), Byte2(V(s[2]), V(s[3]))] + Decode(s[4..])
  }

  function Byte0(a: int, b: int): byte
    requires 0 <= a < 64 && 0 <= b < 64
  {
    a * 4 + b / 16
  }

  function Byte1(b: int, c: int): byte
    requires 0 <= b < 64 && 0 <= c < 64
  {
    b % 16 * 16 + c / 4
  }

  function Byte2(c: int, d: int): byte
    requires 0 <= c < 64 && 0 <= d < 64
  {
    c % 4 * 64 + d
  }

  lemma ContentTail(s: seq<byte>)
    requires IsContent(s) && |s| >= 4
    ensures IsContent(s[4..])
  {
    assert forall i :: 0 <= i < |s| - 4 ==> s[4..][i] == s[i + 4];
  }

  lemma Regroup(a: int, b: int, c: int, d: int)
    requires 0 <= a < 64 && 0 <= b < 64 && 0 <= c < 64 && 0 <= d < 64
    ensures Six0(Byte0(a, b)) == a && Six1(Byte0(a, b), Byte1(b, c)) == b
    ensures Six2(Byte1(b, c), Byte2(c, d)) == c && Six3(Byte2(c, d)) == d
    ensures b % 16 == 0 ==> Six1(Byte0(a, b), 0) == b
    ensures c % 4 == 0 ==> Six2(Byte1(b, c), 0) == c
  {
  }

  lemma SplitAt4(high: nat, low: nat)
    requires low < 4
    ensures (high * 4 + low) / 4 == high && (high * 4 + low) % 4 == low
  {
  }

  lemma SplitAt16(high: nat, low: nat)
    requires low < 16
    ensures (high * 16 + low) / 16 == high && (high * 16 + low) % 16 == low
  {
  }

  lemma FirstByte(x: byte, y: byte)
    ensures Byte0(Six0(x), Six1(x, y)) == x
  {
    SplitAt16(x % 4, y / 16);
    assert Six1(x, y) / 16 == x % 4;
  }

  lemma SecondByte(x: byte, y: byte, z: byte)
    ensures Byte1(Six1(x, y), Six2(y, z)) == y
  {
    SplitAt16(x % 4, y / 16);
    SplitAt4(y % 16, z / 64);
    assert Six1(x, y) % 16 == y / 16 && Six2(y, z) / 4 == y % 16;
  }

  lemma ThirdByte(y: byte, z: byte)
    ensures Byte2(Six2(y, z), Six3(z)) == z
  {
    SplitAt4(y % 16, z / 64);
    assert Six2(y, z) % 4 == z / 64;
  }

  lemma UnusedBits(x: byte, y: byte)
    ensures Six1(x, 0) % 16 == 0 && Six2(y, 0) % 4 == 0
  {
  }

  lemma Ungroup(x: byte, y: byte, z: byte)
    ensures Byte0(Six0(x), Six1(x, y)) == x && Byte1(Six1(x, y), Six2(y, z)) == y && Byte2(Six2(y, z), Six3(z)) == z
    ensures Six1(x, 0) % 16 == 0 && Six2(y, 0) % 4 == 0
  {
    hide *;
    FirstByte(x, y);
    SecondByte(x, y, z);
    ThirdByte(y, z);
    UnusedBits(x, y);
  }

  lemma FewPads()
    ensures Pads(0) == [] && Pads(1) == [PAD] && Pads(2) == [PAD, PAD]
  {
    assert Pads(1) == Pads(0) + [PAD];
  }

  /** Every canonical content is what some bytes encode to, up to padding. */
  lemma {:induction false} ContentIsEncoded(s: seq<byte>)
    requires IsContent(s)
    ensures Encode(Decode(s)) == s + Pads(PadsNeeded(|s|))
    ensures s != [] ==> Decode(s) != []
  {
    hide Letter, Base64Value, V, Byte0, Byte1, Byte2, Six0, Six1, Six2, Six3, Pads;
    FewPads();
    if |s| == 0 {
    } else if |s| == 2 {
      ValueHasLetter(s[0]);
      ValueHasLetter(s[1]);
      Regroup(V(s[0]), V(s[1]), 0, 0);
    } else if |s| == 3 {
      ValueHasLetter(s[0]);
      ValueHasLetter(s[1]);
      ValueHasLetter(s[2]);
      Regroup(V(s[0]), V(s[1]), V(s[2]), 0);
    } else {
      ContentTail(s);
      ContentIsEncoded(s[4..]);
      GroupIsEncoded(s);
    }
  }

  lemma DecodeGroup(s: seq<byte>)
    requires IsContent(s) && |s| >= 4 && IsContent(s[4..])
    ensures Decode(s) ==
      [Byte0(V(s[0]), V(s[1])), Byte1(V(s[1]), V(s[2])), Byte2(V(s[2]), V(s[3]))] + Decode(s[4..])
  {
    hide Base64Value, V, Byte0, Byte1, Byte2;
  }

  lemma ReencodeGroup(a: byte, b: byte, c: byte, d: byte, rest: seq<byte>)
    requires IsLetter(a) && IsLetter(b) && IsLetter(c) && IsLetter(d)
    ensures Encode([Byte0(V(a), V(b)), Byte1(V(b), V(c)), Byte2(V(c), V(d))] + rest) == [a, b, c, d] + Encode(rest)
  {
    hide Letter, Base64Value, V, Byte0, Byte1, Byte2, Six0, Six1, Six2, Six3, Encode;
    ValueHasLetter(a);
    ValueHasLetter(b);
    ValueHasLetter(c);
    ValueHasLetter(d);
    Regroup(V(a), V(b), V(c), V(d));
    EncodeGroup(Byte0(V(a), V(b)), Byte1(V(b), V(c)), Byte2(V(c), V(d)), rest);
  }

  lemma GroupIsEncoded(s: seq<byte>)
    requires IsContent(s) && |s| >= 4 && IsContent(s[4..])
    requires Encode(Decode(s[4..])) == s[4..] + Pads(PadsNeeded(|s[4..]|))
    ensures Encode(Decode(s)) == s + Pads(PadsNeeded(|s|))
  {
    hide Base64Value, V, Byte0, Byte1, Byte2, Pads, Encode, Decode;
    DecodeGroup(s);
    ReencodeGroup(s[0], s[1], s[2], s[3], Decode(s[4..]));
    var group, rest, pads := [s[0], s[1], s[2], s[3]], s[4..], Pads(PadsNeeded(|s|));
    calc {
      Encode(Decode(s));
      group + (rest + pads);
      group + rest + pads;
      { assert s == group + rest; }
      s + pads;
    }
  }

  lemma {:induction false} EncodedIsContent(bytes: seq<byte>)
    ensures IsContent(Stripped(Encode(bytes)))
    ensures Encode(bytes) == Stripped(Encode(bytes)) + Pads(PadsNeeded(|Stripped(Encode(bytes))|))
    ensures bytes != [] ==> Stripped(Encode(bytes)) != []
  {
    hide Letter, Base64Value, V, Six0, Six1, Six2, Six3, Pads;
    FewPads();
    if |bytes| == 0 {
    } else if |bytes| <= 2 {
      LastGroup(bytes);
    } else {
      EncodedIsContent(bytes[3..]);
      FullGroup(bytes);
    }
  }

  lemma LastGroup(bytes: seq<byte>)
    requires 1 <= |bytes| <= 2
    ensures var content := Encode(bytes)[..|bytes| + 1];
            IsContent(content) && Stripped(Encode(bytes)) == content &&
            Encode(bytes) == content + Pads(PadsNeeded(|content|))
  {
    hide Letter, Base64Value, V, Six0, Six1, Six2, Six3, Pads, TrailingPads, Stripped;
    FewPads();
    var content := Encode(bytes)[..|bytes| + 1];
    LetterHasValue(Six0(bytes[0]));
    if |bytes| == 1 {
      LetterHasValue(Six1(bytes[0], 0));
      Ungroup(bytes[0], 0, 0);
    } else {
      LetterHasValue(Six1(bytes[0], bytes[1]));
      LetterHasValue(Six2(bytes[1], 0));
      Ungroup(bytes[0], bytes[1], 0);
    }
    assert Encode(bytes) == content + Pads(PadsNeeded(|content|));
    PadsTrail(content, PadsNeeded(|content|));
  }

  lemma EncodeGroup(x: byte, y: byte, z: byte, rest: seq<byte>)
    ensures Encode([x, y, z] + rest) ==
      [Letter(Six0(x)), Letter(Six1(x, y)), Letter(Six2(y, z)), Letter(Six3(z))] + Encode(rest)
  {
    hide Letter, Six0, Six1, Six2, Six3;
    assert ([x, y, z] + rest)[3..] == rest;
  }

  lemma FullGroup(bytes: seq<byte>)
    requires |bytes| >= 3
    requires IsContent(Stripped(Encode(bytes[3..])))
    requires Encode(bytes[3..]) == Stripped(Encode(bytes[3..])) + Pads(PadsNeeded(|Stripped(Encode(bytes[3..]))|))
    ensures Stripped(Encode(bytes)) == Encode(bytes)[..4] + Stripped(Encode(bytes[3..]))
    ensures IsContent(Stripped(Encode(bytes)))
    ensures Encode(bytes) == Stripped(Encode(bytes)) + Pads(PadsNeeded(|Stripped(Encode(bytes))|))
  {
    hide Letter, Base64Value, V, Six0, Six1, Six2, Six3, Pads, TrailingPads, Stripped, Encode;
    var x, y, z := bytes[0], bytes[1], bytes[2];
    var rest, pads := Stripped(Encode(bytes[3..])), Pads(PadsNeeded(|Stripped(Encode(bytes[3..]))|));
    var group := [Letter(Six0(x)), Letter(Six1(x, y)), Letter(Six2(y, z)), Letter(Six3(z))];
    LetterHasValue(Six0(x));
    LetterHasValue(Six1(x, y));
    LetterHasValue(Six2(y, z));
    LetterHasValue(Six3(z));
    assert bytes == [x, y, z] + bytes[3..];
    EncodeGroup(x, y, z, bytes[3..]);
    assert Encode(bytes) == group + (rest + pads) == (group + rest) + pads;
    ContentPush(group, rest);
    PadsTrail(group + rest, PadsNeeded(|group + rest|));
    assert Encode(bytes)[..4] == group;
  }

  lemma FourMore(n: nat)
    ensures (n + 4) % 4 == n % 4
  {
  }

  lemma ContentPush(group: seq<byte>, rest: seq<byte>)
    requires |group| == 4 && (forall i :: 0 <= i < 4 ==> IsLetter(group[i])) && IsContent(rest)
    ensures IsContent(group + rest)
  {
    hide Base64Value, V, IsLetter;
    var all := group + rest;
    FourMore(|rest|);
    assert |all| == |rest| + 4;
    forall i | 0 <= i < |all|
      ensures IsLetter(all[i])
    {
      assert all[i] == if i < 4 then group[i] else rest[i - 4];
    }
    if rest != [] { assert all[|all| - 1] == rest[|rest| - 1]; }
  }

  /**
  The recogniser accepts exactly the canonical encodings of non-empty byte sequences,
  with their padding or with all of it stripped.
  */
  lemma AcceptsExactlyEncodings(s: seq<byte>)
    ensures IsValidBase64(s) <==>
      exists bytes: seq<byte> :: bytes != [] && (s == Encode(bytes) || s == Stripped(Encode(bytes)))
  {
    hide IsValidBase64, IsContent, Encode, Decode, TrailingPads, Stripped, Pads;
    FewPads();
    ValidByContent(s);
    if IsValidBase64(s) {
      var content := Stripped(s);
      TrailingPadsSplit(s);
      ContentIsEncoded(content);
      PadsTrail(content, PadsNeeded(|content|));
      var bytes := Decode(content);
      assert s == Encode(bytes) || s == Stripped(Encode(bytes)) by {
        if TrailingPads(s) == 0 { assert content + [] == content; }
      }
    }
    if bytes: seq<byte> :| bytes != [] && (s == Encode(bytes) || s == Stripped(Encode(bytes))) {
      EncodedIsContent(bytes);
      var content := Stripped(Encode(bytes));
      PadsTrail(content, PadsNeeded(|content|));
      PadsTrail(content, 0);
      assert content + Pads(0) == content;
    }
  }

  /** No two byte sequences share an encoding, with or without padding. */
  lemma {:induction false} EncodingIsInjective(x: seq<byte>, y: seq<byte>)
    requires Stripped(Encode(x)) == Stripped(Encode(y))
    ensures x == y
  {
    EncodedIsContent(x);
    EncodedIsContent(y);
    SameEncoding(x, y);
  }

  lemma {:induction false} SameEncoding(x: seq<byte>, y: seq<byte>)
    requires Encode(x) == Encode(y)
    ensures x == y
  {
    if x == [] || y == [] {
    } else {
      SameGroup(x, y);
      if |x| >= 3 && |y| >= 3 {
        assert Encode(x)[4..] == Encode(x[3..]) && Encode(y)[4..] == Encode(y[3..]);
        SameEncoding(x[3..], y[3..]);
        assert x == x[..3] + x[3..] && y == y[..3] + y[3..];
      }
    }
  }

  lemma SameGroup(x: seq<byte>, y: seq<byte>)
    requires x != [] && y != [] && Encode(x) == Encode(y)
    ensures |x| < 3 || |y| < 3 ==> x == y
    ensures |x| >= 3 && |y| >= 3 ==> x[..3] == y[..3]
  {
    hide Encode, Base64Value, Byte0, Byte1, Byte2, Six0, Six1, Six2, Six3;
    FirstGroup(x);
    FirstGroup(y);
  }

  /** The first byte group of what was encoded, read back from the first four letters. */
  lemma FirstGroup(x: seq<byte>)
    requires x != []
    ensures var e := Encode(x);
      && |e| >= 4 && IsLetter(e[0]) && IsLetter(e[1])
      && x[0] == Byte0(V(e[0]), V(e[1]))
      && (|x| == 1 <==> e[2] == PAD)
      && (|x| >= 2 ==> IsLetter(e[2]) && x[1] == Byte1(V(e[1]), V(e[2])))
      && (|x| >= 3 <==> e[3] != PAD)
      && (|x| >= 3 ==> IsLetter(e[3]) && x[2] == Byte2(V(e[2]), V(e[3])))
  {
    hide Letter, Base64Value, V, Six0, Six1, Six2, Six3, Byte0, Byte1, Byte2;
    var y := if |x| >= 2 then x[1] else 0;
    var z := if |x| >= 3 then x[2] else 0;
    Ungroup(x[0], y, z);
    LetterHasValue(Six0(x[0]));
    LetterHasValue(Six1(x[0], y));
    LetterHasValue(Six2(y, z));
    LetterHasValue(Six3(z));
    ValueHasLetter(Letter(Six2(y, z)));
    ValueHasLetter(Letter(Six3(z)));
  }
}
