/** Unpadded base64url (section 5 of RFC 4648), as base64.RawURLEncoding reads and writes it. */
module Base64Url {
  import opened Wrappers

  predicate IsBytes(s: string) {
    forall i | 0 <= i < |s| :: s[i] as int < 256
  }

  /** The character of a six-bit value. */
  function Letter(v: int): (c: char)
    requires 0 <= v < 64
    ensures Value(c) == Some(v)
    ensures c != '\n' && c != '\r'
  {
    if v < 26 then ('A' as int + v) as char
    else if v < 52 then ('a' as int + (v - 26)) as char
    else if v < 62 then ('0' as int + (v - 52)) as char
    else if v == 62 then '-'
    else '_'
  }

  function Value(c: char): (r: Option<int>)
    ensures r.Some? ==> 0 <= r.value < 64
  {
    if 'A' <= c <= 'Z' then Some(c as int - 'A' as int)
    else if 'a' <= c <= 'z' then Some(c as int - 'a' as int + 26)
    else if '0' <= c <= '9' then Some(c as int - '0' as int + 52)
    else if c == '-' then Some(62)
    else if c == '_' then Some(63)
    else None
  }

  function Encode(b: string): string
    requires IsBytes(b)
    decreases |b|
  {
    if |b| == 0 then []
    else
      var b0 := b[0] as int;
      if |b| == 1 then [Letter(b0 / 4), Letter(b0 % 4 * 16)]
      else
        var b1 := b[1] as int;
        var head := [Letter(b0 / 4), Letter(b0 % 4 * 16 + b1 / 16)];
        if |b| == 2 then head + [Letter(b1 % 16 * 4)]
        else
          var b2 := b[2] as int;
          head + [Letter(b1 % 16 * 4 + b2 / 64), Letter(b2 % 64)] + Encode(b[3..])
  }

  /** The decoder skips line breaks wherever they stand. */
  function DropLineBreaks(s: string): (r: string)
    ensures |r| <= |s|
  {
    if s == [] then []
    else if s[0] == '\n' || s[0] == '\r' then DropLineBreaks(s[1..])
    else [s[0]] + DropLineBreaks(s[1..])
  }

  function First(v0: int, v1: int): char
    requires 0 <= v0 < 64 && 0 <= v1 < 64
  {
    (v0 * 4 + v1 / 16) as char
  }

  function Second(v1: int, v2: int): char
    requires 0 <= v1 < 64 && 0 <= v2 < 64
  {
    (v1 % 16 * 16 + v2 / 4) as char
  }

  function Third(v2: int, v3: int): char
    requires 0 <= v2 < 64 && 0 <= v3 < 64
  {
    (v2 % 4 * 64 + v3) as char
  }

  /** Quanta of four letters, then two or three; a lone letter or a foreign character is an error. */
  function DecodeQuanta(s: string): Option<string>
    decreases |s|
  {
    if s == [] then Some([])
    else if |s| == 1 then None
    else
      match (Value(s[0]), Value(s[1]))
      case (Some(v0), Some(v1)) =>
        if |s| == 2 then Some([First(v0, v1)])
        else
          (match Value(s[2])
           case None => None
           case Some(v2) =>
             if |s| == 3 then Some([First(v0, v1), Second(v1, v2)])
             else
               match (Value(s[3]), DecodeQuanta(s[4..]))
               case (Some(v3), Some(rest)) => Some([First(v0, v1), Second(v1, v2), Third(v2, v3)] + rest)
               case _ => None)
      case _ => None
  }

  function Decode(s: string): Option<string> {
    DecodeQuanta(DropLineBreaks(s))
  }

  lemma {:induction false} EncodedHasNoLineBreaks(b: string)
    requires IsBytes(b)
    ensures DropLineBreaks(Encode(b)) == Encode(b)
    decreases |b|
  {
    if |b| >= 3 {
      EncodedHasNoLineBreaks(b[3..]);
      var e := Encode(b);
      assert e == e[..4] + Encode(b[3..]);
      NothingToDrop(e[..4], Encode(b[3..]));
    } else {
      NothingToDrop(Encode(b), []);
      assert Encode(b) + [] == Encode(b);
    }
  }

  lemma {:induction false} NothingToDrop(s: string, rest: string)
    requires forall i | 0 <= i < |s| :: s[i] != '\n' && s[i] != '\r'
    requires DropLineBreaks(rest) == rest
    ensures DropLineBreaks(s + rest) == s + rest
    decreases |s|
  {
    if s == [] {
      assert s + rest == rest;
    } else {
      NothingToDrop(s[1..], rest);
      assert (s + rest)[0] == s[0] && (s + rest)[1..] == s[1..] + rest;
      assert s + rest == [s[0]] + (s[1..] + rest);
    }
  }

  lemma FirstBack(b0: int, b1: int)
    requires 0 <= b0 < 256 && 0 <= b1 < 256
    ensures First(b0 / 4, b0 % 4 * 16 + b1 / 16) == b0 as char
  {
  }

  lemma SecondBack(b0: int, b1: int, b2: int)
    requires 0 <= b0 < 256 && 0 <= b1 < 256 && 0 <= b2 < 256
    ensures Second(b0 % 4 * 16 + b1 / 16, b1 % 16 * 4 + b2 / 64) == b1 as char
  {
    assert (b0 % 4 * 16 + b1 / 16) % 16 == b1 / 16;
  }

  lemma ThirdBack(b1: int, b2: int)
    requires 0 <= b1 < 256 && 0 <= b2 < 256
    ensures Third(b1 % 16 * 4 + b2 / 64, b2 % 64) == b2 as char
  {
    assert (b1 % 16 * 4 + b2 / 64) % 4 == b2 / 64;
  }

  /** Decoding a quantum whose letters have known values. */
  lemma DecodeFour(e: string, v0: int, v1: int, v2: int, v3: int, rest: string)
    requires |e| >= 4 && DecodeQuanta(e[4..]) == Some(rest)
    requires Value(e[0]) == Some(v0) && Value(e[1]) == Some(v1) && Value(e[2]) == Some(v2) && Value(e[3]) == Some(v3)
    ensures DecodeQuanta(e) == Some([First(v0, v1), Second(v1, v2), Third(v2, v3)] + rest)
  {
  }

  lemma DecodeThree(e: string, v0: int, v1: int, v2: int)
    requires |e| == 3 && Value(e[0]) == Some(v0) && Value(e[1]) == Some(v1) && Value(e[2]) == Some(v2)
    ensures DecodeQuanta(e) == Some([First(v0, v1), Second(v1, v2)])
  {
  }

  lemma DecodeTwo(e: string, v0: int, v1: int)
    requires |e| == 2 && Value(e[0]) == Some(v0) && Value(e[1]) == Some(v1)
    ensures DecodeQuanta(e) == Some([First(v0, v1)])
  {
  }

  /** The letters of a quantum of three bytes and the rest of the encoding. */
  lemma EncodeFour(b: string)
    requires IsBytes(b) && |b| >= 3
    ensures
      var b0, b1, b2 := b[0] as int, b[1] as int, b[2] as int;
      Encode(b) == [Letter(b0 / 4), Letter(b0 % 4 * 16 + b1 / 16), Letter(b1 % 16 * 4 + b2 / 64), Letter(b2 % 64)]
                   + Encode(b[3..])
  {
  }

  lemma EncodeThree(b: string)
    requires IsBytes(b) && |b| == 2
    ensures
      var b0, b1 := b[0] as int, b[1] as int;
      Encode(b) == [Letter(b0 / 4), Letter(b0 % 4 * 16 + b1 / 16), Letter(b1 % 16 * 4)]
  {
  }

  /** Three letters that stand for two bytes decode to them. */
  lemma LettersOfTwo(v0: int, v1: int, v2: int, c0: char, c1: char)
    requires 0 <= v0 < 64 && 0 <= v1 < 64 && 0 <= v2 < 64
    requires First(v0, v1) == c0 && Second(v1, v2) == c1
    ensures DecodeQuanta([Letter(v0), Letter(v1), Letter(v2)]) == Some([c0, c1])
  {
    DecodeThree([Letter(v0), Letter(v1), Letter(v2)], v0, v1, v2);
  }

  /** Four letters that stand for three bytes decode to them. */
  lemma LettersOfThree(v0: int, v1: int, v2: int, v3: int, c0: char, c1: char, c2: char, e: string, rest: string)
    requires 0 <= v0 < 64 && 0 <= v1 < 64 && 0 <= v2 < 64 && 0 <= v3 < 64
    requires First(v0, v1) == c0 && Second(v1, v2) == c1 && Third(v2, v3) == c2
    requires DecodeQuanta(e) == Some(rest)
    ensures DecodeQuanta([Letter(v0), Letter(v1), Letter(v2), Letter(v3)] + e) == Some([c0, c1, c2] + rest)
  {
    var all := [Letter(v0), Letter(v1), Letter(v2), Letter(v3)] + e;
    assert all[4..] == e;
    DecodeFour(all, v0, v1, v2, v3, rest);
  }

  lemma WholeQuantum(b: string)
    requires IsBytes(b) && |b| >= 3 && DecodeQuanta(Encode(b[3..])) == Some(b[3..])
    ensures DecodeQuanta(Encode(b)) == Some([b[0], b[1], b[2]] + b[3..])
  {
    var b0, b1, b2 := b[0] as int, b[1] as int, b[2] as int;
    EncodeFour(b);
    FirstBack(b0, b1);
    SecondBack(b0, b1, b2);
    ThirdBack(b1, b2);
    LettersOfThree(b0 / 4, b0 % 4 * 16 + b1 / 16, b1 % 16 * 4 + b2 / 64, b2 % 64, b[0], b[1], b[2],
                   Encode(b[3..]), b[3..]);
  }

  lemma TwoBytes(b: string)
    requires IsBytes(b) && |b| == 2
    ensures DecodeQuanta(Encode(b)) == Some([b[0], b[1]])
  {
    var b0, b1 := b[0] as int, b[1] as int;
    EncodeThree(b);
    FirstBack(b0, b1);
    SecondBack(b0, b1, 0);
    LettersOfTwo(b0 / 4, b0 % 4 * 16 + b1 / 16, b1 % 16 * 4, b[0], b[1]);
  }

  lemma OneByte(b: string)
    requires IsBytes(b) && |b| == 1
    ensures DecodeQuanta(Encode(b)) == Some([b[0]])
  {
    var b0 := b[0] as int;
    var e := Encode(b);
    assert e == [Letter(b0 / 4), Letter(b0 % 4 * 16)];
    DecodeTwo(e, b0 / 4, b0 % 4 * 16);
    FirstBack(b0, 0);
    assert b0 % 4 * 16 + 0 / 16 == b0 % 4 * 16;
  }

  lemma {:induction false} QuantaRoundTrip(b: string)
    requires IsBytes(b)
    ensures DecodeQuanta(Encode(b)) == Some(b)
    decreases |b|
  {
    if |b| >= 3 {
      QuantaRoundTrip(b[3..]);
      WholeQuantum(b);
      assert b == [b[0], b[1], b[2]] + b[3..];
    } else if |b| == 2 {
      TwoBytes(b);
      assert b == [b[0], b[1]];
    } else if |b| == 1 {
      OneByte(b);
      assert b == [b[0]];
    }
  }

  /** Decoding undoes encoding, for every byte string. */
  lemma RoundTrip(b: string)
    requires IsBytes(b)
    ensures Decode(Encode(b)) == Some(b)
    ensures b != [] ==> Encode(b) != []
  {
    EncodedHasNoLineBreaks(b);
    QuantaRoundTrip(b);
  }

  // ---- what the letters mean ----

  /** The alphabet of section 5 of RFC 4648. */
  const UPPER: string := "ABCDEFGHIJKLMNOPQRSTUVWXYZ"
  const LOWER: string := "abcdefghijklmnopqrstuvwxyz"
  const REST: string := "0123456789-_"
  const ALPHABET: string := UPPER + LOWER + REST

  lemma UpperLetter(v: int)
    requires 0 <= v < 26
    ensures |UPPER| == 26 && UPPER[v] == Letter(v)
  {
  }

  lemma LowerLetter(v: int)
    requires 26 <= v < 52
    ensures |LOWER| == 26 && LOWER[v - 26] == Letter(v)
  {
  }

  lemma RestLetter(v: int)
    requires 52 <= v < 64
    ensures |REST| == 12 && REST[v - 52] == Letter(v)
  {
  }

  lemma LetterIs(v: int)
    requires 0 <= v < 64
    ensures |ALPHABET| == 64 && Letter(v) == ALPHABET[v]
  {
    if v < 26 {
      UpperLetter(v);
    } else if v < 52 {
      LowerLetter(v);
    } else {
      RestLetter(v);
    }
  }

  /** A letter that stands for a value; past the end of the text there are only zeros. */
  predicate LetterAt(e: string, i: nat, v: int) {
    if i < |e| then 0 <= v < |ALPHABET| && e[i] == ALPHABET[v] else v == 0
  }

  function ByteAt(b: string, i: nat): int {
    if i < |b| then b[i] as int else 0
  }

  /** Four letters in base 64 are the same number as three bytes in base 256. */
  predicate SameNumber(v0: int, v1: int, v2: int, v3: int, b0: int, b1: int, b2: int) {
    ((v0 * 64 + v1) * 64 + v2) * 64 + v3 == (b0 * 256 + b1) * 256 + b2
  }

  /** The six-bit values of three bytes. */
  function Sixes(b0: int, b1: int, b2: int): (v: (int, int, int, int))
    requires 0 <= b0 < 256 && 0 <= b1 < 256 && 0 <= b2 < 256
    ensures 0 <= v.0 < 64 && 0 <= v.1 < 64 && 0 <= v.2 < 64 && 0 <= v.3 < 64
    ensures SameNumber(v.0, v.1, v.2, v.3, b0, b1, b2)
  {
    (b0 / 4, b0 % 4 * 16 + b1 / 16, b1 % 16 * 4 + b2 / 64, b2 % 64)
  }

  predicate LettersAt(e: string, i: nat, v0: int, v1: int, v2: int, v3: int) {
    LetterAt(e, i, v0) && LetterAt(e, i + 1, v1) && LetterAt(e, i + 2, v2) && LetterAt(e, i + 3, v3)
  }

  lemma FourLetters(e: string, v0: int, v1: int, v2: int, v3: int, rest: string)
    requires 0 <= v0 < 64 && 0 <= v1 < 64 && 0 <= v2 < 64 && 0 <= v3 < 64
    requires e == [Letter(v0), Letter(v1), Letter(v2), Letter(v3)] + rest
    ensures LettersAt(e, 0, v0, v1, v2, v3)
  {
    LetterIs(v0);
    LetterIs(v1);
    LetterIs(v2);
    LetterIs(v3);
  }

  lemma FewLetters(e: string, v0: int, v1: int, v2: int)
    requires 0 <= v0 < 64 && 0 <= v1 < 64 && 0 <= v2 < 64
    requires e == [Letter(v0), Letter(v1), Letter(v2)] || (e == [Letter(v0), Letter(v1)] && v2 == 0)
    ensures LettersAt(e, 0, v0, v1, v2, 0)
  {
    LetterIs(v0);
    LetterIs(v1);
    LetterIs(v2);
  }

  lemma OneEncoded(b: string)
    requires IsBytes(b) && |b| == 1
    ensures
      var v := Sixes(b[0] as int, 0, 0);
      Encode(b) == [Letter(v.0), Letter(v.1)] && v.2 == 0 && v.3 == 0
  {
  }

  lemma TwoEncoded(b: string)
    requires IsBytes(b) && |b| == 2
    ensures
      var v := Sixes(b[0] as int, b[1] as int, 0);
      Encode(b) == [Letter(v.0), Letter(v.1), Letter(v.2)] && v.3 == 0
  {
    EncodeThree(b);
  }

  lemma ThreeEncoded(b: string)
    requires IsBytes(b) && |b| >= 3
    ensures
      var v := Sixes(b[0] as int, b[1] as int, b[2] as int);
      Encode(b) == [Letter(v.0), Letter(v.1), Letter(v.2), Letter(v.3)] + Encode(b[3..])
  {
    EncodeFour(b);
  }

  lemma FirstGroup(b: string) returns (v0: int, v1: int, v2: int, v3: int)
    requires IsBytes(b) && b != []
    ensures LettersAt(Encode(b), 0, v0, v1, v2, v3)
    ensures SameNumber(v0, v1, v2, v3, ByteAt(b, 0), ByteAt(b, 1), ByteAt(b, 2))
  {
    var v := Sixes(ByteAt(b, 0), ByteAt(b, 1), ByteAt(b, 2));
    v0, v1, v2, v3 := v.0, v.1, v.2, v.3;
    if |b| == 1 {
      OneEncoded(b);
      FewLetters(Encode(b), v0, v1, 0);
    } else if |b| == 2 {
      TwoEncoded(b);
      FewLetters(Encode(b), v0, v1, v2);
    } else {
      ThreeEncoded(b);
      FourLetters(Encode(b), v0, v1, v2, v3, Encode(b[3..]));
    }
  }

  lemma ShiftedLetters(e: string, tail: string, i: nat, v0: int, v1: int, v2: int, v3: int)
    requires i + 4 <= |e| && tail == e[4..] && LettersAt(tail, i, v0, v1, v2, v3)
    ensures LettersAt(e, i + 4, v0, v1, v2, v3)
  {
    assert forall j | 0 <= j < |tail| :: tail[j] == e[j + 4];
  }

  lemma EncodedTail(b: string)
    requires IsBytes(b) && |b| >= 3
    ensures |Encode(b)| >= 4 && Encode(b)[4..] == Encode(b[3..])
  {
  }

  lemma BytesShifted(b: string, i: nat)
    requires |b| >= 3
    ensures ByteAt(b[3..], i) == ByteAt(b, i + 3)
  {
  }

  lemma {:induction false} EncodedLength(b: string)
    requires IsBytes(b)
    ensures |Encode(b)| == (4 * |b| + 2) / 3
    decreases |b|
  {
    if |b| >= 3 {
      EncodedLength(b[3..]);
      EncodeFour(b);
    }
  }

  /**
   The q-th group of four letters of an encoding is, in base 64, the number that the q-th group of
   three bytes is in base 256, zeros standing for what is past the end.
   */
  lemma {:induction false} EncodingIs(b: string, q: nat) returns (v0: int, v1: int, v2: int, v3: int)
    requires IsBytes(b) && 3 * q < |b|
    ensures LettersAt(Encode(b), 4 * q, v0, v1, v2, v3)
    ensures SameNumber(v0, v1, v2, v3, ByteAt(b, 3 * q), ByteAt(b, 3 * q + 1), ByteAt(b, 3 * q + 2))
    decreases |b|
  {
    if q == 0 {
      v0, v1, v2, v3 := FirstGroup(b);
    } else {
      v0, v1, v2, v3 := EncodingIs(b[3..], q - 1);
      EncodedTail(b);
      EncodedLength(b);
      ShiftedLetters(Encode(b), Encode(b[3..]), 4 * (q - 1), v0, v1, v2, v3);
      BytesShifted(b, 3 * (q - 1));
      BytesShifted(b, 3 * (q - 1) + 1);
      BytesShifted(b, 3 * (q - 1) + 2);
    }
  }
}
