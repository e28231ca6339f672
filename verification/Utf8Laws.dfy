/** What UTF-8 is, said by the encoding of each scalar value (section 3 of RFC 3629), and
    that the sanitizer keeps exactly the encoded texts. */
module Utf8Laws {
  import opened Utf8

  /** A Unicode scalar value: a code point that is not a surrogate. */
  predicate Scalar(v: nat) {
    v <= 0x10FFFF && !(0xD800 <= v <= 0xDFFF)
  }

  function Encode(v: nat): (s: string)
    requires Scalar(v)
    ensures s != ""
  {
    if v < 0x80 then [v as char]
    else if v < 0x800 then [(0xC0 + v / 0x40) as char, (0x80 + v % 0x40) as char]
    else if v < 0x10000 then
      [(0xE0 + v / 0x1000) as char, (0x80 + v / 0x40 % 0x40) as char, (0x80 + v % 0x40) as char]
    else
      [(0xF0 + v / 0x40000) as char, (0x80 + v / 0x1000 % 0x40) as char,
       (0x80 + v / 0x40 % 0x40) as char, (0x80 + v % 0x40) as char]
  }

  predicate Scalars(vs: seq<nat>) {
    forall i :: 0 <= i < |vs| ==> Scalar(vs[i])
  }

  function EncodeAll(vs: seq<nat>): string
    requires Scalars(vs)
  {
    if vs == [] then "" else Encode(vs[0]) + EncodeAll(vs[1..])
  }

  // ---------------------------------------------------------------------------
  // One rune
  // ---------------------------------------------------------------------------

  /** The scalar value of a rune, from its bytes. */
  function Decoded(s: string): nat
    requires RuneLength(s) > 0
  {
    match RuneLength(s)
    case 1 => s[0] as int
    case 2 => (s[0] as int - 0xC0) * 0x40 + (s[1] as int - 0x80)
    case 3 => (s[0] as int - 0xE0) * 0x1000 + (s[1] as int - 0x80) * 0x40 + (s[2] as int - 0x80)
    case _ =>
      (s[0] as int - 0xF0) * 0x40000 + (s[1] as int - 0x80) * 0x1000 + (s[2] as int - 0x80) * 0x40 + (s[3] as int - 0x80)
  }

  /** A text that starts with an encoded scalar starts with a rune of that length. */
  lemma EncodedIsRune(v: nat, rest: string)
    requires Scalar(v)
    ensures RuneLength(Encode(v) + rest) == |Encode(v)|
    ensures Decoded(Encode(v) + rest) == v
  {
    var s := Encode(v) + rest;
    assert forall i :: 0 <= i < |Encode(v)| ==> s[i] == Encode(v)[i];
    if v < 0x80 {
    } else if v < 0x800 {
      Pieces(v, 0x40);
    } else if v < 0x10000 {
      Pieces(v, 0x40);
      Pieces(v / 0x40, 0x40);
      DivDiv(v);
    } else {
      Pieces(v, 0x40);
      Pieces(v / 0x40, 0x40);
      Pieces(v / 0x1000, 0x40);
      DivDiv(v);
    }
  }

  lemma Pieces(v: nat, n: nat)
    requires n > 0
    ensures v == v / n * n + v % n && v % n < n
  {
  }

  lemma DivDiv(v: nat)
    ensures v / 0x40 / 0x40 == v / 0x1000 && v / 0x1000 / 0x40 == v / 0x40000
  {
  }

  /** And a rune is the encoding of its scalar. */
  lemma RuneIsEncoded(s: string)
    requires RuneLength(s) > 0
    ensures Scalar(Decoded(s)) && Encode(Decoded(s)) == s[..RuneLength(s)]
  {
    match RuneLength(s) {
      case 1 =>
      case 2 => RuneOfTwo(s);
      case 3 => RuneOfThree(s);
      case _ => RuneOfFour(s);
    }
    hide Encode, Scalar, Decoded;
  }

  lemma RuneOfTwo(s: string)
    requires RuneLength(s) == 2
    ensures Scalar(Decoded(s)) && Encode(Decoded(s)) == s[..2]
  {
    TwoBytes(s[0] as int - 0xC0, s[1] as int - 0x80);
  }

  lemma RuneOfThree(s: string)
    requires RuneLength(s) == 3
    ensures Scalar(Decoded(s)) && Encode(Decoded(s)) == s[..3]
  {
    ThreeBytes(s[0] as int - 0xE0, s[1] as int - 0x80, s[2] as int - 0x80);
  }

  lemma RuneOfFour(s: string)
    requires RuneLength(s) == 4
    ensures Scalar(Decoded(s)) && Encode(Decoded(s)) == s[..4]
  {
    FourBytes(s[0] as int - 0xF0, s[1] as int - 0x80, s[2] as int - 0x80, s[3] as int - 0x80);
  }

  lemma TwoBytes(a: nat, b: nat)
    requires b < 0x40
    ensures var v := a * 0x40 + b; v / 0x40 == a && v % 0x40 == b
  {
  }

  lemma ThreeBytes(a: nat, b: nat, c: nat)
    requires b < 0x40 && c < 0x40
    ensures var v := a * 0x1000 + b * 0x40 + c; v / 0x1000 == a && v / 0x40 % 0x40 == b && v % 0x40 == c
  {
    TwoBytes(a * 0x40 + b, c);
    TwoBytes(a, b);
    DivDiv(a * 0x1000 + b * 0x40 + c);
  }

  lemma FourBytes(a: nat, b: nat, c: nat, d: nat)
    requires b < 0x40 && c < 0x40 && d < 0x40
    ensures var v := a * 0x40000 + b * 0x1000 + c * 0x40 + d;
            v / 0x40000 == a && v / 0x1000 % 0x40 == b && v / 0x40 % 0x40 == c && v % 0x40 == d
  {
    ThreeBytes(a * 0x40 + b, c, d);
    TwoBytes(a, b);
    DivDiv(a * 0x40000 + b * 0x1000 + c * 0x40 + d);
  }

  // ---------------------------------------------------------------------------
  // Texts
  // ---------------------------------------------------------------------------

  /** Encoded scalars are valid, and read back as those scalars only. */
  lemma {:induction false} EncodedIsValid(vs: seq<nat>)
    requires Scalars(vs)
    ensures Valid(EncodeAll(vs))
  {
    if vs != [] {
      var rest := EncodeAll(vs[1..]);
      hide Encode, RuneLength, Scalar;
      EncodedIsRune(vs[0], rest);
      assert (Encode(vs[0]) + rest)[|Encode(vs[0])|..] == rest;
      EncodedIsValid(vs[1..]);
    }
  }

  lemma EncodeCons(v: nat, vs: seq<nat>)
    requires Scalar(v) && Scalars(vs)
    ensures Scalars([v] + vs) && EncodeAll([v] + vs) == Encode(v) + EncodeAll(vs)
  {
    assert ([v] + vs)[1..] == vs;
  }

  lemma ValidParts(s: string)
    requires Valid(s) && s != ""
    ensures var n := RuneLength(s); 0 < n <= |s| && Valid(s[n..]) && s == s[..n] + s[n..]
  {
    hide RuneLength;
  }

  lemma NothingEncoded()
    ensures EncodeAll([]) == ""
  {
  }

  lemma {:induction false} ValidIsEncoded(s: string) returns (vs: seq<nat>)
    requires Valid(s)
    ensures Scalars(vs) && EncodeAll(vs) == s
    decreases |s|
  {
    hide Encode, RuneLength, Scalar, Decoded, EncodeAll, Valid;
    if s == "" {
      vs := [];
      NothingEncoded();
    } else {
      ValidParts(s);
      RuneIsEncoded(s);
      var rest := ValidIsEncoded(s[RuneLength(s)..]);
      EncodeCons(Decoded(s), rest);
      vs := [Decoded(s)] + rest;
    }
  }

  /** No text encodes two lists of scalars. */
  lemma {:induction false} EncodedOnce(a: seq<nat>, b: seq<nat>)
    requires Scalars(a) && Scalars(b) && EncodeAll(a) == EncodeAll(b)
    ensures a == b
    decreases |a|
  {
    if a != [] && b != [] {
      hide Encode, RuneLength, Scalar, Decoded;
      var x, y := EncodeAll(a[1..]), EncodeAll(b[1..]);
      EncodedIsRune(a[0], x);
      EncodedIsRune(b[0], y);
      assert (Encode(a[0]) + x)[|Encode(a[0])|..] == x && (Encode(b[0]) + y)[|Encode(b[0])|..] == y;
      EncodedOnce(a[1..], b[1..]);
      assert a == [a[0]] + a[1..] && b == [b[0]] + b[1..];
    }
  }

  /** Main result: the texts that count as valid are exactly the encodings of lists of
      scalars, each of one list. */
  lemma ValidExactly(s: string)
    ensures Valid(s) <==> exists vs :: Scalars(vs) && EncodeAll(vs) == s
  {
    if Valid(s) {
      var vs := ValidIsEncoded(s);
    }
    if vs :| Scalars(vs) && EncodeAll(vs) == s {
      EncodedIsValid(vs);
    }
  }

  lemma ReplacementIsScalar()
    ensures Scalar(0xFFFD) && Encode(0xFFFD) == REPLACEMENT
  {
  }

  /** The sanitizer, without its loop: an encoded scalar at the front is kept; at a byte with
      which none starts, that byte becomes the encoding of U+FFFD; and so on behind it. */
  lemma SanitizeExactly(s: string)
    ensures Sanitize("") == ""
    ensures forall v :: Scalar(v) ==> Sanitize(Encode(v) + s) == Encode(v) + Sanitize(s)
    ensures s != "" && (forall v :: Scalar(v) ==> !(Encode(v) <= s)) ==> Sanitize(s) == Encode(0xFFFD) + Sanitize(s[1..])
  {
    hide Encode, RuneLength, Scalar, Decoded;
    ReplacementIsScalar();
    forall v | Scalar(v)
      ensures Sanitize(Encode(v) + s) == Encode(v) + Sanitize(s)
    {
      EncodedIsRune(v, s);
      assert (Encode(v) + s)[|Encode(v)|..] == s && (Encode(v) + s)[..|Encode(v)|] == Encode(v);
    }
    if s != "" && RuneLength(s) > 0 {
      RuneIsEncoded(s);
      assert Encode(Decoded(s)) <= s;
    }
  }

  /** What the sanitizer returns is always valid. */
  lemma {:induction false} SanitizedIsValid(s: string)
    ensures Valid(Sanitize(s))
    decreases |s|
  {
    if s != "" {
      hide Encode, RuneLength, Scalar, Decoded;
      ReplacementIsScalar();
      var n := RuneLength(s);
      if n == 0 {
        SanitizedIsValid(s[1..]);
        RuneThenValid(0xFFFD, Sanitize(s[1..]));
      } else {
        SanitizedIsValid(s[n..]);
        RuneIsEncoded(s);
        RuneThenValid(Decoded(s), Sanitize(s[n..]));
      }
    }
  }

  lemma RuneThenValid(v: nat, rest: string)
    requires Scalar(v) && Valid(rest)
    ensures Valid(Encode(v) + rest)
  {
    hide Encode, RuneLength, Scalar;
    EncodedIsRune(v, rest);
    assert (Encode(v) + rest)[|Encode(v)|..] == rest;
  }

  /** A text comes through unchanged if and only if it is encoded; and a second pass changes
      nothing. */
  lemma UnchangedExactly(s: string)
    ensures Sanitize(s) == s <==> exists vs :: Scalars(vs) && EncodeAll(vs) == s
    ensures Sanitize(Sanitize(s)) == Sanitize(s)
  {
    ValidExactly(s);
    SanitizedIsValid(s);
    ValidUnchanged(Sanitize(s));
    if Valid(s) {
      ValidUnchanged(s);
    }
  }
}
