/** encode_str and decode_str: percent encoding (section 2.1 of RFC 3986) into a bounded buffer, and
    decoding in place. */
module PercentCodec {
  import opened Bytes
  import opened Sequences
  import CStrings

  const PERCENT: byte := 37

  predicate IsDigit(b: byte) { 48 <= b <= 57 }
  predicate IsAlnum(b: byte) { IsDigit(b) || 65 <= b <= 90 || 97 <= b <= 122 }
  predicate IsXDigit(b: byte) { IsDigit(b) || 65 <= b <= 70 || 97 <= b <= 102 }

  /** Written as it is: letters, digits and the bytes of "/_.-~". */
  predicate IsPlain(b: byte) { IsAlnum(b) || b in {47, 95, 46, 45, 126} }

  /** One digit of "%02x". */
  function HexDigit(n: nat): byte
    requires n < 16
  {
    (if n < 10 then 48 + n else 87 + n) as byte
  }

  function Hexit(c: byte): (r: nat)
    ensures r < 16
  {
    if IsDigit(c) then (c - 48) as nat
    else if 97 <= c <= 102 then (c - 87) as nat
    else if 65 <= c <= 70 then (c - 55) as nat
    else 0
  }

  function EncodeByte(b: byte): (e: seq<byte>)
    ensures 1 <= |e| <= 3
  {
    if IsPlain(b) then [b] else [PERCENT, HexDigit(b as nat / 16), HexDigit(b as nat % 16)]
  }

  function Encode(s: seq<byte>): seq<byte> {
    if s == [] then [] else Encode(s[..|s| - 1]) + EncodeByte(s[|s| - 1])
  }

  predicate IsEscape(s: seq<byte>) {
    |s| >= 3 && s[0] == PERCENT && IsXDigit(s[1]) && IsXDigit(s[2])
  }

  function Decode(s: seq<byte>): (d: seq<byte>)
    ensures |d| <= |s|
  {
    if s == [] then []
    else if IsEscape(s) then [(Hexit(s[1]) * 16 + Hexit(s[2])) as byte] + Decode(s[3..])
    else [s[0]] + Decode(s[1..])
  }

  /** How many bytes of `from` the loop of encode_str consumes, starting after the first `i`. */
  function Taken(from: seq<byte>, tosize: int, i: nat): (n: nat)
    requires i <= |from|
    ensures i <= n <= |from|
    decreases |from| - i
  {
    if i < |from| && |Encode(from[..i])| + 4 < tosize then Taken(from, tosize, i + 1) else i
  }

  // ---------------------------------------------------------------- laws of the codec

  lemma {:induction false} DecodeAfterByte(b: byte, rest: seq<byte>)
    ensures Decode(EncodeByte(b) + rest) == [b] + Decode(rest)
  {
  }

  /** Decoding stops being confused by what follows an encoded text: it decodes piece by piece. */
  lemma {:induction false} DecodeEncodePrefix(s: seq<byte>, rest: seq<byte>)
    ensures Decode(Encode(s) + rest) == s + Decode(rest)
  {
    if s == [] {
      assert [] + rest == rest;
    } else {
      hide Decode, EncodeByte;
      var init, b, d := s[..|s| - 1], s[|s| - 1], Decode(rest);
      assert Encode(s) == Encode(init) + EncodeByte(b);
      DecodeEncodePrefix(init, EncodeByte(b) + rest);
      DecodeAfterByte(b, rest);
      Regroup(Encode(init), EncodeByte(b), rest);
      Regroup(init, [b], d);
      assert s == init + [b];
    }
  }

  /** Decoding undoes encoding, for every byte string. */
  lemma DecodeEncode(s: seq<byte>)
    ensures Decode(Encode(s)) == s
  {
    DecodeEncodePrefix(s, []);
    assert Encode(s) + [] == Encode(s);
  }

  lemma {:induction false} EncodeLength(s: seq<byte>)
    ensures |s| <= |Encode(s)| <= 3 * |s|
  {
    if s != [] {
      EncodeLength(s[..|s| - 1]);
    }
  }

  /** An encoded text holds only unreserved bytes, '/' and well-formed escapes; in particular no NUL. */
  lemma {:induction false} EncodeSafe(s: seq<byte>)
    ensures forall i | 0 <= i < |Encode(s)| :: IsPlain(Encode(s)[i]) || Encode(s)[i] == PERCENT
  {
    if s != [] {
      EncodeSafe(s[..|s| - 1]);
    }
  }

  lemma {:induction false} EncodeGrows(s: seq<byte>, i: nat, j: nat)
    requires i <= j <= |s|
    ensures |Encode(s[..i])| + (j - i) <= |Encode(s[..j])|
    decreases j
  {
    if i < j {
      EncodeGrows(s, i, j - 1);
      assert s[..j][..j - 1] == s[..j - 1];
    }
  }

  /** The consumed prefix is the one that stops as soon as four more bytes might not fit. */
  lemma {:induction false} TakenStops(from: seq<byte>, tosize: int, i: nat)
    requires i <= |from|
    ensures var n := Taken(from, tosize, i);
            && (forall j | i <= j < n :: |Encode(from[..j])| + 4 < tosize)
            && (n < |from| ==> |Encode(from[..n])| + 4 >= tosize)
    decreases |from| - i
  {
    if i < |from| && |Encode(from[..i])| + 4 < tosize {
      TakenStops(from, tosize, i + 1);
    }
  }

  /** The bounded encoder's result: it fits with its NUL, consists of whole encodings of a prefix,
      and decodes back to that prefix. */
  lemma BoundedEncoding(from: seq<byte>, tosize: int)
    requires tosize >= 1
    ensures var n := Taken(from, tosize, 0);
            |Encode(from[..n])| + 1 <= tosize && Decode(Encode(from[..n])) == from[..n]
  {
    var n := Taken(from, tosize, 0);
    TakenStops(from, tosize, 0);
    DecodeEncode(from[..n]);
    if n > 0 {
      assert from[..n][..n - 1] == from[..n - 1];
      assert |Encode(from[..n - 1])| + 4 < tosize;
    }
  }

  /** Exactly when nothing is cut off: every byte but the last must leave room for four more. */
  lemma WholeIff(from: seq<byte>, tosize: int)
    ensures Taken(from, tosize, 0) == |from|
            <==> from == [] || |Encode(from[..|from| - 1])| + 4 < tosize
    ensures 3 * |from| + 1 < tosize ==> Taken(from, tosize, 0) == |from|
  {
    var n := Taken(from, tosize, 0);
    TakenStops(from, tosize, 0);
    if from != [] {
      EncodeLength(from[..|from| - 1]);
      if n < |from| {
        EncodeGrows(from, n, |from| - 1);
      } else {
        assert |Encode(from[..n - 1])| + 4 < tosize;
      }
    }
  }

  // ---------------------------------------------------------------- the loops

  /** One turn of encode_str's loop: the byte as it is, or sprintf(to, "%%%02x", b) with its NUL. */
  method StoreEncoded(to: array<byte>, tolen: nat, b: byte) returns (next: nat)
    requires tolen + 3 < to.Length
    modifies to
    ensures next == tolen + |EncodeByte(b)|
    ensures to[..next] == old(to[..tolen]) + EncodeByte(b)
  {
    if IsPlain(b) {
      to[tolen] := b;
      next := tolen + 1;
    } else {
      to[tolen], to[tolen + 1], to[tolen + 2] := PERCENT, HexDigit(b as nat / 16), HexDigit(b as nat % 16);
      to[tolen + 3] := NUL;
      next := tolen + 3;
    }
  }

  /** encode_str(to, tosize, from), where `from` is the text before the NUL. */
  method EncodeStr(to: array<byte>, tosize: int, from: seq<byte>)
    requires 1 <= tosize <= to.Length
    modifies to
    ensures var e := Encode(from[..Taken(from, tosize, 0)]);
            |e| < tosize && to[..|e|] == e && to[|e|] == NUL
  {
    hide EncodeByte;
    var i, tolen := 0, 0;
    while i < |from| && tolen + 4 < tosize
      invariant 0 <= i <= |from| && 0 <= tolen < tosize
      invariant to[..tolen] == Encode(from[..i])
      invariant Taken(from, tosize, i) == Taken(from, tosize, 0)
    {
      assert from[..i + 1][..i] == from[..i];
      assert |Encode(from[..i])| == tolen;
      tolen := StoreEncoded(to, tolen, from[i]);
      i := i + 1;
    }
    assert |Encode(from[..i])| == tolen;
    to[tolen] := NUL;
  }

  lemma DecodeNothing()
    ensures Decode([]) == []
  {
  }

  /** decode_str(a, a): decoding in place.  The text is `a` up to its NUL at index `n`. */
  method DecodeInPlace(a: array<byte>, ghost n: nat)
    requires n < a.Length && a[n] == NUL && forall i | 0 <= i < n :: a[i] != NUL
    modifies a
    ensures var d := Decode(old(a[..n]));
            a[..|d|] == d && a[|d|] == NUL && a[|d| + 1..] == old(a[|d| + 1..])
  {
    hide Decode, IsEscape;
    ghost var s := a[..n];
    var from, to := 0, 0;
    assert s[0..] == s && a[..0] + Decode(s) == Decode(s);
    while a[from] != NUL
      invariant 0 <= to <= from <= n
      invariant Decode(s) == a[..to] + Decode(s[from..])
      invariant forall i | to <= i < a.Length :: a[i] == old(a[i])
      decreases n - from
    {
      ghost var before := a[..to];
      var b, width := DecodeOne(a, from, n, s);
      a[to] := b;
      assert a[..to + 1] == before + [b];
      assert before + ([b] + Decode(s[from + width..])) == before + [b] + Decode(s[from + width..]);
      to, from := to + 1, from + width;
    }
    assert s[from..] == [];
    DecodeNothing();
    assert a[..to] + [] == a[..to];
    a[to] := NUL;
  }

  /** What decode_str reads at `from`: an escape of three bytes, or one byte. */
  method DecodeOne(a: array<byte>, from: nat, ghost n: nat, ghost s: seq<byte>) returns (b: byte, width: nat)
    requires from < n == |s| < a.Length && a[n] == NUL && forall i | from <= i < n :: a[i] == s[i] && s[i] != NUL
    ensures 1 <= width && from + width <= n && Decode(s[from..]) == [b] + Decode(s[from + width..])
  {
    ghost var tail := s[from..];
    if a[from] == PERCENT && IsXDigit(a[from + 1]) && IsXDigit(a[from + 2]) {
      assert IsEscape(tail) && tail[3..] == s[from + 3..];
      return (Hexit(a[from + 1]) * 16 + Hexit(a[from + 2])) as byte, 3;
    }
    assert !IsEscape(tail) && tail[1..] == s[from + 1..];
    return a[from], 1;
  }

  // ---------------------------------------------------------------- which bytes, which digits

  const LOWER_DIGITS := "0123456789abcdef"
  const UPPER_DIGITS := "0123456789ABCDEF"

  function Byte(c: char): byte
    requires c as int < 256
  {
    c as int as byte
  }

  /** Letters, digits and "/_.-~". */
  predicate InPlain(b: byte) {
    var c := (b as int) as char;
    c in CStrings.UPPER_CASE || c in CStrings.LOWER_CASE || c in "0123456789" || c in "/_.-~"
  }

  /** The bytes that are encoded as themselves, one by one. */
  lemma PlainIff(b: byte)
    ensures Encode([b]) == [b] <==> InPlain(b)
  {
    assert Encode([b]) == EncodeByte(b) by { assert [b][..0] == [] && [] + EncodeByte(b) == EncodeByte(b); }
    PlainTable(b);
  }

  lemma PlainTable(b: byte)
    ensures IsPlain(b) <==> InPlain(b)
  {
    var c := (b as int) as char;
    LettersTable(c);
    DigitsTable(c);
    assert c in "/_.-~" <==> b in {47, 95, 46, 45, 126} by { MarksTable(c); }
  }

  lemma LettersTable(c: char)
    ensures c in CStrings.UPPER_CASE <==> 65 <= c as int <= 90
    ensures c in CStrings.LOWER_CASE <==> 97 <= c as int <= 122
  {
    forall k: nat | k < 26
      ensures CStrings.UPPER_CASE[k] as int == 65 + k && CStrings.LOWER_CASE[k] as int == 97 + k
    {
      CStrings.LowerTable(k);
    }
    if 65 <= c as int <= 90 { assert CStrings.UPPER_CASE[c as int - 65] == c; }
    if 97 <= c as int <= 122 { assert CStrings.LOWER_CASE[c as int - 97] == c; }
  }

  lemma DigitsTable(c: char)
    ensures c in "0123456789" <==> 48 <= c as int <= 57
  {
    var digits := "0123456789";
    forall k: nat | k < 10 ensures digits[k] as int == 48 + k {
    }
    if 48 <= c as int <= 57 { assert digits[c as int - 48] == c; }
  }

  lemma MarksTable(c: char)
    ensures c in "/_.-~" <==> c as int in {47, 95, 46, 45, 126}
  {
    var marks := "/_.-~";
    assert marks[0] == '/' && marks[1] == '_' && marks[2] == '.' && marks[3] == '-' && marks[4] == '~';
  }

  /** Every other byte is written as a percent sign and its two lower-case digits. */
  lemma EscapeOf(b: byte)
    requires !InPlain(b)
    ensures Encode([b]) == [PERCENT, Byte(LOWER_DIGITS[b as nat / 16]), Byte(LOWER_DIGITS[b as nat % 16])]
  {
    assert Encode([b]) == EncodeByte(b) by { assert [b][..0] == [] && [] + EncodeByte(b) == EncodeByte(b); }
    PlainTable(b);
    DigitTable(b as nat / 16);
    DigitTable(b as nat % 16);
  }

  lemma DigitTable(k: nat)
    requires k < 16
    ensures Byte(LOWER_DIGITS[k]) == HexDigit(k) && IsXDigit(Byte(LOWER_DIGITS[k])) && IsXDigit(Byte(UPPER_DIGITS[k]))
    ensures Hexit(Byte(LOWER_DIGITS[k])) == k && Hexit(Byte(UPPER_DIGITS[k])) == k
  {
  }

  /** An escape decodes to the byte its two digits name, each of them in either case. */
  lemma DecodeEscape(hi: nat, lo: nat, hiDigits: string, loDigits: string, rest: seq<byte>)
    requires hi < 16 && lo < 16 && hiDigits in {LOWER_DIGITS, UPPER_DIGITS} && loDigits in {LOWER_DIGITS, UPPER_DIGITS}
    ensures Decode([PERCENT, Byte(hiDigits[hi]), Byte(loDigits[lo])] + rest) == [(16 * hi + lo) as byte] + Decode(rest)
  {
    DigitTable(hi);
    DigitTable(lo);
    var s := [PERCENT, Byte(hiDigits[hi]), Byte(loDigits[lo])] + rest;
    assert s[3..] == rest;
  }

  /** The byte is a hexadecimal digit, in either case. */
  predicate InDigits(b: byte) {
    var c := (b as int) as char;
    c in LOWER_DIGITS || c in UPPER_DIGITS
  }

  lemma XDigitTable(b: byte)
    ensures IsXDigit(b) <==> InDigits(b)
  {
    var c := (b as int) as char;
    if IsXDigit(b) {
      DigitTable(Hexit(b));
      assert c == LOWER_DIGITS[Hexit(b)] || c == UPPER_DIGITS[Hexit(b)];
    } else if InDigits(b) {
      var k: nat :| k < 16 && (c == LOWER_DIGITS[k] || c == UPPER_DIGITS[k]);
      DigitTable(k);
    }
  }

  /** A percent sign that two hexadecimal digits do not follow, and any other byte, stand for
      themselves. */
  lemma DecodePlain(s: seq<byte>)
    requires s != [] && !(|s| >= 3 && s[0] == PERCENT && InDigits(s[1]) && InDigits(s[2]))
    ensures Decode(s) == [s[0]] + Decode(s[1..])
  {
    if |s| >= 3 {
      XDigitTable(s[1]);
      XDigitTable(s[2]);
    }
  }
}
