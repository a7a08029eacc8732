// One provider-controlled value made inert for a log line: everything structural is escaped, and
// what does not fit is cut behind a marker.
module InertToken {
  import opened Wrappers

  /** A code point, surrogates included. */
  type Code = x: int | 0 <= x < 0x110000

  type Codes = seq<Code>

  const BACKSLASH: Code := 92
  const LOWER_U: Code := 117
  const UPPER_U: Code := 85
  const MARKER: Code := 0x2026

  /** Which code points count as letters or digits. */
  ghost predicate ValidAlnum(alnum: Code -> bool) {
    !alnum(BACKSLASH) && !alnum(MARKER)
  }

  /** Letters, digits and - . _ : / @ stay as they are. */
  predicate Plain(alnum: Code -> bool, c: Code) {
    alnum(c) || c == 45 || c == 46 || c == 95 || c == 58 || c == 47 || c == 64
  }

  function HexDigit(n: int): Code
    requires 0 <= n < 16
  {
    if n < 10 then 48 + n else 87 + n
  }

  function Power16(width: nat): nat {
    if width == 0 then 1 else 16 * Power16(width - 1)
  }

  /** The lowest `width` hexadecimal digits. */
  function Hex(n: nat, width: nat): (digits: Codes)
    ensures |digits| == width
  {
    if width == 0 then [] else Hex(n / 16, width - 1) + [HexDigit(n % 16)]
  }

  function Piece(alnum: Code -> bool, c: Code): (piece: Codes)
    ensures |piece| >= 1
  {
    if Plain(alnum, c) then [c]
    else if c <= 0xFFFF then [BACKSLASH, LOWER_U] + Hex(c, 4)
    else [BACKSLASH, UPPER_U] + Hex(c, 8)
  }

  /** The first n characters, piece by piece. */
  function EscapeFront(alnum: Code -> bool, value: Codes, n: nat): (text: Codes)
    requires n <= |value|
  {
    if n == 0 then [] else EscapeFront(alnum, value, n - 1) + Piece(alnum, value[n - 1])
  }

  function Escape(alnum: Code -> bool, value: Codes): Codes {
    EscapeFront(alnum, value, |value|)
  }

  function Join(pieces: seq<Codes>, n: nat): Codes
    requires n <= |pieces|
  {
    if n == 0 then [] else Join(pieces, n - 1) + pieces[n - 1]
  }

  /** The longest front of the value that fits with the marker behind it. */
  ghost predicate LongestFitting(alnum: Code -> bool, value: Codes, limit: int, n: nat) {
    && n < |value| && |EscapeFront(alnum, value, n)| + 1 <= limit
    && |EscapeFront(alnum, value, n + 1)| + 1 > limit
  }

  ghost predicate CutTo(alnum: Code -> bool, value: Codes, limit: int, text: Codes) {
    if limit < 1 then text == []
    else exists n: nat :: LongestFitting(alnum, value, limit, n) && text == EscapeFront(alnum, value, n) + [MARKER]
  }

  ghost predicate IsInert(alnum: Code -> bool, value: Codes, limit: int, text: Codes) {
    if |Escape(alnum, value)| <= limit then text == Escape(alnum, value) else CutTo(alnum, value, limit, text)
  }

  lemma {:induction false} EscapeGrows(alnum: Code -> bool, value: Codes, m: nat, n: nat)
    requires m <= n <= |value|
    ensures |EscapeFront(alnum, value, m)| + (n - m) <= |EscapeFront(alnum, value, n)|
  {
    hide Piece;
    if m < n { EscapeGrows(alnum, value, m, n - 1); }
  }

  ghost predicate Pieces(alnum: Code -> bool, value: Codes, pieces: seq<Codes>) {
    |pieces| <= |value| && forall i | 0 <= i < |pieces| :: pieces[i] == Piece(alnum, value[i])
  }

  lemma {:induction false} JoinEscapes(alnum: Code -> bool, value: Codes, pieces: seq<Codes>, n: nat)
    requires Pieces(alnum, value, pieces) && n <= |pieces|
    ensures Join(pieces, n) == EscapeFront(alnum, value, n)
  {
    hide Piece;
    if n > 0 { JoinEscapes(alnum, value, pieces, n - 1); }
  }

  /** Piece by piece, as long as they fit; the first that does not makes room for the marker, if there can be room. */
  method Render(alnum: Code -> bool, value: Codes, limit: int) returns (text: Codes)
    ensures IsInert(alnum, value, limit, text)
  {
    hide Piece, CutTo;
    var encoded: seq<Codes>, length := [], 0;
    for index := 0 to |value|
      invariant |encoded| == index && Pieces(alnum, value, encoded)
      invariant length == |EscapeFront(alnum, value, index)| && (index > 0 ==> length <= limit)
    {
      var piece := Piece(alnum, value[index]);
      if length + |piece| > limit {
        EscapeGrows(alnum, value, index + 1, |value|);
        text := Cut(alnum, value, encoded, length, limit);
        return;
      }
      encoded := encoded + [piece];
      length := length + |piece|;
    }
    JoinEscapes(alnum, value, encoded, |encoded|);
    text := Join(encoded, |encoded|);
    if |Escape(alnum, value)| > limit {
      assert value == [];
      NothingFits(alnum, value, limit);
    }
  }

  lemma NothingFits(alnum: Code -> bool, value: Codes, limit: int)
    requires value == [] && limit < 0
    ensures CutTo(alnum, value, limit, [])
  {
  }

  /** The end of the loop when a piece does not fit: drop pieces until the marker does. */
  method Cut(alnum: Code -> bool, value: Codes, pieces: seq<Codes>, total: int, limit: int) returns (text: Codes)
    requires Pieces(alnum, value, pieces) && |pieces| < |value|
    requires total == |EscapeFront(alnum, value, |pieces|)| && |EscapeFront(alnum, value, |pieces| + 1)| > limit
    ensures CutTo(alnum, value, limit, text)
  {
    hide Piece;
    var encoded, length := pieces, total;
    while encoded != [] && length + 1 > limit
      invariant |encoded| <= |pieces| && Pieces(alnum, value, encoded)
      invariant length == |EscapeFront(alnum, value, |encoded|)| && |EscapeFront(alnum, value, |encoded| + 1)| + 1 > limit
    {
      var n := |encoded| - 1;
      length := length - |encoded[n]|;
      encoded := encoded[..n];
    }
    JoinEscapes(alnum, value, encoded, |encoded|);
    text := Join(encoded, |encoded|);
    if 1 <= limit {
      text := text + [MARKER];
      assert LongestFitting(alnum, value, limit, |encoded|);
    }
  }

  // ---- Reading a token back ----

  function HexValue(c: Code): Option<nat> {
    if 48 <= c < 58 then Some(c - 48) else if 97 <= c < 103 then Some(c - 87) else None
  }

  function ReadHex(digits: Codes): Option<nat> {
    if digits == [] then Some(0)
    else match (ReadHex(digits[..|digits| - 1]), HexValue(digits[|digits| - 1]))
      case (Some(high), Some(low)) => Some(high * 16 + low)
      case _ => None
  }

  /** The code point at the front of a token, and how long its piece is. */
  function Front(text: Codes): Option<(nat, nat)>
    requires text != []
  {
    if text[0] != BACKSLASH then Some((text[0], 1))
    else if |text| >= 6 && text[1] == LOWER_U then
      match ReadHex(text[2..6]) case Some(n) => Some((n, 6)) case None => None
    else if |text| >= 10 && text[1] == UPPER_U then
      match ReadHex(text[2..10]) case Some(n) => Some((n, 10)) case None => None
    else None
  }

  function Unescape(text: Codes): Option<seq<nat>>
    decreases |text|
  {
    if text == [] then Some([])
    else match Front(text)
      case None => None
      case Some((code, length)) =>
        match Unescape(text[length..])
        case None => None
        case Some(rest) => Some([code] + rest)
  }

  lemma {:induction false} HexReadsBack(n: nat, width: nat)
    requires n < Power16(width)
    ensures ReadHex(Hex(n, width)) == Some(n)
  {
    if width > 0 {
      assert Power16(width) == 16 * Power16(width - 1);
      HexReadsBack(n / 16, width - 1);
      var digits := Hex(n, width);
      assert digits[..width - 1] == Hex(n / 16, width - 1);
      assert HexValue(HexDigit(n % 16)) == Some(n % 16);
    }
  }

  lemma Powers()
    ensures Power16(4) == 0x10000 && Power16(8) == 0x100000000
  {
    assert Power16(1) == 16 && Power16(2) == 256 && Power16(3) == 4096 && Power16(5) == 0x100000 && Power16(6) == 0x1000000;
  }

  lemma PieceReadsBack(alnum: Code -> bool, c: Code, rest: Codes)
    requires ValidAlnum(alnum)
    ensures Front(Piece(alnum, c) + rest) == Some((c as nat, |Piece(alnum, c)|))
  {
    Powers();
    var piece := Piece(alnum, c);
    if !Plain(alnum, c) {
      var width := |piece| - 2;
      HexReadsBack(c, width);
      assert (piece + rest)[2..2 + width] == piece[2..] == Hex(c, width);
    }
  }

  function AsNats(value: Codes): (numbers: seq<nat>)
    ensures |numbers| == |value| && forall i | 0 <= i < |value| :: numbers[i] == value[i]
  {
    seq(|value|, i requires 0 <= i < |value| => value[i] as nat)
  }

  /** Escaped characters in front of other text read back one by one. */
  lemma {:induction false} FrontReadsBack(alnum: Code -> bool, value: Codes, n: nat, rest: Codes, numbers: seq<nat>)
    requires ValidAlnum(alnum) && n <= |value| && Unescape(rest) == Some(numbers)
    ensures Unescape(EscapeFront(alnum, value, n) + rest) == Some(AsNats(value[..n]) + numbers)
  {
    hide Piece, Front;
    if n == 0 {
      assert [] + rest == rest && AsNats(value[..0]) + numbers == numbers;
    } else {
      var piece := Piece(alnum, value[n - 1]);
      PieceReadsBack(alnum, value[n - 1], rest);
      assert (piece + rest)[|piece|..] == rest;
      FrontReadsBack(alnum, value, n - 1, piece + rest, [value[n - 1] as nat] + numbers);
      assert EscapeFront(alnum, value, n - 1) + (piece + rest) == EscapeFront(alnum, value, n) + rest;
      assert AsNats(value[..n - 1]) + ([value[n - 1] as nat] + numbers) == AsNats(value[..n]) + numbers;
    }
  }

  /** An uncut token reads back as exactly its value. */
  lemma EscapeReadsBack(alnum: Code -> bool, value: Codes, n: nat)
    requires ValidAlnum(alnum) && n <= |value|
    ensures Unescape(EscapeFront(alnum, value, n)) == Some(AsNats(value[..n]))
  {
    FrontReadsBack(alnum, value, n, [], []);
    assert EscapeFront(alnum, value, n) + [] == EscapeFront(alnum, value, n);
    assert AsNats(value[..n]) + [] == AsNats(value[..n]);
  }

  lemma AsNatsIsInjective(a: Codes, b: Codes)
    requires AsNats(a) == AsNats(b)
    ensures a == b
  {
    assert |a| == |AsNats(a)| == |b|;
    forall i | 0 <= i < |a| ensures a[i] == b[i] {
      assert AsNats(a)[i] == AsNats(b)[i];
    }
  }

  predicate Harmless(alnum: Code -> bool, c: Code) {
    Plain(alnum, c) || c == BACKSLASH || c == LOWER_U || c == UPPER_U || 48 <= c < 58 || 97 <= c < 103
  }

  lemma {:induction false} HexIsHarmless(alnum: Code -> bool, n: nat, width: nat)
    ensures forall c | c in Hex(n, width) :: Harmless(alnum, c) && c != MARKER
  {
    if width > 0 { HexIsHarmless(alnum, n / 16, width - 1); }
  }

  lemma {:induction false} EscapeIsHarmless(alnum: Code -> bool, value: Codes, n: nat)
    requires ValidAlnum(alnum) && n <= |value|
    ensures forall c | c in EscapeFront(alnum, value, n) :: Harmless(alnum, c) && c != MARKER
  {
    if n > 0 {
      EscapeIsHarmless(alnum, value, n - 1);
      HexIsHarmless(alnum, value[n - 1], 4);
      HexIsHarmless(alnum, value[n - 1], 8);
    }
  }

  // ---- What a token can be relied on for ----

  predicate IsCut(text: Codes) {
    text != [] && text[|text| - 1] == MARKER
  }

  /** Within its limit, with no structural character and at most one marker, at the end, exactly when the value did not fit. */
  lemma TokenIsInert(alnum: Code -> bool, value: Codes, limit: int, text: Codes)
    requires ValidAlnum(alnum) && limit >= 1 && IsInert(alnum, value, limit, text)
    ensures |text| <= limit
    ensures IsCut(text) <==> |Escape(alnum, value)| > limit
    ensures forall i | 0 <= i < |text| :: Harmless(alnum, text[i]) || (text[i] == MARKER && i == |text| - 1)
  {
    hide Harmless, ValidAlnum;
    EscapeIsHarmless(alnum, value, |value|);
    if |Escape(alnum, value)| > limit {
      var n: nat :| LongestFitting(alnum, value, limit, n) && text == EscapeFront(alnum, value, n) + [MARKER];
      EscapeIsHarmless(alnum, value, n);
    } else if text != [] {
      assert text[|text| - 1] in text;
    }
  }

  /** Different values never get the same token unless one of them was cut. */
  lemma TokensDiffer(alnum: Code -> bool, a: Codes, b: Codes, limit: int, text: Codes)
    requires ValidAlnum(alnum) && limit >= 1 && IsInert(alnum, a, limit, text) && IsInert(alnum, b, limit, text) && !IsCut(text)
    ensures a == b
  {
    TokenIsInert(alnum, a, limit, text);
    TokenIsInert(alnum, b, limit, text);
    EscapeReadsBack(alnum, a, |a|);
    EscapeReadsBack(alnum, b, |b|);
    assert a[..|a|] == a && b[..|b|] == b;
    AsNatsIsInjective(a, b);
  }

  /** A cut token is a proper front of its value, as long a front as there is room for, behind which the marker stands. */
  lemma CutTokenIsFront(alnum: Code -> bool, value: Codes, limit: int, text: Codes) returns (n: nat)
    requires ValidAlnum(alnum) && limit >= 1 && IsInert(alnum, value, limit, text) && IsCut(text)
    ensures LongestFitting(alnum, value, limit, n) && Unescape(text[..|text| - 1]) == Some(AsNats(value[..n]))
  {
    hide Unescape;
    TokenIsInert(alnum, value, limit, text);
    n :| LongestFitting(alnum, value, limit, n) && text == EscapeFront(alnum, value, n) + [MARKER];
    EscapeReadsBack(alnum, value, n);
    assert text[..|text| - 1] == EscapeFront(alnum, value, n);
  }
}
