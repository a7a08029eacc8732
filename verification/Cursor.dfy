// The cursor of a history page: the last row's key, in URL-safe base64 (section 5 of RFC 4648)
// without padding. Text is its UTF-8 bytes, which is also how the database orders it.
module Cursor {
  import opened Wrappers
  import opened Frames

  /** A number below 64, as one base64 character stands for. */
  type Sextet = x: int | 0 <= x < 64

  function Letter(x: Sextet): char {
    if x < 26 then 'A' + x as char
    else if x < 52 then 'a' + (x - 26) as char
    else if x < 62 then '0' + (x - 52) as char
    else if x == 62 then '-' else '_'
  }

  /** Decoding also takes the letters of the standard alphabet for 62 and 63. */
  function SextetOf(c: char): Option<Sextet> {
    if 'A' <= c <= 'Z' then Some(c as int - 'A' as int)
    else if 'a' <= c <= 'z' then Some(c as int - 'a' as int + 26)
    else if '0' <= c <= '9' then Some(c as int - '0' as int + 52)
    else if c == '-' || c == '+' then Some(62)
    else if c == '_' || c == '/' then Some(63)
    else None
  }

  function Top(a: int): Sextet
    requires 0 <= a < 256
  {
    a / 4
  }

  function Upper(a: int, b: int): Sextet
    requires 0 <= a < 256 && 0 <= b < 256
  {
    a % 4 * 16 + b / 16
  }

  function Lower(b: int, c: int): Sextet
    requires 0 <= b < 256 && 0 <= c < 256
  {
    b % 16 * 4 + c / 64
  }

  function Rest(c: int): Sextet
    requires 0 <= c < 256
  {
    c % 64
  }

  function Sextets(bytes: Bytes): (s: seq<Sextet>)
    ensures |s| == |bytes| / 3 * 4 + (if |bytes| % 3 == 0 then 0 else |bytes| % 3 + 1)
  {
    if |bytes| == 0 then []
    else if |bytes| == 1 then [Top(bytes[0]), Upper(bytes[0], 0)]
    else if |bytes| == 2 then [Top(bytes[0]), Upper(bytes[0], bytes[1]), Lower(bytes[1], 0)]
    else [Top(bytes[0]), Upper(bytes[0], bytes[1]), Lower(bytes[1], bytes[2]), Rest(bytes[2])] + Sextets(bytes[3..])
  }

  function First(x: int, y: int): Byte
    requires 0 <= x < 64 && 0 <= y < 64
  {
    x * 4 + y / 16
  }

  function Second(y: int, z: int): Byte
    requires 0 <= y < 64 && 0 <= z < 64
  {
    y % 16 * 16 + z / 4
  }

  function Third(z: int, w: int): Byte
    requires 0 <= z < 64 && 0 <= w < 64
  {
    z % 4 * 64 + w
  }

  /** Left-over bits of an incomplete group are dropped. */
  function FromSextets(s: seq<Sextet>): Bytes
    requires |s| % 4 != 1
  {
    if |s| == 0 then []
    else if |s| == 2 then [First(s[0], s[1])]
    else if |s| == 3 then [First(s[0], s[1]), Second(s[1], s[2])]
    else [First(s[0], s[1]), Second(s[1], s[2]), Third(s[2], s[3])] + FromSextets(s[4..])
  }

  function Letters(s: seq<Sextet>): (text: string)
    ensures |text| == |s| && forall i | 0 <= i < |s| :: text[i] == Letter(s[i])
  {
    seq(|s|, i requires 0 <= i < |s| => Letter(s[i]))
  }

  function Pads(n: nat): (pads: string)
    ensures |pads| == n && forall i | 0 <= i < n :: pads[i] == '='
  {
    seq(n, _ => '=')
  }

  function PadsFor(length: nat): nat {
    (4 - length % 4) % 4
  }

  /** Base64 with its padding. */
  function Base64(bytes: Bytes): string {
    Letters(Sextets(bytes)) + Pads(PadsFor(|Sextets(bytes)|))
  }

  function StripPads(text: string): string {
    if text != "" && text[|text| - 1] == '=' then StripPads(text[..|text| - 1]) else text
  }

  /** The letters of a text whose every letter is one. */
  function ReadLetters(text: string): Option<seq<Sextet>> {
    if text == "" then Some([])
    else match ReadLetters(text[..|text| - 1])
      case None => None
      case Some(front) =>
        match SextetOf(text[|text| - 1])
        case None => None
        case Some(x) => Some(front + [x])
  }

  /** Strict decoding: letters, then exactly the padding their number asks for. */
  function FromBase64(text: string): Option<Bytes> {
    var data := StripPads(text);
    if |data| % 4 == 1 || |text| != |data| + PadsFor(|data|) then None
    else match ReadLetters(data)
      case None => None
      case Some(s) => if |s| % 4 == 1 then None else Some(FromSextets(s))
  }

  /** The position of the first NUL, or the length. */
  function FirstNul(text: Bytes): (n: nat)
    ensures n <= |text| && (n < |text| ==> text[n] == 0) && forall i | 0 <= i < n :: text[i] != 0
  {
    if text == [] || text[0] == 0 then 0 else 1 + FirstNul(text[1..])
  }

  datatype RowKey = RowKey(startedAt: Bytes, entryId: Bytes)

  function EncodeCursor(key: RowKey): string {
    StripPads(Base64(key.startedAt + [0] + key.entryId))
  }

  /** `utf8` says which bytes are text. */
  function DecodeCursor(utf8: Bytes -> bool, cursor: string): Option<RowKey> {
    if cursor == "" then None
    else match FromBase64(cursor + Pads(PadsFor(|cursor|)))
      case None => None
      case Some(text) =>
        var n := FirstNul(text);
        if !utf8(text) || n == |text| || n == 0 || n + 1 == |text| then None
        else Some(RowKey(text[..n], text[n + 1..]))
  }

  // ---- Round trips ----

  lemma LetterReadsBack(x: Sextet)
    ensures SextetOf(Letter(x)) == Some(x) && Letter(x) != '='
  {
  }

  lemma {:induction false} LettersReadBack(s: seq<Sextet>)
    ensures ReadLetters(Letters(s)) == Some(s)
  {
    if s != [] {
      var n := |s| - 1;
      LettersReadBack(s[..n]);
      LetterReadsBack(s[n]);
      assert Letters(s)[..n] == Letters(s[..n]);
      assert s[..n] + [s[n]] == s;
    }
  }

  lemma {:induction false} SextetsReadBack(bytes: Bytes)
    ensures |Sextets(bytes)| % 4 != 1 && FromSextets(Sextets(bytes)) == bytes
  {
    hide Top, Upper, Lower, Rest, First, Second, Third;
    if |bytes| >= 3 {
      SextetsReadBack(bytes[3..]);
      GroupReadsBack(bytes[0], bytes[1], bytes[2]);
      assert Sextets(bytes)[4..] == Sextets(bytes[3..]);
    } else if |bytes| == 2 {
      GroupReadsBack(bytes[0], bytes[1], 0);
    } else if |bytes| == 1 {
      GroupReadsBack(bytes[0], 0, 0);
    }
  }

  lemma GroupReadsBack(a: Byte, b: Byte, c: Byte)
    ensures First(Top(a), Upper(a, b)) == a
    ensures Second(Upper(a, b), Lower(b, c)) == b
    ensures Third(Lower(b, c), Rest(c)) == c
  {
  }

  lemma {:induction false} StripLeaves(data: string, n: nat)
    requires data == "" || data[|data| - 1] != '='
    ensures StripPads(data + Pads(n)) == data
  {
    if n > 0 {
      StripLeaves(data, n - 1);
      assert (data + Pads(n))[..|data| + n - 1] == data + Pads(n - 1);
    } else {
      assert data + Pads(0) == data;
    }
  }

  lemma EncodedLetters(bytes: Bytes)
    ensures StripPads(Base64(bytes)) == Letters(Sextets(bytes))
    ensures FromBase64(Letters(Sextets(bytes)) + Pads(PadsFor(|Letters(Sextets(bytes))|))) == Some(bytes)
  {
    var s := Sextets(bytes);
    if s != [] { LetterReadsBack(s[|s| - 1]); }
    StripLeaves(Letters(s), PadsFor(|s|));
    LettersReadBack(s);
    SextetsReadBack(bytes);
  }

  lemma NulFree(a: Bytes, b: Bytes)
    requires forall i | 0 <= i < |a| :: a[i] != 0
    ensures FirstNul(a + [0] + b) == |a|
  {
    var text := a + [0] + b;
    assert text[|a|] == 0 && forall i | 0 <= i < |a| :: text[i] == a[i];
  }

  ghost predicate CanBeCursor(key: RowKey) {
    key.startedAt != [] && key.entryId != [] && 0 !in key.startedAt
  }

  /** A cursor reads back as the key it was made from exactly when neither part is empty and the first holds no NUL. */
  lemma CursorReadsBack(utf8: Bytes -> bool, key: RowKey)
    requires utf8(key.startedAt + [0] + key.entryId)
    ensures DecodeCursor(utf8, EncodeCursor(key)) == Some(key) <==> CanBeCursor(key)
  {
    var text := key.startedAt + [0] + key.entryId;
    EncodedLetters(text);
    if 0 !in key.startedAt {
      NulFree(key.startedAt, key.entryId);
      assert text[..|key.startedAt|] == key.startedAt && text[|key.startedAt| + 1..] == key.entryId;
    } else {
      var i :| 0 <= i < |key.startedAt| && key.startedAt[i] == 0;
      assert text[i] == 0;
      assert FirstNul(text) <= i;
    }
  }
}
