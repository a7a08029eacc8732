// The repetition detector: a sliding buffer and an in-place Knuth-Morris-Pratt
// prefix array, whose last entry gives the buffer's smallest period.
module RepetitionDetection {
  import opened Arithmetic
  import opened Words
  import opened Wrappers

  datatype RepetitionResult = RepetitionResult(pattern: string, repetitions: nat)

  /** The slice [-size:], with its meaning for zero (everything) and negative sizes (drop from the front). */
  function LastChars(s: string, size: int): string {
    if size > 0 then s[Max(0, |s| - size)..] else s[Min(-size, |s|)..]
  }

  /** What `feed` answers about one buffer, in terms of the buffer's smallest period. */
  function Detect(s: string, minLength: int, minRepetitions: int): Option<RepetitionResult> {
    if s == [] then None
    else
      var p := SmallestPeriod(s);
      if p < minLength || |s| % p != 0 || |s| / p < minRepetitions then None
      else Some(RepetitionResult(s[..p], |s| / p))
  }

  /** The question the detector is asked: is the buffer `w` repeated `k` times, with `w` primitive? */
  ghost predicate Repeats(s: string, w: string, k: nat, minLength: int, minRepetitions: int) {
    s == Power(w, k) && Primitive(w) && |w| >= minLength && k >= minRepetitions && s != []
  }

  class RepetitionDetector {
    const minLength: int
    const minRepetitions: int
    const bufferSize: int
    var buffer: string

    constructor (minPatternLength: int := 50, minRepetitions: int := 3, bufferSize: int := 10000)
      ensures this.minLength == minPatternLength && this.minRepetitions == minRepetitions
      ensures this.bufferSize == bufferSize && buffer == ""
    {
      this.minLength := minPatternLength;
      this.minRepetitions := minRepetitions;
      this.bufferSize := bufferSize;
      buffer := "";
    }

    method Feed(text: string) returns (r: Option<RepetitionResult>)
      modifies this`buffer
      ensures buffer == LastChars(old(buffer) + text, bufferSize)
      ensures r == Detect(buffer, minLength, minRepetitions)
    {
      buffer := LastChars(buffer + text, bufferSize);
      var prefix, _ := PrefixArray(buffer);
      if prefix.Length == 0 {
        return None;
      }
      var patternLength := |buffer| - prefix[prefix.Length - 1];
      assert patternLength == SmallestPeriod(buffer) by {
        assert buffer[..|buffer|] == buffer;
      }
      if patternLength < minLength || |buffer| % patternLength != 0 {
        return None;
      }
      var repetitions := |buffer| / patternLength;
      if repetitions >= minRepetitions {
        return Some(RepetitionResult(buffer[..patternLength], repetitions));
      }
      return None;
    }
  }

  /** What entry i of the prefix array must be: the longest proper border of text[..i + 1]. */
  function PrefixEntry(text: string, i: nat): nat
    requires i < |text|
  {
    LongestBorder(text[..i + 1])
  }

  /** `m` borders the text before `i`, and no border of the text through `i` beats m + 1. */
  ghost predicate Candidate(text: string, i: nat, m: nat)
    requires 0 < i < |text|
  {
    m < i && IsBorder(text[..i], m) && BordersAtMost(text[..i + 1], m + 1)
  }

  /** Fills the prefix array in place; `steps` counts fallbacks and advances. */
  method PrefixArray(text: string) returns (prefix: array<nat>, ghost steps: nat)
    ensures fresh(prefix) && prefix.Length == |text|
    ensures forall i | 0 <= i < |text| :: prefix[i] == PrefixEntry(text, i)
    ensures steps <= 2 * |text|
  {
    prefix := new nat[|text|](_ => 0);
    ghost var advances, fallbacks: nat := 0, 0;
    var index := 1;
    while index < |text|
      invariant 1 <= index <= Max(1, |text|)
      invariant forall i | 0 <= i < index && i < |text| :: prefix[i] == PrefixEntry(text, i)
      invariant fallbacks <= advances <= index - 1
      invariant |text| > 0 ==> fallbacks + prefix[index - 1] <= advances
    {
      var matched: nat := prefix[index - 1];
      CandidateStarts(text, index);
      while matched > 0 && text[index] != text[matched]
        invariant forall i | 0 <= i < index :: prefix[i] == PrefixEntry(text, i)
        invariant Candidate(text, index, matched)
        invariant fallbacks + matched <= advances
        decreases matched
      {
        CandidateFallsBack(text, index, matched);
        matched := prefix[matched - 1];
        fallbacks := fallbacks + 1;
      }
      CandidateSettles(text, index, matched);
      if text[index] == text[matched] {
        matched := matched + 1;
        advances := advances + 1;
      }
      prefix[index] := matched;
      index := index + 1;
    }
    steps := advances + fallbacks;
  }

  /** A border of one more character is a border one shorter whose next character matches. */
  lemma BorderExtends(text: string, i: nat, c: nat)
    requires 0 < i < |text| && c > 0
    ensures IsBorder(text[..i + 1], c) <==> c <= i && IsBorder(text[..i], c - 1) && text[c - 1] == text[i]
  {
    if c <= i {
      var s, t := text[..i + 1], text[..i];
      assert s[..c] == t[..c - 1] + [text[c - 1]];
      assert s[i + 1 - c..] == t[i - (c - 1)..] + [text[i]];
      if IsBorder(s, c) {
        assert t[..c - 1] == s[..c][..c - 1] == s[i + 1 - c..][..c - 1] == t[i - (c - 1)..];
        assert s[..c][c - 1] == s[i + 1 - c..][c - 1];
      }
    }
  }

  lemma CandidateStarts(text: string, i: nat)
    requires 0 < i < |text|
    ensures Candidate(text, i, PrefixEntry(text, i - 1))
  {
    var s := text[..i + 1];
    forall c: nat | IsBorder(s, c) ensures c <= PrefixEntry(text, i - 1) + 1 {
      if c > 0 { BorderExtends(text, i, c); }
    }
  }

  lemma CandidateSettles(text: string, i: nat, m: nat)
    requires 0 < i < |text| && Candidate(text, i, m)
    ensures text[i] == text[m] ==> PrefixEntry(text, i) == m + 1
    ensures text[i] != text[m] && m == 0 ==> PrefixEntry(text, i) == 0
  {
    var s := text[..i + 1];
    BorderExtends(text, i, m + 1);
    if text[i] == text[m] {
      LongestBorderIs(s, m + 1);
    }
  }

  /** The borders shorter than a border `m` are exactly the borders of the first `m` characters. */
  lemma BorderNests(text: string, i: nat, m: nat, c: nat)
    requires i <= |text| && IsBorder(text[..i], m) && c < m
    ensures IsBorder(text[..i], c) <==> IsBorder(text[..m], c)
  {
    var s := text[..i];
    assert s[..m] == text[..m];
    assert s[i - c..] == s[i - m..][m - c..];
    assert s[..c] == text[..m][..c];
  }

  lemma CandidateFallsBack(text: string, i: nat, m: nat)
    requires 0 < i < |text| && Candidate(text, i, m) && m > 0 && text[i] != text[m]
    ensures Candidate(text, i, PrefixEntry(text, m - 1)) && PrefixEntry(text, m - 1) < m
  {
    var next := PrefixEntry(text, m - 1);
    assert next == LongestBorder(text[..m]);
    BorderNests(text, i, m, next);
    var s := text[..i + 1];
    forall c: nat | IsBorder(s, c) ensures c <= next + 1 {
      if c > 0 {
        BorderExtends(text, i, c);
        assert c <= m;
        BorderNests(text, i, m, c - 1);
      }
    }
  }

  // ---- What the answer means ----

  /** A reported pattern is the buffer's primitive root, and it meets both thresholds. */
  lemma DetectIsSound(s: string, minLength: int, minRepetitions: int)
    ensures var r := Detect(s, minLength, minRepetitions);
      r.Some? ==> Repeats(s, r.value.pattern, r.value.repetitions, minLength, minRepetitions)
  {
    if s != [] && |s| % SmallestPeriod(s) == 0 {
      FirstBlockIsPrimitive(s);
    }
  }

  /** With at least two repetitions asked for, every repetition is reported, exactly as it is. */
  lemma DetectIsComplete(s: string, w: string, k: nat, minLength: int, minRepetitions: int)
    requires minRepetitions >= 2 && Repeats(s, w, k, minLength, minRepetitions)
    ensures Detect(s, minLength, minRepetitions) == Some(RepetitionResult(w, k))
  {
    RootLength(s, w, k);
  }

  /** Every non-empty word has exactly one primitive root and exponent. */
  lemma RootIsUnique(s: string, w: string, k: nat)
    requires s != [] && s == Power(w, k) && Primitive(w)
    ensures var p := SmallestPeriod(s);
      if |s| % p == 0 then w == s[..p] && k == |s| / p else w == s && k == 1
  {
    EmptyPower(k);
    if k >= 2 {
      RootLength(s, w, k);
    } else {
      PowerOne(w);
      var p := SmallestPeriod(s);
      if |s| % p == 0 {
        FirstBlockIsPrimitive(s);
        assert s == Power(s[..p], |s| / p);
        assert |s| / p == 1;
        PowerOne(s[..p]);
      }
    }
  }

  /**
   * For every setting: the answer is right exactly when the one case the code overlooks does not
   * arise. It overlooks a buffer that is its own primitive root (one repetition), when one
   * repetition is enough and the smallest period does not divide the length.
   */
  lemma DetectIsExact(s: string, minLength: int, minRepetitions: int)
    ensures (forall w, k: nat | Repeats(s, w, k, minLength, minRepetitions) ::
               Detect(s, minLength, minRepetitions) == Some(RepetitionResult(w, k)))
       <==> (s == [] || minRepetitions >= 2 || |s| < minLength || |s| % SmallestPeriod(s) == 0)
  {
    if s == [] || minRepetitions >= 2 || |s| < minLength || |s| % SmallestPeriod(s) == 0 {
      forall w, k: nat | Repeats(s, w, k, minLength, minRepetitions)
        ensures Detect(s, minLength, minRepetitions) == Some(RepetitionResult(w, k))
      {
        RootIsUnique(s, w, k);
      }
    } else {
      IndivisibleIsPrimitive(s);
      PowerOne(s);
      assert Repeats(s, s, 1, minLength, minRepetitions);
    }
  }

  /** The overlooked case on a concrete buffer: "aba" is one repetition of itself, and is not reported. */
  lemma SingleRepetitionOverlooked()
    ensures Repeats("aba", "aba", 1, 1, 1) && Detect("aba", 1, 1) == None
  {
    var s := "aba";
    assert !IsBorder(s, 2) by { assert s[..2][0] != s[1..][0]; }
    assert IsBorder(s, 1) by { assert s[..1] == s[2..]; }
    assert SmallestPeriod(s) == 2;
    IndivisibleIsPrimitive(s);
    PowerOne(s);
  }

  // ---- The sliding buffer over whole runs ----

  /** The buffer after feeding the chunks in order. */
  function BufferAfter(start: string, chunks: seq<string>, size: int): string
    decreases |chunks|
  {
    if chunks == [] then start else BufferAfter(LastChars(start + chunks[0], size), chunks[1..], size)
  }

  function Joined(chunks: seq<string>): string {
    if chunks == [] then "" else chunks[0] + Joined(chunks[1..])
  }

  ghost predicate IsTrimmed(s: string, size: int) { s == LastChars(s, size) }

  /** However the text is cut into chunks, the buffer ends as the last `size` characters of all of it. */
  lemma {:induction false} ChunkingDoesNotMatter(start: string, chunks: seq<string>, size: int)
    requires size >= 0 && IsTrimmed(start, size)
    ensures BufferAfter(start, chunks, size) == LastChars(start + Joined(chunks), size)
    decreases |chunks|
  {
    if chunks == [] {
      assert start + "" == start;
      assert Joined(chunks) == "";
    } else {
      var next := LastChars(start + chunks[0], size);
      OneChunk(start, chunks[0], Joined(chunks[1..]), size);
      ChunkingDoesNotMatter(next, chunks[1..], size);
    }
  }

  lemma OneChunk(start: string, chunk: string, rest: string, size: int)
    requires size >= 0
    ensures IsTrimmed(LastChars(start + chunk, size), size)
    ensures LastChars(LastChars(start + chunk, size) + rest, size) == LastChars(start + (chunk + rest), size)
  {
    TrimEarlyOrLate(start + chunk, rest, size);
    assert (start + chunk) + rest == start + (chunk + rest);
  }

  lemma TrimEarlyOrLate(a: string, b: string, size: int)
    requires size >= 0
    ensures LastChars(LastChars(a, size) + b, size) == LastChars(a + b, size)
  {
  }

  /** Trimming early never matters exactly when the buffer size is not negative. */
  lemma TrimmingIsStable(size: int)
    ensures (forall a, b: string :: LastChars(LastChars(a, size) + b, size) == LastChars(a + b, size)) <==> size >= 0
  {
    if size >= 0 {
      forall a, b: string ensures LastChars(LastChars(a, size) + b, size) == LastChars(a + b, size) {
        TrimEarlyOrLate(a, b, size);
      }
    } else {
      var a: string := seq(-2 * size, _ => 'x');
      assert a + "" == a && LastChars(a, size) + "" == LastChars(a, size);
      assert |LastChars(a, size)| == -size;
      assert |LastChars(LastChars(a, size), size)| == 0;
    }
  }
}
