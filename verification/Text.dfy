// Strings as the display code builds them: joining, decimal numerals, and cell widths.
module Text {

  function Join(separator: string, parts: seq<string>): string {
    JoinFirst(separator, parts, |parts|)
  }

  function JoinFirst(separator: string, parts: seq<string>, n: nat): string
    requires n <= |parts|
  {
    if n == 0 then ""
    else if n == 1 then parts[0]
    else JoinFirst(separator, parts, n - 1) + separator + parts[n - 1]
  }

  function Decimal(n: nat): string {
    if n < 10 then ["0123456789"[n]] else Decimal(n / 10) + ["0123456789"[n % 10]]
  }

  /** How a terminal measures a string in cells, and how it crops one to a number of cells. */
  datatype Terminal = Terminal(measure: string -> nat, crop: (string, nat) -> string)

  function Width(t: Terminal, s: string): nat {
    t.measure(s)
  }

  ghost predicate AddsUp(t: Terminal, a: string, b: string) {
    Width(t, a + b) == Width(t, a) + Width(t, b)
  }

  /** What is assumed of a terminal: widths add up, a space takes one cell, and cropping yields exactly the cells asked for. */
  ghost predicate ValidTerminal(t: Terminal) {
    && (forall a, b {:trigger AddsUp(t, a, b)} :: AddsUp(t, a, b))
    && Width(t, " ") == 1
    && forall s, n :: Width(t, t.crop(s, n)) == n
  }

  lemma WidthConcat(t: Terminal, a: string, b: string)
    requires ValidTerminal(t)
    ensures Width(t, a + b) == Width(t, a) + Width(t, b)
  {
    assert AddsUp(t, a, b);
  }

  /** The width of the first n parts, each with a separator after it. */
  function PartsFirst(t: Terminal, separator: string, parts: seq<string>, n: nat): nat
    requires n <= |parts|
  {
    if n == 0 then 0 else PartsFirst(t, separator, parts, n - 1) + Width(t, parts[n - 1]) + Width(t, separator)
  }

  function PartsWidth(t: Terminal, separator: string, parts: seq<string>): nat {
    PartsFirst(t, separator, parts, |parts|)
  }

  lemma {:induction false} JoinFirstWidth(t: Terminal, separator: string, parts: seq<string>, n: nat)
    requires ValidTerminal(t) && 0 < n <= |parts|
    ensures Width(t, JoinFirst(separator, parts, n)) + Width(t, separator) == PartsFirst(t, separator, parts, n)
  {
    if n > 1 {
      var before := JoinFirst(separator, parts, n - 1);
      JoinFirstWidth(t, separator, parts, n - 1);
      WidthConcat(t, before + separator, parts[n - 1]);
      WidthConcat(t, before, separator);
    }
  }

  lemma JoinWidth(t: Terminal, separator: string, parts: seq<string>)
    requires ValidTerminal(t) && parts != []
    ensures Width(t, Join(separator, parts)) + Width(t, separator) == PartsWidth(t, separator, parts)
  {
    JoinFirstWidth(t, separator, parts, |parts|);
  }

  lemma {:induction false} PartsOfPrefix(t: Terminal, separator: string, a: seq<string>, b: seq<string>, n: nat)
    requires n <= |a| && n <= |b| && forall i | 0 <= i < n :: a[i] == b[i]
    ensures PartsFirst(t, separator, a, n) == PartsFirst(t, separator, b, n)
  {
    if n > 0 { PartsOfPrefix(t, separator, a, b, n - 1); }
  }

  lemma {:induction false} PartsConcatFirst(t: Terminal, separator: string, a: seq<string>, b: seq<string>, n: nat)
    requires n <= |b|
    ensures PartsFirst(t, separator, a + b, |a| + n) == PartsWidth(t, separator, a) + PartsFirst(t, separator, b, n)
  {
    if n == 0 {
      PartsOfPrefix(t, separator, a, a + b, |a|);
    } else {
      PartsConcatFirst(t, separator, a, b, n - 1);
      assert (a + b)[|a| + n - 1] == b[n - 1];
    }
  }

  lemma PartsConcat(t: Terminal, separator: string, a: seq<string>, b: seq<string>)
    ensures PartsWidth(t, separator, a + b) == PartsWidth(t, separator, a) + PartsWidth(t, separator, b)
  {
    PartsConcatFirst(t, separator, a, b, |b|);
  }

  lemma PartsOne(t: Terminal, separator: string, part: string)
    ensures PartsWidth(t, separator, [part]) == Width(t, part) + Width(t, separator)
  {
    assert PartsFirst(t, separator, [part], 0) == 0;
  }

  /** Changing one part changes the width by the difference. */
  lemma PartsUpdate(t: Terminal, separator: string, parts: seq<string>, i: nat, part: string)
    requires i < |parts|
    ensures PartsWidth(t, separator, parts[i := part]) + Width(t, parts[i])
         == PartsWidth(t, separator, parts) + Width(t, part)
  {
    PartsUpdateFirst(t, separator, parts, i, part, |parts|);
  }

  lemma {:induction false} PartsUpdateFirst(t: Terminal, separator: string, parts: seq<string>, i: nat, part: string, n: nat)
    requires i < n <= |parts|
    ensures PartsFirst(t, separator, parts[i := part], n) + Width(t, parts[i])
         == PartsFirst(t, separator, parts, n) + Width(t, part)
  {
    if i < n - 1 {
      PartsUpdateFirst(t, separator, parts, i, part, n - 1);
    } else {
      PartsOfPrefix(t, separator, parts, parts[i := part], n - 1);
    }
  }

  /** A prefix and three runs of joined parts. */
  lemma LineOfParts(t: Terminal, prefix: string, separator: string, a: seq<string>, b: seq<string>, c: seq<string>)
    requires ValidTerminal(t) && b != []
    ensures Width(t, prefix + Join(separator, a + b + c)) + Width(t, separator)
         == Width(t, prefix) + PartsWidth(t, separator, a) + PartsWidth(t, separator, b) + PartsWidth(t, separator, c)
  {
    WidthConcat(t, prefix, Join(separator, a + b + c));
    JoinWidth(t, separator, a + b + c);
    PartsConcat(t, separator, a + b, c);
    PartsConcat(t, separator, a, b);
  }
}
