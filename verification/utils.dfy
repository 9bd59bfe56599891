/** The decimal-string formatter of lib/utils.ts. It works on the text that
    the runtime's number-to-string conversion produced; that conversion is
    not part of this model. */
module Utils {
  import opened Common

  /** `s.split(sep)`: the pieces of `s` between occurrences of `sep`, in
      order; there is always at least one piece. */
  function Split(s: string, sep: char): (parts: seq<string>)
    ensures |parts| >= 1
    ensures forall k :: 0 <= k < |parts| ==> sep !in parts[k]
  {
    if s == [] then [""]
    else
      var rest := Split(s[1..], sep);
      if s[0] == sep then [""] + rest
      else [[s[0]] + rest[0]] + rest[1..]
  }

  /** `parts.join(sep)`. */
  function Join(parts: seq<string>, sep: char): string
    requires |parts| >= 1
  {
    if |parts| == 1 then parts[0] else parts[0] + [sep] + Join(parts[1..], sep)
  }

  /** `s.padEnd(n, c)` for a one-character pad string. */
  function PadEnd(s: string, n: nat, c: char): (r: string)
    ensures |s| >= n ==> r == s
    ensures |s| < n ==> |r| == n && r[..|s|] == s && forall k :: |s| <= k < n ==> r[k] == c
    decreases n - |s|
  {
    if |s| >= n then s else PadEnd(s + [c], n, c)
  }

  /** `formatNumberWithDecimal`: `[int, dec] = text.split('.')`; a non-empty
      `dec` is padded on the right to two characters, otherwise `.00` is
      appended. An empty or missing `dec` are both falsy in JavaScript. */
  function FormatNumberWithDecimal(text: string): (r: string)
  {
    var parts := Split(text, '.');
    var whole := parts[0];
    var dec := if |parts| > 1 then Some(parts[1]) else None;
    if dec.Some? && dec.value != "" then whole + "." + PadEnd(dec.value, 2, '0')
    else whole + ".00"
  }

  /** Joining the pieces of a split gives back the input. */
  lemma {:induction false} JoinSplit(s: string, sep: char)
    ensures Join(Split(s, sep), sep) == s
  {
    if s != [] {
      var rest := Split(s[1..], sep);
      JoinSplit(s[1..], sep);
      if s[0] == sep {
        assert Split(s, sep)[1..] == rest;
      } else {
        var parts := Split(s, sep);
        if |rest| == 1 {
          assert parts == [[s[0]] + rest[0]];
        } else {
          assert parts[1..] == rest[1..];
          assert Join(rest, sep) == rest[0] + [sep] + Join(rest[1..], sep);
        }
      }
    }
  }

  /** Splitting a join of separator-free pieces gives back the pieces. */
  lemma {:induction false} SplitJoin(parts: seq<string>, sep: char)
    requires |parts| >= 1
    requires forall k :: 0 <= k < |parts| ==> sep !in parts[k]
    ensures Split(Join(parts, sep), sep) == parts
  {
    if |parts| == 1 {
      NoSeparator(parts[0], sep);
    } else {
      SplitJoin(parts[1..], sep);
      SplitAfterPrefix(parts[0], sep, Join(parts[1..], sep));
    }
  }

  /** Text without the separator is a single piece. */
  lemma {:induction false} NoSeparator(s: string, sep: char)
    requires sep !in s
    ensures Split(s, sep) == [s]
  {
    if s != [] {
      NoSeparator(s[1..], sep);
      assert [s[0]] + s[1..] == s;
    }
  }

  /** The text before the first separator is the first piece; the rest is
      split on its own. */
  lemma {:induction false} SplitAfterPrefix(a: string, sep: char, b: string)
    requires sep !in a
    ensures Split(a + [sep] + b, sep) == [a] + Split(b, sep)
  {
    if a == [] {
      assert a + [sep] + b == [sep] + b;
      assert ([sep] + b)[1..] == b;
    } else {
      SplitAfterPrefix(a[1..], sep, b);
      assert (a + [sep] + b)[1..] == a[1..] + [sep] + b;
      assert [a[0]] + a[1..] == a;
    }
  }

  /** Input without a point gets `.00` appended. */
  lemma NoFraction(text: string)
    requires '.' !in text
    ensures FormatNumberWithDecimal(text) == text + ".00"
  {
    NoSeparator(text, '.');
  }

  /** A one-character fraction is padded with a zero: "1.5" becomes "1.50". */
  lemma OneDigitFraction(whole: string, d: char)
    requires '.' !in whole && d != '.'
    ensures FormatNumberWithDecimal(whole + "." + [d]) == whole + "." + [d, '0']
  {
    SplitAfterPrefix(whole, '.', [d]);
    NoSeparator([d], '.');
    assert whole + "." + [d] == whole + ['.'] + [d];
  }

  /** A fraction of two or more characters is kept whole, never cut, and
      whatever follows a second point is dropped. */
  lemma LongFraction(whole: string, dec: string, tail: string)
    requires '.' !in whole && '.' !in dec && |dec| >= 2
    ensures FormatNumberWithDecimal(whole + "." + dec) == whole + "." + dec
    ensures FormatNumberWithDecimal(whole + "." + dec + "." + tail) == whole + "." + dec
  {
    SplitAfterPrefix(whole, '.', dec);
    NoSeparator(dec, '.');
    assert whole + "." + dec == whole + ['.'] + dec;
    SplitAfterPrefix(whole, '.', dec + "." + tail);
    SplitAfterPrefix(dec, '.', tail);
    assert whole + "." + dec + "." + tail == whole + ['.'] + (dec + ['.'] + tail);
    assert dec + "." + tail == dec + ['.'] + tail;
  }

  /** The output is the text before the first point, one point, and a
      point-free fraction of at least two characters. */
  lemma {:induction false} Shape(text: string)
    ensures var r := FormatNumberWithDecimal(text);
            var whole := Split(text, '.')[0];
            exists frac :: r == whole + "." + frac && |frac| >= 2 && '.' !in frac && '.' !in whole
  {
    var parts := Split(text, '.');
    var whole := parts[0];
    assert '.' !in parts[0];
    if |parts| > 1 && parts[1] != "" {
      assert '.' !in parts[1];
      var f := PadEnd(parts[1], 2, '0');
      PadEndAvoids(parts[1], 2, '0', '.');
      assert FormatNumberWithDecimal(text) == whole + "." + f;
    } else {
      assert '.' !in "00";
      assert FormatNumberWithDecimal(text) == whole + "." + "00";
    }
  }

  lemma {:induction false} PadEndAvoids(s: string, n: nat, c: char, x: char)
    requires x !in s && x != c
    ensures x !in PadEnd(s, n, c)
    decreases n - |s|
  {
    if |s| < n {
      PadEndAvoids(s + [c], n, c, x);
    }
  }

  /** Formatting an already formatted string changes nothing. */
  lemma Idempotent(text: string)
    ensures FormatNumberWithDecimal(FormatNumberWithDecimal(text)) == FormatNumberWithDecimal(text)
  {
    Shape(text);
    var whole := Split(text, '.')[0];
    var frac :| FormatNumberWithDecimal(text) == whole + "." + frac && |frac| >= 2 && '.' !in frac && '.' !in whole;
    LongFraction(whole, frac, "");
  }
}
