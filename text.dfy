/** String helpers with JavaScript's meaning: `split`, `join`, `includes`,
    `startsWith`/`endsWith`, `toLowerCase` and number-to-string. */
module Text {

  /** `s.split(sep)` for a one-character separator: the text between separators,
      always at least one part (`"".split("/")` is `[""]`). */
  function Split(s: string, sep: char): (parts: seq<string>)
    ensures |parts| >= 1
    decreases |s|
  {
    if |s| == 0 then [""]
    else
      var rest := Split(s[1..], sep);
      if s[0] == sep then [""] + rest
      else [[s[0]] + rest[0]] + rest[1..]
  }

  /** No part of a split holds the separator. */
  lemma {:induction false} SplitPartsLackSep(s: string, sep: char)
    ensures forall k :: 0 <= k < |Split(s, sep)| ==> sep !in Split(s, sep)[k]
    decreases |s|
  {
    if |s| > 0 {
      SplitPartsLackSep(s[1..], sep);
      var rest := Split(s[1..], sep);
      if s[0] != sep {
        assert sep !in [s[0]] + rest[0];
      }
    }
  }

  /** `parts.join(sep)`; the empty list joins to `""`. */
  function Join(parts: seq<string>, sep: char): string
  {
    if |parts| == 0 then ""
    else if |parts| == 1 then parts[0]
    else parts[0] + [sep] + Join(parts[1..], sep)
  }

  /** Prefixing the first part prefixes the joined text. */
  lemma JoinPrefixFirst(a: string, parts: seq<string>, sep: char)
    requires |parts| >= 1
    ensures Join([a + parts[0]] + parts[1..], sep) == a + Join(parts, sep)
  {
    var q := [a + parts[0]] + parts[1..];
    if |parts| > 1 {
      assert q[1..] == parts[1..];
    }
  }

  /** Appending a piece adds one separator and the piece. */
  lemma {:induction false} JoinSnoc(parts: seq<string>, p: string, sep: char)
    requires |parts| >= 1
    ensures Join(parts + [p], sep) == Join(parts, sep) + [sep] + p
  {
    if |parts| > 1 {
      JoinSnoc(parts[1..], p, sep);
      assert (parts + [p])[1..] == parts[1..] + [p];
    }
  }

  /** Joining the parts of a split gives back the original text. */
  lemma {:induction false} JoinSplit(s: string, sep: char)
    ensures Join(Split(s, sep), sep) == s
    decreases |s|
  {
    if |s| > 0 {
      var rest := Split(s[1..], sep);
      JoinSplit(s[1..], sep);
      if s[0] == sep {
        assert ([""] + rest)[1..] == rest;
        assert [s[0]] + s[1..] == s;
      } else {
        JoinPrefixFirst([s[0]], rest, sep);
        assert [s[0]] + s[1..] == s;
      }
    }
  }

  /** A text without the separator splits into itself alone. */
  lemma {:induction false} SplitWithoutSep(s: string, sep: char)
    requires sep !in s
    ensures Split(s, sep) == [s]
    decreases |s|
  {
    if |s| > 0 {
      SplitWithoutSep(s[1..], sep);
      assert [s[0]] + s[1..] == s;
    }
  }

  /** Splitting at a separator splits the two sides independently. */
  lemma {:induction false} SplitConcat(a: string, b: string, sep: char)
    ensures Split(a + [sep] + b, sep) == Split(a, sep) + Split(b, sep)
    decreases |a|
  {
    if |a| == 0 {
      assert a + [sep] + b == [sep] + b;
      SplitConsSep(b, sep);
    } else {
      var t := a[1..];
      assert a + [sep] + b == [a[0]] + (t + [sep] + b);
      assert a == [a[0]] + t;
      SplitConcat(t, b, sep);
      SplitConcatStep(a[0], t, b, sep);
    }
  }

  /** One character in front of both sides keeps a split concatenation a concatenation. */
  lemma SplitConcatStep(c: char, t: string, b: string, sep: char)
    requires Split(t + [sep] + b, sep) == Split(t, sep) + Split(b, sep)
    ensures Split([c] + (t + [sep] + b), sep) == Split([c] + t, sep) + Split(b, sep)
  {
    var u := t + [sep] + b;
    var ra := Split(t, sep);
    var sb := Split(b, sep);
    if c == sep {
      SplitConsSep(u, sep);
      SplitConsSep(t, sep);
      ConsAppend("", ra, sb);
    } else {
      SplitConsOther(c, u, sep);
      SplitConsOther(c, t, sep);
      var first := [c] + ra[0];
      HeadTailAppend(ra, sb);
      ConsAppend(first, ra[1..], sb);
    }
  }

  /** Appending to a non-empty sequence keeps its head and extends its tail. */
  lemma HeadTailAppend<T>(r: seq<T>, s: seq<T>)
    requires |r| >= 1
    ensures (r + s)[0] == r[0] && (r + s)[1..] == r[1..] + s
  {
  }

  /** Moving a separator's following piece into the next part of a concatenation. */
  lemma Regroup<T>(x: seq<T>, sep: T, p: seq<T>, q: seq<T>)
    ensures x + ([sep] + p) + q == x + [sep] + (p + q)
  {
  }

  /** Appending a separator and a piece to a text that follows a header. */
  lemma AppendAfter<T>(header: seq<T>, body: seq<T>, sep: T, piece: seq<T>)
    ensures header + (body + [sep] + piece) == (header + body) + [sep] + piece
  {
  }

  /** Concatenation is associative for a one-element front. */
  lemma ConsAppend<T>(x: T, ys: seq<T>, zs: seq<T>)
    ensures [x] + (ys + zs) == ([x] + ys) + zs
  {
  }

  /** A leading separator opens an empty first part. */
  lemma SplitConsSep(t: string, sep: char)
    ensures Split([sep] + t, sep) == [""] + Split(t, sep)
  {
    assert ([sep] + t)[1..] == t;
  }

  /** Any other leading character joins the first part of the rest. */
  lemma SplitConsOther(c: char, t: string, sep: char)
    requires c != sep
    ensures Split([c] + t, sep) == [[c] + Split(t, sep)[0]] + Split(t, sep)[1..]
  {
    assert ([c] + t)[1..] == t;
  }

  /** Appending a separator and a piece without separators adds that piece as the last part. */
  lemma SplitSnoc(s: string, piece: string, sep: char)
    requires sep !in piece
    ensures Split(s + [sep] + piece, sep) == Split(s, sep) + [piece]
  {
    SplitConcat(s, piece, sep);
    SplitWithoutSep(piece, sep);
  }

  /** The position of the last `sep` in `s`, or -1 when there is none. No handler calls such a
      function; it names the place where `cd ..` cuts the path, in the statement of what
      `split`, `pop` and `join` compute there. */
  function LastIndex(s: string, sep: char): (i: int)
    ensures -1 <= i < |s|
    ensures i >= 0 ==> s[i] == sep
    ensures forall j :: i < j < |s| ==> s[j] != sep
    ensures i == -1 <==> sep !in s
  {
    if |s| == 0 then -1
    else if s[|s| - 1] == sep then |s| - 1
    else LastIndex(s[..|s| - 1], sep)
  }

  /** `s.includes(w)`: `w` occurs in `s` as a contiguous piece; the empty word occurs everywhere. */
  predicate Contains(s: string, w: string)
    decreases |s|
  {
    |w| <= |s| && (s[..|w|] == w || Contains(s[1..], w))
  }

  /** `Contains` agrees with the positional definition of a substring. */
  lemma {:induction false} ContainsAt(s: string, w: string, i: nat)
    requires i + |w| <= |s| && s[i..i + |w|] == w
    ensures Contains(s, w)
    decreases i
  {
    if i > 0 {
      assert s[1..][i - 1..i - 1 + |w|] == s[i..i + |w|];
      ContainsAt(s[1..], w, i - 1);
    }
  }

  /** A piece of a piece of `s` is a piece of `s`. */
  lemma {:induction false} ContainsInPrefix(s: string, w: string, n: nat)
    requires n <= |s| && Contains(s[..n], w)
    ensures Contains(s, w)
    decreases n
  {
    if s[..n][..|w|] == w {
      ContainsAt(s, w, 0);
    } else {
      assert s[..n][1..] == s[1..][..n - 1];
      ContainsInPrefix(s[1..], w, n - 1);
    }
  }

  /** JavaScript `s.substring(start, end)`: both bounds are clamped to the text, and a start
      beyond the end swaps the two. */
  function Substring(s: string, start: int, end: int): (r: string)
    ensures 0 <= start <= end <= |s| ==> r == s[start..end]
    ensures 0 <= end <= start <= |s| ==> r == s[end..start]
  {
    var a := if start < 0 then 0 else if start > |s| then |s| else start;
    var b := if end < 0 then 0 else if end > |s| then |s| else end;
    if a <= b then s[a..b] else s[b..a]
  }

  predicate StartsWith(s: string, p: string)
  {
    |p| <= |s| && s[..|p|] == p
  }

  predicate EndsWith(s: string, p: string)
  {
    |p| <= |s| && s[|s| - |p|..] == p
  }

  /** `toLowerCase` on ASCII letters; every other character is left as it is. */
  function LowerChar(c: char): char
  {
    if 'A' <= c <= 'Z' then (c as int + 32) as char else c
  }

  function ToLower(s: string): (r: string)
    ensures |r| == |s|
    ensures forall k :: 0 <= k < |s| ==> r[k] == LowerChar(s[k])
  {
    seq(|s|, k requires 0 <= k < |s| => LowerChar(s[k]))
  }

  lemma ToLowerConcat(a: string, b: string)
    ensures ToLower(a + b) == ToLower(a) + ToLower(b)
  {
  }

  /** `c.repeat(n)`. */
  function Repeat(c: char, n: nat): (r: string)
    ensures |r| == n
    ensures forall k :: 0 <= k < n ==> r[k] == c
  {
    if n == 0 then "" else [c] + Repeat(c, n - 1)
  }

  function DigitChar(d: nat): char
    requires d < 10
  {
    ('0' as int + d) as char
  }

  /** Decimal text of a natural number, without leading zeros. */
  function NatToString(n: nat): (r: string)
    ensures |r| >= 1
    ensures forall k :: 0 <= k < |r| ==> '0' <= r[k] <= '9'
  {
    if n < 10 then [DigitChar(n)] else NatToString(n / 10) + [DigitChar(n % 10)]
  }

  /** The decimal value of a digit string. */
  function DigitsValue(s: string): nat
    requires forall k :: 0 <= k < |s| ==> '0' <= s[k] <= '9'
  {
    if |s| == 0 then 0 else 10 * DigitsValue(s[..|s| - 1]) + (s[|s| - 1] as int - '0' as int)
  }

  /** Reading the digits back gives the number: the text is a faithful rendering. */
  lemma {:induction false} NatToStringValue(n: nat)
    ensures DigitsValue(NatToString(n)) == n
  {
    if n >= 10 {
      NatToStringValue(n / 10);
      var s := NatToString(n);
      assert s[..|s| - 1] == NatToString(n / 10);
    }
  }

  /** `${n}` for an integer: an optional minus sign, then the digits. */
  function IntToString(n: int): (r: string)
    ensures n >= 0 ==> r == NatToString(n)
    ensures n < 0 ==> r == "-" + NatToString(-n)
  {
    if n < 0 then "-" + NatToString(-n) else NatToString(n)
  }
}
