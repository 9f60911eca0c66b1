/**
 * String operations used on both sides of the wire: the separator-splitting of
 * JavaScript's `String.prototype.split` and Python's `str.split`, Python's
 * `str.rsplit(sep, 1)`, lower-casing and Python's `str.strip()`.
 */
module Text {
  import opened Wrappers

  /** `s.startsWith(prefix)`. */
  predicate StartsWith(s: string, prefix: string) {
    |prefix| <= |s| && s[..|prefix|] == prefix
  }

  /** Lower-casing of one character (ASCII letters only). */
  function LowerChar(c: char): char {
    if 'A' <= c <= 'Z' then (c as int + 32) as char else c
  }

  /** `s.toLowerCase()` / `s.lower()`, restricted to ASCII letters. */
  function Lower(s: string): (r: string)
    ensures |r| == |s|
    ensures forall i :: 0 <= i < |s| ==> r[i] == LowerChar(s[i])
  {
    seq(|s|, i requires 0 <= i < |s| => LowerChar(s[i]))
  }

  /** The index of the last occurrence of `c` in `s`. */
  function LastIndexOf(s: string, c: char): (r: Option<nat>)
    ensures r.None? <==> c !in s
    ensures r.Some? ==> r.value < |s| && s[r.value] == c && c !in s[r.value + 1..]
  {
    if |s| == 0 then None
    else if s[|s| - 1] == c then Some(|s| - 1)
    else
      assert s == s[..|s| - 1] + [s[|s| - 1]];
      LastIndexOf(s[..|s| - 1], c)
  }

  /**
   * Splitting on a one-character separator, as both `s.split(sep)` in
   * JavaScript and `s.split(sep)` in Python do it: every occurrence of `sep`
   * ends a part, so there is always one part more than there are separators.
   */
  function Split(s: string, sep: char): (parts: seq<string>)
    ensures |parts| >= 1
    ensures forall i :: 0 <= i < |parts| ==> sep !in parts[i]
    ensures |parts| == 1 <==> sep !in s
    ensures |parts| == 1 ==> parts[0] == s
  {
    if |s| == 0 then [""]
    else
      var rest := Split(s[1..], sep);
      assert s == [s[0]] + s[1..];
      if s[0] == sep then [""] + rest else [[s[0]] + rest[0]] + rest[1..]
  }

  /** The parts glued back together with the separator between them. */
  function Join(parts: seq<string>, sep: char): string
    requires |parts| >= 1
  {
    if |parts| == 1 then parts[0] else parts[0] + [sep] + Join(parts[1..], sep)
  }

  /** Splitting loses nothing: joining the parts gives back the string. */
  lemma {:induction false} JoinSplit(s: string, sep: char)
    ensures Join(Split(s, sep), sep) == s
  {
    if |s| > 0 {
      var rest := Split(s[1..], sep);
      JoinSplit(s[1..], sep);
      if s[0] == sep {
        assert Split(s, sep)[1..] == rest;
      } else if |rest| > 1 {
        var parts := Split(s, sep);
        assert parts[1..] == rest[1..];
        assert rest == [rest[0]] + rest[1..];
        assert Join(rest, sep) == rest[0] + [sep] + Join(rest[1..], sep);
      }
    }
  }

  /** JavaScript `s.split(sep).pop()`: the last part. */
  function LastPart(s: string, sep: char): string {
    var parts := Split(s, sep);
    parts[|parts| - 1]
  }

  /** `s.split(sep)[0]`: the first part. */
  function FirstPart(s: string, sep: char): (r: string)
    ensures sep !in r
    ensures sep !in s ==> r == s
  {
    Split(s, sep)[0]
  }

  /**
   * Python `s.rsplit(sep, 1)`: the text before and after the last separator,
   * or `[s]` when there is none.
   */
  function RSplitOnce(s: string, sep: char): (parts: seq<string>)
    ensures |parts| == 2 <==> sep in s
    ensures |parts| == 1 <==> sep !in s
  {
    match LastIndexOf(s, sep)
    case None => [s]
    case Some(i) => [s[..i], s[i + 1..]]
  }

  /**
   * The last part is the separator-free tail of `s`: either all of `s`, or
   * what follows some occurrence of the separator.
   */
  lemma {:induction false} LastPartIsTail(s: string, sep: char)
    ensures |LastPart(s, sep)| <= |s|
    ensures LastPart(s, sep) == s[|s| - |LastPart(s, sep)|..]
    ensures sep !in LastPart(s, sep)
    ensures |LastPart(s, sep)| < |s| ==> s[|s| - |LastPart(s, sep)| - 1] == sep
  {
    if |s| > 0 {
      var rest := Split(s[1..], sep);
      LastPartIsTail(s[1..], sep);
      var t := LastPart(s, sep);
      if s[0] == sep {
        assert t == LastPart(s[1..], sep);
      } else if |rest| == 1 {
        assert t == s;
      } else {
        assert t == LastPart(s[1..], sep);
      }
    }
  }

  /**
   * JavaScript's `split(sep).pop()` and Python's `rsplit(sep, 1)[1]` take the
   * same tail whenever the separator occurs; without it JavaScript keeps the
   * whole string and Python has no second part.
   */
  lemma LastPartAgreesWithRSplit(s: string, sep: char)
    ensures sep in s ==> RSplitOnce(s, sep)[1] == LastPart(s, sep)
    ensures sep !in s ==> LastPart(s, sep) == s && |RSplitOnce(s, sep)| == 1
  {
    LastPartIsTail(s, sep);
  }

  /** The first part is the separator-free head of `s`, followed by the separator when shorter. */
  lemma {:induction false} FirstPartIsHead(s: string, sep: char)
    ensures |FirstPart(s, sep)| <= |s|
    ensures FirstPart(s, sep) == s[..|FirstPart(s, sep)|]
    ensures sep !in FirstPart(s, sep)
    ensures |FirstPart(s, sep)| < |s| ==> s[|FirstPart(s, sep)|] == sep
  {
    if |s| > 0 {
      FirstPartIsHead(s[1..], sep);
    }
  }

  /** Whatever follows the first separator does not affect the first part. */
  lemma {:induction false} FirstPartOfPrefix(a: string, sep: char, rest: string)
    requires sep !in a
    ensures FirstPart(a + [sep] + rest, sep) == a
  {
    if |a| > 0 {
      assert (a + [sep] + rest)[1..] == a[1..] + [sep] + rest;
      FirstPartOfPrefix(a[1..], sep, rest);
    } else {
      assert a + [sep] + rest == [sep] + rest;
    }
  }

  /**
   * Whitespace as `str.strip()` removes it: the characters `str.isspace()`
   * accepts, ASCII controls 9-13 and 28-31, the space, and the Unicode
   * separators.
   */
  predicate IsSpace(c: char) {
    || c == ' ' || '\t' <= c <= '\r' || '\U{001C}' <= c <= '\U{001F}'
    || c == '\U{0085}' || c == '\U{00A0}' || c == '\U{1680}' || '\U{2000}' <= c <= '\U{200A}'
    || c == '\U{2028}' || c == '\U{2029}' || c == '\U{202F}' || c == '\U{205F}' || c == '\U{3000}'
  }

  /** `s` without its leading whitespace. */
  function TrimStart(s: string): (r: string)
    ensures |r| <= |s| && r == s[|s| - |r|..]
    ensures forall k :: 0 <= k < |s| - |r| ==> IsSpace(s[k])
    ensures r != [] ==> !IsSpace(r[0])
  {
    if |s| > 0 && IsSpace(s[0]) then TrimStart(s[1..]) else s
  }

  /** `s` without its trailing whitespace. */
  function TrimEnd(s: string): (r: string)
    ensures |r| <= |s| && r == s[..|r|]
    ensures forall k :: |r| <= k < |s| ==> IsSpace(s[k])
    ensures r != [] ==> !IsSpace(r[|r| - 1])
  {
    if |s| > 0 && IsSpace(s[|s| - 1]) then TrimEnd(s[..|s| - 1]) else s
  }

  /** `r` sits at offset `i` of `s` with only whitespace before and after it. */
  predicate PaddedAt(s: string, i: int, r: string) {
    && 0 <= i <= |s| - |r| && r == s[i..i + |r|]
    && (forall k :: 0 <= k < i ==> IsSpace(s[k]))
    && (forall k :: i + |r| <= k < |s| ==> IsSpace(s[k]))
  }

  /** Python `s.strip()`: whitespace removed from both ends, nothing from the middle. */
  function Strip(s: string): (r: string)
    ensures |r| <= |s|
    ensures r != [] ==> !IsSpace(r[0]) && !IsSpace(r[|r| - 1])
    ensures exists i :: PaddedAt(s, i, r)
  {
    var t := TrimStart(s);
    var r := TrimEnd(t);
    var i := |s| - |t|;
    assert PaddedAt(s, i, r);
    r
  }

  /** Leading whitespace in front of text that starts with a non-space is all `TrimStart` removes. */
  lemma {:induction false} TrimStartPadded(pad: string, t: string)
    requires forall k :: 0 <= k < |pad| ==> IsSpace(pad[k])
    requires t != [] ==> !IsSpace(t[0])
    ensures TrimStart(pad + t) == t
  {
    if |pad| > 0 {
      assert (pad + t)[1..] == pad[1..] + t;
      TrimStartPadded(pad[1..], t);
    } else {
      assert pad + t == t;
    }
  }

  /** Trailing whitespace after text that ends with a non-space is all `TrimEnd` removes. */
  lemma {:induction false} TrimEndPadded(t: string, pad: string)
    requires forall k :: 0 <= k < |pad| ==> IsSpace(pad[k])
    requires t != [] ==> !IsSpace(t[|t| - 1])
    ensures TrimEnd(t + pad) == t
  {
    if |pad| > 0 {
      assert (t + pad)[..|t + pad| - 1] == t + pad[..|pad| - 1];
      TrimEndPadded(t, pad[..|pad| - 1]);
    } else {
      assert t + pad == t;
    }
  }

  /** `strip` gives back exactly the core of any text padded with whitespace on either side. */
  lemma StripPadded(pad1: string, core: string, pad2: string)
    requires forall k :: 0 <= k < |pad1| ==> IsSpace(pad1[k])
    requires forall k :: 0 <= k < |pad2| ==> IsSpace(pad2[k])
    requires core != [] ==> !IsSpace(core[0]) && !IsSpace(core[|core| - 1])
    ensures Strip(pad1 + core + pad2) == core
  {
    if core == [] {
      assert pad1 + core + pad2 == (pad1 + pad2) + [];
      TrimStartPadded(pad1 + pad2, []);
    } else {
      assert pad1 + core + pad2 == pad1 + (core + pad2);
      TrimStartPadded(pad1, core + pad2);
      TrimEndPadded(core, pad2);
    }
  }
}
