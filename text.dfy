/** The string operations of Python that the checker relies on:
    `str.strip()`, `str.replace(old, new)`, `sep.join(parts)` and `str(int)`. */
module Text {

  // ---------------------------------------------------------------- strip

  /** The characters for which Python's `str.isspace()` holds, which are the
      ones `str.strip()` removes when it is given no argument. */
  predicate IsSpace(c: char)
  {
    c == ' ' || ('\t' <= c <= '\r') || ('\U{1c}' <= c <= '\U{1f}') ||
    c == '\U{85}' || c == '\U{a0}' || c == '\U{1680}' ||
    ('\U{2000}' <= c <= '\U{200a}') || c == '\U{2028}' || c == '\U{2029}' ||
    c == '\U{202f}' || c == '\U{205f}' || c == '\U{3000}'
  }

  predicate AllSpace(s: string)
  {
    forall k :: 0 <= k < |s| ==> IsSpace(s[k])
  }

  /** Neither end of `s` is whitespace. */
  predicate Trimmed(s: string)
  {
    s == [] || (!IsSpace(s[0]) && !IsSpace(s[|s| - 1]))
  }

  /** Length of the longest whitespace prefix of `s`. */
  function LeadingSpaces(s: string): (n: nat)
    ensures n <= |s|
    ensures forall k :: 0 <= k < n ==> IsSpace(s[k])
    ensures n < |s| ==> !IsSpace(s[n])
  {
    if s == [] || !IsSpace(s[0]) then 0 else 1 + LeadingSpaces(s[1..])
  }

  /** Length of the longest whitespace suffix of `s`. */
  function TrailingSpaces(s: string): (n: nat)
    ensures n <= |s|
    ensures forall k :: |s| - n <= k < |s| ==> IsSpace(s[k])
    ensures n < |s| ==> !IsSpace(s[|s| - 1 - n])
  {
    if s == [] || !IsSpace(s[|s| - 1]) then 0 else 1 + TrailingSpaces(s[..|s| - 1])
  }

  /** Python's `s.strip()`. */
  function Strip(s: string): (r: string)
    ensures |r| <= |s|
    ensures Trimmed(r)
    ensures r == [] <==> AllSpace(s)
  {
    var i := LeadingSpaces(s);
    if i == |s| then []
    else s[i..|s| - TrailingSpaces(s)]
  }

  /** Stripping removes a whitespace prefix and a whitespace suffix and
      nothing else: the result is the one trimmed string that `s` is made
      of, once whitespace is put around it. */
  lemma StripUnique(pre: string, core: string, post: string)
    requires AllSpace(pre) && AllSpace(post) && Trimmed(core)
    ensures Strip(pre + core + post) == core
  {
    var s := pre + core + post;
    if core == [] {
      assert s == pre + post;
      assert AllSpace(s) by {
        forall k | 0 <= k < |s| ensures IsSpace(s[k]) {
          if k < |pre| { assert s[k] == pre[k]; } else { assert s[k] == post[k - |pre|]; }
        }
      }
    } else {
      assert s[|pre|] == core[0];
      assert forall k :: 0 <= k < |pre| ==> s[k] == pre[k];
      assert LeadingSpaces(s) == |pre|;
      assert s[|pre| + |core| - 1] == core[|core| - 1];
      assert forall k :: |pre| + |core| <= k < |s| ==> s[k] == post[k - |pre| - |core|];
      assert TrailingSpaces(s) == |post|;
      assert s[|pre|..|s| - |post|] == core;
    }
  }

  /** Stripping twice is stripping once. */
  lemma StripIdempotent(s: string)
    ensures Strip(Strip(s)) == Strip(s)
  {
    StripUnique([], Strip(s), []);
    assert [] + Strip(s) + [] == Strip(s);
  }

  // ---------------------------------------------------------------- replace

  /** Python's `s.replace(pat, rep)`: every occurrence of `pat`, found from
      left to right without overlap, is replaced by `rep`; an empty `pat`
      matches before every character and at the end. */
  function Replace(s: string, pat: string, rep: string): (r: string)
    ensures pat != [] && |rep| <= |pat| ==> |r| <= |s|
    ensures pat != [] && |rep| >= |pat| ==> |r| >= |s|
    decreases |s|
  {
    if pat == [] then
      if s == [] then rep else rep + [s[0]] + Replace(s[1..], pat, rep)
    else if |s| < |pat| then s
    else if s[..|pat|] == pat then rep + Replace(s[|pat|..], pat, rep)
    else [s[0]] + Replace(s[1..], pat, rep)
  }

  /** Replacing one character distributes over concatenation. */
  lemma {:induction false} ReplaceCharConcat(a: string, b: string, c: char, rep: string)
    ensures Replace(a + b, [c], rep) == Replace(a, [c], rep) + Replace(b, [c], rep)
  {
    if a == [] {
      assert a + b == b;
    } else {
      assert (a + b)[1..] == a[1..] + b;
      assert (a + b)[..1] == a[..1];
      ReplaceCharConcat(a[1..], b, c, rep);
    }
  }

  /** A character that does not occur is never replaced. */
  lemma {:induction false} ReplaceCharAbsent(s: string, c: char, rep: string)
    requires c !in s
    ensures Replace(s, [c], rep) == s
  {
    if s != [] {
      assert s[..1] == [s[0]] && s[0] != c;
      ReplaceCharAbsent(s[1..], c, rep);
    }
  }

  /** A pattern that does not occur at any position is never replaced. */
  predicate OccursAt(pat: string, s: string, i: nat)
  {
    i + |pat| <= |s| && s[i..i + |pat|] == pat
  }

  ghost predicate Occurs(pat: string, s: string)
  {
    exists i: nat :: OccursAt(pat, s, i)
  }

  lemma {:induction false} ReplaceAbsent(s: string, pat: string, rep: string)
    requires pat != [] && !Occurs(pat, s)
    ensures Replace(s, pat, rep) == s
    decreases |s|
  {
    if |s| >= |pat| {
      assert !OccursAt(pat, s, 0);
      assert s[0..|pat|] == s[..|pat|];
      forall i: nat | OccursAt(pat, s[1..], i) ensures OccursAt(pat, s, i + 1) {
        assert s[i + 1..i + 1 + |pat|] == s[1..][i..i + |pat|];
      }
      ReplaceAbsent(s[1..], pat, rep);
    }
  }

  // ---------------------------------------------------------------- escaping

  /** Single-pass escaping: a backslash is put before every character of
      `special`, and every other character is kept as it is. */
  function Escape(s: string, special: set<char>): string
  {
    if s == [] then [] else
      (if s[0] in special then ['\\', s[0]] else [s[0]]) + Escape(s[1..], special)
  }

  /** Inverse of `Escape`: a backslash followed by a character of `special`
      is dropped. */
  function Unescape(t: string, special: set<char>): string
    decreases |t|
  {
    if t == [] then []
    else if |t| >= 2 && t[0] == '\\' && t[1] in special then [t[1]] + Unescape(t[2..], special)
    else [t[0]] + Unescape(t[1..], special)
  }

  /** Number of characters of `s` that belong to `special`. */
  function CountIn(s: string, special: set<char>): (n: nat)
    ensures n <= |s|
  {
    if s == [] then 0 else (if s[0] in special then 1 else 0) + CountIn(s[1..], special)
  }

  lemma {:induction false} EscapeNothing(s: string)
    ensures Escape(s, {}) == s
  {
    if s != [] { EscapeNothing(s[1..]); }
  }

  /** Escaping grows the text by exactly one character per special one. */
  lemma {:induction false} EscapeLength(s: string, special: set<char>)
    ensures |Escape(s, special)| == |s| + CountIn(s, special)
  {
    if s != [] { EscapeLength(s[1..], special); }
  }

  /** The escaped text never starts with a special character (it starts with
      the backslash that escapes it). */
  lemma EscapeHead(s: string, special: set<char>)
    requires '\\' !in special
    ensures Escape(s, special) != [] ==> Escape(s, special)[0] !in special
  {
  }

  /** Escaping loses nothing: unescaping gives the original text back,
      whatever backslashes it already held. */
  lemma {:induction false} EscapeRoundTrip(s: string, special: set<char>)
    requires '\\' !in special
    ensures Unescape(Escape(s, special), special) == s
  {
    if s != [] {
      var rest := Escape(s[1..], special);
      EscapeRoundTrip(s[1..], special);
      EscapeHead(s[1..], special);
      if s[0] in special {
        var t := ['\\', s[0]] + rest;
        assert t[2..] == rest;
      } else {
        var t := [s[0]] + rest;
        assert t[1..] == rest;
      }
    }
  }

  /** Replacing one more special character `c` by `\c` in escaped text is
      escaping with `c` added to the special set. */
  lemma {:induction false} EscapeOneMore(s: string, special: set<char>, c: char)
    requires c != '\\' && c !in special
    ensures Replace(Escape(s, special), [c], ['\\', c]) == Escape(s, special + {c})
  {
    if s != [] {
      var head := if s[0] in special then ['\\', s[0]] else [s[0]];
      ReplaceCharConcat(head, Escape(s[1..], special), c, ['\\', c]);
      EscapeOneMore(s[1..], special, c);
      if s[0] == c {
        assert head[..1] == [c];
        assert head[1..] == [];
      } else {
        ReplaceCharAbsent(head, c, ['\\', c]);
      }
    }
  }

  // ---------------------------------------------------------------- join

  /** Python's `sep.join(parts)`. */
  function Join(parts: seq<string>, sep: string): string
  {
    if |parts| == 0 then []
    else if |parts| == 1 then parts[0]
    else parts[0] + sep + Join(parts[1..], sep)
  }

  /** Joining two non-empty lists puts one separator between the joined
      halves, so the parts keep their order. */
  lemma {:induction false} JoinConcat(a: seq<string>, b: seq<string>, sep: string)
    requires a != [] && b != []
    ensures Join(a + b, sep) == Join(a, sep) + sep + Join(b, sep)
  {
    if |a| == 1 {
      assert (a + b)[1..] == b;
    } else {
      assert (a + b)[1..] == a[1..] + b;
      JoinConcat(a[1..], b, sep);
    }
  }

  /** The joined text is empty only when every part is. */
  lemma {:induction false} JoinEmpty(parts: seq<string>, sep: string)
    requires |sep| > 0
    ensures Join(parts, sep) == [] <==> forall i :: 0 <= i < |parts| ==> parts[i] == [] && |parts| <= 1
  {
    if |parts| > 1 {
      JoinEmpty(parts[1..], sep);
      assert |Join(parts, sep)| >= |sep|;
    }
  }

  // ---------------------------------------------------------------- integers

  function DigitChar(d: nat): (c: char)
    requires d < 10
    ensures '0' <= c <= '9'
  {
    (('0' as int) + d) as char
  }

  predicate IsDigits(s: string)
  {
    forall k :: 0 <= k < |s| ==> '0' <= s[k] <= '9'
  }

  /** Python's `str(n)` for a non-negative integer: decimal digits, most
      significant first, with no leading zero. */
  function NatToString(n: nat): (r: string)
    ensures |r| >= 1 && IsDigits(r)
    ensures r[0] == '0' ==> r == "0"
  {
    if n < 10 then [DigitChar(n)] else NatToString(n / 10) + [DigitChar(n % 10)]
  }

  /** The number a string of decimal digits denotes. */
  function DigitsValue(s: string): nat
    requires IsDigits(s)
  {
    if s == [] then 0 else DigitsValue(s[..|s| - 1]) * 10 + (s[|s| - 1] as int - '0' as int)
  }

  /** Reading back the decimal text of `n` gives `n`. */
  lemma {:induction false} NatToStringRoundTrip(n: nat)
    ensures DigitsValue(NatToString(n)) == n
  {
    if n >= 10 {
      NatToStringRoundTrip(n / 10);
      var r := NatToString(n);
      assert r[..|r| - 1] == NatToString(n / 10);
    }
  }

  /** The decimal text of `n` has at most `w` digits when `n < 10^w`. */
  lemma {:induction false} NatToStringShort(n: nat, w: nat)
    requires n < Pow10(w)
    ensures |NatToString(n)| <= w || (n == 0 && w == 0)
  {
    if n >= 10 {
      assert w >= 1;
      assert n / 10 < Pow10(w - 1);
      NatToStringShort(n / 10, w - 1);
    }
  }

  function Pow10(w: nat): (p: nat)
    ensures p >= 1
  {
    if w == 0 then 1 else 10 * Pow10(w - 1)
  }

  /** Python's `str(i)` (and `f"{i}"`) for any integer. */
  function IntToString(i: int): (r: string)
    ensures |r| >= 1
    ensures i < 0 <==> r[0] == '-'
    ensures IsDigits(if i < 0 then r[1..] else r)
    ensures DigitsValue(if i < 0 then r[1..] else r) == if i < 0 then -i else i
    ensures var digits := if i < 0 then r[1..] else r;
            |digits| >= 1 && (digits[0] == '0' ==> digits == "0")
  {
    if i < 0 then
      NatToStringRoundTrip(-i);
      var r := "-" + NatToString(-i);
      assert r[1..] == NatToString(-i);
      r
    else
      NatToStringRoundTrip(i);
      NatToString(i)
  }

  /** Python's `'%0{w}d' % n` for a non-negative `n`: the digits of `n`,
      left-padded with zeros to at least `w` characters. */
  function ZeroPadded(n: nat, w: nat): (r: string)
    ensures |r| == if |NatToString(n)| < w then w else |NatToString(n)|
    ensures IsDigits(r)
    ensures DigitsValue(r) == n
  {
    var digits := NatToString(n);
    NatToStringRoundTrip(n);
    if |digits| < w then
      var r := seq(w - |digits|, _ => '0') + digits;
      ZerosValue(w - |digits|, digits);
      r
    else digits
  }

  /** Leading zeros do not change the value of a digit string. */
  lemma {:induction false} ZerosValue(k: nat, digits: string)
    requires IsDigits(digits)
    ensures IsDigits(seq(k, _ => '0') + digits)
    ensures DigitsValue(seq(k, _ => '0') + digits) == DigitsValue(digits)
    decreases |digits|
  {
    var z := seq(k, _ => '0');
    if digits == [] {
      assert z + digits == z;
      ZerosOnly(k);
    } else {
      var s := z + digits;
      assert s[..|s| - 1] == z + digits[..|digits| - 1];
      ZerosValue(k, digits[..|digits| - 1]);
    }
  }

  lemma {:induction false} ZerosOnly(k: nat)
    ensures IsDigits(seq(k, _ => '0'))
    ensures DigitsValue(seq(k, _ => '0')) == 0
  {
    if k > 0 {
      var z := seq(k, _ => '0');
      assert z[..k - 1] == seq(k - 1, _ => '0');
      ZerosOnly(k - 1);
    }
  }
}
