/**
 * The few JavaScript string operations the modelled code relies on:
 * `trim`, `join(' ')`, upper-casing the first character, template
 * interpolation of a non-negative integer, and array indexing inside a
 * concatenation (where a missing element reads as "undefined").
 */
module Text {

  /** The characters String.prototype.trim removes: WhiteSpace and LineTerminator. */
  predicate IsWhitespace(c: char) {
    || c == ' ' || c == '\t' || c == '\n' || c == '\r'
    || c == '\U{B}' || c == '\U{C}' || c == '\U{A0}' || c == '\U{1680}'
    || ('\U{2000}' <= c <= '\U{200A}')
    || c == '\U{2028}' || c == '\U{2029}' || c == '\U{202F}' || c == '\U{205F}'
    || c == '\U{3000}' || c == '\U{FEFF}'
  }

  /** Neither end of `s` is whitespace. */
  predicate Trimmed(s: string) {
    s == [] || (!IsWhitespace(s[0]) && !IsWhitespace(s[|s| - 1]))
  }

  /** A word: non-empty and without whitespace at its ends. */
  predicate Word(w: string) {
    w != [] && Trimmed(w)
  }

  predicate AllWords(ws: seq<string>) {
    forall i :: 0 <= i < |ws| ==> Word(ws[i])
  }

  lemma AllWordsAppend(a: seq<string>, b: seq<string>)
    requires AllWords(a) && AllWords(b)
    ensures AllWords(a + b)
  {
  }

  predicate EndsWith(s: string, suffix: string) {
    |suffix| <= |s| && s[|s| - |suffix|..] == suffix
  }

  predicate StartsWith(s: string, prefix: string) {
    |prefix| <= |s| && s[..|prefix|] == prefix
  }

  lemma EndsWithAppend(a: string, b: string)
    ensures EndsWith(a + b, b)
  {
    assert (a + b)[|a|..] == b;
  }

  /** A suffix of a suffix is a suffix. */
  lemma EndsWithTrans(s: string, t: string, u: string)
    requires EndsWith(s, t) && EndsWith(t, u)
    ensures EndsWith(s, u)
  {
    assert s[|s| - |u|..] == s[|s| - |t|..][|t| - |u|..];
  }

  /** A string ends with the last character of each of its non-empty suffixes. */
  lemma EndsWithLast(s: string, suffix: string)
    requires EndsWith(s, suffix) && suffix != []
    ensures s[|s| - 1] == suffix[|suffix| - 1]
  {
    assert s[|s| - |suffix|..][|suffix| - 1] == s[|s| - 1];
  }

  /** The character just before the `t` part of a suffix `x + t`. */
  lemma EndsWithBefore(s: string, x: string, t: string)
    requires EndsWith(s, x + t) && x != []
    ensures |t| < |s| && s[|s| - |t| - 1] == x[|x| - 1]
  {
    assert s[|s| - |x + t|..][|x| - 1] == s[|s| - |t| - 1];
  }

  lemma StartsWithAppend(a: string, b: string, prefix: string)
    requires StartsWith(a, prefix)
    ensures StartsWith(a + b, prefix)
  {
    assert (a + b)[..|prefix|] == a[..|prefix|];
  }

  /** A string's prefix, with its first character upper-cased, begins the upper-cased string. */
  lemma UpperFirstPrefix(s: string, prefix: string)
    requires StartsWith(s, prefix) && prefix != []
    ensures StartsWith(UpperFirst(s), UpperFirst(prefix))
  {
    assert UpperFirst(s)[..|prefix|] == [ToUpper(s[0])] + s[1..|prefix|];
    assert s[1..|prefix|] == prefix[1..];
  }

  /** Upper-casing the first character leaves a suffix alone when it is proper or begins with a character without a capital. */
  lemma UpperFirstKeepsSuffix(s: string, suffix: string)
    requires EndsWith(s, suffix)
    requires |suffix| < |s| || (suffix != [] && ToUpper(suffix[0]) == suffix[0])
    ensures EndsWith(UpperFirst(s), suffix)
  {
    var r := UpperFirst(s);
    if |suffix| < |s| {
      assert r[|r| - |suffix|..] == s[1..][|s| - 1 - |suffix|..];
    } else {
      assert s == suffix;
      assert r == [ToUpper(s[0])] + s[1..];
    }
  }

  function TrimStart(s: string): (r: string)
    ensures |r| <= |s| && r == s[|s| - |r|..]
    ensures r == [] || !IsWhitespace(r[0])
    ensures forall k :: 0 <= k < |s| - |r| ==> IsWhitespace(s[k])
  {
    if s != [] && IsWhitespace(s[0]) then TrimStart(s[1..]) else s
  }

  function TrimEnd(s: string): (r: string)
    ensures |r| <= |s| && r == s[..|r|]
    ensures r == [] || !IsWhitespace(r[|r| - 1])
    ensures forall k :: |r| <= k < |s| ==> IsWhitespace(s[k])
  {
    if s != [] && IsWhitespace(s[|s| - 1]) then TrimEnd(s[..|s| - 1]) else s
  }

  /** String.prototype.trim: drops leading and trailing whitespace only. */
  function Trim(s: string): (r: string)
    ensures Trimmed(r)
    ensures Trimmed(s) ==> r == s
    ensures exists i, j :: 0 <= i <= j <= |s| && r == s[i..j]
              && (forall k :: 0 <= k < i ==> IsWhitespace(s[k]))
              && (forall k :: j <= k < |s| ==> IsWhitespace(s[k]))
  {
    var front := TrimStart(s);
    var r := TrimEnd(front);
    assert r != [] ==> r[0] == front[0];
    TrimSlice(s, front, r);
    r
  }

  /** A prefix of a suffix, with only whitespace cut off either side, is a slice with only whitespace around it. */
  lemma TrimSlice(s: string, front: string, r: string)
    requires |front| <= |s| && front == s[|s| - |front|..]
    requires forall k :: 0 <= k < |s| - |front| ==> IsWhitespace(s[k])
    requires |r| <= |front| && r == front[..|r|]
    requires forall k :: |r| <= k < |front| ==> IsWhitespace(front[k])
    ensures exists i, j :: 0 <= i <= j <= |s| && r == s[i..j]
              && (forall k :: 0 <= k < i ==> IsWhitespace(s[k]))
              && (forall k :: j <= k < |s| ==> IsWhitespace(s[k]))
  {
    var i := |s| - |front|;
    var j := i + |r|;
    assert r == s[i..j];
    forall k | j <= k < |s| ensures IsWhitespace(s[k]) {
      assert s[k] == front[k - i];
    }
  }

  /** Trimming a trimmed string followed by one space gives the string back. */
  lemma TrimTrailingSpace(s: string)
    requires Trimmed(s)
    ensures Trim(s + " ") == s
  {
    if s != [] {
      assert TrimStart(s + " ") == s + " ";
      assert (s + " ")[..|s|] == s;
    }
  }

  /** Array.prototype.join(' '). */
  function Join(words: seq<string>): string
  {
    if words == [] then ""
    else if |words| == 1 then words[0]
    else Join(words[..|words| - 1]) + " " + words[|words| - 1]
  }

  /** Joined words are non-empty (given at least one word), begin with the first word and end with the last one. */
  lemma {:induction false} JoinEnds(ws: seq<string>)
    requires AllWords(ws)
    ensures ws != [] ==> Join(ws) != [] && StartsWith(Join(ws), ws[0]) && EndsWith(Join(ws), ws[|ws| - 1])
    ensures Trimmed(Join(ws))
  {
    if |ws| > 1 {
      var init := ws[..|ws| - 1];
      assert AllWords(init) by {
        forall i | 0 <= i < |init| ensures Word(init[i]) { assert init[i] == ws[i]; }
      }
      JoinEnds(init);
      var j := Join(init);
      assert Join(ws) == j + " " + ws[|ws| - 1];
      assert (j + " " + ws[|ws| - 1])[..|ws[0]|] == j[..|ws[0]|];
      assert (j + " " + ws[|ws| - 1])[0] == j[0];
    }
  }

  /** Joining a concatenation puts one space between the two joined halves. */
  lemma {:induction false} JoinAppend(a: seq<string>, b: seq<string>)
    requires a != [] && b != []
    ensures Join(a + b) == Join(a) + " " + Join(b)
  {
    if |b| == 1 {
      assert (a + b)[..|a + b| - 1] == a;
    } else {
      var b' := b[..|b| - 1];
      assert (a + b)[..|a + b| - 1] == a + b';
      JoinAppend(a, b');
    }
  }

  function DigitChar(d: int): char
    requires 0 <= d < 10
  {
    ('0' as int + d) as char
  }

  predicate IsDigits(s: string) {
    forall k :: 0 <= k < |s| ==> '0' <= s[k] <= '9'
  }

  /** Template interpolation `${n}` of a non-negative integer: plain decimal digits, no padding. */
  function DecimalString(n: nat): (s: string)
    ensures s != [] && IsDigits(s)
    ensures s[0] == '0' <==> n == 0
    ensures |s| == 1 <==> n < 10
  {
    if n < 10 then [DigitChar(n)] else DecimalString(n / 10) + [DigitChar(n % 10)]
  }

  /** The number a string of decimal digits denotes. */
  function DecimalValue(s: string): nat
    requires IsDigits(s)
  {
    if s == [] then 0 else DecimalValue(s[..|s| - 1]) * 10 + (s[|s| - 1] as int - '0' as int)
  }

  /** Reading back the digits of `${n}` gives n. */
  lemma {:induction false} DecimalRoundTrip(n: nat)
    ensures DecimalValue(DecimalString(n)) == n
  {
    if n >= 10 {
      var s := DecimalString(n);
      assert s[..|s| - 1] == DecimalString(n / 10);
      DecimalRoundTrip(n / 10);
    }
  }

  /** String.prototype.toUpperCase on one character, for ASCII and the Latvian letters. */
  function ToUpper(c: char): char
  {
    if 'a' <= c <= 'z' then (c as int - 32) as char
    else if c in LatvianLower then (c as int - 1) as char
    else c
  }

  /** ā č ē ģ ī ķ ļ ņ š ū ž: each immediately follows its capital in Unicode. */
  const LatvianLower: set<char> :=
    {'\U{101}', '\U{10D}', '\U{113}', '\U{123}', '\U{12B}', '\U{137}', '\U{13C}', '\U{146}', '\U{161}', '\U{16B}', '\U{17E}'}

  /** `s.charAt(0).toUpperCase() + s.slice(1)`. */
  function UpperFirst(s: string): (r: string)
    ensures |r| == |s| && (s != [] ==> r[1..] == s[1..])
    ensures s != [] ==> r[0] == ToUpper(s[0])
  {
    if s == [] then [] else [ToUpper(s[0])] + s[1..]
  }

  /** Upper-casing the first character of a non-empty prefix leaves what follows alone. */
  lemma UpperFirstAppend(a: string, b: string)
    requires a != []
    ensures UpperFirst(a + b) == UpperFirst(a) + b
  {
    assert (a + b)[1..] == a[1..] + b;
  }

  /** `table[i]` inside a string concatenation: outside the table JavaScript yields undefined, which reads as "undefined". */
  function Lookup(table: seq<string>, i: int): string
  {
    if 0 <= i < |table| then table[i] else "undefined"
  }
}
