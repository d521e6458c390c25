/** String helpers that mirror the Python `str` operations the bot relies on:
    `isspace`, `strip`, `lower`, `split`, `replace`, `find`, `in`, `startswith`
    and decimal formatting. Strings are sequences of Unicode scalar values. */
module Text {

  /** Python's `str.isspace()` (and the `\s` class of `re` on `str` patterns). */
  predicate IsSpace(c: char) {
    || c == ' ' || c == '\t' || c == '\n' || c == '\r' || c == '\U{000B}' || c == '\U{000C}'
    || ('\U{001C}' <= c <= '\U{001F}') || c == '\U{0085}' || c == '\U{00A0}' || c == '\U{1680}'
    || ('\U{2000}' <= c <= '\U{200A}') || c == '\U{2028}' || c == '\U{2029}' || c == '\U{202F}'
    || c == '\U{205F}' || c == '\U{3000}'
  }

  predicate IsAsciiDigit(c: char) { '0' <= c <= '9' }

  function DigitValue(c: char): (v: nat)
    requires IsAsciiDigit(c)
    ensures v <= 9
  {
    c as int - '0' as int
  }

  function DigitChar(d: nat): (c: char)
    requires d <= 9
    ensures IsAsciiDigit(c) && DigitValue(c) == d
  {
    ('0' as int + d) as char
  }

  /** `s.lstrip()` */
  function LStrip(s: string): (r: string)
    ensures |r| <= |s| && r == s[|s| - |r|..]
    ensures r == [] || !IsSpace(r[0])
    ensures forall i :: 0 <= i < |s| - |r| ==> IsSpace(s[i])
  {
    if s != [] && IsSpace(s[0]) then LStrip(s[1..]) else s
  }

  /** `s.rstrip()` */
  function RStrip(s: string): (r: string)
    ensures |r| <= |s| && r == s[..|r|]
    ensures r == [] || !IsSpace(r[|r| - 1])
    ensures forall i :: |r| <= i < |s| ==> IsSpace(s[i])
  {
    if s != [] && IsSpace(s[|s| - 1]) then RStrip(s[..|s| - 1]) else s
  }

  /** `s.strip()`: the longest infix that neither starts nor ends with whitespace. */
  function Strip(s: string): (r: string)
    ensures |r| <= |s|
    ensures r == [] || (!IsSpace(r[0]) && !IsSpace(r[|r| - 1]))
    ensures (forall i :: 0 <= i < |s| ==> !IsSpace(s[i])) ==> r == s
  {
    RStrip(LStrip(s))
  }

  /** Lower-casing of one character: ASCII and the Cyrillic block (U+0400..U+042F). */
  function LowerChar(c: char): char {
    if 'A' <= c <= 'Z' then (c as int + 32) as char
    else if '\U{0410}' <= c <= '\U{042F}' then (c as int + 32) as char
    else if '\U{0400}' <= c <= '\U{040F}' then (c as int + 80) as char
    else c
  }

  /** `s.lower()` */
  function Lower(s: string): (r: string)
    ensures |r| == |s| && forall i :: 0 <= i < |s| ==> r[i] == LowerChar(s[i])
  {
    seq(|s|, i requires 0 <= i < |s| => LowerChar(s[i]))
  }

  /** `s.replace(a, b)` for single characters. */
  function ReplaceChar(s: string, a: char, b: char): (r: string)
    ensures |r| == |s|
    ensures forall i :: 0 <= i < |s| ==> r[i] == (if s[i] == a then b else s[i])
  {
    seq(|s|, i requires 0 <= i < |s| => if s[i] == a then b else s[i])
  }

  /** `s.replace(c, "")` */
  function RemoveChar(s: string, c: char): (r: string)
    ensures c !in r
    ensures multiset(r) == multiset(s)[c := 0]
  {
    if s == [] then []
    else
      assert s == [s[0]] + s[1..];
      (if s[0] == c then [] else [s[0]]) + RemoveChar(s[1..], c)
  }

  /** `s.split(sep)` for a one-character separator: always at least one piece. */
  function SplitOn(s: string, sep: char): (r: seq<string>)
    ensures |r| >= 1
    ensures forall k :: 0 <= k < |r| ==> sep !in r[k]
    ensures r[0] <= s && (|r[0]| < |s| ==> s[|r[0]|] == sep)
    decreases |s|
  {
    if s == [] then [[]]
    else if s[0] == sep then [[]] + SplitOn(s[1..], sep)
    else
      var rest := SplitOn(s[1..], sep);
      [[s[0]] + rest[0]] + rest[1..]
  }

  /** Splitting `a + sep + b` where `a` has no separator yields `a` first. */
  lemma {:induction false} SplitOnJoin(a: string, b: string, sep: char)
    requires sep !in a
    ensures SplitOn(a + [sep] + b, sep) == [a] + SplitOn(b, sep)
    decreases |a|
  {
    if a == [] {
      assert [] + [sep] + b == [sep] + b;
      assert ([sep] + b)[1..] == b;
    } else {
      var s := a + [sep] + b;
      assert s[0] == a[0] && s[0] != sep;
      assert s[1..] == a[1..] + [sep] + b;
      SplitOnJoin(a[1..], b, sep);
      var rest := SplitOn(s[1..], sep);
      assert rest[0] == a[1..] && rest[1..] == SplitOn(b, sep);
      assert [a[0]] + a[1..] == a;
    }
  }

  /** A string without the separator splits into itself. */
  lemma {:induction false} SplitOnNoSep(a: string, sep: char)
    requires sep !in a
    ensures SplitOn(a, sep) == [a]
    decreases |a|
  {
    if a != [] {
      SplitOnNoSep(a[1..], sep);
      assert [a[0]] + a[1..] == a;
    }
  }

  /** Splitting a join on a separator that no part contains gives the parts back. */
  lemma {:induction false} SplitOnJoinAll(ps: seq<string>, sep: char)
    requires |ps| >= 1
    requires forall k :: 0 <= k < |ps| ==> sep !in ps[k]
    ensures SplitOn(Join([sep], ps), sep) == ps
    decreases |ps|
  {
    if |ps| == 1 {
      SplitOnNoSep(ps[0], sep);
    } else {
      SplitOnJoinAll(ps[1..], sep);
      SplitOnJoin(ps[0], Join([sep], ps[1..]), sep);
      assert [ps[0]] + ps[1..] == ps;
    }
  }

  /** A character in none of the parts and not the separator is not in the join. */
  lemma {:induction false} JoinAvoids(sep: string, ps: seq<string>, c: char)
    requires c !in sep
    requires forall k :: 0 <= k < |ps| ==> c !in ps[k]
    ensures c !in Join(sep, ps)
    decreases |ps|
  {
    if |ps| > 1 {
      JoinAvoids(sep, ps[1..], c);
    }
  }

  /** Removing a character that does not occur changes nothing. */
  lemma {:induction false} RemoveAbsent(s: string, c: char)
    requires c !in s
    ensures RemoveChar(s, c) == s
    decreases |s|
  {
    if s != [] {
      RemoveAbsent(s[1..], c);
      assert s == [s[0]] + s[1..];
    }
  }

  /** Replacing a character that does not occur changes nothing. */
  lemma ReplaceAbsent(s: string, a: char, b: char)
    requires a !in s
    ensures ReplaceChar(s, a, b) == s
  {
    var r := ReplaceChar(s, a, b);
    forall i | 0 <= i < |s| ensures r[i] == s[i] {
      assert s[i] != a;
    }
  }

  /** A string that does not begin or end with whitespace is its own `strip()`. */
  lemma StripTrimmed(s: string)
    requires s != [] && !IsSpace(s[0]) && !IsSpace(s[|s| - 1])
    ensures Strip(s) == s
  {
  }

  /** `lstrip` removes exactly a whitespace prefix. */
  lemma {:induction false} LStripSpacePrefix(gap: string, w: string)
    requires forall i :: 0 <= i < |gap| ==> IsSpace(gap[i])
    requires w == [] || !IsSpace(w[0])
    ensures LStrip(gap + w) == w
    decreases |gap|
  {
    if gap != [] {
      assert (gap + w)[1..] == gap[1..] + w;
      LStripSpacePrefix(gap[1..], w);
    } else {
      assert gap + w == w;
    }
  }

  /** Only whitespace. */
  predicate AllSpace(s: string) {
    s == [] || (IsSpace(s[0]) && AllSpace(s[1..]))
  }

  /** The length of the whitespace run `\s*` at the start of `t`. */
  function LeadingSpaces(t: string): (n: nat)
    ensures n <= |t|
  {
    if t == [] || !IsSpace(t[0]) then 0 else LeadingSpaces(t[1..]) + 1
  }

  lemma {:induction false} LeadingSpacesRun(t: string)
    ensures AllSpace(t[..LeadingSpaces(t)])
    ensures LeadingSpaces(t) == |t| || !IsSpace(t[LeadingSpaces(t)])
  {
    if t != [] && IsSpace(t[0]) {
      LeadingSpacesRun(t[1..]);
      assert t[..LeadingSpaces(t)][1..] == t[1..][..LeadingSpaces(t[1..])];
    }
  }

  /** The run of leading whitespace in `gap + word` is exactly `gap`. */
  lemma {:induction false} LeadingSpacesOfGap(gap: string, word: string)
    requires AllSpace(gap) && (word == [] || !IsSpace(word[0]))
    ensures LeadingSpaces(gap + word) == |gap|
  {
    if gap != [] {
      assert (gap + word)[1..] == gap[1..] + word;
      LeadingSpacesOfGap(gap[1..], word);
    } else {
      assert gap + word == word;
    }
  }

  /** The whitespace run at the start of a concatenation. */
  lemma {:induction false} LeadingSpacesConcat(x: string, y: string)
    ensures LeadingSpaces(x) < |x| ==> LeadingSpaces(x + y) == LeadingSpaces(x)
    ensures LeadingSpaces(x) == |x| ==> LeadingSpaces(x + y) == |x| + LeadingSpaces(y)
    decreases |x|
  {
    if x == [] {
      assert x + y == y;
    } else {
      assert (x + y)[0] == x[0] && (x + y)[1..] == x[1..] + y;
      LeadingSpacesConcat(x[1..], y);
    }
  }

  /** The index of the first whitespace character. */
  function FirstSpace(s: string): (r: Option<nat>)
    ensures r.None? ==> forall i :: 0 <= i < |s| ==> !IsSpace(s[i])
    ensures r.Some? ==> r.value < |s| && IsSpace(s[r.value]) && forall i :: 0 <= i < r.value ==> !IsSpace(s[i])
  {
    if s == [] then None
    else if IsSpace(s[0]) then Some(0)
    else match FirstSpace(s[1..])
      case None => None
      case Some(i) => Some(i + 1)
  }

  /** `a + b in s` for two characters. */
  predicate HasPair(s: string, a: char, b: char)
    decreases |s|
  {
    |s| >= 2 && ((s[0] == a && s[1] == b) || HasPair(s[1..], a, b))
  }

  /** `s.find(a + b)` for two characters, with `None` for Python's -1. */
  function FindPair(s: string, a: char, b: char): (r: Option<nat>)
    ensures r.None? <==> !HasPair(s, a, b)
    ensures r.Some? ==> r.value + 1 < |s| && s[r.value] == a && s[r.value + 1] == b
    decreases |s|
  {
    if |s| < 2 then None
    else if s[0] == a && s[1] == b then Some(0)
    else match FindPair(s[1..], a, b)
      case None => None
      case Some(i) => Some(i + 1)
  }

  /** The first occurrence of `c` is found right after a prefix without it. */
  lemma {:induction false} FindAfter(p: string, rest: string, c: char)
    requires c !in p && rest != [] && rest[0] == c
    ensures Find(p + rest, c) == Some(|p|)
    decreases |p|
  {
    if p == [] {
      assert p + rest == rest;
    } else {
      FindAfter(p[1..], rest, c);
      assert (p + rest)[1..] == p[1..] + rest;
    }
  }

  /** The last occurrence of `c` is found right before a suffix without it. */
  lemma {:induction false} RFindBefore(rest: string, q: string, c: char)
    requires c !in q && rest != [] && rest[|rest| - 1] == c
    ensures RFind(rest + q, c) == Some(|rest| - 1)
    decreases |q|
  {
    if q == [] {
      assert rest + q == rest;
    } else {
      RFindBefore(rest, q[..|q| - 1], c);
      assert (rest + q)[..|rest + q| - 1] == rest + q[..|q| - 1];
    }
  }

  /** `lstrip` on a concatenation whose first part is not all whitespace. */
  lemma {:induction false} LStripConcat(x: string, y: string)
    ensures LStrip(x) != [] ==> LStrip(x + y) == LStrip(x) + y
    ensures LStrip(x) == [] ==> LStrip(x + y) == LStrip(y)
    decreases |x|
  {
    if x == [] {
      assert x + y == y;
    } else {
      assert (x + y)[0] == x[0];
      assert (x + y)[1..] == x[1..] + y;
      if IsSpace(x[0]) {
        LStripConcat(x[1..], y);
      }
    }
  }

  /** `sub in s` */
  predicate Contains(s: string, sub: string)
    decreases |s|
  {
    sub <= s || (s != [] && Contains(s[1..], sub))
  }

  /** `s.startswith(p)` */
  predicate StartsWith(s: string, p: string) { p <= s }

  /** `s.endswith(p)` */
  predicate EndsWith(s: string, p: string) { |p| <= |s| && s[|s| - |p|..] == p }

  /** `s.find(c)`, with `None` for Python's -1. */
  function Find(s: string, c: char): (r: Option<nat>)
    ensures r.None? ==> c !in s
    ensures r.Some? ==> r.value < |s| && s[r.value] == c && c !in s[..r.value]
  {
    if s == [] then None
    else if s[0] == c then Some(0)
    else match Find(s[1..], c)
      case None => None
      case Some(i) => assert s[..i + 1] == [s[0]] + s[1..][..i]; Some(i + 1)
  }

  /** `s.rfind(c)`, with `None` for Python's -1. */
  function RFind(s: string, c: char): (r: Option<nat>)
    ensures r.None? ==> c !in s
    ensures r.Some? ==> r.value < |s| && s[r.value] == c && c !in s[r.value + 1..]
  {
    if s == [] then None
    else if s[|s| - 1] == c then Some(|s| - 1)
    else
      var r := RFind(s[..|s| - 1], c);
      if r.Some? then assert s[r.value + 1..] == s[..|s| - 1][r.value + 1..] + [s[|s| - 1]]; r
      else r
  }

  /** `s[:n]` */
  function Take<T>(s: seq<T>, n: nat): (r: seq<T>)
    ensures |r| == (if |s| < n then |s| else n) && r <= s
  {
    if |s| <= n then s else s[..n]
  }

  /** `str(n)` for a natural number. */
  function NatToString(n: nat): (r: string)
    ensures |r| >= 1 && forall i :: 0 <= i < |r| ==> IsAsciiDigit(r[i])
  {
    if n < 10 then [DigitChar(n)] else NatToString(n / 10) + [DigitChar(n % 10)]
  }

  /** `str(n)` for an integer. */
  function IntToString(n: int): string {
    if n < 0 then "-" + NatToString(-n) else NatToString(n)
  }

  /** `f"{n:02d}"` for a natural number. */
  function Pad2(n: nat): (r: string)
    ensures n <= 99 ==> |r| == 2 && IsAsciiDigit(r[0]) && IsAsciiDigit(r[1])
                        && DigitValue(r[0]) * 10 + DigitValue(r[1]) == n
  {
    if n < 10 then ['0', DigitChar(n)]
    else if n <= 99 then [DigitChar(n / 10), DigitChar(n % 10)]
    else NatToString(n)
  }

  /** `sep.join(parts)` */
  function Join(sep: string, parts: seq<string>): string {
    if parts == [] then ""
    else if |parts| == 1 then parts[0]
    else parts[0] + sep + Join(sep, parts[1..])
  }

  /** No whitespace at all. */
  predicate NoSpace(s: string) {
    forall i :: 0 <= i < |s| ==> !IsSpace(s[i])
  }

  /** `r` is how `split(maxsplit=1)` cuts `t`, a text without leading
      whitespace: no piece when `t` is empty; otherwise the first piece is
      the longest whitespace-free prefix of `t`, and the second, present only
      when it is non-empty, is what follows that word with the whitespace run
      after it removed. */
  predicate WordSplit(t: string, r: seq<string>) {
    && |r| <= 2
    && (r == [] <==> t == [])
    && (|r| >= 1 ==> && r[0] != [] && r[0] <= t && NoSpace(r[0])
                     && (|r[0]| == |t| || IsSpace(t[|r[0]|]))
                     && (|r| == 2 <==> LStrip(t[|r[0]|..]) != [])
                     && (|r| == 2 ==> r[1] == LStrip(t[|r[0]|..])))
  }

  lemma WordSplitWhole(t: string)
    requires t != [] && NoSpace(t)
    ensures WordSplit(t, [t])
  {
  }

  lemma WordSplitAt(t: string, i: nat)
    requires i < |t| && !IsSpace(t[0]) && IsSpace(t[i]) && forall j :: 0 <= j < i ==> !IsSpace(t[j])
    ensures var rest := LStrip(t[i..]);
      WordSplit(t, if rest == [] then [t[..i]] else [t[..i], rest])
  {
    assert t[..i] <= t;
  }

  /** `text.split(maxsplit=1)`: the first word and, if anything follows the
      whitespace after it, the rest (leading whitespace removed, trailing kept). */
  function SplitFirstWord(text: string): (r: seq<string>)
    ensures WordSplit(LStrip(text), r)
  {
    var t := LStrip(text);
    if t == [] then []
    else
      match FirstSpace(t)
      case None => WordSplitWhole(t); [t]
      case Some(i) =>
        WordSplitAt(t, i);
        var rest := LStrip(t[i..]);
        if rest == [] then [t[..i]] else [t[..i], rest]
  }

  /** Only a blank text has no words. */
  lemma SplitFirstWordBlank(text: string)
    ensures SplitFirstWord(text) == [] <==> forall i :: 0 <= i < |text| ==> IsSpace(text[i])
  {
    var t := LStrip(text);
    if t != [] {
      assert text[|text| - |t|] == t[0];
    }
  }

  /** A text that starts with a word, then whitespace, then more text splits
      at its first whitespace. */
  lemma SplitFirstWordAt(t: string, i: nat)
    requires t != [] && !IsSpace(t[0]) && FirstSpace(t) == Some(i) && LStrip(t[i..]) != []
    ensures SplitFirstWord(t) == [t[..i], LStrip(t[i..])]
  {
    assert LStrip(t) == t;
  }

  /** A word followed by a space and a text that starts with a non-space splits
      back into the two. */
  lemma SplitFirstWordJoin(word: string, rest: string)
    requires word != [] && forall i :: 0 <= i < |word| ==> !IsSpace(word[i])
    requires rest != [] && !IsSpace(rest[0])
    ensures SplitFirstWord(word + " " + rest) == [word, rest]
  {
    JoinedWordParts(word, rest);
    SplitFirstWordAt(word + " " + rest, |word|);
  }

  lemma JoinedWordParts(word: string, rest: string)
    requires word != [] && forall i :: 0 <= i < |word| ==> !IsSpace(word[i])
    requires rest != [] && !IsSpace(rest[0])
    ensures var s := word + " " + rest;
      && s != [] && !IsSpace(s[0]) && FirstSpace(s) == Some(|word|)
      && s[..|word|] == word && LStrip(s[|word|..]) == rest
  {
    var s := word + " " + rest;
    JoinedFirstSpace(word, rest);
    JoinedRest(word, rest);
    assert s[0] == word[0] && s[..|word|] == word;
  }

  lemma JoinedFirstSpace(word: string, rest: string)
    requires forall i :: 0 <= i < |word| ==> !IsSpace(word[i])
    ensures FirstSpace(word + " " + rest) == Some(|word|)
  {
    var s := word + " " + rest;
    forall i | 0 <= i < |word| ensures !IsSpace(s[i]) {
      assert s[i] == word[i];
    }
    FirstSpaceAt(s, |word|);
  }

  lemma JoinedRest(word: string, rest: string)
    requires rest != [] && !IsSpace(rest[0])
    ensures LStrip((word + " " + rest)[|word|..]) == rest
  {
    assert (word + " " + rest)[|word|..] == " " + rest;
    LStripSpacePrefix(" ", rest);
  }

  lemma {:induction false} FirstSpaceAt(s: string, k: nat)
    requires k < |s| && IsSpace(s[k]) && forall i :: 0 <= i < k ==> !IsSpace(s[i])
    ensures FirstSpace(s) == Some(k)
    decreases k
  {
    if k > 0 {
      FirstSpaceAt(s[1..], k - 1);
    }
  }

  datatype Option<+T> = None | Some(value: T)

  datatype Result<+T, +E> = Ok(value: T) | Err(error: E)
}
