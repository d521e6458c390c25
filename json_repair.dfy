/** `_try_parse_json_from_text`: the chain of string repairs the bot applies to a
    model's reply before decoding it, and the two decoding attempts. The
    decoder itself (`json.loads`) is a parameter `parse`, `None` meaning that
    it raised. */
module JsonRepair {
  import opened Text
  import opened Json

  const Nbsp: char := '\U{00A0}'
  const Bom: char := '\U{FEFF}'

  /** `s.lstrip(c)` */
  function LStripChar(s: string, c: char): (r: string)
    ensures |r| <= |s| && r == s[|s| - |r|..]
    ensures r == [] || r[0] != c
    ensures forall i :: 0 <= i < |s| - |r| ==> s[i] == c
  {
    if s != [] && s[0] == c then LStripChar(s[1..], c) else s
  }

  /** The first normalisations: surrounding whitespace stripped, carriage
      returns removed, no-break spaces turned into spaces, leading byte-order
      marks dropped. */
  function Normalize(text: string): (r: string)
    ensures '\r' !in r && Nbsp !in r
    ensures r == [] || r[0] != Bom
  {
    var a := RemoveChar(Strip(text), '\r');
    var b := ReplaceChar(a, Nbsp, ' ');
    assert '\r' !in b && Nbsp !in b by {
      forall i | 0 <= i < |b| ensures b[i] != '\r' && b[i] != Nbsp {
        assert a[i] != '\r';
      }
    }
    LStripChar(b, Bom)
  }

  /** Drops a leading code fence: everything up to the first line break, and
      then a closing fence with the whitespace around it. */
  function Unfence(t: string): (r: string)
    ensures !StartsWith(t, "```") ==> r == t
    ensures |r| <= |t|
  {
    if !StartsWith(t, "```") then t
    else
      var u := match Find(t, '\n') case None => t case Some(i) => t[i + 1..];
      if EndsWith(u, "```") then Strip(u[..|u| - 3]) else u
  }

  /** The text from the first `{` to the last `}`, stripped, when the first
      comes before the last; otherwise the text unchanged. */
  function BraceSpan(t: string): (r: string)
    ensures r == t || (|r| >= 2 && r[0] == '{' && r[|r| - 1] == '}')
    ensures '{' !in t || '}' !in t ==> r == t
  {
    match (Find(t, '{'), RFind(t, '}'))
    case (Some(s), Some(e)) =>
      if e > s then
        var span := t[s..e + 1];
        assert span[0] == '{' && span[|span| - 1] == '}';
        StripTrimmed(span);
        Strip(span)
      else t
    case _ => t
  }

  /** `re.sub(r"//.*?$", "", t, flags=re.MULTILINE)`: each `//` removes the rest
      of its line and keeps the line break. */
  function StripLineComments(t: string): (r: string)
    ensures |r| <= |t|
    decreases |t|
  {
    if t == [] then []
    else if |t| >= 2 && t[0] == '/' && t[1] == '/' then
      match Find(t, '\n')
      case None => []
      case Some(i) => StripLineComments(t[i..])
    else [t[0]] + StripLineComments(t[1..])
  }

  /** `re.sub(r"/\*.*?\*\/", "", t, flags=re.DOTALL)`: each `/*` that has a
      later `*/` is removed together with it and everything between. */
  function StripBlockComments(t: string): (r: string)
    ensures |r| <= |t|
    decreases |t|
  {
    if t == [] then []
    else if |t| >= 2 && t[0] == '/' && t[1] == '*' then
      match FindPair(t[2..], '*', '/')
      case Some(j) => StripBlockComments(t[j + 4..])
      case None => [t[0]] + StripBlockComments(t[1..])
    else [t[0]] + StripBlockComments(t[1..])
  }

  predicate IsCloser(c: char) { c == '}' || c == ']' }

  lemma CloserNotSpace(c: char)
    requires IsCloser(c)
    ensures !IsSpace(c)
  {
  }

  /** A comma whose next non-whitespace character closes an object or a list. */
  predicate TrailingCommaAt(t: string)
    requires t != []
  {
    t[0] == ',' && 1 + LeadingSpaces(t[1..]) < |t| && IsCloser(t[1 + LeadingSpaces(t[1..])])
  }

  predicate HasTrailingComma(t: string)
    decreases |t|
  {
    t != [] && (TrailingCommaAt(t) || HasTrailingComma(t[1..]))
  }

  /** The characters other than commas and whitespace, in order. */
  function Skeleton(t: string): (r: string)
    ensures |r| <= |t|
    decreases |t|
  {
    if t == [] then []
    else if t[0] == ',' || IsSpace(t[0]) then Skeleton(t[1..])
    else [t[0]] + Skeleton(t[1..])
  }

  /** `re.sub(r",\s*(?=[}\]])", "", t)` */
  function DropTrailingCommas(t: string): (r: string)
    ensures |r| <= |t|
    decreases |t|
  {
    if t == [] then []
    else if TrailingCommaAt(t) then
      DropTrailingCommas(t[1 + LeadingSpaces(t[1..])..])
    else [t[0]] + DropTrailingCommas(t[1..])
  }

  /** The text handed to the first decoding attempt. */
  function Prepare(text: string): string {
    DropTrailingCommas(StripBlockComments(StripLineComments(BraceSpan(Unfence(Normalize(text))))))
  }

  /** The second attempt's replacement of the guillemets «» by straight quotes. */
  function SwapGuillemets(t: string): (r: string)
    ensures |r| == |t| && '«' !in r && '»' !in r
    ensures '«' !in t && '»' !in t ==> r == t
  {
    var a := ReplaceChar(t, '«', '"');
    var b := ReplaceChar(a, '»', '"');
    assert '«' !in b by {
      forall i | 0 <= i < |b| ensures b[i] != '«' {
        assert a[i] != '«';
      }
    }
    b
  }

  /** `_try_parse_json_from_text(content)`: `{}` for anything but a string;
      otherwise the first attempt on the repaired text, then the attempt with
      the guillemets replaced, then `{}`. */
  function TryParseJsonFromText(content: Json, parse: string -> Option<Json>): (r: Json)
    ensures !content.JStr? ==> r == EmptyObject
    ensures content.JStr? && parse(Prepare(content.s)).Some? ==> r == parse(Prepare(content.s)).value
    ensures content.JStr? && parse(Prepare(content.s)).None? ==>
              r == (if parse(SwapGuillemets(Prepare(content.s))).Some? then parse(SwapGuillemets(Prepare(content.s))).value
                    else EmptyObject)
  {
    if !content.JStr? then EmptyObject else Attempts(Prepare(content.s), parse)
  }

  /** The two decoding attempts on the repaired text `t`. */
  function Attempts(t: string, parse: string -> Option<Json>): Json {
    match parse(t)
    case Some(v) => v
    case None =>
      match parse(SwapGuillemets(t))
      case Some(v) => v
      case None => EmptyObject
  }

  // ------------------------------------------------------------------
  // Lemmas

  /** Dropping trailing commas removes only commas and whitespace. */
  lemma {:induction false} DropKeepsSkeleton(t: string)
    ensures Skeleton(DropTrailingCommas(t)) == Skeleton(t)
    decreases |t|
  {
    if t != [] {
      if TrailingCommaAt(t) {
        DropKeepsSkeleton(t[1 + LeadingSpaces(t[1..])..]);
        SkeletonSkipsSpaces(t[1..]);
        assert t[1..][LeadingSpaces(t[1..])..] == t[1 + LeadingSpaces(t[1..])..];
      } else {
        DropKeepsSkeleton(t[1..]);
      }
    }
  }

  /** After line comments are cut, no `//` is left, and the text starts with
      its original first character or with a line break. */
  lemma {:induction false} LineCommentsGone(t: string)
    ensures !HasPair(StripLineComments(t), '/', '/')
    ensures StripLineComments(t) != [] ==> t != [] && (StripLineComments(t)[0] == t[0] || StripLineComments(t)[0] == '\n')
    decreases |t|
  {
    if t == [] {
    } else if |t| >= 2 && t[0] == '/' && t[1] == '/' {
      if Find(t, '\n').Some? {
        var k := Find(t, '\n').value;
        LineCommentsGone(t[k..]);
      }
    } else {
      LineCommentsGone(t[1..]);
    }
  }

  /** A text without `//` is left as it is by the line-comment step. */
  lemma {:induction false} NoLineComment(t: string)
    requires !HasPair(t, '/', '/')
    ensures StripLineComments(t) == t
    decreases |t|
  {
    if t != [] {
      NoLineComment(t[1..]);
      assert [t[0]] + t[1..] == t;
    }
  }

  /** A text with no block-comment opener is left as it is by the block-comment step. */
  lemma {:induction false} NoBlockComment(t: string)
    requires !HasPair(t, '/', '*')
    ensures StripBlockComments(t) == t
    decreases |t|
  {
    if t != [] {
      NoBlockComment(t[1..]);
      assert [t[0]] + t[1..] == t;
    }
  }

  /** A text without a trailing comma is left as it is. */
  lemma {:induction false} DropNoTrailing(t: string)
    requires !HasTrailingComma(t)
    ensures DropTrailingCommas(t) == t
    decreases |t|
  {
    if t != [] {
      DropNoTrailing(t[1..]);
      assert [t[0]] + t[1..] == t;
    }
  }

  lemma {:induction false} SkeletonSkipsSpaces(t: string)
    ensures Skeleton(t[LeadingSpaces(t)..]) == Skeleton(t)
    decreases |t|
  {
    if t != [] && IsSpace(t[0]) {
      SkeletonSkipsSpaces(t[1..]);
    }
  }

  /** A reply that only the second attempt can decode comes from the
      guillemet replacement; one that neither can decode gives `{}`. */
  lemma SecondAttemptOnly(t: string, parse: string -> Option<Json>)
    requires parse(t).None?
    ensures parse(SwapGuillemets(t)).Some? ==> Attempts(t, parse) == parse(SwapGuillemets(t)).value
    ensures parse(SwapGuillemets(t)).None? ==> Attempts(t, parse) == EmptyObject
  {
  }

  /** The guillemets are only replaced after the first attempt fails: a text
      the decoder accepts is decoded as it stands. */
  lemma GuillemetsOnlyOnRetry(t: string, parse: string -> Option<Json>)
    requires '«' in t && parse(t).Some?
    ensures Attempts(t, parse) == parse(t).value
    ensures t != SwapGuillemets(t)
  {
    assert '«' !in SwapGuillemets(t);
  }

  /** An object text with nothing for the earlier repairs to act on: no
      surrounding text, carriage return, no-break space or comment marker. */
  predicate Undecorated(s: string) {
    && |s| >= 2 && s[0] == '{' && s[|s| - 1] == '}'
    && '\r' !in s && Nbsp !in s
    && !HasPair(s, '/', '/') && !HasPair(s, '/', '*')
  }

  /** An undecorated object text without trailing commas: valid JSON as the decoder expects it. */
  predicate PlainObject(s: string) {
    Undecorated(s) && !HasTrailingComma(s)
  }

  lemma NormalizeTrimmed(s: string)
    requires s != [] && !IsSpace(s[0]) && !IsSpace(s[|s| - 1]) && s[0] != Bom
    requires '\r' !in s && Nbsp !in s
    ensures Normalize(s) == s
  {
    StripTrimmed(s);
    RemoveAbsent(s, '\r');
    ReplaceAbsent(s, Nbsp, ' ');
  }

  /** The brace span of an object surrounded by prose is the object. */
  lemma BraceSpanOf(p: string, s: string, q: string)
    requires |s| >= 2 && s[0] == '{' && s[|s| - 1] == '}'
    requires '{' !in p && '}' !in q
    ensures BraceSpan(p + s + q) == s
  {
    var t := p + s + q;
    FindAfter(p, s + q, '{');
    assert p + (s + q) == t;
    RFindBefore(p + s, q, '}');
    assert t[|p|..|p| + |s|] == s;
    StripTrimmed(s);
  }

  lemma DecorationsOfUndecorated(s: string)
    requires Undecorated(s)
    ensures StripDecorations(s) == DropTrailingCommas(s)
  {
    BraceSpanOf([], s, []);
    assert [] + s + [] == s;
    NoLineComment(s);
    NoBlockComment(s);
  }

  /** The stages after the fence: the brace span, the comments and the trailing commas. */
  function StripDecorations(t: string): string {
    DropTrailingCommas(StripBlockComments(StripLineComments(BraceSpan(t))))
  }

  lemma PrepareStages(text: string)
    ensures Prepare(text) == StripDecorations(Unfence(Normalize(text)))
  {
  }

  /** A bare object is handed to the decoder unchanged, so the result is
      exactly what the decoder makes of the reply. */
  lemma PlainObjectUntouched(s: string, parse: string -> Option<Json>)
    requires PlainObject(s)
    ensures Prepare(s) == s
    ensures parse(s).Some? ==> TryParseJsonFromText(JStr(s), parse) == parse(s).value
  {
    NormalizeTrimmed(s);
    assert !StartsWith(s, "```") by { assert s[0] != '`'; }
    PrepareStages(s);
    DecorationsOfUndecorated(s);
    DropNoTrailing(s);
  }

  /** A bare object with prose before and after it (no braces in the prose)
      reaches the decoder as the bare object. */
  lemma ProseAroundObject(p: string, s: string, q: string)
    requires PlainObject(s)
    requires '{' !in p && '}' !in q
    requires p == [] || (!IsSpace(p[0]) && p[0] != Bom && p[0] != '`')
    requires q == [] || !IsSpace(q[|q| - 1])
    requires '\r' !in p && Nbsp !in p && '\r' !in q && Nbsp !in q
    ensures Prepare(p + s + q) == s
  {
    NormalizeProse(p, s, q);
    PrepareStages(p + s + q);
    BraceSpanOf(p, s, q);
    DecorationsOfPlain(s);
  }

  lemma NormalizeProse(p: string, s: string, q: string)
    requires |s| >= 2 && s[0] == '{' && s[|s| - 1] == '}' && '\r' !in s && Nbsp !in s
    requires p == [] || (!IsSpace(p[0]) && p[0] != Bom && p[0] != '`')
    requires q == [] || !IsSpace(q[|q| - 1])
    requires '\r' !in p && Nbsp !in p && '\r' !in q && Nbsp !in q
    ensures Unfence(Normalize(p + s + q)) == p + s + q
  {
    var t := p + s + q;
    var first := if p == [] then s[0] else p[0];
    var last := if q == [] then s[|s| - 1] else q[|q| - 1];
    assert t[0] == first;
    assert t[|t| - 1] == last;
    assert !IsSpace(first) && first != Bom && first != '`' && !IsSpace(last) by {
      CloserNotSpace('}');
      assert !IsSpace('{');
    }
    NormalizeTrimmed(t);
    assert !StartsWith(t, "```") by { assert t[0] != '`'; }
  }

  /** The comment and comma steps leave a plain object as it is. */
  lemma DecorationsOfPlain(s: string)
    requires PlainObject(s)
    ensures DropTrailingCommas(StripBlockComments(StripLineComments(s))) == s
  {
    NoLineComment(s);
    NoBlockComment(s);
    DropNoTrailing(s);
  }

  /** `"```" + tag + "\n" + s + "\n```"`: a reply wrapped in a code fence. */
  function Fenced(tag: string, s: string): string {
    "```" + tag + "\n" + s + "\n```"
  }

  lemma StripNewlineAfter(s: string)
    requires s != [] && !IsSpace(s[0]) && !IsSpace(s[|s| - 1])
    ensures Strip(s + "\n") == s
  {
    var t := s + "\n";
    assert t[..|t| - 1] == s;
    StripTrimmed(s);
    LStripConcat(s, "\n");
    assert LStrip(s) == s;
  }

  lemma UnfenceOf(tag: string, s: string)
    requires '\n' !in tag
    requires s != [] && !IsSpace(s[0]) && !IsSpace(s[|s| - 1])
    ensures Unfence(Fenced(tag, s)) == s
  {
    var f := Fenced(tag, s);
    var head := "```" + tag;
    var u := s + "\n```";
    assert f == head + ("\n" + u);
    assert '\n' !in head;
    FindAfter(head, "\n" + u, '\n');
    assert f[|head| + 1..] == u;
    assert StartsWith(f, "```");
    assert EndsWith(u, "```");
    assert u[..|u| - 3] == s + "\n";
    StripNewlineAfter(s);
  }

  lemma NormalizeFenced(tag: string, s: string)
    requires '\r' !in tag && Nbsp !in tag && '\r' !in s && Nbsp !in s
    ensures Normalize(Fenced(tag, s)) == Fenced(tag, s)
  {
    var f := Fenced(tag, s);
    assert f[0] == '`' && f[|f| - 1] == '`';
    assert '\r' !in f && Nbsp !in f;
    NormalizeTrimmed(f);
  }

  /** A bare object wrapped in a code fence (with any info string) reaches the
      decoder as the bare object. */
  lemma FencedObjectRecovered(tag: string, s: string, parse: string -> Option<Json>)
    requires PlainObject(s)
    requires '\n' !in tag && '\r' !in tag && Nbsp !in tag
    ensures Prepare(Fenced(tag, s)) == s
    ensures parse(s).Some? ==> TryParseJsonFromText(JStr(Fenced(tag, s)), parse) == parse(s).value
  {
    PrepareFenced(tag, s);
    DropNoTrailing(s);
  }

  lemma PrepareFenced(tag: string, s: string)
    requires Undecorated(s)
    requires '\n' !in tag && '\r' !in tag && Nbsp !in tag
    ensures Prepare(Fenced(tag, s)) == DropTrailingCommas(s)
  {
    var f := Fenced(tag, s);
    NormalizeFenced(tag, s);
    UnfenceOf(tag, s);
    assert Unfence(Normalize(f)) == s;
    PrepareStages(f);
    DecorationsOfUndecorated(s);
  }

  /** A fenced object with a trailing comma before a closing bracket reaches
      the decoder with that comma (and the whitespace after it) removed. */
  lemma FencedTrailingCommaRecovered(tag: string, a: string, w: string, b: string, parse: string -> Option<Json>)
    requires Undecorated(a + ([','] + w + b))
    requires !HasTrailingComma(a) && !HasTrailingComma(b)
    requires AllSpace(w) && b != [] && IsCloser(b[0])
    requires '\n' !in tag && '\r' !in tag && Nbsp !in tag
    ensures Prepare(Fenced(tag, a + ([','] + w + b))) == a + b
    ensures parse(a + b).Some? ==>
              TryParseJsonFromText(JStr(Fenced(tag, a + ([','] + w + b))), parse) == parse(a + b).value
  {
    PrepareFenced(tag, a + ([','] + w + b));
    DropCommaBeforeCloser(a, w, b);
    DropNoTrailing(a);
    DropNoTrailing(b);
  }

  /** A comma followed only by whitespace before a closing bracket is dropped,
      and the text on either side is treated as it would be on its own. */
  lemma {:induction false} DropCommaBeforeCloser(a: string, w: string, b: string)
    requires AllSpace(w)
    requires b != [] && IsCloser(b[0])
    ensures DropTrailingCommas(a + ([','] + w + b)) == DropTrailingCommas(a) + DropTrailingCommas(b)
    decreases |a|, 1
  {
    var y := [','] + w + b;
    var db := DropTrailingCommas(b);
    if a == [] {
      assert a + y == y;
      DropCommaFirst(w, b);
    } else if TrailingCommaAt(a) {
      DropCommaBeforeCloser(a[1 + LeadingSpaces(a[1..])..], w, b);
      SkipStep(a, y, db);
    } else {
      DropCommaBeforeCloser(a[1..], w, b);
      KeepStep(a, y, db);
    }
  }

  /** A trailing comma at the front of `a` is dropped with or without `y` after it. */
  lemma SkipStep(a: string, y: string, d: string)
    requires a != [] && TrailingCommaAt(a)
    requires DropTrailingCommas(a[1 + LeadingSpaces(a[1..])..] + y) == DropTrailingCommas(a[1 + LeadingSpaces(a[1..])..]) + d
    ensures DropTrailingCommas(a + y) == DropTrailingCommas(a) + d
  {
    DropCommaSkip(a, y);
    DropAtComma(a);
  }

  /** Any other first character of `a` is kept, with or without `y` after it. */
  lemma KeepStep(a: string, y: string, d: string)
    requires a != [] && !TrailingCommaAt(a) && y != [] && y[0] == ','
    requires DropTrailingCommas(a[1..] + y) == DropTrailingCommas(a[1..]) + d
    ensures DropTrailingCommas(a + y) == DropTrailingCommas(a) + d
  {
    DropCommaKeep(a, y);
    ConsAppend(a[0], DropTrailingCommas(a[1..]), d, DropTrailingCommas(a + y), DropTrailingCommas(a),
               DropTrailingCommas(a[1..] + y));
  }

  lemma ConsAppend(c: char, s: string, d: string, x: string, y: string, z: string)
    requires x == [c] + z && z == s + d && y == [c] + s
    ensures x == y + d
  {
    assert [c] + (s + d) == ([c] + s) + d;
  }

  lemma DropCommaFirst(w: string, b: string)
    requires AllSpace(w)
    requires b != [] && IsCloser(b[0])
    ensures DropTrailingCommas([','] + w + b) == DropTrailingCommas(b)
  {
    var y := [','] + w + b;
    assert y[1..] == w + b;
    CloserNotSpace(b[0]);
    LeadingSpacesOfGap(w, b);
    assert y[1 + |w|] == b[0];
    assert TrailingCommaAt(y);
    assert y[1 + |w|..] == b;
    DropAtComma(y);
  }

  lemma DropAtComma(t: string)
    requires t != [] && TrailingCommaAt(t)
    ensures DropTrailingCommas(t) == DropTrailingCommas(t[1 + LeadingSpaces(t[1..])..])
  {
  }

  lemma DropAtOther(t: string)
    requires t != [] && !TrailingCommaAt(t)
    ensures DropTrailingCommas(t) == [t[0]] + DropTrailingCommas(t[1..])
  {
  }

  /** A trailing comma at the start of `a` is still one with anything after `a`. */
  lemma TrailingCommaConcat(a: string, y: string)
    requires a != [] && TrailingCommaAt(a)
    ensures a + y != [] && TrailingCommaAt(a + y) && LeadingSpaces((a + y)[1..]) == LeadingSpaces(a[1..])
  {
    var t := a + y;
    assert t[1..] == a[1..] + y;
    LeadingSpacesConcat(a[1..], y);
    var n := 1 + LeadingSpaces(a[1..]);
    assert t[n] == a[n];
  }

  /** The comma and the whitespace after it are skipped whatever follows `a`. */
  lemma DropCommaSkip(a: string, y: string)
    requires a != [] && TrailingCommaAt(a)
    ensures DropTrailingCommas(a + y) == DropTrailingCommas(a[1 + LeadingSpaces(a[1..])..] + y)
  {
    var t := a + y;
    var n := 1 + LeadingSpaces(a[1..]);
    TrailingCommaConcat(a, y);
    DropAtComma(t);
    assert t[n..] == a[n..] + y;
  }

  lemma DropCommaKeep(a: string, y: string)
    requires a != [] && !TrailingCommaAt(a) && y != [] && y[0] == ','
    ensures DropTrailingCommas(a) == [a[0]] + DropTrailingCommas(a[1..])
    ensures DropTrailingCommas(a + y) == [a[0]] + DropTrailingCommas(a[1..] + y)
  {
    var t := a + y;
    assert t[0] == a[0] && t[1..] == a[1..] + y;
    NoTrailingCommaBefore(a, y);
    DropAtOther(a);
    DropAtOther(t);
  }

  lemma NoTrailingCommaBefore(a: string, y: string)
    requires a != [] && !TrailingCommaAt(a) && y != [] && y[0] == ','
    ensures !TrailingCommaAt(a + y)
  {
    var t := a + y;
    var n := 1 + LeadingSpaces(a[1..]);
    assert t[0] == a[0] && t[1..] == a[1..] + y;
    LeadingSpacesConcat(a[1..], y);
    if a[0] == ',' {
      if n < |a| {
        assert t[n] == a[n];
      } else {
        assert LeadingSpaces(y) == 0;
        assert t[|a|] == ',';
      }
    }
  }

  /** A line comment is cut up to its line break; the text before it, which
      has no comment marker, is kept. */
  lemma {:induction false} LineCommentRemoved(a: string, c: string, b: string)
    requires !HasPair(a, '/', '/') && (a == [] || a[|a| - 1] != '/')
    requires '\n' !in c
    ensures StripLineComments(a + ("//" + c + "\n" + b)) == a + StripLineComments("\n" + b)
    decreases |a|
  {
    var rest := "//" + c + "\n" + b;
    if a == [] {
      assert a + rest == rest;
      LineCommentFirst(c, b);
    } else {
      var tail := a[1..];
      LineKeepFirst(a, rest);
      assert tail == [] || tail[|tail| - 1] == a[|a| - 1];
      assert !HasPair(tail, '/', '/');
      LineCommentRemoved(tail, c, b);
      var sl := StripLineComments("\n" + b);
      assert [a[0]] + (tail + sl) == ([a[0]] + tail) + sl;
      assert [a[0]] + tail == a;
    }
  }

  lemma LineCommentFirst(c: string, b: string)
    requires '\n' !in c
    ensures StripLineComments("//" + c + "\n" + b) == StripLineComments("\n" + b)
  {
    var rest := "//" + c + "\n" + b;
    assert rest == "//" + c + ("\n" + b);
    FindAfter("//" + c, "\n" + b, '\n');
    assert rest[|"//" + c|..] == "\n" + b;
  }

  /** The first character of a text that does not start a line comment is kept. */
  lemma LineKeepFirst(a: string, rest: string)
    requires a != [] && !HasPair(a, '/', '/') && a[|a| - 1] != '/'
    requires rest != [] && rest[0] == '/'
    ensures StripLineComments(a + rest) == [a[0]] + StripLineComments(a[1..] + rest)
  {
    var t := a + rest;
    assert t[1..] == a[1..] + rest;
    if |a| >= 2 {
      assert t[1] == a[1];
    } else {
      assert t[1] == '/';
    }
  }

  /** A block comment is removed with its markers; the text before it, which
      opens no block comment, is kept. */
  lemma {:induction false} BlockCommentRemoved(a: string, c: string, b: string)
    requires !HasPair(a, '/', '*') && (a == [] || a[|a| - 1] != '/')
    requires !HasPair(c, '*', '/') && (c == [] || c[|c| - 1] != '*')
    ensures StripBlockComments(a + ("/*" + c + "*/" + b)) == a + StripBlockComments(b)
    decreases |a|
  {
    var rest := "/*" + c + "*/" + b;
    if a == [] {
      assert a + rest == rest;
      BlockCommentFirst(c, b);
    } else {
      var tail := a[1..];
      BlockKeepFirst(a, rest);
      assert tail == [] || tail[|tail| - 1] == a[|a| - 1];
      assert !HasPair(tail, '/', '*');
      BlockCommentRemoved(tail, c, b);
      var sb := StripBlockComments(b);
      assert [a[0]] + (tail + sb) == ([a[0]] + tail) + sb;
      assert [a[0]] + tail == a;
    }
  }

  lemma BlockCommentFirst(c: string, b: string)
    requires !HasPair(c, '*', '/') && (c == [] || c[|c| - 1] != '*')
    ensures StripBlockComments("/*" + c + "*/" + b) == StripBlockComments(b)
  {
    var t := "/*" + c + "*/" + b;
    assert t[0] == '/' && t[1] == '*';
    assert t[2..] == c + ("*/" + b);
    FindPairAfter(c, "*/" + b, '*', '/');
    BlockSkip(t, |c|);
    assert t[|c| + 4..] == b;
  }

  lemma BlockSkip(t: string, j: nat)
    requires |t| >= 2 && t[0] == '/' && t[1] == '*' && FindPair(t[2..], '*', '/') == Some(j)
    ensures StripBlockComments(t) == StripBlockComments(t[j + 4..])
  {
  }

  /** The first character of a text that does not open a block comment is kept. */
  lemma BlockKeepFirst(a: string, rest: string)
    requires a != [] && !HasPair(a, '/', '*') && (a[|a| - 1] != '/')
    requires rest != [] && rest[0] == '/'
    ensures StripBlockComments(a + rest) == [a[0]] + StripBlockComments(a[1..] + rest)
  {
    var t := a + rest;
    assert t[1..] == a[1..] + rest;
    if |a| >= 2 {
      assert t[1] == a[1];
    } else {
      assert t[1] == '/';
    }
  }

  /** The first occurrence of a pair right after a prefix without it (and
      not ending in its first character) is found there. */
  lemma {:induction false} FindPairAfter(p: string, rest: string, x: char, y: char)
    requires !HasPair(p, x, y) && (p == [] || p[|p| - 1] != x)
    requires |rest| >= 2 && rest[0] == x && rest[1] == y
    ensures FindPair(p + rest, x, y) == Some(|p|)
    decreases |p|
  {
    if p == [] {
      assert p + rest == rest;
    } else {
      assert (p + rest)[1..] == p[1..] + rest;
      assert p[1..] == [] || p[1..][|p[1..]| - 1] == p[|p| - 1];
      FindPairAfter(p[1..], rest, x, y);
    }
  }
}
