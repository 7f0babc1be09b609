/** The lesson sanitizer of src/lib/sanitize.ts: HTML escaping, the four
    delimiter rewrites with the semantics of a global `String.prototype.replace`,
    the newline rewrite, and the denylist check. */
module Sanitize {
  import opened Common

  // ---------------------------------------------------------------------------
  // escapeHtml

  /** The replacement of one character: its entity for the five reserved
      characters, the character itself otherwise. */
  function EscapeChar(c: char): (r: string)
    ensures !IsReserved(c) <==> r == [c]
    ensures IsReserved(c) ==> |r| >= 4 && r[0] == '&' && r[|r| - 1] == ';'
  {
    match c
    case '&' => "&amp;"
    case '<' => "&lt;"
    case '>' => "&gt;"
    case '"' => "&quot;"
    case '\'' => "&#039;"
    case _ => [c]
  }

  /** `text.replace(/[&<>"']/g, ch => map[ch])`. */
  function EscapeHtml(s: string): (r: string)
    ensures |r| >= |s|
    ensures s == [] <==> r == []
    decreases |s|
  {
    if s == [] then [] else EscapeChar(s[0]) + EscapeHtml(s[1..])
  }

  predicate IsReserved(c: char) {
    c == '&' || c == '<' || c == '>' || c == '"' || c == '\''
  }

  /** Decodes the five entities that escaping produces; every other character
      is copied. */
  function UnescapeHtml(s: string): string
    decreases |s|
  {
    if s == [] then []
    else if s[0] != '&' then [s[0]] + UnescapeHtml(s[1..])
    else if StartsWith(s, "&amp;") then ['&'] + UnescapeHtml(s[5..])
    else if StartsWith(s, "&lt;") then ['<'] + UnescapeHtml(s[4..])
    else if StartsWith(s, "&gt;") then ['>'] + UnescapeHtml(s[4..])
    else if StartsWith(s, "&quot;") then ['"'] + UnescapeHtml(s[6..])
    else if StartsWith(s, "&#039;") then ['\''] + UnescapeHtml(s[6..])
    else [s[0]] + UnescapeHtml(s[1..])
  }

  lemma {:induction false} EscapeHtmlAppend(a: string, b: string)
    ensures EscapeHtml(a + b) == EscapeHtml(a) + EscapeHtml(b)
    decreases |a|
  {
    if a == [] {
      assert a + b == b;
    } else {
      assert (a + b)[1..] == a[1..] + b;
      EscapeHtmlAppend(a[1..], b);
    }
  }

  /** No `<`, `>`, `"` or `'` survives escaping. */
  lemma {:induction false} EscapeHtmlNoMarkup(s: string)
    ensures forall i :: 0 <= i < |EscapeHtml(s)| ==>
              EscapeHtml(s)[i] != '<' && EscapeHtml(s)[i] != '>' && EscapeHtml(s)[i] != '"' && EscapeHtml(s)[i] != '\''
    decreases |s|
  {
    if s != [] {
      EscapeHtmlNoMarkup(s[1..]);
      var e, rest := EscapeChar(s[0]), EscapeHtml(s[1..]);
      assert EscapeHtml(s) == e + rest;
      forall i | 0 <= i < |e + rest|
        ensures (e + rest)[i] != '<' && (e + rest)[i] != '>' && (e + rest)[i] != '"' && (e + rest)[i] != '\''
      {
        if i >= |e| {
          assert (e + rest)[i] == rest[i - |e|];
        }
      }
    }
  }

  /** Text without reserved characters is not changed by escaping. */
  lemma {:induction false} EscapeHtmlPlain(s: string)
    requires forall i :: 0 <= i < |s| ==> !IsReserved(s[i])
    ensures EscapeHtml(s) == s
    decreases |s|
  {
    if s != [] {
      EscapeHtmlPlain(s[1..]);
    }
  }

  lemma UnescapeEscapedChar(c: char, rest: string)
    ensures UnescapeHtml(EscapeChar(c) + rest) == [c] + UnescapeHtml(rest)
  {
    match c
    case '&' => UnescapeAmp(rest);
    case '<' => UnescapeLt(rest);
    case '>' => UnescapeGt(rest);
    case '"' => UnescapeQuot(rest);
    case '\'' => UnescapeApos(rest);
    case _ => UnescapePlain(c, rest);
  }

  lemma UnescapeAmp(rest: string)
    ensures UnescapeHtml("&amp;" + rest) == "&" + UnescapeHtml(rest)
  {
    PrefixFacts("&amp;", rest);
  }

  lemma UnescapeLt(rest: string)
    ensures UnescapeHtml("&lt;" + rest) == "<" + UnescapeHtml(rest)
  {
    PrefixFacts("&lt;", rest);
    assert ("&lt;" + rest)[1] == 'l';
  }

  lemma UnescapeGt(rest: string)
    ensures UnescapeHtml("&gt;" + rest) == ">" + UnescapeHtml(rest)
  {
    PrefixFacts("&gt;", rest);
    assert ("&gt;" + rest)[1] == 'g';
  }

  lemma UnescapeQuot(rest: string)
    ensures UnescapeHtml("&quot;" + rest) == "\"" + UnescapeHtml(rest)
  {
    PrefixFacts("&quot;", rest);
    assert ("&quot;" + rest)[1] == 'q';
  }

  lemma UnescapeApos(rest: string)
    ensures UnescapeHtml("&#039;" + rest) == "'" + UnescapeHtml(rest)
  {
    PrefixFacts("&#039;", rest);
    assert ("&#039;" + rest)[1] == '#';
  }

  /** A character that is not `&` starts no entity. */
  lemma UnescapePlain(c: char, rest: string)
    requires c != '&'
    ensures UnescapeHtml([c] + rest) == [c] + UnescapeHtml(rest)
  {
    PrefixFacts([c], rest);
    assert ([c] + rest)[0] == c;
  }

  /** The characters of `e + rest` that come from `e`, and what follows. */
  lemma PrefixFacts(e: string, rest: string)
    ensures StartsWith(e + rest, e) && (e + rest)[|e|..] == rest
    ensures forall i :: 0 <= i < |e| ==> (e + rest)[i] == e[i]
  {
    assert (e + rest)[..|e|] == e;
  }

  /** Decoding the entities recovers the original text exactly. */
  lemma {:induction false} EscapeRoundTrip(s: string)
    ensures UnescapeHtml(EscapeHtml(s)) == s
    decreases |s|
  {
    if s != [] {
      UnescapeEscapedChar(s[0], EscapeHtml(s[1..]));
      EscapeRoundTrip(s[1..]);
    }
  }

  /** Escaping is injective: different texts escape differently. */
  lemma EscapeInjective(a: string, b: string)
    requires EscapeHtml(a) == EscapeHtml(b)
    ensures a == b
  {
    EscapeRoundTrip(a);
    EscapeRoundTrip(b);
  }

  // ---------------------------------------------------------------------------
  // The four delimiter rewrites

  // The tag texts are written in short pieces, which keeps facts about their
  // characters cheap to prove.
  const LessonPreClass := "bg-dungeon-stone" + " p-4" + " rounded" + " text-xs" + " overflow-x-auto" + " pixel-border" + " my-4"
  const InlineCodeClass := " class=\"" + "bg-dungeon-stone" + " px-1" + " rounded" + " text-emerald" + " text-xs" + "\">"
  const InlineCodeOpen := "<code" + InlineCodeClass
  const StrongOpen := "<strong" + " class=\"text-gold\">"

  /** One `replace` call: fenced code block (with the class of its `<pre>`),
      inline code, bold, italic. */
  datatype Rule = CodeBlock(preClass: string) | InlineCode | Bold | Italic

  /** Where a match lies in the text it starts: the captured group is
      `[bodyStart, bodyEnd)` and the match ends at `end`. */
  datatype Span = Span(bodyStart: nat, bodyEnd: nat, end: nat)

  /** The character every match of the rule starts and its group ends before. */
  function Delim(r: Rule): char {
    if r.CodeBlock? || r.InlineCode? then '`' else '*'
  }

  function Open(r: Rule): string {
    match r
    case CodeBlock(c) => "<pre " + "class=\"" + c + "\">" + "<code" + ">"
    case InlineCode => InlineCodeOpen
    case Bold => StrongOpen
    case Italic => "<em>"
  }

  function Close(r: Rule): string {
    match r
    case CodeBlock(_) => "</code>" + "</pre>"
    case InlineCode => "</code>"
    case Bold => "</strong>"
    case Italic => "</em>"
  }

  /** The first index at or after `i` that is not a `\w` character. */
  function WordRunEnd(s: string, i: nat): (e: nat)
    requires i <= |s|
    ensures i <= e <= |s|
    ensures forall k :: i <= k < e ==> IsWordChar(s[k])
    ensures e < |s| ==> !IsWordChar(s[e])
    decreases |s| - i
  {
    if i < |s| && IsWordChar(s[i]) then WordRunEnd(s, i + 1) else i
  }

  /** The first index at or after `k` where a character `c` stands. */
  function FindChar(s: string, c: char, k: nat): (r: Option<nat>)
    requires k <= |s|
    ensures r.Some? ==> k <= r.value < |s| && s[r.value] == c
    ensures r.Some? ==> forall i :: k <= i < r.value ==> s[i] != c
    ensures r.None? ==> forall i :: k <= i < |s| ==> s[i] != c
    decreases |s| - k
  {
    if k == |s| then None else if s[k] == c then Some(k) else FindChar(s, c, k + 1)
  }

  /** The first index at or after `k` where "```" stands (the lazy `[\s\S]*?`). */
  function FindFence(s: string, k: nat): (r: Option<nat>)
    requires k <= |s|
    ensures r.Some? ==> k <= r.value && r.value + 3 <= |s| && s[r.value..r.value + 3] == "```"
    ensures r.Some? ==> forall i :: k <= i < r.value ==> !StartsWith(s[i..], "```")
    ensures r.None? ==> forall i :: k <= i <= |s| ==> !StartsWith(s[i..], "```")
    decreases |s| - k
  {
    if k + 3 > |s| then None
    else if s[k..k + 3] == "```" then Some(k)
    else
      assert !StartsWith(s[k..], "```") by { assert s[k..][..3] == s[k..k + 3]; }
      FindFence(s, k + 1)
  }

  /** The lazy `(.*?)\*\*` of the bold pattern, tried from index `k`: the
      shortest run of characters other than line terminators that is followed
      by "**". */
  function FindBoldEnd(s: string, k: nat): (r: Option<nat>)
    requires k <= |s|
    ensures r.Some? ==> k <= r.value && r.value + 2 <= |s| && s[r.value..r.value + 2] == "**"
    ensures r.Some? ==> forall i :: k <= i < r.value ==> !IsLineTerminator(s[i])
    ensures r.Some? ==> forall i :: k <= i < r.value ==> !StartsWith(s[i..], "**")
    ensures r.None? ==> forall i :: k <= i <= |s| && (forall j :: k <= j < i ==> !IsLineTerminator(s[j])) ==>
                          !StartsWith(s[i..], "**")
    decreases |s| - k
  {
    if k + 2 <= |s| && s[k..k + 2] == "**" then Some(k)
    else if k < |s| && !IsLineTerminator(s[k]) then FindBoldEnd(s, k + 1)
    else None
  }

  // The match of the rule's regular expression that starts at index 0, if any:
  //  - code block: "```", a word run (possibly empty), a newline, then the
  //    shortest text up to the next "```";
  //  - inline code: a backtick, a non-empty backtick-free group, a backtick;
  //  - bold: "**", the shortest possibly empty group without a line
  //    terminator, "**";
  //  - italic: "*", a non-empty group without "*", "*".
  function MatchAt(r: Rule, s: string): (m: Option<Span>)
    ensures m.Some? ==> 0 < m.value.bodyStart <= m.value.bodyEnd < m.value.end <= |s|
    ensures m.Some? ==> s[0] == Delim(r) && s[m.value.bodyEnd] == Delim(r)
    ensures m.Some? && (r.InlineCode? || r.Italic?) ==>
              m.value == Span(1, m.value.bodyEnd, m.value.bodyEnd + 1) && m.value.bodyEnd > 1
              && forall i :: 1 <= i < m.value.bodyEnd ==> s[i] != Delim(r)
    ensures m.Some? && r.Bold? ==>
              m.value == Span(2, m.value.bodyEnd, m.value.bodyEnd + 2)
              && forall i :: 2 <= i < m.value.bodyEnd ==> !IsLineTerminator(s[i])
  {
    match r
    case CodeBlock(_) =>
      if !StartsWith(s, "```") then None
      else
        var w := WordRunEnd(s, 3);
        if w < |s| && s[w] == '\n' then
          var f := FindFence(s, w + 1);
          if f.Some? then Some(Span(w + 1, f.value, f.value + 3)) else None
        else None
    case InlineCode =>
      if s == [] || s[0] != '`' then None
      else
        var q := FindChar(s, '`', 1);
        if q.Some? && q.value > 1 then Some(Span(1, q.value, q.value + 1)) else None
    case Bold =>
      if !StartsWith(s, "**") then None
      else
        var k := FindBoldEnd(s, 2);
        if k.Some? then
          assert s[k.value] == s[k.value..k.value + 2][0];
          Some(Span(2, k.value, k.value + 2))
        else None
    case Italic =>
      if s == [] || s[0] != '*' then None
      else
        var q := FindChar(s, '*', 1);
        if q.Some? && q.value > 1 then Some(Span(1, q.value, q.value + 1)) else None
  }

  /** `s.replace(regex, replacement)` with the `g` flag: scanning left to right,
      the leftmost match is replaced by the rule's tags around its group and the
      scan resumes after it. */
  function Pass(r: Rule, s: string): (p: string)
    ensures s == [] <==> p == []
    ensures Delim(r) !in s ==> p == s
    decreases |s|
  {
    if s == [] then []
    else
      match MatchAt(r, s)
      case Some(sp) => Open(r) + s[sp.bodyStart..sp.bodyEnd] + Close(r) + Pass(r, s[sp.end..])
      case None =>
        assert Delim(r) !in s ==> Delim(r) !in s[1..];
        [s[0]] + Pass(r, s[1..])
  }

  /** `s.replace(/\n/g, '<br/>')`. */
  function Breaks(s: string): (r: string)
    ensures |r| >= |s|
    decreases |s|
  {
    if s == [] then [] else (if s[0] == '\n' then "<br/>" else [s[0]]) + Breaks(s[1..])
  }

  /** The lesson transform of `parseLesson`. */
  function ParseLesson(content: string): (r: string)
    ensures content == "" ==> r == ""
    ensures forall i :: 0 <= i < |r| ==> r[i] != '\n'
  {
    if content == "" then ""
    else
      var escaped := EscapeHtml(content);
      var blocks := Pass(CodeBlock(LessonPreClass), escaped);
      var inline := Pass(InlineCode, blocks);
      var bold := Pass(Bold, inline);
      var italic := Pass(Italic, bold);
      BreaksNoNewline(italic);
      Breaks(italic)
  }

  // ---------------------------------------------------------------------------
  // Text the rewrites leave alone

  /** A character other than the rule's delimiter is copied. */
  lemma PassNoMatch(r: Rule, c: char, y: string)
    requires c != Delim(r)
    ensures Pass(r, [c] + y) == [c] + Pass(r, y)
  {
    var u := [c] + y;
    assert MatchAt(r, u).None?;
    assert u[1..] == y;
  }

  /** A prefix without the rule's delimiter is copied, and the scan goes on after it. */
  lemma {:induction false} PassPrefix(r: Rule, p: string, x: string)
    requires Delim(r) !in p
    ensures Pass(r, p + x) == p + Pass(r, x)
    decreases |p|
  {
    if p == [] {
      assert p + x == x;
    } else {
      var tail := p[1..];
      assert Delim(r) !in tail by { HeadTail(p, x); }
      PassPrefix(r, tail, x);
      PassNoMatch(r, p[0], tail + x);
      HeadTail(p, x);
      HeadTail(p, Pass(r, x));
    }
  }

  lemma HeadTail(p: string, x: string)
    requires p != []
    ensures [p[0]] + (p[1..] + x) == p + x
    ensures forall c :: c in p[1..] ==> c in p
  {
    assert p == [p[0]] + p[1..];
  }

  lemma PassPlain(r: Rule, s: string)
    requires forall i :: 0 <= i < |s| ==> s[i] != Delim(r)
    ensures Pass(r, s) == s
  {
    assert Delim(r) !in s;
    PassPrefix(r, s, []);
    assert s + [] == s;
  }

  lemma {:induction false} BreaksPrefix(p: string, x: string)
    requires forall i :: 0 <= i < |p| ==> p[i] != '\n'
    ensures Breaks(p + x) == p + Breaks(x)
    decreases |p|
  {
    if p == [] {
      assert p + x == x;
    } else {
      assert (p + x)[1..] == p[1..] + x;
      BreaksPrefix(p[1..], x);
    }
  }

  /** No newline survives the final rewrite. */
  lemma {:induction false} BreaksNoNewline(s: string)
    ensures forall i :: 0 <= i < |Breaks(s)| ==> Breaks(s)[i] != '\n'
    decreases |s|
  {
    if s != [] {
      BreaksNoNewline(s[1..]);
      var h, t := (if s[0] == '\n' then "<br/>" else [s[0]]), Breaks(s[1..]);
      forall i | 0 <= i < |h + t| ensures (h + t)[i] != '\n' {
        if i >= |h| {
          assert (h + t)[i] == t[i - |h|];
        }
      }
    }
  }

  // ---------------------------------------------------------------------------
  // Every `<` begins one of the inserted tags

  const TagPrefixes: seq<string> :=
    ["<pre ", "<code", "</code>", "</pre>", "<strong", "</strong>", "<em>", "</em>", "<br/>"]

  predicate StartsWithTag(u: string) {
    exists t :: t in TagPrefixes && StartsWith(u, t)
  }

  /** Every `<` of `s` begins a tag of the sanitizer's own. */
  predicate TagsOnly(s: string) {
    forall i :: 0 <= i < |s| && s[i] == '<' ==> StartsWithTag(s[i..])
  }

  /** A character that occurs in no tag prefix: a match can neither start nor
      end inside a tag. */
  predicate OutsideTags(c: char) {
    forall t :: t in TagPrefixes ==> c !in t
  }

  lemma DelimitersOutsideTags()
    ensures OutsideTags('`') && OutsideTags('*') && OutsideTags('\n')
  {
    forall t | t in TagPrefixes
      ensures '`' !in t && '*' !in t && '\n' !in t
    {
      TagPrefixShape(t);
    }
  }

  lemma {:induction false} TagsOnlyConcat(a: string, b: string)
    requires TagsOnly(a) && TagsOnly(b)
    ensures TagsOnly(a + b)
  {
    var s := a + b;
    forall i | 0 <= i < |s| && s[i] == '<' ensures StartsWithTag(s[i..]) {
      if i < |a| {
        assert a[i] == '<';
        var t :| t in TagPrefixes && StartsWith(a[i..], t);
        assert s[i..] == a[i..] + b;
        assert s[i..][..|t|] == a[i..][..|t|];
      } else {
        assert s[i..] == b[i - |a|..];
        assert b[i - |a|] == '<';
      }
    }
  }

  lemma TagsOnlySuffix(s: string, k: nat)
    requires TagsOnly(s) && k <= |s|
    ensures TagsOnly(s[k..])
  {
    var u := s[k..];
    forall i | 0 <= i < |u| && u[i] == '<' ensures StartsWithTag(u[i..]) {
      assert u[i..] == s[k + i..];
      assert s[k + i] == '<';
    }
  }

  /** Cutting just before a character that occurs in no tag cuts no tag. */
  lemma TagsOnlyCut(s: string, e: nat)
    requires TagsOnly(s) && e < |s| && OutsideTags(s[e])
    ensures TagsOnly(s[..e])
  {
    var u := s[..e];
    forall i | 0 <= i < |u| && u[i] == '<' ensures StartsWithTag(u[i..]) {
      assert s[i] == '<';
      var t :| t in TagPrefixes && StartsWith(s[i..], t);
      assert i + |t| <= e;
      assert u[i..][..|t|] == s[i..][..|t|];
    }
  }

  lemma NoLtTagsOnly(s: string)
    requires '<' !in s
    ensures TagsOnly(s)
  {
  }

  /** A string that starts with a tag prefix and holds no other `<`. */
  lemma OneTagTagsOnly(u: string, t: string)
    requires t in TagPrefixes && StartsWith(u, t)
    requires |u| > 0 && '<' !in u[1..]
    ensures TagsOnly(u)
  {
    forall i | 0 <= i < |u| && u[i] == '<' ensures StartsWithTag(u[i..]) {
      assert i == 0;
      assert u[0..] == u;
    }
  }

  lemma TagPrefixesTagsOnly(t: string)
    requires t in TagPrefixes
    ensures TagsOnly(t) && |t| >= 4 && t[0] == '<'
    ensures '`' !in t && '*' !in t && '\n' !in t
  {
    TagPrefixShape(t);
    assert StartsWith(t, t);
    OneTagTagsOnly(t, t);
  }

  /** Each tag prefix is one `<` followed by at least three characters, none
      of them a delimiter of the rewrites. */
  lemma TagPrefixShape(t: string)
    requires t in TagPrefixes
    ensures |t| >= 4 && t[0] == '<' && '<' !in t[1..]
    ensures '`' !in t && '*' !in t && '\n' !in t
    ensures TagHead(t)
  {
    var k :| 0 <= k < |TagPrefixes| && TagPrefixes[k] == t;
    if k < 3 {
      OpeningTagShape(t);
    } else if k < 6 {
      MiddleTagShape(t);
    } else {
      ClosingTagShape(t);
    }
  }

  predicate PlainTag(t: string) {
    |t| >= 4 && t[0] == '<' && '<' !in t[1..] && '`' !in t && '*' !in t && '\n' !in t && TagHead(t)
  }

  /** The second to fourth characters of a tag prefix, as far as they tell it
      from a denylisted tag name. */
  predicate TagHead(t: string)
    requires |t| >= 4
  {
    t[1] == 'p' || t[1] == 'c' || t[1] == '/' || t[1] == 'b'
    || (t[1] == 's' && t[2] == 't' && t[3] == 'r')
    || (t[1] == 'e' && t[2] == 'm' && t[3] == '>')
  }

  /** The same characters of a denylisted tag name. */
  predicate PatternHead(p: string) {
    |p| >= 4 &&
    (p[1] == 'i' || p[1] == 'o' || p[1] == 'l'
     || (p[1] == 's' && (p[2] == 'c' || p[3] == 'y'))
     || (p[1] == 'e' && p[3] == 'b'))
  }

  lemma PatternHeadOf(p: string)
    requires p in TagPatterns
    ensures PatternHead(p)
  {
    var k :| 0 <= k < |TagPatterns| && TagPatterns[k] == p;
    if k < 3 {
      assert p == "<script" || p == "<iframe" || p == "<object";
    } else {
      assert p == "<embed" || p == "<link" || p == "<style";
    }
  }

  lemma OpeningTagShape(t: string)
    requires t == "<pre " || t == "<code" || t == "</code>"
    ensures PlainTag(t)
  {
  }

  lemma MiddleTagShape(t: string)
    requires t == "</pre>" || t == "<strong" || t == "</strong>"
    ensures PlainTag(t)
  {
  }

  lemma ClosingTagShape(t: string)
    requires t == "<em>" || t == "</em>" || t == "<br/>"
    ensures PlainTag(t)
  {
  }

  /** The class attribute of a code block holds no `<`. */
  predicate WellFormedRule(r: Rule) {
    r.CodeBlock? ==> '<' !in r.preClass
  }

  /** A tag prefix followed by text without `<`. */
  lemma TagThenText(t: string, x: string)
    requires t in TagPrefixes && '<' !in x
    ensures TagsOnly(t + x)
  {
    TagPrefixesTagsOnly(t);
    NoLtTagsOnly(x);
    TagsOnlyConcat(t, x);
  }

  lemma PreOpenTagsOnly(c: string)
    requires '<' !in c
    ensures TagsOnly("<pre " + ("class=\"" + c + "\">"))
  {
    var a := "class=\"" + c + "\">";
    assert '<' !in a;
    TagThenText("<pre ", a);
  }

  lemma CodeBlockTagsOnly(c: string)
    requires '<' !in c
    ensures TagsOnly(Open(CodeBlock(c))) && TagsOnly(Close(CodeBlock(c)))
  {
    var x, y := "<pre " + ("class=\"" + c + "\">"), "<code" + ">";
    assert Open(CodeBlock(c)) == x + y;
    PreOpenTagsOnly(c);
    TagThenText("<code", ">");
    TagsOnlyConcat(x, y);
    CloseCodeBlockTagsOnly();
  }

  lemma CloseCodeBlockTagsOnly()
    ensures TagsOnly("</code>" + "</pre>")
  {
    TagPrefixesTagsOnly("</code>");
    TagPrefixesTagsOnly("</pre>");
    TagsOnlyConcat("</code>", "</pre>");
  }

  lemma InlineCodeTagsOnly()
    ensures TagsOnly(Open(InlineCode)) && TagsOnly(Close(InlineCode))
  {
    var a := " class=\"";
    a := a + "bg-dungeon-stone";
    assert '<' !in a;
    a := a + " px-1";
    a := a + " rounded";
    assert '<' !in a;
    a := a + " text-emerald";
    a := a + " text-xs";
    assert '<' !in a;
    a := a + "\">";
    assert '<' !in a;
    assert a == InlineCodeClass;
    TagThenText("<code", a);
    TagPrefixesTagsOnly("</code>");
  }

  lemma BoldTagsOnly()
    ensures TagsOnly(Open(Bold)) && TagsOnly(Close(Bold))
  {
    TagThenText("<strong", " class=\"text-gold\">");
    TagPrefixesTagsOnly("</strong>");
  }

  lemma ItalicTagsOnly()
    ensures TagsOnly(Open(Italic)) && TagsOnly(Close(Italic))
  {
    TagPrefixesTagsOnly("<em>");
    TagPrefixesTagsOnly("</em>");
  }

  lemma RuleTagsOnly(r: Rule)
    requires WellFormedRule(r)
    ensures TagsOnly(Open(r)) && TagsOnly(Close(r))
  {
    match r
    case CodeBlock(c) => CodeBlockTagsOnly(c);
    case InlineCode => InlineCodeTagsOnly();
    case Bold => BoldTagsOnly();
    case Italic => ItalicTagsOnly();
  }

  lemma DelimOutsideTags(r: Rule)
    ensures OutsideTags(Delim(r))
  {
    DelimitersOutsideTags();
  }

  /** A rewrite keeps every `<` at the start of a tag. */
  lemma {:induction false} PassTagsOnly(r: Rule, s: string)
    requires WellFormedRule(r) && TagsOnly(s)
    ensures TagsOnly(Pass(r, s))
    decreases |s|
  {
    if s != [] {
      DelimOutsideTags(r);
      if s[0] == '<' {
        assert s[0..] == s;
        var t :| t in TagPrefixes && StartsWith(s, t);
        TagPrefixesTagsOnly(t);
        var rest := s[|t|..];
        assert s == t + rest;
        assert Delim(r) !in t;
        PassPrefix(r, t, rest);
        TagsOnlySuffix(s, |t|);
        PassTagsOnly(r, rest);
        TagsOnlyConcat(t, Pass(r, rest));
      } else {
        match MatchAt(r, s)
        case Some(sp) =>
          RuleTagsOnly(r);
          TagsOnlyCut(s, sp.bodyEnd);
          TagsOnlySuffix(s[..sp.bodyEnd], sp.bodyStart);
          assert s[..sp.bodyEnd][sp.bodyStart..] == s[sp.bodyStart..sp.bodyEnd];
          TagsOnlySuffix(s, sp.end);
          PassTagsOnly(r, s[sp.end..]);
          TagsOnlyConcat(Open(r), s[sp.bodyStart..sp.bodyEnd]);
          TagsOnlyConcat(Open(r) + s[sp.bodyStart..sp.bodyEnd], Close(r));
          TagsOnlyConcat(Open(r) + s[sp.bodyStart..sp.bodyEnd] + Close(r), Pass(r, s[sp.end..]));
        case None =>
          TagsOnlySuffix(s, 1);
          PassTagsOnly(r, s[1..]);
          NoLtTagsOnly([s[0]]);
          TagsOnlyConcat([s[0]], Pass(r, s[1..]));
      }
    }
  }

  lemma {:induction false} BreaksTagsOnly(s: string)
    requires TagsOnly(s)
    ensures TagsOnly(Breaks(s))
    decreases |s|
  {
    if s != [] {
      DelimitersOutsideTags();
      if s[0] == '<' {
        assert s[0..] == s;
        var t :| t in TagPrefixes && StartsWith(s, t);
        TagPrefixesTagsOnly(t);
        var rest := s[|t|..];
        assert s == t + rest;
        BreaksPrefix(t, rest);
        TagsOnlySuffix(s, |t|);
        BreaksTagsOnly(rest);
        TagsOnlyConcat(t, Breaks(rest));
      } else {
        var h := if s[0] == '\n' then "<br/>" else [s[0]];
        if s[0] == '\n' {
          OneTagTagsOnly(h, "<br/>");
        } else {
          NoLtTagsOnly(h);
        }
        TagsOnlySuffix(s, 1);
        BreaksTagsOnly(s[1..]);
        TagsOnlyConcat(h, Breaks(s[1..]));
      }
    }
  }

  lemma EscapeHtmlTagsOnly(s: string)
    ensures TagsOnly(EscapeHtml(s))
  {
    EscapeHtmlNoMarkup(s);
    var e := EscapeHtml(s);
    assert forall i :: 0 <= i < |e| ==> e[i] != '<';
  }

  // ---------------------------------------------------------------------------
  // Properties of parseLesson

  /** Every `<` of the result begins an inserted `pre`/`code`/`strong`/`em`/`br`
      tag or closer, and no newline is left. */
  lemma ParseLessonShape(content: string)
    ensures TagsOnly(ParseLesson(content))
    ensures forall i :: 0 <= i < |ParseLesson(content)| ==> ParseLesson(content)[i] != '\n'
  {
    if content != "" {
      var escaped := EscapeHtml(content);
      EscapeHtmlTagsOnly(content);
      var italic := LessonPassesTagsOnly(escaped);
      BreaksTagsOnly(italic);
      BreaksNoNewline(italic);
    }
  }

  /** The four rewrites of `parseLesson` keep `TagsOnly`. */
  lemma LessonPassesTagsOnly(escaped: string) returns (italic: string)
    requires TagsOnly(escaped)
    ensures italic == Pass(Italic, Pass(Bold, Pass(InlineCode, Pass(CodeBlock(LessonPreClass), escaped))))
    ensures TagsOnly(italic)
  {
    LessonPreClassWellFormed();
    var blocks := Pass(CodeBlock(LessonPreClass), escaped);
    PassTagsOnly(CodeBlock(LessonPreClass), escaped);
    var inline := Pass(InlineCode, blocks);
    PassTagsOnly(InlineCode, blocks);
    var bold := Pass(Bold, inline);
    PassTagsOnly(Bold, inline);
    italic := Pass(Italic, bold);
    PassTagsOnly(Italic, bold);
  }

  lemma LessonPreClassWellFormed()
    ensures WellFormedRule(CodeBlock(LessonPreClass))
  {
    var c := "bg-dungeon-stone";
    assert '<' !in c;
    c := c + " p-4";
    c := c + " rounded";
    c := c + " text-xs";
    assert '<' !in c;
    c := c + " overflow-x-auto";
    c := c + " pixel-border";
    c := c + " my-4";
    assert '<' !in c;
    assert c == LessonPreClass;
  }

  /** Text with none of `&<>"'`, backtick, `*` or newline comes back unchanged. */
  lemma ParseLessonPlain(content: string)
    requires forall i :: 0 <= i < |content| ==>
               !IsReserved(content[i]) && content[i] != '`' && content[i] != '*' && content[i] != '\n'
    ensures ParseLesson(content) == content
  {
    if content != "" {
      EscapeHtmlPlain(content);
      PassPlain(CodeBlock(LessonPreClass), content);
      PassPlain(InlineCode, content);
      PassPlain(Bold, content);
      PassPlain(Italic, content);
      BreaksPrefix(content, []);
      assert content + [] == content;
    }
  }

  lemma BoldFourStars()
    ensures Pass(Bold, "****") == StrongOpen + "</strong>"
  {
    var s := "****";
    assert s[2..4] == "**";
    assert FindBoldEnd(s, 2) == Some(2);
    assert MatchAt(Bold, s) == Some(Span(2, 2, 4));
    assert s[2..2] == [] && s[4..] == [];
  }

  lemma EmptyStrongPlain()
    ensures var out := StrongOpen + "</strong>";
      Pass(Italic, out) == out && Breaks(out) == out
  {
    var out := StrongOpen + "</strong>";
    assert '*' !in out && '\n' !in out;
    PassPlain(Italic, out);
    BreaksPrefix(out, []);
    assert out + [] == out;
  }

  /** `****` is an empty bold element. */
  lemma ParseLessonEmptyBold()
    ensures ParseLesson("****") == StrongOpen + "</strong>"
  {
    var s := "****";
    EscapeHtmlPlain(s);
    PassPlain(CodeBlock(LessonPreClass), s);
    PassPlain(InlineCode, s);
    BoldFourStars();
    EmptyStrongPlain();
  }

  /** An inline-code or italic group is never empty and never holds its
      delimiter; a bold group holds no line terminator. */
  lemma GroupShapes(r: Rule, s: string)
    requires MatchAt(r, s).Some?
    ensures var sp := MatchAt(r, s).value;
      (r.InlineCode? || r.Italic?) ==>
        |s[sp.bodyStart..sp.bodyEnd]| >= 1 && Delim(r) !in s[sp.bodyStart..sp.bodyEnd]
    ensures var sp := MatchAt(r, s).value;
      r.Bold? ==> forall c :: c in s[sp.bodyStart..sp.bodyEnd] ==> !IsLineTerminator(c)
  {
    var sp := MatchAt(r, s).value;
    var g := s[sp.bodyStart..sp.bodyEnd];
    assert forall k :: 0 <= k < |g| ==> g[k] == s[sp.bodyStart + k];
  }

  // ---------------------------------------------------------------------------
  // isSafeHtml

  /** A case-insensitive pattern of the denylist. */
  datatype Pattern = Literal(text: string) | EventHandler

  const DangerousPatterns: seq<Pattern> := [
    Literal("<script"), Literal("javascript:"), EventHandler, Literal("<iframe"),
    Literal("<object"), Literal("<embed"), Literal("<link"), Literal("<style")
  ]

  const TagPatterns: seq<string> := ["<script", "<iframe", "<object", "<embed", "<link", "<style"]

  /** The index after a run of `\s` characters starting at `i`. */
  function SpaceRunEnd(s: string, i: nat): (e: nat)
    requires i <= |s|
    ensures i <= e <= |s|
    decreases |s| - i
  {
    if i < |s| && IsJsWhitespace(s[i]) then SpaceRunEnd(s, i + 1) else i
  }

  /** The lower-case literal `p` stands at the start of `u`, ignoring ASCII case. */
  predicate LiteralAt(u: string, p: string) {
    |p| <= |u| && forall j :: 0 <= j < |p| ==> AsciiLower(u[j]) == p[j]
  }

  /** `/on\w+\s*=/i` matches at the start of `u`. */
  predicate EventHandlerAt(u: string) {
    |u| >= 3 && AsciiLower(u[0]) == 'o' && AsciiLower(u[1]) == 'n' && IsWordChar(u[2])
    && var e := SpaceRunEnd(u, WordRunEnd(u, 2));
       e < |u| && u[e] == '='
  }

  predicate MatchesAt(p: Pattern, u: string) {
    match p
    case Literal(t) => LiteralAt(u, t)
    case EventHandler => EventHandlerAt(u)
  }

  /** `pattern.test(h)`: a match starts at some index. */
  predicate Occurs(p: Pattern, h: string)
    decreases |h|
  {
    MatchesAt(p, h) || (h != [] && Occurs(p, h[1..]))
  }

  predicate AnyOccurs(ps: seq<Pattern>, h: string)
    decreases |ps|
  {
    ps != [] && (Occurs(ps[0], h) || AnyOccurs(ps[1..], h))
  }

  /** `!dangerousPatterns.some(p => p.test(html))`. */
  function IsSafeHtml(h: string): (safe: bool)
    ensures safe <==> forall k :: 0 <= k < |DangerousPatterns| ==> !Occurs(DangerousPatterns[k], h)
  {
    AnyOccursIff(DangerousPatterns, h);
    !AnyOccurs(DangerousPatterns, h)
  }

  lemma {:induction false} OccursAt(p: Pattern, h: string)
    ensures Occurs(p, h) <==> exists i :: 0 <= i <= |h| && MatchesAt(p, h[i..])
    decreases |h|
  {
    if h == [] {
      assert h[0..] == h;
    } else {
      OccursAt(p, h[1..]);
      if Occurs(p, h) {
        if MatchesAt(p, h) {
          assert h[0..] == h;
        } else {
          var i :| 0 <= i <= |h[1..]| && MatchesAt(p, h[1..][i..]);
          assert h[1..][i..] == h[i + 1..];
        }
      }
      if exists i :: 0 <= i <= |h| && MatchesAt(p, h[i..]) {
        var i :| 0 <= i <= |h| && MatchesAt(p, h[i..]);
        if i == 0 {
          assert h[0..] == h;
        } else {
          assert h[1..][i - 1..] == h[i..];
          assert Occurs(p, h[1..]);
        }
      }
    }
  }

  lemma {:induction false} AnyOccursIff(ps: seq<Pattern>, h: string)
    ensures AnyOccurs(ps, h) <==> exists k :: 0 <= k < |ps| && Occurs(ps[k], h)
    decreases |ps|
  {
    if ps != [] {
      AnyOccursIff(ps[1..], h);
      if AnyOccurs(ps[1..], h) {
        var k :| 0 <= k < |ps[1..]| && Occurs(ps[1..][k], h);
        assert ps[k + 1] == ps[1..][k];
      }
      if exists k :: 0 <= k < |ps| && Occurs(ps[k], h) {
        var k :| 0 <= k < |ps| && Occurs(ps[k], h);
        if k > 0 {
          assert ps[1..][k - 1] == ps[k];
        }
      }
    }
  }

  /** `isSafeHtml(h)` is false exactly when some denylist pattern matches at
      some index of `h`. */
  lemma IsSafeHtmlIff(h: string)
    ensures !IsSafeHtml(h) <==>
      exists k, i :: 0 <= k < |DangerousPatterns| && 0 <= i <= |h| && MatchesAt(DangerousPatterns[k], h[i..])
  {
    AnyOccursIff(DangerousPatterns, h);
    forall k | 0 <= k < |DangerousPatterns| {
      OccursAt(DangerousPatterns[k], h);
    }
  }

  function Head4(u: string): string
    requires |u| >= 4
  {
    [AsciiLower(u[0]), AsciiLower(u[1]), AsciiLower(u[2]), AsciiLower(u[3])]
  }

  /** No tag prefix agrees with a tag pattern on its first four characters. */
  lemma HeadsDiffer(t: string, p: string)
    requires t in TagPrefixes && p in TagPatterns
    ensures |t| >= 4 && |p| >= 4 && Head4(t) != p[..4]
  {
    TagPrefixShape(t);
    PatternHeadOf(p);
    var h := Head4(t);
    assert h[1] == t[1] && h[2] == AsciiLower(t[2]) && h[3] == AsciiLower(t[3]);
    assert p[..4][1] == p[1] && p[..4][2] == p[2] && p[..4][3] == p[3];
  }

  /** In a text whose every `<` starts a sanitizer tag, none of the tag patterns
      of the denylist (`<script`, `<iframe`, `<object`, `<embed`, `<link`,
      `<style`) matches anywhere. */
  lemma TagsOnlyNoDangerousTag(s: string, i: nat, p: string)
    requires TagsOnly(s) && i <= |s| && p in TagPatterns
    ensures !LiteralAt(s[i..], p)
  {
    if LiteralAt(s[i..], p) {
      var u := s[i..];
      HeadsDiffer("<pre ", p);
      assert AsciiLower(u[0]) == p[0] == '<';
      assert s[i] == '<';
      var t :| t in TagPrefixes && StartsWith(u, t);
      HeadsDiffer(t, p);
    }
  }

  /** No lesson, whatever its text, renders into a `<script`, `<iframe`,
      `<object`, `<embed`, `<link` or `<style` tag. */
  lemma ParseLessonNoDangerousTag(content: string, i: nat, p: string)
    requires i <= |ParseLesson(content)| && p in TagPatterns
    ensures !MatchesAt(Literal(p), ParseLesson(content)[i..])
  {
    ParseLessonShape(content);
    TagsOnlyNoDangerousTag(ParseLesson(content), i, p);
  }
}
