/**
 The two HTML-to-text passes: the indexer's, which also drops the content of script and
 style elements, and the parser's snippet pass, a two-state machine over characters.
 */
module HtmlText {
  import opened Wrappers
  import opened Strings

  /** The closing tag to look for when the text of this element is to be dropped too. */
  function RawClose(tag: string): Option<string> {
    if StartsWith(Lower(tag), "<script") then Some("</script")
    else if StartsWith(Lower(tag), "<style") then Some("</style")
    else None
  }

  /** Just past what starts here: a tag, or a whole script or style element; None when unterminated. */
  function TagEnd(tag: string): (r: Option<nat>)
    ensures r.Some? ==> 0 < r.value <= |tag|
  {
    match RawClose(tag)
    case None => (match Find(tag, '>') case None => None case Some(g) => Some(g + 1))
    case Some(close) =>
      match FindStr(Lower(tag), close)
      case None => None
      case Some(e) => match Find(tag[e..], '>') case None => None case Some(g) => Some(e + g + 1)
  }

  function IndexText(s: string): string
    decreases |s|
  {
    match Find(s, '<')
    case None => s
    case Some(lt) =>
      match TagEnd(s[lt..])
      case None => s[..lt]
      case Some(n) => s[..lt] + IndexText(s[lt..][n..])
  }

  lemma IndexTextUnfolds(s: string)
    ensures match Find(s, '<')
            case None => IndexText(s) == s
            case Some(lt) =>
              match TagEnd(s[lt..])
              case None => IndexText(s) == s[..lt]
              case Some(n) => IndexText(s) == s[..lt] + IndexText(s[lt..][n..])
  {}

  method IndexHtmlToText(html: string) returns (out: string)
    ensures out == IndexText(html)
  {
    hide Find, TagEnd, IndexText;
    out := "";
    var rest := html;
    while true
      invariant out + IndexText(rest) == IndexText(html)
      decreases |rest|
    {
      IndexTextUnfolds(rest);
      var lt := Find(rest, '<');
      if lt.None? { break; }
      var text, tag := rest[..lt.value], rest[lt.value..];
      var end := TagEnd(tag);
      if end.None? { return out + text; }
      Associates(out, text, IndexText(tag[end.value..]));
      out := out + text;
      rest := tag[end.value..];
    }
    out := out + rest;
  }

  function SnippetText(s: string, inTag: bool): string {
    if s == "" then ""
    else if s[0] == '<' then SnippetText(s[1..], true)
    else if s[0] == '>' then SnippetText(s[1..], false)
    else if !inTag then [s[0]] + SnippetText(s[1..], inTag)
    else SnippetText(s[1..], inTag)
  }

  method SnippetHtmlToText(html: string) returns (out: string)
    ensures out == SnippetText(html, false)
  {
    out := "";
    var inTag := false;
    var i := 0;
    while i < |html|
      invariant i <= |html|
      invariant out + SnippetText(html[i..], inTag) == SnippetText(html, false)
    {
      var c := html[i];
      assert html[i..][1..] == html[i + 1..];
      if c == '<' { inTag := true; }
      else if c == '>' { inTag := false; }
      else if !inTag { out := out + [c]; }
      i := i + 1;
    }
  }

  predicate Subsequence(a: string, b: string) {
    if b == "" then a == ""
    else (a != "" && a[0] == b[0] && Subsequence(a[1..], b[1..])) || Subsequence(a, b[1..])
  }

  lemma {:induction false} SubsequenceSkips(a: string, b: string, n: nat)
    requires n <= |b| && Subsequence(a, b[n..])
    ensures Subsequence(a, b)
    decreases n
  {
    if n == 0 {
      assert b[0..] == b;
    } else {
      assert b[1..][n - 1..] == b[n..];
      SubsequenceSkips(a, b[1..], n - 1);
    }
  }

  lemma {:induction false} SubsequenceKeeps(p: string, a: string, b: string)
    requires Subsequence(a, b)
    ensures Subsequence(p + a, p + b)
  {
    if p == "" {
      assert p + a == a && p + b == b;
    } else {
      SubsequenceKeeps(p[1..], a, b);
      assert (p + a)[1..] == p[1..] + a && (p + b)[1..] == p[1..] + b;
    }
  }

  /** The indexed text is a subsequence of the markup and holds no tag opener. */
  lemma {:induction false} IndexTextOnlyDrops(s: string)
    ensures Subsequence(IndexText(s), s)
    ensures '<' !in IndexText(s)
    decreases |s|
  {
    var lt := Find(s, '<');
    if lt.None? {
      SubsequenceKeeps(s, "", "");
      assert s + "" == s;
    } else {
      var tag := s[lt.value..];
      assert s[..lt.value] + tag == s;
      var end := TagEnd(tag);
      if end.None? {
        assert tag[|tag|..] == "";
        SubsequenceSkips("", tag, |tag|);
        SubsequenceKeeps(s[..lt.value], "", tag);
        assert s[..lt.value] + "" == s[..lt.value];
      } else {
        var rest := tag[end.value..];
        IndexTextOnlyDrops(rest);
        SubsequenceSkips(IndexText(rest), tag, end.value);
        SubsequenceKeeps(s[..lt.value], IndexText(rest), tag);
      }
    }
  }

  lemma IndexTextIsIdempotent(s: string)
    ensures IndexText(IndexText(s)) == IndexText(s)
  {
    IndexTextOnlyDrops(s);
  }

  function Without(s: string, c: char): string {
    if s == "" then "" else (if s[0] == c then "" else [s[0]]) + Without(s[1..], c)
  }

  lemma {:induction false} WithoutConcat(a: string, b: string, c: char)
    ensures Without(a + b, c) == Without(a, c) + Without(b, c)
  {
    if a == "" {
      assert a + b == b;
    } else {
      WithoutConcat(a[1..], b, c);
      assert (a + b)[1..] == a[1..] + b;
      Associates(if a[0] == c then "" else [a[0]], Without(a[1..], c), Without(b, c));
    }
  }

  /** Outside a tag the snippet pass copies everything but '>' up to the next '<'. */
  lemma {:induction false} SnippetCopies(a: string, b: string)
    requires '<' !in a
    ensures SnippetText(a + b, false) == Without(a, '>') + SnippetText(b, false)
  {
    if a == "" {
      assert a + b == b;
    } else {
      SnippetCopies(a[1..], b);
      assert (a + b)[1..] == a[1..] + b;
    }
  }

  /** Inside a tag it drops everything up to and including the next '>'. */
  lemma {:induction false} SnippetSkips(a: string, b: string)
    requires '>' !in a
    ensures SnippetText(a, true) == ""
    ensures SnippetText(a + ">" + b, true) == SnippetText(b, false)
  {
    if a == "" {
      assert (a + ">" + b)[1..] == b;
    } else {
      SnippetSkips(a[1..], b);
      assert (a + ">" + b)[1..] == a[1..] + ">" + b;
    }
  }

  /** A script or style element opens here, in any case. */
  predicate BeginsRaw(s: string) { StartsWith(Lower(s), "<script") || StartsWith(Lower(s), "<style") }

  /** No script or style element opens anywhere in the markup. */
  ghost predicate NoRawElements(s: string) {
    forall i :: 0 <= i <= |s| ==> !BeginsRaw(s[i..])
  }

  /** These are the elements, and the only ones, whose content is dropped. */
  lemma OnlyRawElementsHaveClosers(s: string)
    ensures RawClose(s).None? <==> !BeginsRaw(s)
  {}

  /** An ordinary tag: the indexer skips it and the snippet pass does too. */
  lemma TagSkipped(tag: string)
    requires tag != "" && tag[0] == '<' && RawClose(tag).None?
    ensures TagEnd(tag).None? ==> SnippetText(tag, false) == ""
    ensures TagEnd(tag).Some? ==> SnippetText(tag, false) == SnippetText(tag[TagEnd(tag).value..], false)
  {
    hide RawClose;
    var gt := Find(tag, '>');
    assert SnippetText(tag, false) == SnippetText(tag[1..], true);
    if gt.None? {
      SnippetSkips(tag[1..], "");
    } else {
      var inner, rest := tag[1..gt.value], tag[gt.value + 1..];
      assert tag[1..] == inner + ">" + rest;
      assert '>' !in inner by { assert forall i :: 0 <= i < |inner| ==> inner[i] == tag[..gt.value][i + 1]; }
      SnippetSkips(inner, rest);
    }
  }

  lemma EmptyPasses()
    ensures SnippetText("", false) == "" && Without("", '>') == ""
  {}

  /** On markup without script and style elements the two passes agree up to stray '>'. */
  lemma {:induction false} PassesAgree(s: string)
    requires NoRawElements(s)
    ensures Without(IndexText(s), '>') == SnippetText(s, false)
    decreases |s|
  {
    hide Find, TagEnd, IndexText, SnippetText, Without, RawClose, BeginsRaw;
    IndexTextUnfolds(s);
    var lt := Find(s, '<');
    if lt.None? {
      SnippetCopies(s, "");
      assert s + "" == s;
      EmptyPasses();
      assert Without(s, '>') + "" == Without(s, '>');
    } else {
      var text, tag := s[..lt.value], s[lt.value..];
      assert s == text + tag;
      SnippetCopies(text, tag);
      OnlyRawElementsHaveClosers(tag);
      TagSkipped(tag);
      var end := TagEnd(tag);
      if end.None? {
        assert Without(text, '>') + "" == Without(text, '>');
      } else {
        var rest := tag[end.value..];
        forall i | 0 <= i <= |rest| ensures !BeginsRaw(rest[i..]) { assert rest[i..] == s[lt.value + end.value + i..]; }
        PassesAgree(rest);
        WithoutConcat(text, IndexText(rest), '>');
      }
    }
  }

  lemma {:induction false} FindStays(a: string, b: string, c: char)
    requires Find(a, c).Some?
    ensures Find(a + b, c) == Find(a, c)
  {
    assert (a + b)[0] == a[0];
    if a[0] != c {
      assert (a + b)[1..] == a[1..] + b;
      FindStays(a[1..], b, c);
    }
  }

  lemma FindStrIs(s: string, p: string, k: nat)
    requires k <= |s| && StartsWith(s[k..], p) && forall i :: 0 <= i < k ==> !StartsWith(s[i..], p)
    ensures FindStr(s, p) == Some(k)
  {}

  /** The first occurrence stays the first when text is added behind it. */
  lemma FindStrStays(a: string, b: string, p: string)
    requires FindStr(a, p).Some?
    ensures FindStr(a + b, p) == FindStr(a, p)
  {
    var k := FindStr(a, p).value;
    var s := a + b;
    assert s[k..][..|p|] == a[k..][..|p|];
    forall i | 0 <= i < k ensures !StartsWith(s[i..], p) {
      assert |p| <= |a| - k;
      assert s[i..][..|p|] == a[i..][..|p|];
    }
    FindStrIs(s, p, k);
  }

  lemma LowerConcat(a: string, b: string)
    ensures Lower(a + b) == Lower(a) + Lower(b)
  {}

  /** What follows a tag that ends in '>' cannot turn it into a script or style tag. */
  lemma RawCloseStays(e: string, rest: string)
    requires e != "" && (RawClose(e).Some? || e[|e| - 1] == '>')
    ensures RawClose(e + rest) == RawClose(e)
  {
    LowerConcat(e, rest);
    var l, le := Lower(e + rest), Lower(e);
    if RawClose(e).Some? {
      if StartsWith(le, "<script") {
        assert l[..7] == le[..7];
      } else {
        assert l[..6] == le[..6];
        assert l[2] == le[..6][2] == "<style"[2];
      }
    } else {
      assert l[|e| - 1] == '>';
      assert |e| >= 7 ==> l[..7] == le[..7];
      assert |e| >= 6 ==> l[..6] == le[..6];
      assert |e| < 7 ==> !StartsWith(l, "<script");
      assert |e| < 6 ==> !StartsWith(l, "<style");
    }
  }

  lemma SuffixConcat(a: string, b: string, k: nat)
    requires k <= |a|
    ensures (a + b)[k..] == a[k..] + b
  {}

  lemma ElementEndStays(e: string, rest: string)
    requires TagEnd(e) == Some(|e|) && RawClose(e).Some? && RawClose(e + rest) == RawClose(e)
    ensures TagEnd(e + rest) == TagEnd(e)
  {
    hide Find, RawClose, Lower, FindStr, StartsWith;
    var close := RawClose(e).value;
    LowerConcat(e, rest);
    FindStrStays(Lower(e), Lower(rest), close);
    var k := FindStr(Lower(e), close).value;
    FindStays(e[k..], rest, '>');
    SuffixConcat(e, rest, k);
  }

  /** A tag or element that is complete on its own ends in the same place whatever follows it. */
  lemma TagEndStays(e: string, rest: string)
    requires TagEnd(e) == Some(|e|)
    ensures TagEnd(e + rest) == TagEnd(e)
  {
    RawCloseStays(e, rest);
    if RawClose(e).None? {
      hide Find, RawClose, Lower;
      FindStays(e, rest, '>');
    } else {
      ElementEndStays(e, rest);
    }
  }

  lemma FindIs(s: string, c: char, k: nat)
    requires k < |s| && s[k] == c && c !in s[..k]
    ensures Find(s, c) == Some(k)
  {}

  /**
   Text is kept and one complete tag, or one complete script or style element with its
   content, drops out, wherever they stand.
   */
  lemma TagsDropOut(text: string, e: string, rest: string)
    requires '<' !in text && e != "" && e[0] == '<' && TagEnd(e) == Some(|e|)
    ensures IndexText(text + e + rest) == text + IndexText(rest)
  {
    hide Find, TagEnd, IndexText;
    var s := text + e + rest;
    assert s[..|text|] == text && s[|text|..] == e + rest;
    FindIs(s, '<', |text|);
    TagEndStays(e, rest);
    assert (e + rest)[|e|..] == rest;
    IndexTextUnfolds(s);
  }

  /** Markup without a tag opener is its own text. */
  lemma PlainTextStays(s: string)
    requires '<' !in s
    ensures IndexText(s) == s
  {}

  /** Any tag but a script or style one drops out alone: what follows it is text again. */
  lemma OrdinaryTagsDropOut(text: string, inner: string, rest: string)
    requires '<' !in text && '>' !in inner && !BeginsRaw("<" + inner + ">")
    ensures IndexText(text + ("<" + inner + ">") + rest) == text + IndexText(rest)
  {
    var tag := "<" + inner + ">";
    OnlyRawElementsHaveClosers(tag);
    assert tag[..|tag| - 1] == "<" + inner;
    hide RawClose, BeginsRaw, Find, IndexText;
    FindIs(tag, '>', |tag| - 1);
    TagsDropOut(text, tag, rest);
  }

  lemma NoTagEnd(text: string, tail: string)
    requires '<' !in text && tail != "" && tail[0] == '<' && TagEnd(tail).None?
    ensures IndexText(text + tail) == text
  {
    hide Find, TagEnd, IndexText;
    var s := text + tail;
    assert s[..|text|] == text && s[|text|..] == tail;
    FindIs(s, '<', |text|);
    IndexTextUnfolds(s);
  }

  /** A tag that never ends takes the rest of the markup with it. */
  lemma UnfinishedTagDropsTheRest(text: string, tail: string)
    requires '<' !in text && tail != "" && tail[0] == '<' && '>' !in tail && !BeginsRaw(tail)
    ensures IndexText(text + tail) == text
  {
    OnlyRawElementsHaveClosers(tail);
    hide RawClose, BeginsRaw, IndexText;
    NoTagEnd(text, tail);
  }

  lemma StartsOtherwise(s: string, p: string, k: nat)
    requires k < |s| && k < |p| && s[k] != p[k]
    ensures !StartsWith(s, p)
  {}

  /** Closing tags hold one '<', at their start, so none of them can begin inside the start of another. */
  lemma FirstClose(before: string, close: string, after: string)
    requires close == "</script" || close == "</style"
    requires forall i :: 0 <= i <= |before| ==> !StartsWith(before[i..], close)
    ensures FindStr(before + close + after, close) == Some(|before|)
  {
    var s := before + close + after;
    assert s[|before|..][..|close|] == close;
    forall i | 0 <= i < |before| ensures !StartsWith(s[i..], close) {
      if i + |close| <= |before| {
        assert s[i..][..|close|] == before[i..][..|close|];
      } else {
        var k := |before| - i;
        assert s[i..][k] == '<' && close[k] != '<';
        StartsOtherwise(s[i..], close, k);
      }
    }
    FindStrIs(s, close, |before|);
  }

  /** The two kinds of element whose content is dropped, by the start of their opening and closing tags. */
  predicate RawElement(opener: string, closer: string) {
    (opener == "<script" && closer == "</script") || (opener == "<style" && closer == "</style")
  }

  /** No closing tag occurs, in any case. */
  ghost predicate Unclosed(s: string, closer: string) {
    forall i :: 0 <= i <= |s| ==> !StartsWith(Lower(s)[i..], closer)
  }

  lemma CloseIsFound(before: string, opener: string, closer: string, close: string, end: string)
    requires RawElement(opener, closer) && Lower(close) == closer && Unclosed(before, closer)
    ensures FindStr(Lower(before + (close + end)), closer) == Some(|before|)
  {
    LowerConcat(before, close + end);
    LowerConcat(close, end);
    Associates(Lower(before), closer, Lower(end));
    hide Lower;
    FirstClose(Lower(before), closer, Lower(end));
  }

  lemma BracketIsFound(opener: string, closer: string, close: string, end: string)
    requires RawElement(opener, closer) && Lower(close) == closer && Find(end, '>') == Some(|end| - 1)
    ensures Find(close + end, '>') == Some(|close| + |end| - 1)
  {
    forall i | 0 <= i < |close| ensures close[i] != '>' { assert Lower(close)[i] == LowerChar(close[i]); }
    hide Find, Lower, RawElement;
    var s, k := close + end, |close| + |end| - 1;
    assert forall i :: 0 <= i < k ==> s[i] == if i < |close| then close[i] else end[..|end| - 1][i - |close|];
    FindIs(s, '>', k);
  }

  lemma OpensRaw(before: string, opener: string, closer: string, rest: string)
    requires RawElement(opener, closer) && StartsWith(Lower(before), opener)
    ensures RawClose(before + rest) == Some(closer)
  {
    LowerConcat(before, rest);
    var l := Lower(before + rest);
    assert l[..|opener|] == Lower(before)[..|opener|];
    if opener == "<style" {
      assert l[2] == l[..6][2] == opener[2];
      StartsOtherwise(l, "<script", 2);
    }
  }

  lemma RawTagEnd(e: string, closer: string, k: nat, g: nat)
    requires RawClose(e) == Some(closer) && FindStr(Lower(e), closer) == Some(k) && k <= |e| && Find(e[k..], '>') == Some(g)
    ensures TagEnd(e) == Some(k + g + 1)
  {
    hide Lower, Find, FindStr, RawClose;
  }

  /** Where the first closing tag of a script or style element ends, in any case. */
  lemma ElementEnds(before: string, opener: string, closer: string, close: string, end: string)
    requires RawElement(opener, closer) && StartsWith(Lower(before), opener) && Lower(close) == closer
    requires Find(end, '>') == Some(|end| - 1) && Unclosed(before, closer)
    ensures TagEnd(before + (close + end)) == Some(|before| + |close| + |end|)
  {
    hide Lower, Find, FindStr, RawClose, StartsWith, TagEnd, RawElement, Unclosed;
    var rest := close + end;
    OpensRaw(before, opener, closer, rest);
    CloseIsFound(before, opener, closer, close, end);
    BracketIsFound(opener, closer, close, end);
    assert (before + rest)[|before|..] == rest;
    RawTagEnd(before + rest, closer, |before|, |close| + |end| - 1);
  }

  lemma RawElementIsTag(before: string, opener: string, closer: string)
    requires RawElement(opener, closer) && StartsWith(Lower(before), opener)
    ensures before != "" && before[0] == '<'
  {
    assert Lower(before)[..|opener|][0] == LowerChar(before[0]);
  }

  /**
   A script or style element, written in any case, drops out whole: its opening tag and its
   content, then the first closing tag up to the first bracket. The text around it stays.
   */
  lemma RawElementsDropOut(text: string, before: string, opener: string, closer: string, close: string, end: string, rest: string)
    requires '<' !in text && RawElement(opener, closer) && StartsWith(Lower(before), opener) && Lower(close) == closer
    requires Find(end, '>') == Some(|end| - 1) && Unclosed(before, closer)
    ensures IndexText(text + (before + (close + end)) + rest) == text + IndexText(rest)
  {
    hide TagEnd, IndexText, Lower, StartsWith, Find, RawElement, Unclosed;
    ElementEnds(before, opener, closer, close, end);
    RawElementIsTag(before, opener, closer);
    var e := before + (close + end);
    assert e != "" && e[0] == before[0];
    TagsDropOut(text, e, rest);
  }

  /** A script or style element that is never closed takes the rest of the markup with it. */
  lemma UnclosedElementDropsTheRest(text: string, tail: string, opener: string, closer: string)
    requires '<' !in text && RawElement(opener, closer) && StartsWith(Lower(tail), opener) && Unclosed(tail, closer)
    ensures IndexText(text + tail) == text
  {
    OpensRaw(tail, opener, closer, "");
    assert tail + "" == tail;
    RawElementIsTag(tail, opener, closer);
    hide RawClose, Lower, StartsWith, IndexText, RawElement;
    NoTagEnd(text, tail);
  }

  /** So does one whose closing tag has no bracket. */
  lemma UnfinishedClosingTagDropsTheRest(text: string, before: string, opener: string, closer: string, close: string, end: string)
    requires '<' !in text && RawElement(opener, closer) && StartsWith(Lower(before), opener) && Lower(close) == closer
    requires '>' !in end && Unclosed(before, closer)
    ensures IndexText(text + (before + (close + end))) == text
  {
    var tail := before + (close + end);
    OpensRaw(before, opener, closer, close + end);
    CloseIsFound(before, opener, closer, close, end);
    RawElementIsTag(before, opener, closer);
    assert tail[0] == before[0] && tail[|before|..] == close + end;
    forall i | 0 <= i < |close| ensures close[i] != '>' { assert Lower(close)[i] == LowerChar(close[i]); }
    assert '>' !in close + end;
    hide RawClose, Lower, StartsWith, IndexText, RawElement, Unclosed, FindStr;
    NoTagEnd(text, tail);
  }
}
