/** The inline markdown tokenisers of the post display
    (WebSite/FrontEnd/src/components/RichTextDisplay.tsx): links are taken
    out first, then bold and italic from the text around them. A part is what
    becomes one React node; keys and class names are left out. */
module InlineMarkdown {
  import opened Common
  import opened Strings
  import opened MarkdownSyntax

  datatype Inline = Plain(text: string) | Bold(text: string) | Italic(text: string) | Link(text: string, url: string)

  /** The markdown a part was read from. */
  function Unparse(part: Inline): string {
    match part
    case Plain(t) => t
    case Bold(t) => Shape(BoldPattern, t, "")
    case Italic(t) => Shape(ItalicPattern, t, "")
    case Link(t, u) => Shape(LinkPattern, t, u)
  }

  function UnparseAll(parts: seq<Inline>): string {
    if parts == [] then "" else Unparse(parts[0]) + UnparseAll(parts[1..])
  }

  lemma {:induction false} UnparseAllAppend(a: seq<Inline>, b: seq<Inline>)
    ensures UnparseAll(a + b) == UnparseAll(a) + UnparseAll(b)
  {
    if a != [] {
      var ab := a + b;
      assert ab[0] == a[0] && ab[1..] == a[1..] + b;
      UnparseAllAppend(a[1..], b);
      assert UnparseAll(ab) == Unparse(a[0]) + UnparseAll(a[1..] + b);
    } else {
      assert a + b == b;
    }
  }

  /** A part as the patterns produce it: plain text is never empty, and the
      other parts have the parts their pattern demands. */
  predicate WellFormed(part: Inline) {
    match part
    case Plain(t) => t != ""
    case Bold(t) => Parts(BoldPattern, t, "")
    case Italic(t) => Parts(ItalicPattern, t, "")
    case Link(t, u) => Parts(LinkPattern, t, u)
  }

  /** The text before a match, as a plain part when it is not empty. */
  function Before(text: string, k: nat): (r: seq<Inline>)
    requires k <= |text|
  {
    if k > 0 then [Plain(text[..k])] else []
  }

  /** `parseInlineFormatting`: the leftmost bold in the whole remaining text is
      taken first, and only when there is none the leftmost italic; the text
      in front of either passes through verbatim. */
  function Formatting(text: string): seq<Inline>
    decreases |text|
  {
    if text == "" then []
    else match Find(BoldPattern, text, 0)
      case Some(m) => Before(text, m.start) + [Bold(m.text)] + Formatting(text[m.end..])
      case None =>
        match Find(ItalicPattern, text, 0)
        case Some(m) => Before(text, m.start) + [Italic(m.text)] + Formatting(text[m.end..])
        case None => [Plain(text)]
  }

  /** `parseInlineMarkdown`: the leftmost link is taken out, the text in front
      of it goes through `Formatting`, and the rest is read the same way. */
  function Tokens(text: string): seq<Inline>
    decreases |text|
  {
    match Find(LinkPattern, text, 0)
    case None => Formatting(text)
    case Some(m) => Formatting(text[..m.start]) + [Link(m.text, m.url)] + Tokens(text[m.end..])
  }

  /** A text is its three pieces around two positions, in order. */
  lemma Pieces(text: string, start: nat, end: nat)
    requires start <= end <= |text|
    ensures text == text[..start] + text[start..end] + text[end..]
  {
  }

  lemma UnparseOne(part: Inline)
    ensures UnparseAll([part]) == Unparse(part)
  {
    assert UnparseAll([part]) == Unparse(part) + UnparseAll([]);
  }

  /** The text around a match, and the match, put back together. */
  lemma Around(text: string, start: nat, end: nat)
    requires start <= end <= |text|
    ensures text == UnparseAll(Before(text, start)) + text[start..end] + text[end..]
  {
    assert text == text[..start] + text[start..end] + text[end..];
    if start > 0 {
      assert UnparseAll(Before(text, start)) == text[..start] + UnparseAll([]);
    }
  }

  /** Bold and italic tokens read back to the text. */
  lemma {:induction false} FormattingRoundTrip(text: string)
    ensures UnparseAll(Formatting(text)) == text
    decreases |text|
  {
    if text != "" {
      var bold := Find(BoldPattern, text, 0);
      if bold.Some? {
        var m := bold.value;
        MatchShape(BoldPattern, text, m.start);
        FormattingRoundTrip(text[m.end..]);
        Reassemble(text, m.start, m.end, Bold(m.text), Formatting(text[m.end..]));
      } else {
        var italic := Find(ItalicPattern, text, 0);
        if italic.Some? {
          var m := italic.value;
          MatchShape(ItalicPattern, text, m.start);
          FormattingRoundTrip(text[m.end..]);
          Reassemble(text, m.start, m.end, Italic(m.text), Formatting(text[m.end..]));
        }
      }
    }
  }

  /** The plain text before a match, the match's part and the parts of the rest
      read back to the text. */
  lemma Reassemble(text: string, start: nat, end: nat, part: Inline, rest: seq<Inline>)
    requires start <= end <= |text|
    requires Unparse(part) == text[start..end] && UnparseAll(rest) == text[end..]
    ensures UnparseAll(Before(text, start) + [part] + rest) == text
  {
    var before := Before(text, start);
    UnparseAllAppend(before + [part], rest);
    UnparseAllAppend(before, [part]);
    UnparseOne(part);
    Around(text, start, end);
  }

  /** Bold and italic tokens are well formed and never links. */
  lemma {:induction false} FormattingWellFormed(text: string)
    ensures forall part :: part in Formatting(text) ==> WellFormed(part) && !part.Link?
    decreases |text|
  {
    if text != "" {
      var bold := Find(BoldPattern, text, 0);
      if bold.Some? {
        var m := bold.value;
        MatchShape(BoldPattern, text, m.start);
        FormattingWellFormed(text[m.end..]);
      } else {
        var italic := Find(ItalicPattern, text, 0);
        if italic.Some? {
          var m := italic.value;
          MatchShape(ItalicPattern, text, m.start);
          FormattingWellFormed(text[m.end..]);
        }
      }
    }
  }

  /** All tokens read back to the text. */
  lemma {:induction false} TokensRoundTrip(text: string)
    ensures UnparseAll(Tokens(text)) == text
    decreases |text|
  {
    var link := Find(LinkPattern, text, 0);
    if link.None? {
      FormattingRoundTrip(text);
    } else {
      var m := link.value;
      MatchShape(LinkPattern, text, m.start);
      FormattingRoundTrip(text[..m.start]);
      TokensRoundTrip(text[m.end..]);
      ReassembleLink(text, m.start, m.end, Formatting(text[..m.start]), Link(m.text, m.url), Tokens(text[m.end..]));
    }
  }

  lemma ReassembleLink(text: string, start: nat, end: nat, before: seq<Inline>, part: Inline, rest: seq<Inline>)
    requires start <= end <= |text|
    requires UnparseAll(before) == text[..start]
    requires Unparse(part) == text[start..end] && UnparseAll(rest) == text[end..]
    ensures UnparseAll(before + [part] + rest) == text
  {
    UnparseAllAppend(before + [part], rest);
    UnparseAllAppend(before, [part]);
    UnparseOne(part);
    Pieces(text, start, end);
  }

  /** All tokens are well formed. */
  lemma {:induction false} TokensWellFormed(text: string)
    ensures forall part :: part in Tokens(text) ==> WellFormed(part)
    decreases |text|
  {
    var link := Find(LinkPattern, text, 0);
    if link.None? {
      FormattingWellFormed(text);
    } else {
      var m := link.value;
      MatchShape(LinkPattern, text, m.start);
      FormattingWellFormed(text[..m.start]);
      TokensWellFormed(text[m.end..]);
    }
  }

  /** Text without `*` passes through `Formatting` as one plain part. */
  lemma NoStarsVerbatim(text: string)
    requires text != "" && '*' !in text
    ensures Formatting(text) == [Plain(text)]
  {
    forall q | 0 <= q < |text|
      ensures MatchAt(BoldPattern, text, q).None? && MatchAt(ItalicPattern, text, q).None?
    {
      assert text[q..][0] == text[q];
    }
  }

  /** Text without `[` or `*` is one plain part. */
  lemma NoMarkupVerbatim(text: string)
    requires text != "" && '[' !in text && '*' !in text
    ensures Tokens(text) == [Plain(text)]
  {
    forall q | 0 <= q < |text|
      ensures MatchAt(LinkPattern, text, q).None?
    {
      assert text[q..][0] == text[q];
    }
    NoStarsVerbatim(text);
  }

  /** A bare pair of asterisks is plain text. */
  lemma StarsPlain()
    ensures Formatting("**") == [Plain("**")] && Tokens("**") == [Plain("**")]
  {
    var s := "**";
    assert s[1..] == "*" && s[0..] == s;
    forall pat: Pattern
      ensures Find(pat, s, 0) == None
    {
      assert MatchAt(pat, s, 1) == None;
      assert Find(pat, s, 1) == None;
      assert MatchAt(pat, s, 0) == None;
    }
  }

  /** The leftmost link in `**[t](u)**` starts after the two asterisks. */
  lemma LinkAfterStars(t: string, u: string)
    requires Parts(LinkPattern, t, u)
    ensures var link := Shape(LinkPattern, t, u);
      Find(LinkPattern, "**" + link + "**", 0) == Some(Span(2, t, u, 2 + |link|))
  {
    var link := Shape(LinkPattern, t, u);
    var s := "**" + link + "**";
    assert s[2..2 + |link|] == link;
    MatchComplete(LinkPattern, s, 2, t, u);
    assert s[0..][0] == '*' && s[1..][0] == '*';
    assert MatchAt(LinkPattern, s, 1) == None;
    assert MatchAt(LinkPattern, s, 0) == None;
    var found := Some(Span(2, t, u, 2 + |link|));
    assert Find(LinkPattern, s, 2) == found;
    assert Find(LinkPattern, s, 1) == found;
  }

  /** A link wrapped in bold markers stays a link: links are taken out before
      emphasis is looked for, and the markers left on either side are plain. */
  lemma LinkBeforeBold(t: string, u: string)
    requires Parts(LinkPattern, t, u)
    ensures Tokens("**" + Shape(LinkPattern, t, u) + "**") == [Plain("**"), Link(t, u), Plain("**")]
  {
    LinkAfterStars(t, u);
    StarsPlain();
    var link := Shape(LinkPattern, t, u);
    Wrapped("**", link);
    LinkBetweenPlain("**" + link + "**", 2, 2 + |link|, t, u);
  }

  /** The ends of a text wrapped on both sides by the same marker. */
  lemma Wrapped(w: string, mid: string)
    ensures var s := w + mid + w; s[..|w|] == w && s[|w| + |mid|..] == w
  {
  }

  /** A text whose leftmost link sits between two runs that read as plain
      text is read as those runs around the link. */
  lemma LinkBetweenPlain(s: string, i: nat, j: nat, t: string, u: string)
    requires i <= j <= |s| && Find(LinkPattern, s, 0) == Some(Span(i, t, u, j))
    requires Formatting(s[..i]) == [Plain(s[..i])] && Tokens(s[j..]) == [Plain(s[j..])]
    ensures Tokens(s) == [Plain(s[..i]), Link(t, u), Plain(s[j..])]
  {
    TokensLinkStep(s);
  }

  /** One round of `parseInlineMarkdown` when a link is found. */
  lemma TokensLinkStep(s: string)
    requires Find(LinkPattern, s, 0).Some?
    ensures var m := Find(LinkPattern, s, 0).value;
      Tokens(s) == Formatting(s[..m.start]) + [Link(m.text, m.url)] + Tokens(s[m.end..])
  {
  }

  /** One round of `parseInlineFormatting` when a bold run is found: the text
      before it, the run, then the rest. */
  lemma BoldStep(text: string)
    requires text != "" && Find(BoldPattern, text, 0).Some?
    ensures var m := Find(BoldPattern, text, 0).value;
      Formatting(text) == Before(text, m.start) + [Bold(m.text)] + Formatting(text[m.end..])
  {
  }

  /** One round when no bold run but an italic one is found. */
  lemma ItalicStep(text: string)
    requires text != "" && Find(BoldPattern, text, 0).None? && Find(ItalicPattern, text, 0).Some?
    ensures var m := Find(ItalicPattern, text, 0).value;
      Formatting(text) == Before(text, m.start) + [Italic(m.text)] + Formatting(text[m.end..])
  {
  }

  /** The loop's invariant carried over one round that emits `before` and
      `part` and continues with `rest`. */
  lemma Advance(done: seq<Inline>, before: seq<Inline>, part: Inline, mid: seq<Inline>, tail: seq<Inline>, whole: seq<Inline>)
    requires done + mid == whole && mid == before + [part] + tail
    ensures done + before + [part] + tail == whole
  {
    AppendAssoc(done, before + [part], tail);
  }

  /** `parseInlineFormatting`, with its loop over the remaining text. */
  method ParseInlineFormatting(text: string) returns (parts: seq<Inline>)
    ensures parts == Formatting(text)
  {
    parts := [];
    var remaining := text;
    while |remaining| > 0
      invariant parts + Formatting(remaining) == Formatting(text)
      decreases |remaining|
    {
      var bold := Find(BoldPattern, remaining, 0);
      if bold.Some? {
        var m := bold.value;
        BoldStep(remaining);
        Advance(parts, Before(remaining, m.start), Bold(m.text), Formatting(remaining), Formatting(remaining[m.end..]), Formatting(text));
        ghost var done := parts;
        if m.start > 0 {
          parts := parts + [Plain(remaining[..m.start])];
        } else {
          assert done + Before(remaining, m.start) == done;
        }
        assert parts == done + Before(remaining, m.start);
        parts := parts + [Bold(m.text)];
        remaining := remaining[m.end..];
        continue;
      }
      var italic := Find(ItalicPattern, remaining, 0);
      if italic.Some? {
        var m := italic.value;
        ItalicStep(remaining);
        Advance(parts, Before(remaining, m.start), Italic(m.text), Formatting(remaining), Formatting(remaining[m.end..]), Formatting(text));
        ghost var done := parts;
        if m.start > 0 {
          parts := parts + [Plain(remaining[..m.start])];
        } else {
          assert done + Before(remaining, m.start) == done;
        }
        assert parts == done + Before(remaining, m.start);
        parts := parts + [Italic(m.text)];
        remaining := remaining[m.end..];
        continue;
      }
      assert Formatting(remaining) == [Plain(remaining)];
      parts := parts + [Plain(remaining)];
      break;
    }
  }

  /** `parseInlineMarkdown`, with its loop over the remaining text. */
  method ParseInlineMarkdown(text: string) returns (parts: seq<Inline>)
    ensures parts == Tokens(text)
    ensures UnparseAll(parts) == text
  {
    parts := [];
    var remaining := text;
    while |remaining| > 0
      invariant parts + Tokens(remaining) == Tokens(text)
      decreases |remaining|
    {
      ghost var done := parts;
      var link := Find(LinkPattern, remaining, 0);
      if link.Some? {
        var m := link.value;
        var before: seq<Inline> := [];
        if m.start > 0 {
          before := ParseInlineFormatting(remaining[..m.start]);
        }
        assert before == Formatting(remaining[..m.start]);
        parts := parts + (before + [Link(m.text, m.url)]);
        assert Tokens(remaining) == (before + [Link(m.text, m.url)]) + Tokens(remaining[m.end..]);
        AppendAssoc(done, before + [Link(m.text, m.url)], Tokens(remaining[m.end..]));
        remaining := remaining[m.end..];
        continue;
      }
      var rest := ParseInlineFormatting(remaining);
      assert Tokens(remaining) == rest;
      parts := parts + rest;
      break;
    }
    TokensRoundTrip(text);
  }
}
