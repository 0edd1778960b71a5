/** The post display component (WebSite/FrontEnd/src/components/RichTextDisplay.tsx):
    content that looks like HTML is sanitised and shown as HTML, anything else
    is parsed as line-based markdown. */
module RichText {
  import opened Common
  import opened Strings
  import opened MarkdownBlocks
  import opened HtmlSanitizer

  predicate IsLetter(c: char) {
    'a' <= c <= 'z' || 'A' <= c <= 'Z'
  }

  /** `/<\/?[a-z][\s\S]*>/i` matches from position `i`: a `<`, an optional
      `/`, a letter of either case, and a `>` anywhere after it. */
  predicate TagAt(s: string, i: nat) {
    && i < |s| && s[i] == '<'
    && var j := if i + 1 < |s| && s[i + 1] == '/' then i + 2 else i + 1;
       j < |s| && IsLetter(s[j]) && '>' in s[j + 1..]
  }

  /** `isHtml`. */
  predicate IsHtml(s: string) {
    exists i :: 0 <= i < |s| && TagAt(s, i)
  }

  /** HTML content holds both angle brackets. */
  lemma HtmlHasBrackets(s: string)
    requires IsHtml(s)
    ensures '<' in s && '>' in s
  {
    var i :| 0 <= i < |s| && TagAt(s, i);
    var j := if i + 1 < |s| && s[i + 1] == '/' then i + 2 else i + 1;
    var k :| 0 <= k < |s[j + 1..]| && s[j + 1..][k] == '>';
    assert s[j + 1 + k] == '>';
  }

  /** An opening tag makes the content HTML. */
  lemma OpeningTagIsHtml(pre: string, c: char, post: string)
    requires IsLetter(c) && '>' in post
    ensures IsHtml(pre + "<" + [c] + post)
  {
    var s := pre + "<" + [c] + post;
    var i := |pre|;
    assert s[i] == '<' && s[i + 1] == c;
    assert s[i + 2..] == post;
    assert TagAt(s, i);
  }

  /** So does a closing tag. */
  lemma ClosingTagIsHtml(pre: string, c: char, post: string)
    requires IsLetter(c) && '>' in post
    ensures IsHtml(pre + "</" + [c] + post)
  {
    var s := pre + "</" + [c] + post;
    var i := |pre|;
    assert s[i] == '<' && s[i + 1] == '/' && s[i + 2] == c;
    assert s[i + 3..] == post;
    assert TagAt(s, i);
  }

  /** A `<` that is not followed by a letter, or by `/` and a letter, starts
      no tag: `a < b > c` is markdown. */
  lemma LoneAngleNotTag(s: string, i: nat)
    requires i + 1 < |s| && s[i] == '<' && s[i + 1] != '/' && !IsLetter(s[i + 1])
    ensures !TagAt(s, i)
  {
  }

  /** A `<` and a letter in the middle of a markup, with a `>` closing it,
      open a tag. */
  lemma TagInMiddle(open: string, mid: string, close: string, k: nat)
    requires k + 1 < |mid| && mid[k] == '<' && IsLetter(mid[k + 1])
    requires close != [] && close[|close| - 1] == '>'
    ensures TagAt(open + mid + close, |open| + k)
  {
    var m := open + mid + close;
    var i := |open| + k;
    Middle(open, mid, close, i);
    Middle(open, mid, close, i + 1);
    assert m[|m| - 1] == close[|close| - 1];
    assert m[i + 2..][|m| - 1 - (i + 2)] == '>';
  }

  /** A line without `>` is never HTML. */
  lemma NoCloseNotHtml(line: string)
    requires '>' !in line
    ensures !IsHtml(line)
  {
    if IsHtml(line) {
      HtmlHasBrackets(line);
    }
  }

  /** An image line whose address holds `<` and a letter, and no `>`, is
      rendered as markdown, yet the fallback markup written for it when the
      image fails to load opens a tag at that `<`: the template's own `>`
      closes it. `![a](x<img src=x onerror=alert&#40;1&#41;)` is one. */
  lemma FallbackOpensTag(alt: string, src: string, k: nat)
    requires ']' !in alt && ')' !in src && '>' !in alt && '>' !in src
    requires k + 1 < |src| && src[k] == '<' && IsLetter(src[k + 1])
    ensures var line := "![" + alt + "](" + src + ")";
      && !IsHtml(line)
      && Classify(line) == ImageLine(if alt == "" then "Image" else alt, src)
      && TagAt(FallbackAsWritten(src), |FallbackOpen| + k)
  {
    NoCloseNotHtml("![" + alt + "](" + src + ")");
    ImageLineComplete(alt, src);
    assert FallbackClose[|FallbackClose| - 1] == '>';
    TagInMiddle(FallbackOpen, src, FallbackClose, k);
  }

  /** What the component renders. */
  datatype View = HtmlView(html: string) | MarkdownView(elements: seq<Element>)

  /** `RichTextDisplay`: HTML content sanitised (with the corrected script-URL
      test of `HtmlSanitizer.DropAttr`), anything else parsed as markdown by
      lines. */
  method Display(content: string, parse: string -> Option<seq<Node>>, serialize: seq<Node> -> string)
    returns (v: View)
    ensures v.HtmlView? <==> IsHtml(content)
    ensures v.HtmlView? ==> v.html == SanitizedHtml(content, parse, serialize)
    ensures v.MarkdownView? ==> v.elements == Elements(ClassifyAll(Split(content, '\n')))
  {
    if IsHtml(content) {
      v := HtmlView(SanitizedHtml(content, parse, serialize));
    } else {
      var elements := ParseMarkdown(content);
      v := MarkdownView(elements);
    }
  }

  /** Content without a `<` is always rendered as markdown, its lists grouped
      maximally and every item kept in order. */
  lemma PlainContentIsMarkdown(content: string)
    requires '<' !in content
    ensures !IsHtml(content)
    ensures var es := Elements(ClassifyAll(Split(content, '\n')));
      Maximal(es) && ListItems(es) == LineItems(ClassifyAll(Split(content, '\n')))
  {
    if IsHtml(content) {
      HtmlHasBrackets(content);
    }
    ListsMaximal(ClassifyAll(Split(content, '\n')));
    ItemsInOrder(ClassifyAll(Split(content, '\n')));
  }
}
