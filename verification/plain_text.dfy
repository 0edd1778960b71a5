/** Flattening rich post content to plain text for previews and validation
    (WebSite/FrontEnd/src/utils/text.ts). The content is Editor.js JSON, HTML
    or markdown; `JSON.parse` and the browser's `DOMParser` are parameters. */
module PlainText {
  import opened Common
  import opened Strings
  import opened MarkdownSyntax

  /** The `data` of one Editor.js block as `stripRichText` reads it: `text`
      when it is a string, `items` when it is an array (of strings). A missing
      block or `data` reads as neither. */
  datatype Block = Block(text: Option<string>, items: Option<seq<string>>)

  /** What `JSON.parse` makes of the trimmed input: an object with a `blocks`
      array, or anything else (a parse failure included). */
  datatype Parsed = EditorBlocks(blocks: seq<Block>) | NotBlocks

  /** A block's contribution: its text, else its items joined by a space. */
  function Contribution(b: Block): Option<string> {
    if b.text.Some? then b.text
    else if b.items.Some? then Some(Join(b.items.value, ' '))
    else None
  }

  /** The contributions of the blocks, in block order. */
  function Contributions(blocks: seq<Block>): (parts: seq<string>)
    ensures |parts| <= |blocks|
  {
    if blocks == [] then []
    else
      var init := Contributions(blocks[..|blocks| - 1]);
      match Contribution(blocks[|blocks| - 1])
      case None => init
      case Some(c) => init + [c]
  }

  /** Blocks contribute independently: the parts of two runs of blocks are the
      parts of each, one after the other. */
  lemma {:induction false} ContributionsAppend(a: seq<Block>, b: seq<Block>)
    ensures Contributions(a + b) == Contributions(a) + Contributions(b)
    decreases |b|
  {
    if b == [] {
      assert a + b == a;
    } else {
      var init := b[..|b| - 1];
      assert (a + b)[..|a + b| - 1] == a + init;
      assert (a + b)[|a + b| - 1] == b[|b| - 1];
      ContributionsAppend(a, init);
    }
  }

  /** The images removed: `.replace(/!\[[^\]]*\]\([^)]+\)/g, '')`. */
  function DropImages(s: string): string
    decreases |s|
  {
    match Find(ImagePattern, s, 0)
    case None => s
    case Some(m) => s[..m.start] + DropImages(s[m.end..])
  }

  /** Each link replaced by its text: `.replace(/\[([^\]]+)\]\([^)]+\)/g, '$1')`. */
  function ReplaceLinks(s: string): string
    decreases |s|
  {
    match Find(LinkPattern, s, 0)
    case None => s
    case Some(m) => s[..m.start] + m.text + ReplaceLinks(s[m.end..])
  }

  /** The markdown characters the last replacement deletes. */
  const MarkChars: string := "`*_>#-"

  /** `.replace(/[`*_>#-]/g, '')`. */
  function DropMarkChars(s: string): (r: string)
    ensures forall c :: c in r <==> c in s && c !in MarkChars
  {
    if s == [] then []
    else (if s[0] in MarkChars then [] else [s[0]]) + DropMarkChars(s[1..])
  }

  /** The markdown branch of `stripRichText`. */
  function MarkdownPlain(trimmed: string): string {
    Collapse(DropMarkChars(ReplaceLinks(DropImages(trimmed))))
  }

  /** `stripRichText`: empty for blank input; the blocks' text for Editor.js
      JSON; the text content for HTML-like input the parser accepts; the
      markdown branch otherwise. Every branch collapses whitespace. */
  function StripRichTextSpec(input: string, parse: string -> Parsed, htmlText: string -> Option<string>): string {
    if input == "" then ""
    else
      var trimmed := Strip(input);
      if trimmed == "" then ""
      else match parse(trimmed)
        case EditorBlocks(blocks) => Collapse(Join(Contributions(blocks), ' '))
        case NotBlocks =>
          if '<' in trimmed && '>' in trimmed && htmlText(trimmed).Some? then Collapse(htmlText(trimmed).value)
          else MarkdownPlain(trimmed)
  }

  /** Whatever the input, the plain text has no whitespace at either end, no two
      whitespace characters in a row, and no whitespace but the plain space. */
  lemma PlainTextCollapsed(input: string, parse: string -> Parsed, htmlText: string -> Option<string>)
    ensures Collapsed(StripRichTextSpec(input, parse, htmlText))
  {
    if input != "" {
      var trimmed := Strip(input);
      if trimmed != "" {
        match parse(trimmed)
        case EditorBlocks(blocks) =>
          CollapseShape(Join(Contributions(blocks), ' '));
        case NotBlocks =>
          if '<' in trimmed && '>' in trimmed && htmlText(trimmed).Some? {
            CollapseShape(htmlText(trimmed).value);
          } else {
            CollapseShape(DropMarkChars(ReplaceLinks(DropImages(trimmed))));
          }
      }
    }
  }

  /** Blank input flattens to the empty text. */
  lemma BlankIsEmpty(input: string, parse: string -> Parsed, htmlText: string -> Option<string>)
    requires AllSpace(input)
    ensures StripRichTextSpec(input, parse, htmlText) == ""
  {
    StripEmptyIffSpaces(input);
  }

  /** The markdown branch leaves none of the markdown characters behind. */
  lemma MarkdownPlainClean(trimmed: string)
    ensures forall c :: c in MarkChars ==> c !in MarkdownPlain(trimmed)
  {
    var d := DropMarkChars(ReplaceLinks(DropImages(trimmed)));
    CollapseShape(d);
    forall c | c in MarkChars
      ensures c !in MarkdownPlain(trimmed)
    {
      assert !IsSpace(c);
      NonSpaceKeepsOut(d, c);
      NonSpaceKeepsOut(Collapse(d), c);
    }
  }

  /** An image disappears entirely. */
  lemma ImageDropped(alt: string, url: string)
    requires ']' !in alt && url != "" && ')' !in url
    ensures DropImages("![" + alt + "](" + url + ")") == ""
  {
    var s := "![" + alt + "](" + url + ")";
    ImageLeadComplete(alt, url, "");
    assert s + "" == s;
    assert s[0..] == s;
    assert s[|s|..] == "";
  }

  /** A link is replaced by its text. */
  lemma LinkKeepsText(text: string, url: string)
    requires text != "" && ']' !in text && url != "" && ')' !in url
    ensures ReplaceLinks("[" + text + "](" + url + ")") == text
  {
    var s := "[" + text + "](" + url + ")";
    LinkLeadComplete(text, url, "");
    assert s + "" == s;
    assert s[0..] == s;
    assert s[|s|..] == "";
  }

  /** `stripRichText`, with the loop that collects the blocks' parts. */
  method StripRichText(input: string, parse: string -> Parsed, htmlText: string -> Option<string>) returns (r: string)
    ensures r == StripRichTextSpec(input, parse, htmlText)
  {
    if input == "" {
      return "";
    }
    var trimmed := Strip(input);
    if trimmed == "" {
      return "";
    }
    var parsed := parse(trimmed);
    if parsed.EditorBlocks? {
      var blocks := parsed.blocks;
      var parts: seq<string> := [];
      var i := 0;
      while i < |blocks|
        invariant 0 <= i <= |blocks|
        invariant parts == Contributions(blocks[..i])
      {
        assert blocks[..i + 1][..i] == blocks[..i];
        var block := blocks[i];
        if block.text.Some? {
          parts := parts + [block.text.value];
        } else if block.items.Some? {
          parts := parts + [Join(block.items.value, ' ')];
        }
        i := i + 1;
      }
      assert blocks[..i] == blocks;
      return Collapse(Join(parts, ' '));
    }
    if '<' in trimmed && '>' in trimmed {
      var text := htmlText(trimmed);
      if text.Some? {
        return Collapse(text.value);
      }
    }
    r := MarkdownPlain(trimmed);
  }

  const DefaultPreviewLength: nat := 160

  /** `previewText` on the flattened text: unchanged when it fits, otherwise its
      first `maxLength` characters and an ellipsis. */
  function Preview(plain: string, maxLength: nat): (r: string)
    ensures |r| <= maxLength + 3
    ensures |plain| <= maxLength ==> r == plain
    ensures |plain| > maxLength ==> |r| == maxLength + 3 && r[..maxLength] == plain[..maxLength] && r[maxLength..] == "..."
  {
    if |plain| > maxLength then plain[..maxLength] + "..." else plain
  }

  /** `previewText`. */
  method PreviewText(input: string, maxLength: nat, parse: string -> Parsed, htmlText: string -> Option<string>)
    returns (r: string)
    ensures r == Preview(StripRichTextSpec(input, parse, htmlText), maxLength)
    ensures |r| <= maxLength + 3
  {
    var plain := StripRichText(input, parse, htmlText);
    r := if |plain| > maxLength then plain[..maxLength] + "..." else plain;
  }
}
