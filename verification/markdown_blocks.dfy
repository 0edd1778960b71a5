/** The block level of the post display's markdown renderer
    (WebSite/FrontEnd/src/components/RichTextDisplay.tsx): each line is
    classified, consecutive list lines are grouped into one list, and every
    other line becomes one element. The text of an element is rendered by the
    inline tokenisers; React nodes, keys and class names are left out. */
module MarkdownBlocks {
  import opened Common
  import opened Strings
  import opened MarkdownSyntax

  /** The characters `.` does not match in a JavaScript regular expression. */
  predicate IsTerminator(c: char) {
    c == '\n' || c == '\r' || c == '\U{2028}' || c == '\U{2029}'
  }

  predicate NoTerminator(s: string) {
    forall i :: 0 <= i < |s| ==> !IsTerminator(s[i])
  }

  /** The length of the whitespace run `t` starts with. */
  function SpaceRun(t: string): (k: nat)
    ensures k <= |t| && AllSpace(t[..k]) && (k < |t| ==> !IsSpace(t[k]))
  {
    if t != [] && IsSpace(t[0]) then
      var k := 1 + SpaceRun(t[1..]);
      assert t[..k] == [t[0]] + t[1..][..k - 1];
      k
    else 0
  }

  /** What `\s+(.+)$` captures at the start of `t`: the whitespace run is taken
      greedily and the rest, up to the end, must hold no line terminator; when
      only whitespace is left, the run gives back its last character. */
  function SpacedRest(t: string): (r: Option<string>)
    ensures r.Some? ==>
      && 0 < |r.value| < |t| && t[|t| - |r.value|..] == r.value
      && AllSpace(t[..|t| - |r.value|]) && NoTerminator(r.value)
  {
    var k := SpaceRun(t);
    if k == 0 then None
    else if k < |t| then (if NoTerminator(t[k..]) then Some(t[k..]) else None)
    else if k >= 2 && !IsTerminator(t[|t| - 1]) then
      assert t[..|t| - 1] == t[..k][..|t| - 1];
      Some(t[|t| - 1..])
    else None
  }

  /** Whitespace followed by text that starts with a non-space and holds no
      line terminator is captured whole. */
  lemma SpacedRestComplete(ws: string, rest: string)
    requires ws != "" && AllSpace(ws)
    requires rest != "" && !IsSpace(rest[0]) && NoTerminator(rest)
    ensures SpacedRest(ws + rest) == Some(rest)
  {
    var t := ws + rest;
    SpaceRunOf(ws, rest);
    assert t[|ws|..] == rest;
  }

  lemma {:induction false} SpaceRunOf(ws: string, rest: string)
    requires AllSpace(ws) && (rest != "" ==> !IsSpace(rest[0]))
    ensures SpaceRun(ws + rest) == |ws|
  {
    if ws != "" {
      assert (ws + rest)[1..] == ws[1..] + rest;
      SpaceRunOf(ws[1..], rest);
    } else {
      assert ws + rest == rest;
    }
  }

  predicate IsDigit(c: char) {
    '0' <= c <= '9'
  }

  /** The length of the run of ASCII digits `t` starts with. */
  function DigitRun(t: string): (k: nat)
    ensures k <= |t| && (forall i :: 0 <= i < k ==> IsDigit(t[i])) && (k < |t| ==> !IsDigit(t[k]))
  {
    if t != [] && IsDigit(t[0]) then
      var k := 1 + DigitRun(t[1..]);
      assert forall i :: 1 <= i < k ==> t[i] == t[1..][i - 1];
      k
    else 0
  }

  lemma {:induction false} DigitRunOf(digits: string, rest: string)
    requires forall i :: 0 <= i < |digits| ==> IsDigit(digits[i])
    requires rest != "" && !IsDigit(rest[0])
    ensures DigitRun(digits + rest) == |digits|
  {
    if digits != "" {
      assert (digits + rest)[1..] == digits[1..] + rest;
      DigitRunOf(digits[1..], rest);
    } else {
      assert digits + rest == rest;
    }
  }

  /** A line as the renderer classifies it. */
  datatype Line =
    | ImageLine(alt: string, src: string)
    | HeadingLine(text: string)
    | BulletLine(item: string)
    | OrderedLine(item: string)
    | BlankLine
    | ParagraphLine(text: string)

  /** The classification, in the renderer's order: a line that is one image
      (`^!\[([^\]]*)\]\(([^)]+)\)$`, an empty alt text becoming "Image"), a
      `##` heading, a `-` bullet, a numbered item, a blank line, and
      otherwise a paragraph. */
  function Classify(line: string): (l: Line)
    ensures l.BlankLine? ==> AllSpace(line)
    ensures l.ParagraphLine? ==> l.text == line && !AllSpace(line)
  {
    var image := ImageLead(line);
    if image.Some? && image.value.len == |line| then
      ImageLine(if image.value.text == "" then "Image" else image.value.text, image.value.url)
    else if IsPrefix("##", line) && SpacedRest(line[2..]).Some? then HeadingLine(SpacedRest(line[2..]).value)
    else if IsPrefix("-", line) && SpacedRest(line[1..]).Some? then BulletLine(SpacedRest(line[1..]).value)
    else
      var d := DigitRun(line);
      if 0 < d < |line| && line[d] == '.' && SpacedRest(line[d + 1..]).Some? then
        OrderedLine(SpacedRest(line[d + 1..]).value)
      else if AllSpace(line) then BlankLine
      else ParagraphLine(line)
  }

  /** A line that is exactly one image is an image. */
  lemma ImageLineComplete(alt: string, src: string)
    requires Parts(ImagePattern, alt, src)
    ensures Classify(Shape(ImagePattern, alt, src)) == ImageLine(if alt == "" then "Image" else alt, src)
  {
    var line := Shape(ImagePattern, alt, src);
    ImageLeadComplete(alt, src, "");
    assert line + "" == line;
  }

  /** `## ` and a title make a heading. */
  lemma HeadingComplete(ws: string, text: string)
    requires ws != "" && AllSpace(ws) && text != "" && !IsSpace(text[0]) && NoTerminator(text)
    ensures Classify("##" + ws + text) == HeadingLine(text)
  {
    var line := "##" + ws + text;
    assert line[0] == '#';
    assert line[2..] == ws + text;
    SpacedRestComplete(ws, text);
  }

  /** `- ` and an item make a bullet line. */
  lemma BulletComplete(ws: string, item: string)
    requires ws != "" && AllSpace(ws) && item != "" && !IsSpace(item[0]) && NoTerminator(item)
    ensures Classify("-" + ws + item) == BulletLine(item)
  {
    var line := "-" + ws + item;
    assert line[0] == '-';
    assert ImageLead(line) == None;
    assert !IsPrefix("##", line) by {
      assert |line| >= 2 ==> line[..2][0] == '-';
    }
    assert IsPrefix("-", line) by {
      assert line[..1] == "-";
    }
    assert line[1..] == ws + item;
    SpacedRestComplete(ws, item);
  }

  /** A line that starts with a digit run, a `.` and a captured item is a
      numbered line. */
  lemma ClassifyOrdered(line: string, d: nat, item: string)
    requires 0 < d < |line| && DigitRun(line) == d && line[d] == '.'
    requires SpacedRest(line[d + 1..]) == Some(item)
    ensures Classify(line) == OrderedLine(item)
  {
    assert IsDigit(line[0]);
    assert ImageLead(line) == None;
    assert !IsPrefix("##", line) by {
      assert |line| >= 2 ==> line[..2][0] == line[0];
    }
    assert !IsPrefix("-", line) by {
      assert line[..1][0] == line[0];
    }
  }

  /** A number, `. ` and an item make a numbered line. */
  lemma OrderedComplete(digits: string, ws: string, item: string)
    requires digits != "" && forall i :: 0 <= i < |digits| ==> IsDigit(digits[i])
    requires ws != "" && AllSpace(ws) && item != "" && !IsSpace(item[0]) && NoTerminator(item)
    ensures Classify(digits + "." + ws + item) == OrderedLine(item)
  {
    var rest := "." + ws + item;
    var line := digits + rest;
    assert digits + "." + ws + item == line;
    DigitRunOf(digits, rest);
    assert line[|digits|] == '.';
    assert line[|digits| + 1..] == ws + item;
    SpacedRestComplete(ws, item);
    ClassifyOrdered(line, |digits|, item);
  }

  /** A line of whitespace only is blank. */
  lemma BlankComplete(line: string)
    requires AllSpace(line)
    ensures Classify(line) == BlankLine
  {
    if line != [] {
      assert IsSpace(line[0]);
    }
  }

  function ClassifyAll(lines: seq<string>): (ls: seq<Line>)
    ensures |ls| == |lines| && forall i :: 0 <= i < |lines| ==> ls[i] == Classify(lines[i])
  {
    if lines == [] then [] else [Classify(lines[0])] + ClassifyAll(lines[1..])
  }

  /** A rendered block. */
  datatype Element =
    | Image(alt: string, src: string)
    | Heading(text: string)
    | BulletList(items: seq<string>)
    | OrderedList(items: seq<string>)
    | Spacer
    | Paragraph(text: string)

  /** The markup the image's error handler writes in place of an image that
      fails to load, indentation left out. */
  const FallbackOpen: string :=
    "<div class=\"p-4 border border-dashed rounded-xl bg-muted text-muted-foreground text-sm text-center\">Unable to load image: "
  const FallbackClose: string := "</div>"

  /** The handler's markup as written: the address is interpolated as is. */
  function FallbackAsWritten(src: string): string {
    FallbackOpen + src + FallbackClose
  }

  /** The part of `open + mid + close` between the two fixed parts. */
  lemma Middle(open: string, mid: string, close: string, i: nat)
    requires |open| <= i < |open| + |mid|
    ensures (open + mid + close)[i] == mid[i - |open|]
  {
  }

  /** The address appears verbatim between the template's parts: every `<` of
      it reaches the markup as a `<`. */
  lemma FallbackAsWrittenInjects(src: string, k: nat)
    requires k < |src| && src[k] == '<'
    ensures var m := FallbackAsWritten(src); |FallbackOpen| + k < |m| && m[|FallbackOpen| + k] == '<'
  {
    Middle(FallbackOpen, src, FallbackClose, |FallbackOpen| + k);
  }

  /** The address as HTML text: the markup characters as character references. */
  function EscapeHtml(s: string): (r: string)
    ensures '<' !in r && '>' !in r && '"' !in r
  {
    if s == [] then []
    else
      var c := s[0];
      (if c == '&' then "&amp;" else if c == '<' then "&lt;" else if c == '>' then "&gt;"
       else if c == '"' then "&quot;" else [c]) + EscapeHtml(s[1..])
  }

  /** The handler's markup with the address escaped. */
  function Fallback(src: string): string {
    FallbackOpen + EscapeHtml(src) + FallbackClose
  }

  /** Whatever the address, no `<` lies between the template's parts: the
      escaped markup's tags are the template's own. */
  lemma FallbackInert(src: string)
    ensures var m := Fallback(src);
      forall i :: |FallbackOpen| <= i < |m| - |FallbackClose| ==> m[i] != '<'
  {
    var e := EscapeHtml(src);
    forall i | |FallbackOpen| <= i < |FallbackOpen| + |e|
      ensures Fallback(src)[i] != '<'
    {
      Middle(FallbackOpen, e, FallbackClose, i);
      assert e[i - |FallbackOpen|] in e;
    }
  }

  predicate IsList(e: Element) {
    e.BulletList? || e.OrderedList?
  }

  /** The element a line that is not a list item becomes on its own. */
  function Single(l: Line): Element
    requires !l.BulletLine? && !l.OrderedLine?
  {
    match l
    case ImageLine(alt, src) => Image(alt, src)
    case HeadingLine(text) => Heading(text)
    case BlankLine => Spacer
    case ParagraphLine(text) => Paragraph(text)
  }

  /** One more line: a bullet item joins the bullet list the blocks so far end
      with, or starts one; likewise for numbered items; any other line adds its
      own element. */
  function Add(es: seq<Element>, l: Line): seq<Element> {
    match l
    case BulletLine(item) =>
      if es != [] && es[|es| - 1].BulletList? then es[..|es| - 1] + [BulletList(es[|es| - 1].items + [item])]
      else es + [BulletList([item])]
    case OrderedLine(item) =>
      if es != [] && es[|es| - 1].OrderedList? then es[..|es| - 1] + [OrderedList(es[|es| - 1].items + [item])]
      else es + [OrderedList([item])]
    case _ => es + [Single(l)]
  }

  /** The blocks of a sequence of classified lines. */
  function Elements(ls: seq<Line>): seq<Element> {
    if ls == [] then [] else Add(Elements(ls[..|ls| - 1]), ls[|ls| - 1])
  }

  /** The blocks of one more line. */
  lemma ElementsStep(ls: seq<Line>, i: nat)
    requires i < |ls|
    ensures Elements(ls[..i + 1]) == Add(Elements(ls[..i]), ls[i])
  {
    assert ls[..i + 1][..i] == ls[..i];
  }

  /** Lists are never empty and no two lists of the same kind are adjacent. */
  predicate Maximal(es: seq<Element>) {
    && (forall i :: 0 <= i < |es| && IsList(es[i]) ==> es[i].items != [])
    && (forall i :: 0 <= i < |es| - 1 ==>
          !(es[i].BulletList? && es[i + 1].BulletList?) && !(es[i].OrderedList? && es[i + 1].OrderedList?))
  }

  lemma AddMaximal(es: seq<Element>, l: Line)
    requires Maximal(es)
    ensures Maximal(Add(es, l))
  {
    var r := Add(es, l);
    if |r| == |es| {
      assert r[..|r| - 1] == es[..|es| - 1];
      assert forall i :: 0 <= i < |r| - 1 ==> r[i] == es[i];
    } else {
      assert forall i :: 0 <= i < |es| ==> r[i] == es[i];
    }
  }

  /** Each list is a maximal run of its kind of line, and never empty. */
  lemma {:induction false} ListsMaximal(ls: seq<Line>)
    ensures Maximal(Elements(ls))
  {
    if ls != [] {
      ListsMaximal(ls[..|ls| - 1]);
      AddMaximal(Elements(ls[..|ls| - 1]), ls[|ls| - 1]);
    }
  }

  /** The list items of a run of elements, in order. */
  function ListItems(es: seq<Element>): seq<string> {
    if es == [] then []
    else
      var last := es[|es| - 1];
      ListItems(es[..|es| - 1]) + (if IsList(last) then last.items else [])
  }

  /** The items of the list lines, in order. */
  function LineItems(ls: seq<Line>): seq<string> {
    if ls == [] then []
    else
      var last := ls[|ls| - 1];
      LineItems(ls[..|ls| - 1]) + (if last.BulletLine? || last.OrderedLine? then [last.item] else [])
  }

  lemma AddItems(es: seq<Element>, l: Line)
    ensures ListItems(Add(es, l)) == ListItems(es) + (if l.BulletLine? || l.OrderedLine? then [l.item] else [])
  {
    var r := Add(es, l);
    if |r| == |es| {
      var prev := es[|es| - 1];
      assert r[..|r| - 1] == es[..|es| - 1];
      AppendAssoc(ListItems(es[..|es| - 1]), prev.items, [l.item]);
    } else {
      assert r[..|r| - 1] == es;
    }
  }

  /** Every list item is emitted exactly once, in input order. */
  lemma {:induction false} ItemsInOrder(ls: seq<Line>)
    ensures ListItems(Elements(ls)) == LineItems(ls)
  {
    if ls != [] {
      ItemsInOrder(ls[..|ls| - 1]);
      AddItems(Elements(ls[..|ls| - 1]), ls[|ls| - 1]);
    }
  }

  /** The elements that are not lists, in order. */
  function NonLists(es: seq<Element>): seq<Element> {
    if es == [] then []
    else NonLists(es[..|es| - 1]) + (if IsList(es[|es| - 1]) then [] else [es[|es| - 1]])
  }

  /** The elements the lines that are not list items become on their own. */
  function NonListLines(ls: seq<Line>): seq<Element> {
    if ls == [] then []
    else
      var last := ls[|ls| - 1];
      NonListLines(ls[..|ls| - 1]) + (if last.BulletLine? || last.OrderedLine? then [] else [Single(last)])
  }

  lemma AddNonLists(es: seq<Element>, l: Line)
    ensures NonLists(Add(es, l)) == NonLists(es) + (if l.BulletLine? || l.OrderedLine? then [] else [Single(l)])
  {
    var r := Add(es, l);
    if |r| == |es| {
      assert r[..|r| - 1] == es[..|es| - 1];
    } else {
      assert r[..|r| - 1] == es;
    }
  }

  /** Every other line gives its own element, in input order. */
  lemma {:induction false} OthersInOrder(ls: seq<Line>)
    ensures NonLists(Elements(ls)) == NonListLines(ls)
  {
    if ls != [] {
      OthersInOrder(ls[..|ls| - 1]);
      AddNonLists(Elements(ls[..|ls| - 1]), ls[|ls| - 1]);
    }
  }

  /** The lists `flushList` would emit for the pending items. */
  function Pending(bullets: seq<string>, ordered: seq<string>): seq<Element> {
    if bullets != [] && ordered != [] then [BulletList(bullets), OrderedList(ordered)]
    else if bullets != [] then [BulletList(bullets)]
    else if ordered != [] then [OrderedList(ordered)]
    else []
  }

  datatype ListKind = Bullets | Numbered

  /** `flushList`: emits the pending bullet list, then the pending numbered
      list, and forgets the current list kind. */
  method FlushList(elements: seq<Element>, bullets: seq<string>, ordered: seq<string>)
    returns (elements': seq<Element>, bullets': seq<string>, ordered': seq<string>, current': Option<ListKind>)
    ensures elements' == elements + Pending(bullets, ordered)
    ensures bullets' == [] && ordered' == [] && current' == None
  {
    elements' := elements;
    if |bullets| > 0 {
      elements' := elements' + [BulletList(bullets)];
    }
    if |ordered| > 0 {
      elements' := elements' + [OrderedList(ordered)];
    }
    bullets', ordered', current' := [], [], None;
  }

  /** The parser's state between lines: nothing pending after a line that is
      not a list item; otherwise exactly the current kind's list, which the
      emitted elements do not already end with. */
  predicate Consistent(elements: seq<Element>, bullets: seq<string>, ordered: seq<string>, current: Option<ListKind>) {
    match current
    case None => bullets == [] && ordered == [] && (elements == [] || !IsList(elements[|elements| - 1]))
    case Some(Bullets) => bullets != [] && ordered == [] && (elements == [] || !elements[|elements| - 1].BulletList?)
    case Some(Numbered) => ordered != [] && bullets == [] && (elements == [] || !elements[|elements| - 1].OrderedList?)
  }

  /** A bullet item while a bullet list is pending extends it. */
  lemma ExtendBullets(elements: seq<Element>, bullets: seq<string>, ordered: seq<string>, item: string)
    requires Consistent(elements, bullets, ordered, Some(Bullets))
    ensures Add(elements + Pending(bullets, ordered), BulletLine(item)) == elements + Pending(bullets + [item], ordered)
  {
    var es := elements + [BulletList(bullets)];
    assert es[..|es| - 1] == elements;
  }

  lemma ExtendNumbered(elements: seq<Element>, bullets: seq<string>, ordered: seq<string>, item: string)
    requires Consistent(elements, bullets, ordered, Some(Numbered))
    ensures Add(elements + Pending(bullets, ordered), OrderedLine(item)) == elements + Pending(bullets, ordered + [item])
  {
    var es := elements + [OrderedList(ordered)];
    assert es[..|es| - 1] == elements;
  }

  /** A bullet item while no bullet list is pending flushes and starts one. */
  lemma StartBullets(elements: seq<Element>, bullets: seq<string>, ordered: seq<string>, current: Option<ListKind>, item: string)
    requires Consistent(elements, bullets, ordered, current) && current != Some(Bullets)
    ensures var flushed := elements + Pending(bullets, ordered);
      && Add(flushed, BulletLine(item)) == flushed + Pending([item], [])
      && Consistent(flushed, [item], [], Some(Bullets))
  {
  }

  lemma StartNumbered(elements: seq<Element>, bullets: seq<string>, ordered: seq<string>, current: Option<ListKind>, item: string)
    requires Consistent(elements, bullets, ordered, current) && current != Some(Numbered)
    ensures var flushed := elements + Pending(bullets, ordered);
      && Add(flushed, OrderedLine(item)) == flushed + Pending([], [item])
      && Consistent(flushed, [], [item], Some(Numbered))
  {
  }

  /** Any other line flushes the pending list and adds its own element. */
  lemma AddOther(elements: seq<Element>, bullets: seq<string>, ordered: seq<string>, current: Option<ListKind>, l: Line)
    requires Consistent(elements, bullets, ordered, current) && !l.BulletLine? && !l.OrderedLine?
    ensures var flushed := elements + Pending(bullets, ordered);
      && Add(flushed, l) == flushed + [Single(l)]
      && Consistent(flushed + [Single(l)], [], [], None)
  {
  }

  /** `parseMarkdown`: one pass over the lines with the pending lists, and a
      final flush. */
  method ParseMarkdown(text: string) returns (elements: seq<Element>)
    ensures elements == Elements(ClassifyAll(Split(text, '\n')))
  {
    var lines := Split(text, '\n');
    ghost var ls := ClassifyAll(lines);
    elements := [];
    var bullets: seq<string> := [];
    var ordered: seq<string> := [];
    var current: Option<ListKind> := None;
    for i := 0 to |lines|
      invariant Consistent(elements, bullets, ordered, current)
      invariant elements + Pending(bullets, ordered) == Elements(ls[..i])
    {
      var line := Classify(lines[i]);
      assert ls[i] == line;
      ElementsStep(ls, i);
      ghost var before := elements + Pending(bullets, ordered);
      match line
      case BulletLine(item) =>
        if current == Some(Bullets) {
          ExtendBullets(elements, bullets, ordered, item);
          bullets := bullets + [item];
        } else {
          StartBullets(elements, bullets, ordered, current, item);
          elements, bullets, ordered, current := FlushList(elements, bullets, ordered);
          current := Some(Bullets);
          bullets := bullets + [item];
          assert bullets == [item];
        }
      case OrderedLine(item) =>
        if current == Some(Numbered) {
          ExtendNumbered(elements, bullets, ordered, item);
          ordered := ordered + [item];
        } else {
          StartNumbered(elements, bullets, ordered, current, item);
          elements, bullets, ordered, current := FlushList(elements, bullets, ordered);
          current := Some(Numbered);
          ordered := ordered + [item];
          assert ordered == [item];
        }
      case _ =>
        AddOther(elements, bullets, ordered, current, line);
        elements, bullets, ordered, current := FlushList(elements, bullets, ordered);
        elements := elements + [Single(line)];
        assert elements + Pending(bullets, ordered) == Add(before, line);
    }
    assert ls[..|lines|] == ls;
    elements, bullets, ordered, current := FlushList(elements, bullets, ordered);
  }
}
