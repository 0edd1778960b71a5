/** The sanitiser the post display applies to HTML content
    (WebSite/FrontEnd/src/components/RichTextDisplay.tsx, `sanitizedHtml`):
    `script` and `style` elements are removed with their content, event
    handler attributes are removed, and `href`/`src` attributes whose value
    matches `/^javascript:/i` are removed. That test reads the raw value, so a
    `javascript:` URL behind a leading space survives (`DropAttrAsWritten`,
    `AsWrittenKeepsScriptLink`). `FilterAttrs`, `SanitizeNodes` and what is
    proved about them use the corrected test `DropAttr`, which reads the scheme
    as the browser does. The browser's `DOMParser` and the serialisation of
    `doc.body.innerHTML` are parameters. */
module HtmlSanitizer {
  import opened Common
  import opened Strings

  datatype Attr = Attr(name: string, value: string)

  /** A node of the parsed body. Element names are as the HTML parser gives
      them; comments and other node kinds carry no attributes and are kept
      like text. */
  datatype Node = Elem(tag: string, attrs: seq<Attr>, children: seq<Node>) | TextNode(text: string)

  /** `doc.querySelectorAll('script, style')`: matched case-insensitively. */
  predicate Disallowed(tag: string) {
    Lower(tag) == "script" || Lower(tag) == "style"
  }

  const ScriptScheme: string := "javascript:"

  /** `/^javascript:/i` on the raw attribute value, as the sanitiser tests it. */
  predicate ScriptUrlAsWritten(value: string) {
    IsPrefix(ScriptScheme, Lower(value))
  }

  /** A C0 control or a space, which the URL parser strips from both ends. */
  predicate IsC0OrSpace(c: char) {
    c as int <= 0x20
  }

  predicate IsTabOrNewline(c: char) {
    c == '\t' || c == '\n' || c == '\r'
  }

  /** The value without its leading C0 controls and spaces. */
  function TrimLeadingC0(s: string): (r: string)
    ensures |r| <= |s| && r == s[|s| - |r|..]
    ensures r == [] || !IsC0OrSpace(r[0])
  {
    if s != [] && IsC0OrSpace(s[0]) then TrimLeadingC0(s[1..]) else s
  }

  /** The value without the tabs and newlines the URL parser removes anywhere. */
  function RemoveTabNewline(s: string): string {
    if s == [] then []
    else (if IsTabOrNewline(s[0]) then [] else [s[0]]) + RemoveTabNewline(s[1..])
  }

  lemma {:induction false} RemoveTabNewlineAppend(a: string, b: string)
    ensures RemoveTabNewline(a + b) == RemoveTabNewline(a) + RemoveTabNewline(b)
  {
    if a != [] {
      assert (a + b)[1..] == a[1..] + b;
      RemoveTabNewlineAppend(a[1..], b);
    } else {
      assert a + b == b;
    }
  }

  lemma {:induction false} RemoveTabNewlineKeeps(s: string)
    requires forall i :: 0 <= i < |s| ==> !IsTabOrNewline(s[i])
    ensures RemoveTabNewline(s) == s
  {
    if s != [] {
      RemoveTabNewlineKeeps(s[1..]);
    }
  }

  /** A value whose URL has the `javascript:` scheme as the browser parses it:
      after stripping leading C0 controls and spaces and removing tabs and
      newlines, the scheme compared without regard to ASCII case. */
  predicate ScriptUrl(value: string) {
    IsPrefix(ScriptScheme, Lower(RemoveTabNewline(TrimLeadingC0(value))))
  }

  /** A value the pattern catches starts with the scheme itself. */
  lemma SchemeLead(v: string)
    requires ScriptUrlAsWritten(v)
    ensures v != [] && !IsC0OrSpace(v[0])
    ensures forall i :: 0 <= i < |ScriptScheme| ==> !IsTabOrNewline(v[i])
  {
    forall i | 0 <= i < |ScriptScheme|
      ensures LowerChar(v[i]) == ScriptScheme[i]
    {
      assert Lower(v)[..|ScriptScheme|][i] == Lower(v)[i];
    }
  }

  /** Every value the pattern catches does run script: the browser's reading
      removes a superset of what the pattern removes. */
  lemma CorrectedCoversAsWritten(v: string)
    requires ScriptUrlAsWritten(v)
    ensures ScriptUrl(v)
  {
    var n := |ScriptScheme|;
    SchemeLead(v);
    assert TrimLeadingC0(v) == v;
    var head, tail := v[..n], v[n..];
    assert v == head + tail;
    RemoveTabNewlineAppend(head, tail);
    RemoveTabNewlineKeeps(head);
    var r := RemoveTabNewline(v);
    assert r[..n] == head;
    forall i | 0 <= i < n
      ensures Lower(r)[..n][i] == ScriptScheme[i]
    {
      assert Lower(v)[..n][i] == Lower(v)[i];
    }
  }

  /** The pattern misses a `javascript:` value behind a leading space, which
      the browser still runs: ` javascript:alert(1)` survives sanitising. */
  lemma AsWrittenMissesLeadingSpace(rest: string)
    requires ScriptUrlAsWritten(rest)
    ensures !ScriptUrlAsWritten(" " + rest) && ScriptUrl(" " + rest)
  {
    var v := " " + rest;
    assert Lower(v)[0] == ' ';
    SchemeLead(rest);
    assert v[1..] == rest;
    assert TrimLeadingC0(v) == TrimLeadingC0(rest);
    CorrectedCoversAsWritten(rest);
  }

  /** `name.startsWith('on')` on the lower-cased attribute name. */
  predicate EventHandler(a: Attr) {
    IsPrefix("on", Lower(a.name))
  }

  predicate UrlAttr(a: Attr) {
    Lower(a.name) == "href" || Lower(a.name) == "src"
  }

  /** Which attributes the loop removes, as written. */
  predicate DropAttrAsWritten(a: Attr) {
    EventHandler(a) || (UrlAttr(a) && ScriptUrlAsWritten(a.value))
  }

  /** Which attributes are removed, with script URLs as the browser reads them. */
  predicate DropAttr(a: Attr) {
    EventHandler(a) || (UrlAttr(a) && ScriptUrl(a.value))
  }

  /** The as-written rule keeps a link whose target runs script, which the
      corrected rule removes. */
  lemma AsWrittenKeepsScriptLink(rest: string)
    requires ScriptUrlAsWritten(rest)
    ensures !DropAttrAsWritten(Attr("href", " " + rest)) && DropAttr(Attr("href", " " + rest))
  {
    var a := Attr("href", " " + rest);
    assert Lower(a.name) == "href";
    assert !EventHandler(a) by {
      assert Lower(a.name)[..2] == "hr";
    }
    AsWrittenMissesLeadingSpace(rest);
  }

  /** The corrected rule removes everything the as-written rule removes. */
  lemma CorrectedRemovesMore(a: Attr)
    requires DropAttrAsWritten(a)
    ensures DropAttr(a)
  {
    if !EventHandler(a) {
      CorrectedCoversAsWritten(a.value);
    }
  }

  /** An element's attributes after the loop, with the corrected test: those
      `DropAttr` does not remove, in order. The loop as written removes only
      what `DropAttrAsWritten` names. */
  function FilterAttrs(attrs: seq<Attr>): (kept: seq<Attr>)
    ensures forall a :: a in kept <==> a in attrs && !DropAttr(a)
    ensures |kept| <= |attrs|
  {
    if attrs == [] then []
    else (if DropAttr(attrs[0]) then [] else [attrs[0]]) + FilterAttrs(attrs[1..])
  }

  lemma {:induction false} FilterKeepsAll(attrs: seq<Attr>)
    requires forall a :: a in attrs ==> !DropAttr(a)
    ensures FilterAttrs(attrs) == attrs
  {
    if attrs != [] {
      FilterKeepsAll(attrs[1..]);
    }
  }

  /** The body after sanitising: disallowed elements removed with their
      subtrees, and every remaining element's attributes filtered by the
      corrected test. */
  function SanitizeNodes(ns: seq<Node>): seq<Node>
    decreases ns
  {
    if ns == [] then []
    else
      var rest := SanitizeNodes(ns[1..]);
      match ns[0]
      case TextNode(t) => [TextNode(t)] + rest
      case Elem(tag, attrs, children) =>
        if Disallowed(tag) then rest
        else [Elem(tag, FilterAttrs(attrs), SanitizeNodes(children))] + rest
  }

  /** No disallowed element and no attribute the rules remove, at any depth. */
  predicate Clean(ns: seq<Node>)
    decreases ns
  {
    if ns == [] then true
    else
      && Clean(ns[1..])
      && match ns[0]
         case TextNode(_) => true
         case Elem(tag, attrs, children) =>
           !Disallowed(tag) && (forall a :: a in attrs ==> !DropAttr(a)) && Clean(children)
  }

  /** Sanitised content is clean. */
  lemma {:induction false} SanitizedIsClean(ns: seq<Node>)
    ensures Clean(SanitizeNodes(ns))
    decreases ns
  {
    if ns != [] {
      SanitizedIsClean(ns[1..]);
      match ns[0]
      case TextNode(_) =>
      case Elem(tag, attrs, children) =>
        if !Disallowed(tag) {
          SanitizedIsClean(children);
          var out := SanitizeNodes(ns);
          assert out[1..] == SanitizeNodes(ns[1..]);
        }
    }
  }

  /** Clean content passes through unchanged: nothing the rules do not name
      is removed. */
  lemma {:induction false} CleanUnchanged(ns: seq<Node>)
    requires Clean(ns)
    ensures SanitizeNodes(ns) == ns
    decreases ns
  {
    if ns != [] {
      CleanUnchanged(ns[1..]);
      match ns[0]
      case TextNode(_) =>
      case Elem(tag, attrs, children) =>
        CleanUnchanged(children);
        FilterKeepsAll(attrs);
    }
    assert ns == [] || ns == [ns[0]] + ns[1..];
  }

  /** Sanitising twice is sanitising once. */
  lemma SanitizeIdempotent(ns: seq<Node>)
    ensures SanitizeNodes(SanitizeNodes(ns)) == SanitizeNodes(ns)
  {
    SanitizedIsClean(ns);
    CleanUnchanged(SanitizeNodes(ns));
  }

  /** `sanitizedHtml` for HTML content: the parsed body sanitised and
      serialised, or the content itself when parsing throws. */
  function SanitizedHtml(content: string, parse: string -> Option<seq<Node>>, serialize: seq<Node> -> string): (html: string)
    ensures parse(content).None? ==> html == content
    ensures parse(content).Some? ==> exists body :: Clean(body) && html == serialize(body)
  {
    match parse(content)
    case None => content
    case Some(body) =>
      SanitizedIsClean(body);
      serialize(SanitizeNodes(body))
  }
}
