/** The inline markdown patterns the frontend recognises with regular
    expressions (WebSite/FrontEnd/src/utils/text.ts and
    WebSite/FrontEnd/src/components/RichTextDisplay.tsx), as matchers at a
    position and leftmost searches. Each pattern's variable parts exclude the
    character that closes them, so a match at a position is unique. */
module MarkdownSyntax {
  import opened Common
  import opened Strings

  /** A match of a pattern in `s` spanning `s[start..end]`, with its variable
      parts: `text` is the link text, the image alt or the emphasised text;
      `url` is the link or image target, empty for emphasis. */
  datatype Span = Span(start: nat, text: string, url: string, end: nat)

  /** A match at the start of a text: its variable parts and its length. */
  datatype Lead = Lead(text: string, url: string, len: nat)

  /** `[text](url)` at the start of `t`, as `\[([^\]]+)\]\(([^)]+)\)` matches it. */
  function LinkLead(t: string): (m: Option<Lead>)
    ensures m.Some? ==>
      && m.value.len <= |t| && t[..m.value.len] == "[" + m.value.text + "](" + m.value.url + ")"
      && m.value.text != "" && ']' !in m.value.text && m.value.url != "" && ')' !in m.value.url
  {
    if t != [] && t[0] == '[' then
      var j := IndexOf(t[1..], ']');
      if j >= 1 && j + 2 < |t| && t[j + 2] == '(' then
        var k := IndexOf(t[j + 3..], ')');
        if k < |t[j + 3..]| then
          var text, url := t[1..][..j], t[j + 3..][..k];
          assert t[..j + k + 4] == "[" + text + "](" + url + ")";
          if k >= 1 then Some(Lead(text, url, j + k + 4)) else None
        else None
      else None
    else None
  }

  /** The link shape is always recognised, with exactly its parts. */
  lemma LinkLeadComplete(text: string, url: string, rest: string)
    requires text != "" && ']' !in text && url != "" && ')' !in url
    ensures LinkLead("[" + text + "](" + url + ")" + rest) == Some(Lead(text, url, |text| + |url| + 4))
  {
    var t := "[" + text + "](" + url + ")" + rest;
    assert t[0] == '[' && t[|text| + 2] == '(';
    assert t[1..] == text + "]" + ("(" + url + ")" + rest);
    IndexOfJoined(text, ']', "(" + url + ")" + rest);
    assert t[1..][..|text|] == text;
    assert t[|text| + 3..] == url + ")" + rest;
    IndexOfJoined(url, ')', rest);
    assert t[|text| + 3..][..|url|] == url;
  }

  /** `![alt](url)` at the start of `t`, as `!\[[^\]]*\]\([^)]+\)` matches it:
      the alt text may be empty. */
  function ImageLead(t: string): (m: Option<Lead>)
    ensures m.Some? ==>
      && m.value.len <= |t| && t[..m.value.len] == "![" + m.value.text + "](" + m.value.url + ")"
      && ']' !in m.value.text && m.value.url != "" && ')' !in m.value.url
  {
    if |t| >= 2 && t[0] == '!' && t[1] == '[' then
      var j := IndexOf(t[2..], ']');
      if j + 3 < |t| && t[j + 3] == '(' then
        var k := IndexOf(t[j + 4..], ')');
        if k < |t[j + 4..]| then
          var alt, url := t[2..][..j], t[j + 4..][..k];
          assert t[..j + k + 5] == "![" + alt + "](" + url + ")";
          if k >= 1 then Some(Lead(alt, url, j + k + 5)) else None
        else None
      else None
    else None
  }

  lemma ImageLeadComplete(alt: string, url: string, rest: string)
    requires ']' !in alt && url != "" && ')' !in url
    ensures ImageLead("![" + alt + "](" + url + ")" + rest) == Some(Lead(alt, url, |alt| + |url| + 5))
  {
    var t := "![" + alt + "](" + url + ")" + rest;
    assert t[0] == '!' && t[1] == '[' && t[|alt| + 3] == '(';
    assert t[2..] == alt + "]" + ("(" + url + ")" + rest);
    IndexOfJoined(alt, ']', "(" + url + ")" + rest);
    assert t[2..][..|alt|] == alt;
    assert t[|alt| + 4..] == url + ")" + rest;
    IndexOfJoined(url, ')', rest);
    assert t[|alt| + 4..][..|url|] == url;
  }

  /** `**text**` at the start of `t`, as `\*\*([^*]+)\*\*` matches it. */
  function BoldLead(t: string): (m: Option<Lead>)
    ensures m.Some? ==>
      && m.value.len <= |t| && m.value.url == "" && t[..m.value.len] == "**" + m.value.text + "**"
      && m.value.text != "" && '*' !in m.value.text
  {
    if |t| >= 2 && t[0] == '*' && t[1] == '*' then
      var j := IndexOf(t[2..], '*');
      if j >= 1 && j + 3 < |t| && t[j + 3] == '*' then
        var text := t[2..][..j];
        assert t[..j + 4] == "**" + text + "**";
        Some(Lead(text, "", j + 4))
      else None
    else None
  }

  lemma BoldLeadComplete(text: string, rest: string)
    requires text != "" && '*' !in text
    ensures BoldLead("**" + text + "**" + rest) == Some(Lead(text, "", |text| + 4))
  {
    var t := "**" + text + "**" + rest;
    assert t[0] == '*' && t[1] == '*' && t[|text| + 3] == '*';
    assert t[2..] == text + "*" + ("*" + rest);
    IndexOfJoined(text, '*', "*" + rest);
    assert t[2..][..|text|] == text;
  }

  /** `*text*` at the start of `t`, as `\*([^*]+)\*` matches it. */
  function ItalicLead(t: string): (m: Option<Lead>)
    ensures m.Some? ==>
      && m.value.len <= |t| && m.value.url == "" && t[..m.value.len] == "*" + m.value.text + "*"
      && m.value.text != "" && '*' !in m.value.text
  {
    if t != [] && t[0] == '*' then
      var j := IndexOf(t[1..], '*');
      if j >= 1 && j + 1 < |t| then
        var text := t[1..][..j];
        assert t[..j + 2] == "*" + text + "*";
        Some(Lead(text, "", j + 2))
      else None
    else None
  }

  lemma ItalicLeadComplete(text: string, rest: string)
    requires text != "" && '*' !in text
    ensures ItalicLead("*" + text + "*" + rest) == Some(Lead(text, "", |text| + 2))
  {
    var t := "*" + text + "*" + rest;
    assert t[0] == '*';
    assert t[1..] == text + "*" + rest;
    IndexOfJoined(text, '*', rest);
    assert t[1..][..|text|] == text;
  }

  /** The patterns, for the leftmost search. */
  datatype Pattern = LinkPattern | ImagePattern | BoldPattern | ItalicPattern

  /** The text a match of `pat` with the given parts spans. */
  function Shape(pat: Pattern, text: string, url: string): string {
    match pat
    case LinkPattern => "[" + text + "](" + url + ")"
    case ImagePattern => "![" + text + "](" + url + ")"
    case BoldPattern => "**" + text + "**"
    case ItalicPattern => "*" + text + "*"
  }

  /** What each pattern demands of its variable parts. */
  predicate Parts(pat: Pattern, text: string, url: string) {
    match pat
    case LinkPattern => text != "" && ']' !in text && url != "" && ')' !in url
    case ImagePattern => ']' !in text && url != "" && ')' !in url
    case BoldPattern => text != "" && '*' !in text && url == ""
    case ItalicPattern => text != "" && '*' !in text && url == ""
  }

  function LeadOf(pat: Pattern, t: string): (m: Option<Lead>)
    ensures m.Some? ==> 0 < m.value.len <= |t|
  {
    match pat
    case LinkPattern => LinkLead(t)
    case ImagePattern => ImageLead(t)
    case BoldPattern => BoldLead(t)
    case ItalicPattern => ItalicLead(t)
  }

  /** A match at the start spans exactly its pattern's shape. */
  lemma LeadShape(pat: Pattern, t: string)
    requires LeadOf(pat, t).Some?
    ensures var m := LeadOf(pat, t).value;
      t[..m.len] == Shape(pat, m.text, m.url) && Parts(pat, m.text, m.url)
  {
  }

  /** Every well-formed shape is recognised at the start of a text, with
      exactly its parts. */
  lemma LeadComplete(pat: Pattern, text: string, url: string, rest: string)
    requires Parts(pat, text, url)
    ensures LeadOf(pat, Shape(pat, text, url) + rest) == Some(Lead(text, url, |Shape(pat, text, url)|))
  {
    match pat
    case LinkPattern => LinkLeadComplete(text, url, rest);
    case ImagePattern => ImageLeadComplete(text, url, rest);
    case BoldPattern => BoldLeadComplete(text, rest);
    case ItalicPattern => ItalicLeadComplete(text, rest);
  }

  /** The pattern matched at position `p` of `s`. */
  function MatchAt(pat: Pattern, s: string, p: nat): (m: Option<Span>)
    ensures m.Some? ==> m.value.start == p && p < m.value.end <= |s|
  {
    if p > |s| then None
    else match LeadOf(pat, s[p..])
      case None => None
      case Some(l) => Some(Span(p, l.text, l.url, p + l.len))
  }

  /** A match spans exactly its pattern's shape, with well-formed parts. */
  lemma MatchShape(pat: Pattern, s: string, p: nat)
    requires MatchAt(pat, s, p).Some?
    ensures var m := MatchAt(pat, s, p).value;
      s[p..m.end] == Shape(pat, m.text, m.url) && Parts(pat, m.text, m.url)
  {
    var l := LeadOf(pat, s[p..]).value;
    LeadShape(pat, s[p..]);
    assert s[p..p + l.len] == s[p..][..l.len];
  }

  /** A well-formed shape at position `p` is matched there. */
  lemma MatchComplete(pat: Pattern, s: string, p: nat, text: string, url: string)
    requires Parts(pat, text, url) && p + |Shape(pat, text, url)| <= |s|
    requires s[p..p + |Shape(pat, text, url)|] == Shape(pat, text, url)
    ensures MatchAt(pat, s, p) == Some(Span(p, text, url, p + |Shape(pat, text, url)|))
  {
    var shape := Shape(pat, text, url);
    assert s[p..] == shape + s[p + |shape|..];
    LeadComplete(pat, text, url, s[p + |shape|..]);
  }

  /** `s.match(pattern)` from position `p` on: the leftmost match. */
  function Find(pat: Pattern, s: string, p: nat): (m: Option<Span>)
    ensures m.Some? ==> p <= m.value.start && MatchAt(pat, s, m.value.start) == m
    decreases |s| - p
  {
    if p >= |s| then None
    else if MatchAt(pat, s, p).Some? then MatchAt(pat, s, p)
    else Find(pat, s, p + 1)
  }

  /** The match found is the leftmost one, and none is found only when there
      is none. */
  lemma {:induction false} FindLeftmost(pat: Pattern, s: string, p: nat)
    ensures var m := Find(pat, s, p);
      m.Some? ==> forall q :: p <= q < m.value.start ==> MatchAt(pat, s, q).None?
    ensures Find(pat, s, p).None? ==> forall q :: p <= q < |s| ==> MatchAt(pat, s, q).None?
    decreases |s| - p
  {
    if p < |s| && MatchAt(pat, s, p).None? {
      FindLeftmost(pat, s, p + 1);
      var m := Find(pat, s, p + 1);
      assert Find(pat, s, p) == m;
      var end := if m.Some? then m.value.start else |s|;
      forall q | p <= q < end
        ensures MatchAt(pat, s, q).None?
      {
        if q == p {
        } else {
          assert p + 1 <= q < end;
        }
      }
    }
  }

  /** A pattern matched nowhere in `s`. */
  predicate Free(pat: Pattern, s: string) {
    forall q :: 0 <= q < |s| ==> MatchAt(pat, s, q).None?
  }

  /** No pattern needs a position at or past the end of the text. */
  lemma NoMatchAtEnd(pat: Pattern, s: string, p: nat)
    requires p >= |s|
    ensures MatchAt(pat, s, p).None?
  {
  }
}
