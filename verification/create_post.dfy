/** The post creation form (WebSite/FrontEnd/src/components/CreatePostPage.tsx):
    validation of the fields, the tag picker, and the request sent on publish.
    Translated messages are represented by their keys; scrolling, the
    submitting flag and the network call are left out. */
module CreatePost {
  import opened Common
  import opened Strings
  import opened PlainText
  import PostService

  const MinTitleLength: nat := 10
  const MinContentLength: nat := 50
  const MaxTags: nat := 5

  /** The keys of the `errors` dictionary. */
  datatype Field = TitleField | CategoryField | ContentField

  /** The translation keys of the messages. */
  datatype ErrorKey = TitleRequired | TitleMin | CategoryRequired | ContentRequired | ContentMin

  /** `validate`: one message per field that fails, and success when there is
      none. The title counts after trimming, the content after flattening. */
  method Validate(title: string, category: string, content: string,
                  parse: string -> Parsed, htmlText: string -> Option<string>)
    returns (errors: map<Field, ErrorKey>, ok: bool)
    ensures ok <==> errors == map[]
    ensures TitleField in errors <==> |Strip(title)| < MinTitleLength
    ensures TitleField in errors ==> errors[TitleField] == (if Strip(title) == "" then TitleRequired else TitleMin)
    ensures CategoryField in errors <==> category == ""
    ensures CategoryField in errors ==> errors[CategoryField] == CategoryRequired
    ensures var plain := StripRichTextSpec(content, parse, htmlText);
      && (ContentField in errors <==> |plain| < MinContentLength)
      && (ContentField in errors ==> errors[ContentField] == (if plain == "" then ContentRequired else ContentMin))
  {
    errors := map[];
    var trimmed := Strip(title);
    if trimmed == "" {
      errors := errors[TitleField := TitleRequired];
    } else if |trimmed| < MinTitleLength {
      errors := errors[TitleField := TitleMin];
    }
    if category == "" {
      errors := errors[CategoryField := CategoryRequired];
    }
    var plain := StripRichText(content, parse, htmlText);
    if plain == "" {
      errors := errors[ContentField := ContentRequired];
    } else if |plain| < MinContentLength {
      errors := errors[ContentField := ContentMin];
    }
    ok := |errors.Keys| == 0;
  }

  /** What the tag picker keeps: distinct, trimmed, non-empty tags, at most
      five of them. */
  predicate TagsValid(tags: seq<string>) {
    && |tags| <= MaxTags
    && (forall i, j :: 0 <= i < j < |tags| ==> tags[i] != tags[j])
    && (forall i :: 0 <= i < |tags| ==> tags[i] != "" && NoEdgeSpace(tags[i]))
  }

  /** `handleAddTag`: the trimmed tag is appended when it is non-empty, not
      yet present, and fewer than five tags exist. */
  function AddTag(tags: seq<string>, tag: string): (r: seq<string>)
    ensures r == tags || r == tags + [Strip(tag)]
    ensures r != tags <==> Strip(tag) != "" && Strip(tag) !in tags && |tags| < MaxTags
  {
    var t := Strip(tag);
    if t != "" && t !in tags && |tags| < MaxTags then tags + [t] else tags
  }

  /** Adding keeps the picker's invariant. */
  lemma AddTagValid(tags: seq<string>, tag: string)
    requires TagsValid(tags)
    ensures TagsValid(AddTag(tags, tag))
  {
    StripShape(tag);
    var r := AddTag(tags, tag);
    if r != tags {
      assert forall i :: 0 <= i < |tags| ==> r[i] == tags[i];
      assert r[|tags|] == Strip(tag);
    }
  }

  /** `handleRemoveTag`: every occurrence removed, the other tags kept. */
  function RemoveTag(tags: seq<string>, tag: string): (r: seq<string>)
    ensures |r| <= |tags|
    ensures forall x :: x in r <==> x in tags && x != tag
  {
    if tags == [] then []
    else (if tags[0] == tag then [] else [tags[0]]) + RemoveTag(tags[1..], tag)
  }

  /** Removing works piecewise, so the remaining tags keep their order. */
  lemma {:induction false} RemoveTagAppend(a: seq<string>, b: seq<string>, tag: string)
    ensures RemoveTag(a + b, tag) == RemoveTag(a, tag) + RemoveTag(b, tag)
  {
    if a != [] {
      assert (a + b)[1..] == a[1..] + b;
      RemoveTagAppend(a[1..], b, tag);
    } else {
      assert a + b == b;
    }
  }

  /** Removing an absent tag changes nothing. */
  lemma {:induction false} RemoveAbsent(tags: seq<string>, tag: string)
    requires tag !in tags
    ensures RemoveTag(tags, tag) == tags
  {
    if tags != [] {
      RemoveAbsent(tags[1..], tag);
    }
  }

  /** Removing keeps the picker's invariant. */
  lemma {:induction false} RemoveTagValid(tags: seq<string>, tag: string)
    requires TagsValid(tags)
    ensures TagsValid(RemoveTag(tags, tag))
  {
    if tags != [] {
      RemoveTagValid(tags[1..], tag);
      var rest := RemoveTag(tags[1..], tag);
      if tags[0] != tag {
        assert tags[0] !in tags[1..];
        assert tags[0] !in rest;
        var r := [tags[0]] + rest;
        assert forall j :: 0 < j < |r| ==> r[j] == rest[j - 1];
      }
    }
  }

  /** Removing a tag just added gives back the tags before. */
  lemma RemoveUndoesAdd(tags: seq<string>, tag: string)
    requires TagsValid(tags) && AddTag(tags, tag) != tags
    ensures RemoveTag(AddTag(tags, tag), Strip(tag)) == tags
  {
    var t := Strip(tag);
    RemoveTagAppend(tags, [t], t);
    RemoveAbsent(tags, t);
    assert RemoveTag([t], t) == [];
  }

  /** The tags `handlePublish` submits: the category, then the trimmed tags,
      with empty strings dropped. */
  function SubmittedTags(category: string, tags: seq<string>): (r: seq<string>)
    ensures forall x :: x in r ==> x != ""
    ensures |r| <= 1 + |tags|
    ensures category != "" ==> |r| >= 1 && r[0] == category
  {
    DropEmpty([category] + StripEach(tags))
  }

  lemma {:induction false} DropEmptyKeeps(parts: seq<string>)
    requires forall i :: 0 <= i < |parts| ==> parts[i] != ""
    ensures DropEmpty(parts) == parts
  {
    if parts != [] {
      DropEmptyKeeps(parts[1..]);
    }
  }

  /** With a category chosen and the picker's tags, the submission is the
      category followed by the tags exactly. */
  lemma SubmittedOfValid(category: string, tags: seq<string>)
    requires category != "" && TagsValid(tags)
    ensures SubmittedTags(category, tags) == [category] + tags
  {
    StripEachTrimmed(tags);
    DropEmptyKeeps([category] + tags);
  }

  /** `handlePublish`: nothing is sent unless validation passes; otherwise a
      pending post with the trimmed title and content and the submitted tags,
      no category id, in the interface language. */
  method HandlePublish(title: string, category: string, content: string, tags: seq<string>, language: string,
                       parse: string -> Parsed, htmlText: string -> Option<string>)
    returns (errors: map<Field, ErrorKey>, req: Option<PostService.CreateRequest>)
    ensures req.Some? <==> errors == map[]
    ensures req.Some? ==>
      && |Strip(title)| >= MinTitleLength && category != ""
      && |StripRichTextSpec(content, parse, htmlText)| >= MinContentLength
    ensures req.Some? ==> req.value == PostService.CreateRequest(
      Strip(title), Strip(content), None, SubmittedTags(category, tags), language, "pending")
  {
    var ok;
    errors, ok := Validate(title, category, content, parse, htmlText);
    if !ok {
      return errors, None;
    }
    var normalizedTags := DropEmpty([category] + DropEmpty(StripEach(tags)));
    DropEmptyTwice(category, StripEach(tags));
    req := Some(PostService.CreateRequest(Strip(title), Strip(content), None, normalizedTags, language, "pending"));
  }

  /** `[category, ...tags.filter(Boolean)].filter(Boolean)` drops the same
      strings as one filter over both. */
  lemma {:induction false} DropEmptyTwice(category: string, parts: seq<string>)
    ensures DropEmpty([category] + DropEmpty(parts)) == DropEmpty([category] + parts)
  {
    assert ([category] + DropEmpty(parts))[1..] == DropEmpty(parts);
    assert ([category] + parts)[1..] == parts;
    DropEmptyIdempotent(parts);
  }

  lemma {:induction false} DropEmptyIdempotent(parts: seq<string>)
    ensures DropEmpty(DropEmpty(parts)) == DropEmpty(parts)
  {
    var r := DropEmpty(parts);
    assert forall i :: 0 <= i < |r| ==> r[i] != "" by {
      forall i | 0 <= i < |r| ensures r[i] != "" {
        assert r[i] in r;
      }
    }
    DropEmptyKeeps(r);
  }
}
