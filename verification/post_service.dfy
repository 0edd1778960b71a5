module PostTags {
  import opened Common
  import opened Models
  import opened Strings

  /** `_apply_tags`' normalisation: each slug stripped and lower-cased, blank
      ones dropped, order and repetitions kept. */
  function NormalizeSlugs(slugs: seq<string>): (r: seq<string>)
    ensures |r| <= |slugs|
    ensures forall i :: 0 <= i < |r| ==> r[i] != "" && IsLower(r[i])
  {
    if slugs == [] then []
    else
      var t := Strip(slugs[0]);
      (if t == "" then [] else [Lower(t)]) + NormalizeSlugs(slugs[1..])
  }

  predicate Distinct(s: seq<string>) {
    forall i, j :: 0 <= i < j < |s| ==> s[i] != s[j]
  }

  /** The first occurrence of each entry, in order. */
  function Dedup(s: seq<string>): (r: seq<string>)
    ensures |r| <= |s|
    ensures Distinct(r)
    ensures forall x :: x in r <==> x in s
  {
    if s == [] then []
    else
      var d := Dedup(s[..|s| - 1]);
      assert s == s[..|s| - 1] + [s[|s| - 1]];
      if s[|s| - 1] in d then d else d + [s[|s| - 1]]
  }

  /** The slugs among `normalized` that the registry does not hold yet, one per
      occurrence. */
  function MissingSlugs(normalized: seq<string>, registry: set<string>): (r: seq<string>)
    ensures forall x :: x in r <==> x in normalized && x !in registry
  {
    if normalized == [] then []
    else (if normalized[0] in registry then [] else [normalized[0]]) + MissingSlugs(normalized[1..], registry)
  }

  lemma {:induction false} MissingKeepsDistinct(normalized: seq<string>, registry: set<string>)
    requires Distinct(normalized)
    ensures Distinct(MissingSlugs(normalized, registry))
  {
    if normalized != [] {
      MissingKeepsDistinct(normalized[1..], registry);
      assert normalized[0] !in normalized[1..];
    }
  }

  /** `_apply_tags` as written, reduced to its outcome: the post's tag slugs
      afterwards, or the integrity error the database raises. Each missing slug
      is inserted once per occurrence (`tags.slug` is unique), then one
      `post_tags` row is added per normalised slug ((post, tag) is its primary
      key); nothing removes repetitions first. */
  function ApplyTagsAsWritten(registry: set<string>, current: set<string>, slugs: seq<string>): (r: Result<set<string>>)
  {
    var normalized := NormalizeSlugs(slugs);
    if normalized == [] then Ok(current)
    else if !Distinct(MissingSlugs(normalized, registry)) then Err(AppError(500, "integrity_error"))
    else if !Distinct(normalized) then Err(AppError(500, "integrity_error"))
    else Ok(set s | s in normalized)
  }

  /** As written, the call fails exactly when two slugs normalise alike. */
  lemma AsWrittenFailsOnRepeats(registry: set<string>, current: set<string>, slugs: seq<string>)
    ensures ApplyTagsAsWritten(registry, current, slugs).Err? <==> !Distinct(NormalizeSlugs(slugs))
  {
    var normalized := NormalizeSlugs(slugs);
    if Distinct(normalized) {
      MissingKeepsDistinct(normalized, registry);
    }
  }

  lemma NormalizePair(a: string, b: string)
    requires Strip(a) != "" && Strip(b) != ""
    ensures NormalizeSlugs([a, b]) == [Lower(Strip(a)), Lower(Strip(b))]
  {
    assert [a, b][1..] == [b];
    assert [b][1..] == [];
  }

  lemma HousingSpelling()
    ensures "Housing" == ['H'] + "ousing" && "housing" == ['h'] + "ousing"
  {
  }

  lemma LowerHousing(b: string)
    requires b == "Housing"
    ensures Lower(b) == "housing"
  {
    HousingSpelling();
    LowerCapital('H', "ousing");
  }

  lemma StripHousing(a: string, b: string)
    requires a == "housing" && b == "Housing"
    ensures Strip(a) == a && Strip(b) == b
  {
    StripTrimmed(a);
    StripTrimmed(b);
  }

  /** As written, two slugs that differ only in case or surrounding blanks
      make the call fail. */
  lemma AsWrittenCaseRepeat(registry: set<string>, current: set<string>, a: string, b: string)
    requires Strip(a) != "" && Lower(Strip(a)) == Lower(Strip(b))
    ensures ApplyTagsAsWritten(registry, current, [a, b]).Err?
  {
    assert |Strip(b)| == |Lower(Strip(b))|;
    NormalizePair(a, b);
    AsWrittenFailsOnRepeats(registry, current, [a, b]);
    assert NormalizeSlugs([a, b])[0] == NormalizeSlugs([a, b])[1];
  }

  /** For instance a category slug sent again as a capitalised tag. */
  lemma AsWrittenHousing(registry: set<string>, current: set<string>, a: string, b: string)
    requires a == "housing" && b == "Housing"
    ensures ApplyTagsAsWritten(registry, current, [a, b]).Err?
  {
    StripHousing(a, b);
    LowerHousing(b);
    LowerOfLower(a);
    AsWrittenCaseRepeat(registry, current, a, b);
  }

  function SlugsOf(tags: map<Id, Tag>): set<string> {
    set id | id in tags :: tags[id].slug
  }

  /** The slugs of the tags attached to `postId`. */
  function PostSlugs(postTags: set<(Id, Id)>, tags: map<Id, Tag>, postId: Id): set<string> {
    set p | p in postTags && p.0 == postId && p.1 in tags :: tags[p.1].slug
  }

  predicate FreshIds(ids: seq<Id>, tags: map<Id, Tag>) {
    && (forall i :: 0 <= i < |ids| ==> ids[i] !in tags)
    && (forall i, j :: 0 <= i < j < |ids| ==> ids[i] != ids[j])
  }

  lemma AddTag(tags: map<Id, Tag>, id: Id, slug: string)
    requires id !in tags && slug !in SlugsOf(tags) && TagSlugsUnique(tags)
    ensures SlugsOf(tags[id := Tag(slug, slug)]) == SlugsOf(tags) + {slug}
    ensures TagSlugsUnique(tags[id := Tag(slug, slug)])
  {
    var t := tags[id := Tag(slug, slug)];
    assert slug in SlugsOf(t) by { assert t[id].slug == slug; }
    forall x | x in SlugsOf(t) ensures x in SlugsOf(tags) + {slug} {
      var i :| i in t && t[i].slug == x;
      if i != id { assert tags[i].slug == x; }
    }
    forall x | x in SlugsOf(tags) ensures x in SlugsOf(t) {
      var i :| i in tags && tags[i].slug == x;
      assert t[i].slug == x;
    }
  }

  /** The lookup-or-create loop over the slugs: afterwards `ids[j]` is a tag
      whose slug is `slugs[j]`, and only missing slugs were added. */
  /** One turn of the loop over the missing slugs: the tag with this slug, or
      a new tag (name and slug alike) under the fresh id. */
  method EnsureTag(db: Db, slug: string, freshId: Id) returns (id: Id, created: bool)
    requires TagSlugsUnique(db.tags) && freshId !in db.tags
    modifies db`tags
    ensures TagSlugsUnique(db.tags)
    ensures id in db.tags && db.tags[id].slug == slug
    ensures created <==> slug !in SlugsOf(old(db.tags))
    ensures created ==> id == freshId && db.tags == old(db.tags)[freshId := Tag(slug, slug)]
    ensures !created ==> db.tags == old(db.tags)
    ensures forall t :: t in old(db.tags) ==> t in db.tags && db.tags[t] == old(db.tags)[t]
    ensures SlugsOf(db.tags) == SlugsOf(old(db.tags)) + {slug}
  {
    if slug in SlugsOf(db.tags) {
      id :| id in db.tags && db.tags[id].slug == slug;
      created := false;
    } else {
      id := freshId;
      AddTag(db.tags, id, slug);
      db.tags := db.tags[id := Tag(slug, slug)];
      created := true;
    }
  }

  method EnsureTags(db: Db, slugs: seq<string>, newIds: seq<Id>) returns (ids: seq<Id>)
    requires TagSlugsUnique(db.tags) && |newIds| >= |slugs| && FreshIds(newIds, db.tags)
    modifies db`tags
    ensures TagSlugsUnique(db.tags)
    ensures |ids| == |slugs|
    ensures forall j :: 0 <= j < |slugs| ==> ids[j] in db.tags && db.tags[ids[j]].slug == slugs[j]
    ensures forall id :: id in old(db.tags) ==> id in db.tags && db.tags[id] == old(db.tags[id])
    ensures SlugsOf(db.tags) == SlugsOf(old(db.tags)) + (set s | s in slugs)
  {
    ghost var tags0 := db.tags;
    ids := [];
    var k := 0;
    var i := 0;
    while i < |slugs|
      invariant 0 <= k <= i <= |slugs| && |ids| == i
      invariant forall j :: 0 <= j < i ==> ids[j] in db.tags && db.tags[ids[j]].slug == slugs[j]
      invariant forall id :: id in tags0 ==> id in db.tags && db.tags[id] == tags0[id]
      invariant forall j :: k <= j < |newIds| ==> newIds[j] !in db.tags
      invariant SlugsOf(db.tags) == SlugsOf(tags0) + (set s | s in slugs[..i])
      invariant TagSlugsUnique(db.tags)
    {
      assert slugs[..i + 1] == slugs[..i] + [slugs[i]];
      var id, created := EnsureTag(db, slugs[i], newIds[k]);
      ids := ids + [id];
      if created {
        k := k + 1;
      }
      i := i + 1;
    }
    assert slugs[..i] == slugs;
  }

  /** `_apply_tags` corrected so that repeated slugs are removed after
      normalisation: blank input leaves the post's tags alone; otherwise the
      missing tags are created and the post's tags become exactly the
      normalised slugs. It cannot fail. As written the source fails on a
      repeat (`ApplyTagsAsWritten`, `AsWrittenHousing`). */
  method ApplyTags(db: Db, postId: Id, slugs: seq<string>, newIds: seq<Id>)
    requires TagSlugsUnique(db.tags)
    requires |newIds| >= |slugs| && FreshIds(newIds, db.tags)
    modifies db`tags, db`postTags
    ensures TagSlugsUnique(db.tags)
    ensures NormalizeSlugs(slugs) == [] ==> db.tags == old(db.tags) && db.postTags == old(db.postTags)
    ensures NormalizeSlugs(slugs) != [] ==>
      && (forall id :: id in old(db.tags) ==> id in db.tags && db.tags[id] == old(db.tags[id]))
      && SlugsOf(db.tags) == SlugsOf(old(db.tags)) + (set s | s in NormalizeSlugs(slugs))
      && PostSlugs(db.postTags, db.tags, postId) == (set s | s in NormalizeSlugs(slugs))
      && (forall p :: p in db.postTags && p.0 != postId <==> p in old(db.postTags) && p.0 != postId)
  {
    var normalized := Dedup(NormalizeSlugs(slugs));
    if normalized == [] {
      return;
    }
    var ids := EnsureTags(db, normalized, newIds);
    var others := set p | p in db.postTags && p.0 != postId;
    var mine := set id | id in ids :: (postId, id);
    db.postTags := others + mine;
    assert forall p :: p in db.postTags && p.0 == postId <==> p in mine;
    assert forall p :: p in mine <==> exists j :: 0 <= j < |ids| && p == (postId, ids[j]);
    PostSlugsAre(db.postTags, db.tags, postId, ids, normalized);
    SameElements(normalized, NormalizeSlugs(slugs));
    assert forall p :: p in db.postTags && p.0 != postId <==> p in old(db.postTags) && p.0 != postId;
  }

  lemma SameElements(a: seq<string>, b: seq<string>)
    requires forall x :: x in a <==> x in b
    ensures (set s | s in a) == (set s | s in b)
  {
  }

  lemma PostSlugsAre(postTags: set<(Id, Id)>, tags: map<Id, Tag>, postId: Id, ids: seq<Id>, slugs: seq<string>)
    requires |ids| == |slugs|
    requires forall j :: 0 <= j < |slugs| ==> ids[j] in tags && tags[ids[j]].slug == slugs[j]
    requires forall p :: p in postTags && p.0 == postId <==> exists j :: 0 <= j < |ids| && p == (postId, ids[j])
    ensures PostSlugs(postTags, tags, postId) == set s | s in slugs
  {
    forall x | x in PostSlugs(postTags, tags, postId) ensures x in slugs {
      var p :| p in postTags && p.0 == postId && p.1 in tags && tags[p.1].slug == x;
      var j :| 0 <= j < |ids| && p == (postId, ids[j]);
    }
    forall x | x in slugs ensures x in PostSlugs(postTags, tags, postId) {
      var j :| 0 <= j < |slugs| && slugs[j] == x;
      assert (postId, ids[j]) in postTags;
    }
  }
}

/** Post lifecycle (WebSite/BackEnd/app/services/post_service.py): creation with
    its original translation, edits, publishing through screening, translation
    fan-out to the supported languages, tags, and the per-language response. */
module PostService {
  import opened Common
  import opened Models
  import opened Strings
  import Settings
  import ModerationService
  import PostTags

  /** The supported languages: the configured list split on commas, each entry
      stripped, empty entries dropped. */
  function Languages(cfg: Settings.Config): seq<string> {
    DropEmpty(StripEach(Split(cfg.supportedLanguages, ',')))
  }

  /** Every supported language is a non-empty, trimmed, comma-free entry of the
      setting, and every non-empty stripped entry is supported. */
  lemma LanguagesShape(cfg: Settings.Config)
    ensures forall l :: l in Languages(cfg) ==> l != "" && NoEdgeSpace(l) && ',' !in l
    ensures forall l :: l in Languages(cfg) <==> l != "" && l in StripEach(Split(cfg.supportedLanguages, ','))
  {
    var parts := Split(cfg.supportedLanguages, ',');
    StripEachKeepsOut(parts, ',');
    forall l | l in Languages(cfg)
      ensures NoEdgeSpace(l)
    {
      var i :| 0 <= i < |parts| && StripEach(parts)[i] == l;
      StripShape(parts[i]);
    }
  }

  lemma SplitLast()
    ensures Split("ko", ',') == ["ko"]
  {
    assert IndexOf("ko", ',') == 2;
  }

  lemma SplitTail()
    ensures Split("zh,ko", ',') == ["zh", "ko"]
  {
    assert IndexOf("zh,ko", ',') == 2;
    assert "zh,ko"[..2] == "zh" && "zh,ko"[3..] == "ko";
    SplitLast();
  }

  lemma SplitDefault()
    ensures Split("en,zh,ko", ',') == ["en", "zh", "ko"]
  {
    assert IndexOf("en,zh,ko", ',') == 2;
    assert "en,zh,ko"[..2] == "en" && "en,zh,ko"[3..] == "zh,ko";
    SplitTail();
  }

  lemma StripDefault()
    ensures StripEach(["en", "zh", "ko"]) == ["en", "zh", "ko"]
  {
    StripEachTrimmed(["en", "zh", "ko"]);
  }

  /** With the default setting the languages are English, Chinese and Korean. */
  lemma DefaultLanguages()
    ensures Languages(Settings.Default) == ["en", "zh", "ko"]
  {
    LanguagesOf(Settings.Default);
  }

  lemma LanguagesOf(cfg: Settings.Config)
    requires cfg.supportedLanguages == "en,zh,ko"
    ensures Languages(cfg) == ["en", "zh", "ko"]
  {
    SplitDefault();
    StripDefault();
    DropDefault();
  }

  lemma DropDefault()
    ensures DropEmpty(["en", "zh", "ko"]) == ["en", "zh", "ko"]
  {
    assert DropEmpty(["ko"]) == ["ko"] + DropEmpty([]);
    assert ["zh", "ko"][1..] == ["ko"];
    assert ["en", "zh", "ko"][1..] == ["zh", "ko"];
  }

  /** The translator: (text, source language, target language) to the text or
      an application error. */
  type Translator = (string, string, string) -> Result<string>

  predicate HasTranslation(ts: seq<PostTranslation>, postId: Id, lang: string) {
    exists i :: 0 <= i < |ts| && ts[i].postId == postId && ts[i].language == lang
  }

  lemma FindIffHas(ts: seq<PostTranslation>, postId: Id, lang: string)
    ensures FindTranslation(ts, postId, lang).Some? <==> HasTranslation(ts, postId, lang)
  {
  }

  /** The translation table after `_translate_missing` has visited `langs` in
      order, or the first translator error (nothing catches it). Existing rows
      are never touched. */
  function FanOut(ts: seq<PostTranslation>, postId: Id, source: string, title: string, content: string,
                  langs: seq<string>, translate: Translator, model: string): (r: Result<seq<PostTranslation>>)
    decreases |langs|
    ensures r.Ok? ==> |ts| <= |r.value| && r.value[..|ts|] == ts
  {
    if langs == [] then Ok(ts)
    else
      var lang := langs[0];
      if lang == source || FindTranslation(ts, postId, lang).Some? then
        FanOut(ts, postId, source, title, content, langs[1..], translate, model)
      else
        match translate(title, source, lang)
        case Err(e) => Err(e)
        case Ok(t) =>
          match translate(content, source, lang)
          case Err(e) => Err(e)
          case Ok(c) =>
            var row := PostTranslation(postId, lang, t, c, "ai", Some(model), "ready");
            var r := FanOut(ts + [row], postId, source, title, content, langs[1..], translate, model);
            assert r.Ok? ==> r.value[..|ts|] == (ts + [row])[..|ts|];
            r
  }

  /** A failed fan-out fails with an error the translator returned for one of
      the target languages. */
  lemma {:induction false} FanOutErr(ts: seq<PostTranslation>, postId: Id, source: string, title: string,
                                     content: string, langs: seq<string>, translate: Translator, model: string)
    requires FanOut(ts, postId, source, title, content, langs, translate, model).Err?
    ensures var e := FanOut(ts, postId, source, title, content, langs, translate, model).error;
      exists l :: l in langs && (translate(title, source, l) == Err(e) || translate(content, source, l) == Err(e))
    decreases |langs|
  {
    var lang := langs[0];
    if lang == source || FindTranslation(ts, postId, lang).Some? {
      FanOutErr(ts, postId, source, title, content, langs[1..], translate, model);
    } else if translate(title, source, lang).Ok? && translate(content, source, lang).Ok? {
      var row := PostTranslation(postId, lang, translate(title, source, lang).value,
                                 translate(content, source, lang).value, "ai", Some(model), "ready");
      FanOutErr(ts + [row], postId, source, title, content, langs[1..], translate, model);
    }
  }

  /** The rows the fan-out adds are AI translations of this post into target
      languages that had none. */
  lemma {:induction false} FanOutAdds(ts: seq<PostTranslation>, postId: Id, source: string, title: string,
                                      content: string, langs: seq<string>, translate: Translator, model: string)
    requires FanOut(ts, postId, source, title, content, langs, translate, model).Ok?
    ensures var r := FanOut(ts, postId, source, title, content, langs, translate, model).value;
      forall i :: |ts| <= i < |r| ==>
        && r[i].postId == postId && r[i].language in langs && r[i].language != source
        && r[i].translatedBy == "ai" && r[i].status == "ready" && r[i].model == Some(model)
        && !HasTranslation(ts, postId, r[i].language)
    decreases |langs|
  {
    if langs != [] {
      var lang := langs[0];
      if lang == source || FindTranslation(ts, postId, lang).Some? {
        FanOutAdds(ts, postId, source, title, content, langs[1..], translate, model);
      } else {
        var t := translate(title, source, lang).value;
        var c := translate(content, source, lang).value;
        var row := PostTranslation(postId, lang, t, c, "ai", Some(model), "ready");
        var ts' := ts + [row];
        FanOutAdds(ts', postId, source, title, content, langs[1..], translate, model);
        var r := FanOut(ts', postId, source, title, content, langs[1..], translate, model).value;
        FindIffHas(ts, postId, lang);
        assert r[|ts|] == ts'[|ts|] == row;
      }
    }
  }

  /** Afterwards every target language has a row. */
  lemma {:induction false} FanOutCovers(ts: seq<PostTranslation>, postId: Id, source: string, title: string,
                                        content: string, langs: seq<string>, translate: Translator, model: string)
    requires FanOut(ts, postId, source, title, content, langs, translate, model).Ok?
    ensures var r := FanOut(ts, postId, source, title, content, langs, translate, model).value;
      forall l :: l in langs && l != source ==> HasTranslation(r, postId, l)
    decreases |langs|
  {
    if langs != [] {
      var lang := langs[0];
      assert forall l :: l in langs ==> l == lang || l in langs[1..];
      if lang == source || FindTranslation(ts, postId, lang).Some? {
        FanOutCovers(ts, postId, source, title, content, langs[1..], translate, model);
        if lang != source {
          var r := FanOut(ts, postId, source, title, content, langs, translate, model).value;
          var i := FindTranslation(ts, postId, lang).value;
          assert r[i] == ts[i];
        }
      } else {
        var t := translate(title, source, lang).value;
        var c := translate(content, source, lang).value;
        var row := PostTranslation(postId, lang, t, c, "ai", Some(model), "ready");
        FanOutCovers(ts + [row], postId, source, title, content, langs[1..], translate, model);
        var r := FanOut(ts + [row], postId, source, title, content, langs[1..], translate, model).value;
        assert r[|ts|] == (ts + [row])[|ts|];
      }
    }
  }

  /** When every target language already has a row, the fan-out adds nothing
      and calls no translator. */
  lemma {:induction false} FanOutCovered(ts: seq<PostTranslation>, postId: Id, source: string, title: string,
                                         content: string, langs: seq<string>, translate: Translator, model: string)
    requires forall l :: l in langs && l != source ==> HasTranslation(ts, postId, l)
    ensures FanOut(ts, postId, source, title, content, langs, translate, model) == Ok(ts)
    decreases |langs|
  {
    if langs != [] {
      FindIffHas(ts, postId, langs[0]);
      FanOutCovered(ts, postId, source, title, content, langs[1..], translate, model);
    }
  }

  /** Running the fan-out a second time adds nothing. */
  lemma FanOutIdempotent(ts: seq<PostTranslation>, postId: Id, source: string, title: string, content: string,
                         langs: seq<string>, translate: Translator, model: string)
    requires FanOut(ts, postId, source, title, content, langs, translate, model).Ok?
    ensures var once := FanOut(ts, postId, source, title, content, langs, translate, model).value;
      FanOut(once, postId, source, title, content, langs, translate, model) == Ok(once)
  {
    var once := FanOut(ts, postId, source, title, content, langs, translate, model).value;
    FanOutCovers(ts, postId, source, title, content, langs, translate, model);
    FanOutCovered(once, postId, source, title, content, langs, translate, model);
  }

  /** The fan-out keeps one row per (post, language). */
  lemma FanOutKeepsUnique(ts: seq<PostTranslation>, postId: Id, source: string, title: string, content: string,
                          langs: seq<string>, translate: Translator, model: string)
    requires TranslationsUnique(ts)
    requires FanOut(ts, postId, source, title, content, langs, translate, model).Ok?
    ensures TranslationsUnique(FanOut(ts, postId, source, title, content, langs, translate, model).value)
    decreases |langs|
  {
    if langs != [] {
      var lang := langs[0];
      if lang == source || FindTranslation(ts, postId, lang).Some? {
        FanOutKeepsUnique(ts, postId, source, title, content, langs[1..], translate, model);
      } else {
        var t := translate(title, source, lang).value;
        var c := translate(content, source, lang).value;
        var row := PostTranslation(postId, lang, t, c, "ai", Some(model), "ready");
        FindIffHas(ts, postId, lang);
        FanOutKeepsUnique(ts + [row], postId, source, title, content, langs[1..], translate, model);
      }
    }
  }

  predicate Missing(ts: seq<PostTranslation>, postId: Id, source: string, lang: string) {
    lang != source && FindTranslation(ts, postId, lang).None?
  }

  /** One step of the fan-out. */
  lemma FanOutStep(ts: seq<PostTranslation>, postId: Id, source: string, title: string, content: string,
                   langs: seq<string>, translate: Translator, model: string)
    requires langs != []
    ensures !Missing(ts, postId, source, langs[0]) ==>
      FanOut(ts, postId, source, title, content, langs, translate, model)
        == FanOut(ts, postId, source, title, content, langs[1..], translate, model)
    ensures Missing(ts, postId, source, langs[0]) && translate(title, source, langs[0]).Err? ==>
      FanOut(ts, postId, source, title, content, langs, translate, model)
        == Err(translate(title, source, langs[0]).error)
    ensures Missing(ts, postId, source, langs[0]) && translate(title, source, langs[0]).Ok? &&
              translate(content, source, langs[0]).Err? ==>
      FanOut(ts, postId, source, title, content, langs, translate, model)
        == Err(translate(content, source, langs[0]).error)
    ensures Missing(ts, postId, source, langs[0]) && translate(title, source, langs[0]).Ok? &&
              translate(content, source, langs[0]).Ok? ==>
      FanOut(ts, postId, source, title, content, langs, translate, model)
        == FanOut(ts + [PostTranslation(postId, langs[0], translate(title, source, langs[0]).value,
                          translate(content, source, langs[0]).value, "ai", Some(model), "ready")],
                  postId, source, title, content, langs[1..], translate, model)
  {
  }

  /** One turn of the `_translate_missing` loop, for the first language of
      `langs`: the fan-out over `langs` fails as this turn does, or goes on
      with the rest of the list from the new table. */
  method TranslateFirst(db: Db, postId: Id, source: string, title: string, content: string,
                        langs: seq<string>, translate: Translator, model: string)
    returns (err: Option<AppError>)
    requires langs != []
    modifies db`translations
    ensures var spec := FanOut(old(db.translations), postId, source, title, content, langs, translate, model);
      && (err.Some? ==> spec == Err(err.value))
      && (err.None? ==> spec == FanOut(db.translations, postId, source, title, content, langs[1..], translate, model))
  {
    FanOutStep(db.translations, postId, source, title, content, langs, translate, model);
    var lang := langs[0];
    err := None;
    if lang != source {
      var existing := FindTranslation(db.translations, postId, lang);
      if existing.None? {
        var t := translate(title, source, lang);
        if t.Err? {
          return Some(t.error);
        }
        var c := translate(content, source, lang);
        if c.Err? {
          return Some(c.error);
        }
        db.translations := db.translations + [PostTranslation(postId, lang, t.value, c.value, "ai", Some(model), "ready")];
      }
    }
  }

  /** `_translate_missing`: visits the supported languages, skips the source
      language and every language that already has a row, and adds an AI
      translation for the rest. A translator error stops the loop and is
      returned; the caller's transaction then discards the partial rows. */
  method TranslateMissing(db: Db, postId: Id, source: string, title: string, content: string,
                          langs: seq<string>, translate: Translator, model: string)
    returns (err: Option<AppError>)
    requires TranslationsUnique(db.translations)
    modifies db`translations
    ensures var spec := FanOut(old(db.translations), postId, source, title, content, langs, translate, model);
      && (err.None? <==> spec.Ok?)
      && (spec.Ok? ==> db.translations == spec.value)
      && (spec.Err? ==> err == Some(spec.error))
    ensures err.None? ==> TranslationsUnique(db.translations)
  {
    ghost var spec := FanOut(db.translations, postId, source, title, content, langs, translate, model);
    if spec.Ok? {
      FanOutKeepsUnique(db.translations, postId, source, title, content, langs, translate, model);
    }
    var i := 0;
    while i < |langs|
      invariant 0 <= i <= |langs|
      invariant spec == FanOut(db.translations, postId, source, title, content, langs[i..], translate, model)
    {
      assert langs[i..][1..] == langs[i + 1..];
      err := TranslateFirst(db, postId, source, title, content, langs[i..], translate, model);
      if err.Some? {
        return;
      }
      i := i + 1;
    }
    err := None;
  }

  /** The language-dependent part of a post response. */
  datatype PostView = PostView(language: string, title: string, content: string)

  /** `_to_response`: the row in the requested language, else the row in the
      post's original language, else 500. */
  function ToResponse(ts: seq<PostTranslation>, postId: Id, post: Post, language: string): (r: Result<PostView>)
    ensures r.Err? <==> !HasTranslation(ts, postId, language) && !HasTranslation(ts, postId, post.originalLanguage)
    ensures r.Err? ==> r.error == AppError(500, "post_translation_missing")
    ensures r.Ok? ==>
      exists i :: 0 <= i < |ts| && ts[i].postId == postId && ts[i].language == r.value.language
        && r.value.title == ts[i].title && r.value.content == ts[i].content
    ensures r.Ok? && HasTranslation(ts, postId, language) ==> r.value.language == language
    ensures r.Ok? && !HasTranslation(ts, postId, language) ==> r.value.language == post.originalLanguage
  {
    FindIffHas(ts, postId, language);
    FindIffHas(ts, postId, post.originalLanguage);
    match FindTranslation(ts, postId, language)
    case Some(i) => Ok(PostView(ts[i].language, ts[i].title, ts[i].content))
    case None =>
      match FindTranslation(ts, postId, post.originalLanguage)
      case Some(i) => Ok(PostView(ts[i].language, ts[i].title, ts[i].content))
      case None => Err(AppError(500, "post_translation_missing"))
  }

  /** Screening, then the fan-out when the post passed (the tail shared by
      `create_post`, `update_post` and `publish_post`). */
  method ScreenThenTranslate(db: Db, postId: Id, title: string, content: string,
                             classify: (string, string) -> ModerationService.Classification, translate: Translator,
                             langs: seq<string>, cfg: Settings.Config, now: Time)
    returns (err: Option<AppError>)
    requires postId in db.posts && TranslationsUnique(db.translations)
    modifies db`posts, db`logs, db`translations
    ensures var decision := ModerationService.Screen(classify(title, content), cfg).decision;
      db.posts == old(db.posts)[postId := ModerationService.AfterScreening(old(db.posts[postId]), decision, now)]
    ensures |db.logs| == |old(db.logs)| + 1 && db.logs[..|old(db.logs)|] == old(db.logs)
    ensures var decision := ModerationService.Screen(classify(title, content), cfg).decision;
      var spec := FanOut(old(db.translations), postId, old(db.posts[postId]).originalLanguage, title, content,
                         langs, translate, cfg.openaiModel);
      && (decision != "pass" ==> err.None? && db.translations == old(db.translations))
      && (decision == "pass" ==> (err.None? <==> spec.Ok?) && (spec.Ok? ==> db.translations == spec.value)
                                 && (spec.Err? ==> err == Some(spec.error)))
    ensures err.None? ==> TranslationsUnique(db.translations)
  {
    var source := db.posts[postId].originalLanguage;
    var log := ModerationService.ScreenPost(db, postId, title, content, classify, cfg, now);
    assert db.logs[..|old(db.logs)|] == old(db.logs);
    err := None;
    if db.posts[postId].status == "published" {
      err := TranslateMissing(db, postId, source, title, content, langs, translate, cfg.openaiModel);
    }
  }

  /** The body of a creation request (fields of `PostCreateRequest`). */
  datatype CreateRequest = CreateRequest(
    title: string, content: string, categoryId: Option<Id>, tags: seq<string>, language: string, status: string)

  /** The post row `create_post` inserts. */
  function Created(authorId: Id, req: CreateRequest, now: Time): Post {
    NewPost(authorId, now).(categoryId := req.categoryId, originalLanguage := req.language, status := req.status,
                            publishedAt := if req.status == "published" then Some(now) else None)
  }

  /** Its original translation, written by the user. */
  function Original(postId: Id, req: CreateRequest): PostTranslation {
    PostTranslation(postId, req.language, req.title, req.content, "user", None, "ready")
  }

  predicate NoRowsFor(ts: seq<PostTranslation>, postId: Id) {
    forall i :: 0 <= i < |ts| ==> ts[i].postId != postId
  }

  /** Inserting the post, its original translation and its tags. */
  method StorePost(db: Db, authorId: Id, req: CreateRequest, postId: Id, tagIds: seq<Id>, now: Time)
    requires TranslationsUnique(db.translations) && TagSlugsUnique(db.tags)
    requires postId !in db.posts && NoRowsFor(db.translations, postId)
    requires |tagIds| >= |req.tags| && PostTags.FreshIds(tagIds, db.tags)
    modifies db`posts, db`translations, db`tags, db`postTags
    ensures TranslationsUnique(db.translations) && TagSlugsUnique(db.tags)
    ensures db.posts == old(db.posts)[postId := Created(authorId, req, now)]
    ensures db.translations == old(db.translations) + [Original(postId, req)]
    ensures PostTags.NormalizeSlugs(req.tags) != [] ==>
      PostTags.PostSlugs(db.postTags, db.tags, postId) == set s | s in PostTags.NormalizeSlugs(req.tags)
  {
    db.posts := db.posts[postId := Created(authorId, req, now)];
    db.translations := db.translations + [Original(postId, req)];
    assert TranslationsUnique(db.translations);
    if |req.tags| > 0 {
      PostTags.ApplyTags(db, postId, req.tags, tagIds);
    } else {
      assert req.tags == [];
    }
  }

  /** The part of `create_post` after validation, as one transaction: the
      post, its original translation and its tags are stored; a post asked for
      as `published` is screened and, when it passed, translated. A translator
      error rolls every change back. */
  method SaveNewPost(db: Db, authorId: Id, req: CreateRequest, postId: Id, tagIds: seq<Id>,
                     classify: (string, string) -> ModerationService.Classification, translate: Translator,
                     langs: seq<string>, cfg: Settings.Config, now: Time)
    returns (err: Option<AppError>)
    requires TranslationsUnique(db.translations) && TagSlugsUnique(db.tags)
    requires postId !in db.posts && NoRowsFor(db.translations, postId)
    requires |tagIds| >= |req.tags| && PostTags.FreshIds(tagIds, db.tags)
    modifies db`posts, db`translations, db`tags, db`postTags, db`logs
    ensures TranslationsUnique(db.translations) && TagSlugsUnique(db.tags)
    ensures err.Some? ==>
      && db.posts == old(db.posts) && db.translations == old(db.translations)
      && db.tags == old(db.tags) && db.postTags == old(db.postTags) && db.logs == old(db.logs)
    ensures req.status != "published" ==>
      && err.None? && db.logs == old(db.logs)
      && db.posts == old(db.posts)[postId := Created(authorId, req, now)]
      && db.translations == old(db.translations) + [Original(postId, req)]
    ensures req.status == "published" ==>
      var decision := ModerationService.Screen(classify(req.title, req.content), cfg).decision;
      var spec := FanOut(old(db.translations) + [Original(postId, req)], postId, req.language, req.title, req.content,
                         langs, translate, cfg.openaiModel);
      && (err.None? ==> db.posts == old(db.posts)[postId := ModerationService.AfterScreening(Created(authorId, req, now), decision, now)])
      && (err.None? ==> |db.logs| == |old(db.logs)| + 1)
      && (err.None? && decision != "pass" ==> db.translations == old(db.translations) + [Original(postId, req)])
      && (err.None? && decision == "pass" ==> spec.Ok? && db.translations == spec.value)
      && (err.Some? ==> decision == "pass" && spec.Err? && err.value == spec.error)
    ensures err.None? && PostTags.NormalizeSlugs(req.tags) != [] ==>
      PostTags.PostSlugs(db.postTags, db.tags, postId) == set s | s in PostTags.NormalizeSlugs(req.tags)
  {
    var posts0, ts0, tags0, postTags0, logs0 := db.posts, db.translations, db.tags, db.postTags, db.logs;
    StorePost(db, authorId, req, postId, tagIds, now);
    err := None;
    if req.status == "published" {
      err := ScreenThenTranslate(db, postId, req.title, req.content, classify, translate, langs, cfg, now);
      if err.Some? {
        db.posts, db.translations, db.tags, db.postTags, db.logs := posts0, ts0, tags0, postTags0, logs0;
      }
    }
  }

  /** `create_post`: rejects an unsupported language and an unknown category
      before storing anything, then saves the post as `SaveNewPost` does. */
  method CreatePost(db: Db, authorId: Id, req: CreateRequest, postId: Id, tagIds: seq<Id>,
                    classify: (string, string) -> ModerationService.Classification, translate: Translator,
                    cfg: Settings.Config, now: Time)
    returns (r: Result<Id>)
    requires TranslationsUnique(db.translations) && TagSlugsUnique(db.tags)
    requires postId !in db.posts && NoRowsFor(db.translations, postId)
    requires |tagIds| >= |req.tags| && PostTags.FreshIds(tagIds, db.tags)
    modifies db`posts, db`translations, db`tags, db`postTags, db`logs
    ensures TranslationsUnique(db.translations) && TagSlugsUnique(db.tags)
    ensures req.language !in Languages(cfg) ==> r == Err(AppError(400, "invalid_language"))
    ensures req.language in Languages(cfg) && req.categoryId.Some? && req.categoryId.value !in old(db.categories) ==>
      r == Err(AppError(404, "category_not_found"))
    ensures r.Err? ==>
      && db.posts == old(db.posts) && db.translations == old(db.translations)
      && db.tags == old(db.tags) && db.postTags == old(db.postTags) && db.logs == old(db.logs)
    ensures r.Ok? ==> r.value == postId && req.language in Languages(cfg)
    ensures r.Ok? && req.status != "published" ==>
      && db.posts == old(db.posts)[postId := Created(authorId, req, now)] && db.logs == old(db.logs)
      && db.translations == old(db.translations) + [Original(postId, req)]
    ensures r.Ok? && req.status == "published" ==>
      var decision := ModerationService.Screen(classify(req.title, req.content), cfg).decision;
      var spec := FanOut(old(db.translations) + [Original(postId, req)], postId, req.language, req.title, req.content,
                         Languages(cfg), translate, cfg.openaiModel);
      && db.posts == old(db.posts)[postId := ModerationService.AfterScreening(Created(authorId, req, now), decision, now)]
      && |db.logs| == |old(db.logs)| + 1
      && (decision != "pass" ==> db.translations == old(db.translations) + [Original(postId, req)])
      && (decision == "pass" ==> spec.Ok? && db.translations == spec.value)
    ensures r.Ok? && PostTags.NormalizeSlugs(req.tags) != [] ==>
      PostTags.PostSlugs(db.postTags, db.tags, postId) == set s | s in PostTags.NormalizeSlugs(req.tags)
  {
    var langs := Languages(cfg);
    if req.language !in langs {
      return Err(AppError(400, "invalid_language"));
    }
    if req.categoryId.Some? && req.categoryId.value !in db.categories {
      return Err(AppError(404, "category_not_found"));
    }
    var err := SaveNewPost(db, authorId, req, postId, tagIds, classify, translate, langs, cfg, now);
    if err.Some? {
      return Err(err.value);
    }
    r := Ok(postId);
  }

  /** The fields of `PostUpdateRequest`; `None` is a field left out. */
  datatype UpdateRequest = UpdateRequest(
    title: Option<string>, content: Option<string>, categoryId: Option<Id>,
    tags: Option<seq<string>>, status: Option<string>)

  /** Whether the request edits the text, which is what re-runs screening. */
  predicate EditsText(req: UpdateRequest) {
    req.title.Some? || req.content.Some?
  }

  /** The post row after `update_post`'s own assignments: a new category when
      one is given; a new status when one is given, stamping the publication
      time on a first move to `published`. */
  function Edited(p: Post, req: UpdateRequest, now: Time): Post {
    var q := if req.categoryId.Some? then p.(categoryId := req.categoryId) else p;
    if req.status.None? then q
    else q.(status := req.status.value,
            publishedAt := if req.status.value == "published" && p.publishedAt.None? then Some(now) else p.publishedAt)
  }

  /** An edit touches category, status and publication time only; the
      publication time, once set, is never moved. */
  lemma EditedChanges(p: Post, req: UpdateRequest, now: Time)
    ensures var e := Edited(p, req, now);
      && e == p.(categoryId := e.categoryId, status := e.status, publishedAt := e.publishedAt)
      && e.categoryId == (if req.categoryId.Some? then req.categoryId else p.categoryId)
      && e.status == (if req.status.Some? then req.status.value else p.status)
      && (p.publishedAt.Some? ==> e.publishedAt == p.publishedAt)
      && (e.publishedAt.Some? <==> p.publishedAt.Some? || req.status == Some("published"))
  {
  }

  /** The original translation with the given title and content. */
  function Retitled(t: PostTranslation, req: UpdateRequest): PostTranslation {
    t.(title := if req.title.Some? then req.title.value else t.title,
       content := if req.content.Some? then req.content.value else t.content)
  }

  /** Rewriting a row's text keeps one row per (post, language). */
  lemma RetitledKeepsUnique(ts: seq<PostTranslation>, i: nat, req: UpdateRequest)
    requires i < |ts| && TranslationsUnique(ts)
    ensures TranslationsUnique(ts[i := Retitled(ts[i], req)])
  {
    var r := ts[i := Retitled(ts[i], req)];
    assert forall k :: 0 <= k < |ts| ==> r[k].postId == ts[k].postId && r[k].language == ts[k].language;
  }

  /** The outcome of screening post `p` (stored under `postId`) with the given
      text and then fanning out from the table `ts0`: on success the post
      carries the screening decision and, when it passed, the table gained the
      fan-out's rows; on failure `err` is the error a translator returned. */
  ghost predicate ScreenedOutcome(p: Post, postId: Id, ts0: seq<PostTranslation>, title: string, content: string,
                                  classify: (string, string) -> ModerationService.Classification,
                                  translate: Translator, langs: seq<string>, cfg: Settings.Config, now: Time,
                                  posts0: map<Id, Post>, posts: map<Id, Post>, ts: seq<PostTranslation>,
                                  err: Option<AppError>)
  {
    var decision := ModerationService.Screen(classify(title, content), cfg).decision;
    var spec := FanOut(ts0, postId, p.originalLanguage, title, content, langs, translate, cfg.openaiModel);
    && (err.None? ==> posts == posts0[postId := ModerationService.AfterScreening(p, decision, now)])
    && (err.None? && decision != "pass" ==> ts == ts0)
    && (err.None? && decision == "pass" ==> spec.Ok? && ts == spec.value)
    && (err.Some? ==> decision == "pass" && spec.Err? && err.value == spec.error)
  }

  /** The text part of `update_post`, for the original translation at index
      `i`: its title and content are rewritten, the tags replaced when given,
      and a post that is `published` at this point is screened again and, when
      it passed, translated into the missing languages. */
  method EditText(db: Db, postId: Id, i: nat, req: UpdateRequest, tagIds: seq<Id>,
                  classify: (string, string) -> ModerationService.Classification, translate: Translator,
                  langs: seq<string>, cfg: Settings.Config, now: Time)
    returns (err: Option<AppError>)
    requires postId in db.posts && i < |db.translations|
    requires TranslationsUnique(db.translations) && TagSlugsUnique(db.tags)
    requires req.tags.Some? ==> |tagIds| >= |req.tags.value| && PostTags.FreshIds(tagIds, db.tags)
    modifies db`posts, db`translations, db`tags, db`postTags, db`logs
    ensures TagSlugsUnique(db.tags)
    ensures err.None? ==> TranslationsUnique(db.translations)
    ensures var t := Retitled(old(db.translations[i]), req);
      var ts1 := old(db.translations)[i := t];
      var p := old(db.posts[postId]);
      && (p.status != "published" ==>
            err.None? && db.posts == old(db.posts) && db.translations == ts1 && db.logs == old(db.logs))
      && (p.status == "published" ==>
            ScreenedOutcome(p, postId, ts1, t.title, t.content, classify, translate, langs, cfg, now,
                            old(db.posts), db.posts, db.translations, err))
      && (p.status == "published" && err.None? ==> |db.logs| == |old(db.logs)| + 1)
    ensures req.tags.Some? && PostTags.NormalizeSlugs(req.tags.value) != [] ==>
      PostTags.PostSlugs(db.postTags, db.tags, postId) == set s | s in PostTags.NormalizeSlugs(req.tags.value)
    ensures req.tags.None? || PostTags.NormalizeSlugs(req.tags.value) == [] ==>
      db.tags == old(db.tags) && db.postTags == old(db.postTags)
  {
    var t := Retitled(db.translations[i], req);
    RetitledKeepsUnique(db.translations, i, req);
    db.translations := db.translations[i := t];
    if req.tags.Some? {
      PostTags.ApplyTags(db, postId, req.tags.value, tagIds);
    }
    err := None;
    if db.posts[postId].status == "published" {
      err := ScreenThenTranslate(db, postId, t.title, t.content, classify, translate, langs, cfg, now);
    }
  }

  /** The store `update_post` leaves behind for post `postId` (held in
      `posts0`), from the tables `ts0` and `logs0`, when the request passed its
      checks: the post row edited; then, only when the text is edited, the
      original translation rewritten (or 500 when it is missing) and, when the
      post is now `published`, screening and the fan-out. */
  ghost predicate EditOutcome(postId: Id, req: UpdateRequest,
                              classify: (string, string) -> ModerationService.Classification,
                              translate: Translator, langs: seq<string>, cfg: Settings.Config, now: Time,
                              posts0: map<Id, Post>, ts0: seq<PostTranslation>, logs0: seq<ModerationLog>,
                              posts: map<Id, Post>, ts: seq<PostTranslation>, logs: seq<ModerationLog>,
                              err: Option<AppError>)
    requires postId in posts0
  {
    var p := Edited(posts0[postId], req, now);
    var found := FindTranslation(ts0, postId, p.originalLanguage);
    if !EditsText(req) then
      err.None? && posts == posts0[postId := p] && ts == ts0 && logs == logs0
    else if found.None? then
      err == Some(AppError(500, "post_translation_missing"))
    else
      var t := Retitled(ts0[found.value], req);
      var ts1 := ts0[found.value := t];
      if p.status != "published" then
        err.None? && posts == posts0[postId := p] && ts == ts1 && logs == logs0
      else
        && ScreenedOutcome(p, postId, ts1, t.title, t.content, classify, translate, langs, cfg, now,
                           posts0, posts, ts, err)
        && (err.None? ==> |logs| == |logs0| + 1)
  }

  /** The part of `update_post` after its checks, as one transaction; an
      error rolls every change back. */
  method SaveEdit(db: Db, postId: Id, req: UpdateRequest, tagIds: seq<Id>,
                  classify: (string, string) -> ModerationService.Classification, translate: Translator,
                  langs: seq<string>, cfg: Settings.Config, now: Time)
    returns (err: Option<AppError>)
    requires postId in db.posts
    requires TranslationsUnique(db.translations) && TagSlugsUnique(db.tags)
    requires req.tags.Some? ==> |tagIds| >= |req.tags.value| && PostTags.FreshIds(tagIds, db.tags)
    modifies db`posts, db`translations, db`tags, db`postTags, db`logs
    ensures TranslationsUnique(db.translations) && TagSlugsUnique(db.tags)
    ensures postId in db.posts
    ensures EditOutcome(postId, req, classify, translate, langs, cfg, now,
                        old(db.posts), old(db.translations), old(db.logs), db.posts, db.translations, db.logs, err)
    ensures err.Some? ==>
      && db.posts == old(db.posts) && db.translations == old(db.translations)
      && db.tags == old(db.tags) && db.postTags == old(db.postTags) && db.logs == old(db.logs)
    ensures err.None? && EditsText(req) && req.tags.Some? && PostTags.NormalizeSlugs(req.tags.value) != [] ==>
      PostTags.PostSlugs(db.postTags, db.tags, postId) == set s | s in PostTags.NormalizeSlugs(req.tags.value)
    ensures !EditsText(req) || req.tags.None? || PostTags.NormalizeSlugs(req.tags.value) == [] ==>
      db.tags == old(db.tags) && db.postTags == old(db.postTags)
  {
    var posts0, ts0, tags0, postTags0, logs0 := db.posts, db.translations, db.tags, db.postTags, db.logs;
    var p := Edited(db.posts[postId], req, now);
    db.posts := db.posts[postId := p];
    err := None;
    if EditsText(req) {
      var found := FindTranslation(db.translations, postId, p.originalLanguage);
      if found.None? {
        db.posts := posts0;
        return Some(AppError(500, "post_translation_missing"));
      }
      err := EditText(db, postId, found.value, req, tagIds, classify, translate, langs, cfg, now);
      if err.Some? {
        db.posts, db.translations, db.tags, db.postTags, db.logs := posts0, ts0, tags0, postTags0, logs0;
      }
    }
  }

  /** `update_post`: 404 for an unknown post, 403 for a caller who is neither
      its author nor an admin, 404 for an unknown category, all before any
      change; otherwise the edit `EditOutcome` describes. The returned row is
      the post as stored afterwards. */
  method UpdatePost(db: Db, postId: Id, userId: Id, isAdmin: bool, req: UpdateRequest, tagIds: seq<Id>,
                    classify: (string, string) -> ModerationService.Classification, translate: Translator,
                    cfg: Settings.Config, now: Time)
    returns (r: Result<Post>)
    requires TranslationsUnique(db.translations) && TagSlugsUnique(db.tags)
    requires req.tags.Some? ==> |tagIds| >= |req.tags.value| && PostTags.FreshIds(tagIds, db.tags)
    modifies db`posts, db`translations, db`tags, db`postTags, db`logs
    ensures TranslationsUnique(db.translations) && TagSlugsUnique(db.tags)
    ensures postId !in old(db.posts) ==> r == Err(AppError(404, "post_not_found"))
    ensures postId in old(db.posts) && old(db.posts[postId]).authorId != userId && !isAdmin ==>
      r == Err(AppError(403, "forbidden"))
    ensures postId in old(db.posts) && (old(db.posts[postId]).authorId == userId || isAdmin) &&
            req.categoryId.Some? && req.categoryId.value !in old(db.categories) ==>
      r == Err(AppError(404, "category_not_found"))
    ensures r.Err? ==>
      && db.posts == old(db.posts) && db.translations == old(db.translations)
      && db.tags == old(db.tags) && db.postTags == old(db.postTags) && db.logs == old(db.logs)
    ensures r.Ok? ==> postId in db.posts && r.value == db.posts[postId]
    ensures postId in old(db.posts) && (old(db.posts[postId]).authorId == userId || isAdmin) &&
            (req.categoryId.None? || req.categoryId.value in old(db.categories)) ==>
      var err := if r.Ok? then None else Some(r.error);
      EditOutcome(postId, req, classify, translate, Languages(cfg), cfg, now,
                  old(db.posts), old(db.translations), old(db.logs), db.posts, db.translations, db.logs, err)
    ensures r.Ok? && EditsText(req) && req.tags.Some? && PostTags.NormalizeSlugs(req.tags.value) != [] ==>
      PostTags.PostSlugs(db.postTags, db.tags, postId) == set s | s in PostTags.NormalizeSlugs(req.tags.value)
    ensures !EditsText(req) || req.tags.None? || PostTags.NormalizeSlugs(req.tags.value) == [] ==>
      db.tags == old(db.tags) && db.postTags == old(db.postTags)
  {
    if postId !in db.posts {
      return Err(AppError(404, "post_not_found"));
    }
    if db.posts[postId].authorId != userId && !isAdmin {
      return Err(AppError(403, "forbidden"));
    }
    if req.categoryId.Some? && req.categoryId.value !in db.categories {
      return Err(AppError(404, "category_not_found"));
    }
    var langs := Languages(cfg);
    var err := SaveEdit(db, postId, req, tagIds, classify, translate, langs, cfg, now);
    if err.Some? {
      return Err(err.value);
    }
    r := Ok(db.posts[postId]);
  }

  /** `publish_post`: 404 for an unknown post, 500 when its original
      translation is missing; otherwise the post is screened on that
      translation's text and, when it passed, translated. Any caller may ask
      (no author check); a translator error rolls every change back. */
  method PublishPost(db: Db, postId: Id,
                     classify: (string, string) -> ModerationService.Classification, translate: Translator,
                     cfg: Settings.Config, now: Time)
    returns (r: Result<Post>)
    requires TranslationsUnique(db.translations)
    modifies db`posts, db`translations, db`logs
    ensures TranslationsUnique(db.translations)
    ensures postId !in old(db.posts) ==> r == Err(AppError(404, "post_not_found"))
    ensures postId in old(db.posts) &&
            FindTranslation(old(db.translations), postId, old(db.posts[postId]).originalLanguage).None? ==>
      r == Err(AppError(500, "post_translation_missing"))
    ensures r.Err? ==> db.posts == old(db.posts) && db.translations == old(db.translations) && db.logs == old(db.logs)
    ensures r.Ok? ==> postId in db.posts && r.value == db.posts[postId] && |db.logs| == |old(db.logs)| + 1
    ensures postId in old(db.posts) ==>
      var p := old(db.posts[postId]);
      var found := FindTranslation(old(db.translations), postId, p.originalLanguage);
      found.Some? ==>
        var t := old(db.translations[found.value]);
        ScreenedOutcome(p, postId, old(db.translations), t.title, t.content, classify, translate, Languages(cfg),
                        cfg, now, old(db.posts), db.posts, db.translations, if r.Ok? then None else Some(r.error))
  {
    if postId !in db.posts {
      return Err(AppError(404, "post_not_found"));
    }
    var found := FindTranslation(db.translations, postId, db.posts[postId].originalLanguage);
    if found.None? {
      return Err(AppError(500, "post_translation_missing"));
    }
    var t := db.translations[found.value];
    var langs := Languages(cfg);
    var posts0, ts0, logs0 := db.posts, db.translations, db.logs;
    var err := ScreenThenTranslate(db, postId, t.title, t.content, classify, translate, langs, cfg, now);
    if err.Some? {
      db.posts, db.translations, db.logs := posts0, ts0, logs0;
      return Err(err.value);
    }
    r := Ok(db.posts[postId]);
  }

  /** `delete_post`: 404 for an unknown post, 403 for a caller who is neither
      its author nor an admin; otherwise the post row alone is removed. No
      cascade is declared and the database does not enforce foreign keys, so
      its translations, tags, votes, feedback and replies stay behind. */
  method DeletePost(db: Db, postId: Id, userId: Id, isAdmin: bool) returns (r: Result<()>)
    modifies db`posts
    ensures postId !in old(db.posts) ==> r == Err(AppError(404, "post_not_found"))
    ensures postId in old(db.posts) && old(db.posts[postId]).authorId != userId && !isAdmin ==>
      r == Err(AppError(403, "forbidden"))
    ensures r.Ok? <==> postId in old(db.posts) && (old(db.posts[postId]).authorId == userId || isAdmin)
    ensures r.Ok? ==> db.posts == old(db.posts) - {postId}
    ensures r.Err? ==> db.posts == old(db.posts)
  {
    if postId !in db.posts {
      return Err(AppError(404, "post_not_found"));
    }
    if db.posts[postId].authorId != userId && !isAdmin {
      return Err(AppError(403, "forbidden"));
    }
    db.posts := db.posts - {postId};
    r := Ok(());
  }

  /** An update that sets the status to `published` without new text is not
      screened: the post is published as asked, with no moderation log and no
      translation. */
  lemma StatusOnlyPublishes(postId: Id, req: UpdateRequest,
                            classify: (string, string) -> ModerationService.Classification,
                            translate: Translator, langs: seq<string>, cfg: Settings.Config, now: Time,
                            posts0: map<Id, Post>, ts0: seq<PostTranslation>, logs0: seq<ModerationLog>,
                            posts: map<Id, Post>, ts: seq<PostTranslation>, logs: seq<ModerationLog>,
                            err: Option<AppError>)
    requires postId in posts0 && !EditsText(req) && req.status == Some("published")
    requires EditOutcome(postId, req, classify, translate, langs, cfg, now, posts0, ts0, logs0, posts, ts, logs, err)
    ensures err.None? && postId in posts && posts[postId].status == "published" && posts[postId].publishedAt.Some?
    ensures ts == ts0 && logs == logs0
  {
  }
}
