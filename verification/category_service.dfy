/** The category registry (WebSite/BackEnd/app/services/category_service.py):
    slugs are unique, deleting a category detaches its posts, and a fresh
    install is seeded with five defaults. */
module CategoryService {
  import opened Common
  import opened Models
  import Query

  predicate SlugTaken(cs: map<Id, Category>, slug: string) {
    exists c :: c in cs && cs[c].slug == slug
  }

  /** `log_action`'s row for a category change. */
  function CategoryAudit(adminId: Id, categoryId: Id, action: string): ModerationAction {
    ModerationAction(adminId, "category", categoryId, action, None)
  }

  /** `create_category`: 409 when the slug is in use, otherwise the category is
      stored and `category_create` is audited. */
  method CreateCategory(db: Db, name: string, slug: string, sortOrder: int, status: string, adminId: Id, newId: Id)
    returns (r: Result<Category>)
    requires CategorySlugsUnique(db.categories) && newId !in db.categories
    modifies db`categories, db`actions
    ensures CategorySlugsUnique(db.categories)
    ensures r.Err? <==> SlugTaken(old(db.categories), slug)
    ensures r.Err? ==>
      r.error == AppError(409, "category_exists") && db.categories == old(db.categories) && db.actions == old(db.actions)
    ensures r.Ok? ==>
      && r.value == Category(name, slug, sortOrder, status)
      && db.categories == old(db.categories)[newId := r.value]
      && db.actions == old(db.actions) + [CategoryAudit(adminId, newId, "category_create")]
  {
    if exists c :: c in db.categories && db.categories[c].slug == slug {
      return Err(AppError(409, "category_exists"));
    }
    var category := Category(name, slug, sortOrder, status);
    db.categories := db.categories[newId := category];
    db.actions := db.actions + [CategoryAudit(adminId, newId, "category_create")];
    r := Ok(category);
  }

  /** The fields a `CategoryUpdateRequest` supplies. */
  datatype CategoryUpdate = CategoryUpdate(
    name: Option<string>, slug: Option<string>, sortOrder: Option<int>, status: Option<string>)

  /** The `setattr` loop: each supplied field overwrites the stored one. */
  function ApplyCategoryUpdate(c: Category, u: CategoryUpdate): (r: Category)
    ensures r.name == (if u.name.Some? then u.name.value else c.name)
    ensures r.slug == (if u.slug.Some? then u.slug.value else c.slug)
    ensures r.sortOrder == (if u.sortOrder.Some? then u.sortOrder.value else c.sortOrder)
    ensures r.status == (if u.status.Some? then u.status.value else c.status)
  {
    Category(
      if u.name.Some? then u.name.value else c.name,
      if u.slug.Some? then u.slug.value else c.slug,
      if u.sortOrder.Some? then u.sortOrder.value else c.sortOrder,
      if u.status.Some? then u.status.value else c.status)
  }

  /** Sending an update twice is sending it once. */
  lemma ApplyCategoryUpdateIdempotent(c: Category, u: CategoryUpdate)
    ensures ApplyCategoryUpdate(ApplyCategoryUpdate(c, u), u) == ApplyCategoryUpdate(c, u)
  {
  }

  /** The 409 check of `update_category`: a new slug that another category
      already uses. Re-sending the category's own slug is allowed. */
  predicate SlugConflict(cs: map<Id, Category>, id: Id, u: CategoryUpdate)
    requires id in cs
  {
    u.slug.Some? && u.slug.value != cs[id].slug && SlugTaken(cs, u.slug.value)
  }

  /** `update_category`: 404 for an unknown id, 409 for a slug another
      category uses; otherwise the supplied fields change and
      `category_update` is audited. */
  method UpdateCategory(db: Db, categoryId: Id, u: CategoryUpdate, adminId: Id) returns (r: Result<Category>)
    requires CategorySlugsUnique(db.categories)
    modifies db`categories, db`actions
    ensures CategorySlugsUnique(db.categories)
    ensures categoryId !in old(db.categories) ==> r == Err(AppError(404, "category_not_found"))
    ensures categoryId in old(db.categories) && SlugConflict(old(db.categories), categoryId, u) ==>
      r == Err(AppError(409, "category_exists"))
    ensures r.Ok? <==> categoryId in old(db.categories) && !SlugConflict(old(db.categories), categoryId, u)
    ensures r.Err? ==> db.categories == old(db.categories) && db.actions == old(db.actions)
    ensures r.Ok? ==>
      && r.value == ApplyCategoryUpdate(old(db.categories[categoryId]), u)
      && db.categories == old(db.categories)[categoryId := r.value]
      && db.actions == old(db.actions) + [CategoryAudit(adminId, categoryId, "category_update")]
  {
    if categoryId !in db.categories {
      return Err(AppError(404, "category_not_found"));
    }
    var category := db.categories[categoryId];
    if u.slug.Some? && u.slug.value != category.slug {
      if exists c :: c in db.categories && db.categories[c].slug == u.slug.value {
        return Err(AppError(409, "category_exists"));
      }
    }
    var updated := ApplyCategoryUpdate(category, u);
    db.categories := db.categories[categoryId := updated];
    db.actions := db.actions + [CategoryAudit(adminId, categoryId, "category_update")];
    r := Ok(updated);
  }

  /** The posts after their category is deleted: those in it have none. */
  function Detach(posts: map<Id, Post>, categoryId: Id): (r: map<Id, Post>)
    ensures r.Keys == posts.Keys
    ensures forall p :: p in r ==> r[p].categoryId != Some(categoryId)
    ensures forall p :: p in r ==> r[p] == posts[p].(categoryId := r[p].categoryId)
    ensures forall p :: p in r && posts[p].categoryId != Some(categoryId) ==> r[p] == posts[p]
  {
    map p | p in posts :: if posts[p].categoryId == Some(categoryId) then posts[p].(categoryId := None) else posts[p]
  }

  /** `delete_category`: 404 for an unknown id; otherwise every post in the
      category is detached one by one, `category_delete` is audited and the
      category is removed. */
  method DeleteCategory(db: Db, categoryId: Id, adminId: Id) returns (r: Result<()>)
    modifies db`categories, db`posts, db`actions
    ensures r.Err? <==> categoryId !in old(db.categories)
    ensures r.Err? ==>
      && r.error == AppError(404, "category_not_found")
      && db.categories == old(db.categories) && db.posts == old(db.posts) && db.actions == old(db.actions)
    ensures r.Ok? ==>
      && db.categories == old(db.categories) - {categoryId}
      && db.posts == Detach(old(db.posts), categoryId)
      && db.actions == old(db.actions) + [CategoryAudit(adminId, categoryId, "category_delete")]
  {
    if categoryId !in db.categories {
      return Err(AppError(404, "category_not_found"));
    }
    var todo := set p | p in db.posts && db.posts[p].categoryId == Some(categoryId);
    ghost var target := Detach(db.posts, categoryId);
    while todo != {}
      invariant db.categories == old(db.categories) && db.actions == old(db.actions)
      invariant todo <= db.posts.Keys && db.posts.Keys == target.Keys
      invariant forall p :: p in db.posts && p !in todo ==> db.posts[p] == target[p]
      invariant forall p :: p in todo ==> db.posts[p] == old(db.posts[p])
      invariant forall p :: p in todo ==> target[p] == old(db.posts[p]).(categoryId := None)
      decreases todo
    {
      var p :| p in todo;
      db.posts := db.posts[p := db.posts[p].(categoryId := None)];
      todo := todo - {p};
    }
    assert db.posts == target;
    db.actions := db.actions + [CategoryAudit(adminId, categoryId, "category_delete")];
    db.categories := db.categories - {categoryId};
    r := Ok(());
  }

  /** The five categories of a fresh install: name, slug and sort order. */
  const Defaults: seq<(string, string, int)> := [
    ("Visa & Immigration", "visa", 1),
    ("Housing", "housing", 2),
    ("Health & Wellness", "health", 3),
    ("Campus Life", "campus", 4),
    ("Work & Internships", "work", 5)]

  function DefaultCategory(i: nat): Category
    requires i < |Defaults|
  {
    Category(Defaults[i].0, Defaults[i].1, Defaults[i].2, "active")
  }

  /** The default slugs are pairwise different. */
  lemma DefaultSlugsDistinct()
    ensures forall i, j :: 0 <= i < j < |Defaults| ==> Defaults[i].1 != Defaults[j].1
  {
    assert Defaults[0].1[0] == 'v' && Defaults[1].1[0] == 'h' && Defaults[2].1[0] == 'h';
    assert Defaults[3].1[0] == 'c' && Defaults[4].1[0] == 'w';
    assert Defaults[1].1[1] == 'o' && Defaults[2].1[1] == 'e';
  }

  /** `ensure_default_categories`: when the registry is empty, the five
      defaults are inserted (active, in order); otherwise nothing happens. Run
      again, it therefore changes nothing. */
  method EnsureDefaultCategories(db: Db, ids: seq<Id>)
    requires |ids| == |Defaults|
    requires forall i, j :: 0 <= i < j < |ids| ==> ids[i] != ids[j]
    modifies db`categories
    ensures old(db.categories) != map[] ==> db.categories == old(db.categories)
    ensures old(db.categories) == map[] ==>
      && db.categories.Keys == (set i | 0 <= i < |ids| :: ids[i])
      && (forall i :: 0 <= i < |ids| ==> db.categories[ids[i]] == DefaultCategory(i))
      && CategorySlugsUnique(db.categories)
    ensures db.categories != map[]
  {
    if db.categories != map[] {
      return;
    }
    var i := 0;
    while i < |Defaults|
      invariant 0 <= i <= |Defaults|
      invariant db.categories.Keys == (set k | 0 <= k < i :: ids[k])
      invariant forall k :: 0 <= k < i ==> db.categories[ids[k]] == DefaultCategory(k)
    {
      db.categories := db.categories[ids[i] := DefaultCategory(i)];
      i := i + 1;
    }
    assert ids[0] in db.categories;
    DefaultSlugsDistinct();
    forall a, b | a in db.categories && b in db.categories && db.categories[a].slug == db.categories[b].slug
      ensures a == b
    {
      var x :| 0 <= x < |ids| && ids[x] == a;
      var y :| 0 <= y < |ids| && ids[y] == b;
      if x < y {
        assert Defaults[x].1 != Defaults[y].1;
      } else if y < x {
        assert Defaults[y].1 != Defaults[x].1;
      }
    }
  }

  /** `ORDER BY sort_order, name`. */
  predicate ListedBefore(a: (Id, Category), b: (Id, Category)) {
    a.1.sortOrder < b.1.sortOrder || (a.1.sortOrder == b.1.sortOrder && Query.TextLe(a.1.name, b.1.name))
  }

  lemma ListedBeforePreorder()
    ensures Query.TotalPreorder(ListedBefore)
  {
    forall a: (Id, Category), b: (Id, Category)
      ensures ListedBefore(a, b) || ListedBefore(b, a)
    {
      Query.TextLeTotal(a.1.name, b.1.name);
    }
    forall a: (Id, Category), b: (Id, Category), c: (Id, Category) | ListedBefore(a, b) && ListedBefore(b, c)
      ensures ListedBefore(a, c)
    {
      if a.1.sortOrder == b.1.sortOrder == c.1.sortOrder {
        Query.TextLeTrans(a.1.name, b.1.name, c.1.name);
      }
    }
  }

  /** The rows of the ids of `scan` that name a category, in scan order. */
  function CategoryRows(cs: map<Id, Category>, scan: seq<Id>): (rows: seq<(Id, Category)>)
    ensures forall x :: x in rows <==> x.0 in scan && x.0 in cs && x.1 == cs[x.0]
  {
    if scan == [] then []
    else if scan[0] in cs then [(scan[0], cs[scan[0]])] + CategoryRows(cs, scan[1..])
    else CategoryRows(cs, scan[1..])
  }

  /** `list_categories`: every category, by sort order and then by name. */
  function ListCategories(cs: map<Id, Category>, scan: seq<Id>): (r: seq<(Id, Category)>)
    ensures Query.SortedBy(r, ListedBefore)
    ensures multiset(r) == multiset(CategoryRows(cs, scan))
  {
    ListedBeforePreorder();
    Query.SortBy(CategoryRows(cs, scan), ListedBefore)
  }

  /** Listing with a scan that visits every category lists exactly them. */
  lemma ListCategoriesComplete(cs: map<Id, Category>, scan: seq<Id>)
    requires forall c :: c in cs ==> c in scan
    ensures forall c :: c in cs ==> (c, cs[c]) in ListCategories(cs, scan)
    ensures forall x :: x in ListCategories(cs, scan) ==> x.0 in cs && x.1 == cs[x.0]
  {
    var r := ListCategories(cs, scan);
    var rows := CategoryRows(cs, scan);
    forall c | c in cs
      ensures (c, cs[c]) in r
    {
      assert (c, cs[c]) in rows;
      assert (c, cs[c]) in multiset(rows);
    }
    forall x | x in r
      ensures x.0 in cs && x.1 == cs[x.0]
    {
      assert x in multiset(r);
      assert x in rows;
    }
  }
}
