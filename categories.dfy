/** SubstanceCategoriesController: list, get, update, create and delete categories. */
module Categories {
  import opened Common
  import opened Text
  import opened Schema
  import Query

  /** SubstanceCategoryExists, Any(e => e.Id == id): a lookup of the primary key. */
  predicate Exists(db: Db, id: int)
    ensures KeysAreIds(db) ==>
      (Exists(db, id) <==> exists k :: k in db.categories && db.categories[k].id == id)
  {
    id in db.categories
  }

  /** The duplicate-name query of the create action. */
  predicate NameInUse(db: Db, name: string) {
    exists k :: k in db.categories && db.categories[k].name == name
  }

  /** The duplicate-name query of the update action, which skips the row being updated. */
  predicate NameUsedByOther(db: Db, name: string, id: int) {
    exists k :: k in db.categories && k != id && db.categories[k].name == name
  }

  /** GET api/SubstanceCategories: every stored category, ordered by Name. */
  function List(db: Db): (r: seq<SubstanceCategory>)
    ensures multiset(r) == multiset(Query.Rows(db.categories))
    ensures forall c :: c in r <==> c in db.categories.Values
    ensures forall i, j :: 0 <= i < j < |r| ==> NameLe(r[i].name, r[j].name)
  {
    NameLeIsTotalOrder();
    var le := (a: SubstanceCategory, b: SubstanceCategory) => NameLe(a.name, b.name);
    var rows := Query.Rows(db.categories);
    Query.SortBySorted(rows, le);
    var r := Query.SortBy(rows, le);
    assert forall c :: c in r <==> c in multiset(rows);
    r
  }

  /** GET api/SubstanceCategories/{id}: the row whose Id is `id`, else 404. */
  function Get(db: Db, id: int): (r: Response<SubstanceCategory>)
    ensures r.Ok? || r == NotFound
    ensures r.Ok? ==> r.value in db.categories.Values
    ensures r.Ok? <==> Exists(db, id)
    ensures KeysAreIds(db) && r.Ok? ==> r.value.id == id
  {
    if id in db.categories then Ok(db.categories[id]) else NotFound
  }

  /** PUT api/SubstanceCategories/{id}. The checks run in order and the first that
      fails decides; a concurrency failure on a vanished row becomes 404. */
  function Put(db: Db, id: int, body: SubstanceCategory): (o: Outcome<SubstanceCategory>)
    ensures o.response in {NoContent, BadRequest, Conflict, NotFound}
    ensures o.response == BadRequest <==> id != body.id || IsNullOrWhiteSpace(body.name)
    ensures o.response == Conflict <==>
      id == body.id && !IsNullOrWhiteSpace(body.name) && NameUsedByOther(db, body.name, id)
    ensures o.response == NotFound <==>
      && id == body.id && !IsNullOrWhiteSpace(body.name) && !NameUsedByOther(db, body.name, id)
      && id !in db.categories
    ensures o.response == NoContent <==>
      && id == body.id && !IsNullOrWhiteSpace(body.name) && !NameUsedByOther(db, body.name, id)
      && id in db.categories
    ensures o.response != NoContent ==> o.db == db
    ensures o.db.types == db.types && o.db.usages == db.usages
    ensures o.response == NoContent ==>
      o.db.categories == db.categories[id := SubstanceCategory(id, body.name)]
  {
    if id != body.id then Outcome(BadRequest, db)
    else if IsNullOrWhiteSpace(body.name) then Outcome(BadRequest, db)
    else if NameUsedByOther(db, body.name, id) then Outcome(Conflict, db)
    else if !Exists(db, id) then Outcome(NotFound, db)
    else Outcome(NoContent, db.(categories := db.categories[id := body]))
  }

  /** POST api/SubstanceCategories; `freshId` is the identity value the database assigns. */
  function Post(db: Db, body: SubstanceCategory, freshId: int): (o: Outcome<SubstanceCategory>)
    requires freshId !in db.categories
    ensures IsNullOrWhiteSpace(body.name) ==> o == Outcome(BadRequest, db)
    ensures !IsNullOrWhiteSpace(body.name) && NameInUse(db, body.name) ==> o == Outcome(Conflict, db)
    ensures o.response.Created? <==> !IsNullOrWhiteSpace(body.name) && !NameInUse(db, body.name)
    ensures o.response.Created? ==>
      && o.response.id == freshId
      && o.db == db.(categories := db.categories[freshId := SubstanceCategory(freshId, body.name)])
  {
    if IsNullOrWhiteSpace(body.name) then Outcome(BadRequest, db)
    else if NameInUse(db, body.name) then Outcome(Conflict, db)
    else
      var c := body.(id := freshId);
      Outcome(Created(freshId), db.(categories := db.categories[freshId := c]))
  }

  /** DELETE api/SubstanceCategories/{id}: refused (400) while a type uses the category. */
  function Delete(db: Db, id: int): (o: Outcome<SubstanceCategory>)
    ensures o.response in {NotFound, BadRequest, NoContent}
    ensures o.response == NotFound <==> id !in db.categories
    ensures o.response == BadRequest <==>
      id in db.categories && exists k :: k in db.types && db.types[k].categoryId == id
    ensures o.response != NoContent ==> o.db == db
    ensures o.response == NoContent ==>
      && o.db == db.(categories := db.categories - {id})
      && forall t :: t in o.db.types.Values ==> t.categoryId != id
  {
    if id !in db.categories then Outcome(NotFound, db)
    else if exists k :: k in db.types && db.types[k].categoryId == id then Outcome(BadRequest, db)
    else Outcome(NoContent, db.(categories := db.categories - {id}))
  }

  /** Every listed category can be fetched again by its Id. */
  lemma ListedAreGettable(db: Db)
    requires KeysAreIds(db)
    ensures forall c :: c in List(db) ==> Get(db, c.id) == Ok(c)
  {
    forall c | c in List(db) ensures Get(db, c.id) == Ok(c) {
      Query.ValueHasKey(db.categories, c);
    }
  }

  // Properties of the transitions

  lemma PostPreservesValid(db: Db, body: SubstanceCategory, freshId: int)
    requires Valid(db) && freshId !in db.categories
    ensures Valid(Post(db, body, freshId).db)
  {
  }

  /** Round trip: the id a successful create answers with reads back the submitted name. */
  lemma PostThenGet(db: Db, body: SubstanceCategory, freshId: int)
    requires freshId !in db.categories
    requires Post(db, body, freshId).response.Created?
    ensures Get(Post(db, body, freshId).db, freshId) == Ok(SubstanceCategory(freshId, body.name))
    ensures forall id :: id != freshId ==> Get(Post(db, body, freshId).db, id) == Get(db, id)
  {
  }

  /** Creating two categories with the same name: the second is a conflict. */
  lemma SecondPostConflicts(db: Db, first: SubstanceCategory, id1: int, second: SubstanceCategory, id2: int)
    requires id1 !in db.categories && Post(db, first, id1).response.Created?
    requires second.name == first.name && id2 !in Post(db, first, id1).db.categories
    ensures Post(Post(db, first, id1).db, second, id2) == Outcome(Conflict, Post(db, first, id1).db)
  {
    var db1 := Post(db, first, id1).db;
    assert db1.categories[id1].name == second.name;
  }

  lemma PutPreservesValid(db: Db, id: int, body: SubstanceCategory)
    requires Valid(db)
    ensures Valid(Put(db, id, body).db)
  {
  }

  /** Saving a category under its current name succeeds and changes nothing, because
      the duplicate check skips the row's own id. */
  lemma PutOwnName(db: Db, id: int)
    requires Valid(db) && id in db.categories
    ensures Put(db, id, db.categories[id]) == Outcome(NoContent, db)
  {
    if NameUsedByOther(db, db.categories[id].name, id) {
      assert false;
    }
  }

  lemma DeletePreservesValid(db: Db, id: int)
    requires Valid(db)
    ensures Valid(Delete(db, id).db)
  {
  }
}
