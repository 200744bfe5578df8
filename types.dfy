/** SubstanceTypesController: list (with a category filter), get, update, create and
    delete substance types. */
module SubstanceTypes {
  import opened Common
  import opened Text
  import opened Schema
  import Categories
  import Query

  /** SubstanceTypeExists, Any(e => e.Id == id): a lookup of the primary key. */
  predicate Exists(db: Db, id: int)
    ensures KeysAreIds(db) ==>
      (Exists(db, id) <==> exists k :: k in db.types && db.types[k].id == id)
  {
    id in db.types
  }

  /** The duplicate query of the create action: same Name in the same category. */
  predicate PairInUse(db: Db, name: string, categoryId: int) {
    exists k :: k in db.types && db.types[k].name == name && db.types[k].categoryId == categoryId
  }

  /** The duplicate query of the update action, which skips the row being updated. */
  predicate PairUsedByOther(db: Db, name: string, categoryId: int, id: int) {
    exists k :: k in db.types && k != id
      && db.types[k].name == name && db.types[k].categoryId == categoryId
  }

  /** Include(t => t.Category): the parent category, when it is stored. */
  function CategoryOf(db: Db, t: SubstanceType): (r: Option<SubstanceCategory>)
    ensures r.Some? <==> t.categoryId in db.categories
    ensures r.Some? ==> r.value == db.categories[t.categoryId]
    ensures KeysAreIds(db) && r.Some? ==> r.value.id == t.categoryId
  {
    if t.categoryId in db.categories then Some(db.categories[t.categoryId]) else None
  }

  /** The parent's name as the sort key sees it. */
  function CategoryName(db: Db, t: SubstanceType): string {
    match CategoryOf(db, t)
    case Some(c) => c.name
    case None => ""
  }

  /** OrderBy(t => t.Category.Name).ThenBy(t => t.Name). */
  predicate Before(db: Db, a: SubstanceType, b: SubstanceType) {
    var ca, cb := CategoryName(db, a), CategoryName(db, b);
    if ca != cb then NameLe(ca, cb) else NameLe(a.name, b.name)
  }

  /** The categoryId query parameter: absent keeps every type. */
  predicate InCategory(categoryId: Option<int>, t: SubstanceType) {
    categoryId.Some? ==> t.categoryId == categoryId.value
  }

  lemma BeforeIsTotalPreorder(db: Db)
    ensures forall a, b :: Before(db, a, b) || Before(db, b, a)
    ensures forall a, b, c :: Before(db, a, b) && Before(db, b, c) ==> Before(db, a, c)
  {
    NameLeIsTotalOrder();
  }

  /** GET api/SubstanceTypes?categoryId=: the types of that category (all types when
      no filter is given), ordered by category name and then type name. */
  function List(db: Db, categoryId: Option<int>): (r: seq<SubstanceType>)
    ensures forall t :: t in r <==> t in db.types.Values && InCategory(categoryId, t)
    ensures forall t ::
      multiset(r)[t] == if InCategory(categoryId, t) then multiset(Query.Rows(db.types))[t] else 0
    ensures forall i, j :: 0 <= i < j < |r| ==> Before(db, r[i], r[j])
  {
    var rows := Query.Rows(db.types);
    var query := if categoryId.Some? then Query.Filter(rows, (t: SubstanceType) => t.categoryId == categoryId.value) else rows;
    assert forall t :: multiset(query)[t] == if InCategory(categoryId, t) then multiset(rows)[t] else 0;
    var r := Ordered(db, query);
    assert forall t :: t in r <==> t in multiset(query);
    r
  }

  /** OrderBy(t => t.Category.Name).ThenBy(t => t.Name): the same types, in that order. */
  function Ordered(db: Db, q: seq<SubstanceType>): (r: seq<SubstanceType>)
    ensures multiset(r) == multiset(q)
    ensures forall i, j :: 0 <= i < j < |r| ==> Before(db, r[i], r[j])
  {
    BeforeIsTotalPreorder(db);
    var le := (a: SubstanceType, b: SubstanceType) => Before(db, a, b);
    Query.SortBySorted(q, le);
    Query.SortBy(q, le)
  }

  /** GET api/SubstanceTypes/{id}: the row whose Id is `id`, else 404. */
  function Get(db: Db, id: int): (r: Response<SubstanceType>)
    ensures r.Ok? || r == NotFound
    ensures r.Ok? ==> r.value in db.types.Values
    ensures r.Ok? <==> Exists(db, id)
    ensures KeysAreIds(db) && r.Ok? ==> r.value.id == id
  {
    if id in db.types then Ok(db.types[id]) else NotFound
  }

  /** PUT api/SubstanceTypes/{id}: the checks run in order and the first that fails
      decides; on success the whole row is replaced. */
  function Put(db: Db, id: int, body: SubstanceType): (o: Outcome<SubstanceType>)
    ensures o.response in {NoContent, BadRequest, Conflict, NotFound}
    ensures o.response == BadRequest <==>
      id != body.id || IsNullOrWhiteSpace(body.name) || !Categories.Exists(db, body.categoryId)
    ensures o.response == Conflict <==>
      && id == body.id && !IsNullOrWhiteSpace(body.name) && Categories.Exists(db, body.categoryId)
      && PairUsedByOther(db, body.name, body.categoryId, id)
    ensures o.response == NotFound <==>
      && id == body.id && !IsNullOrWhiteSpace(body.name) && Categories.Exists(db, body.categoryId)
      && !PairUsedByOther(db, body.name, body.categoryId, id) && id !in db.types
    ensures o.response == NoContent <==>
      && id == body.id && !IsNullOrWhiteSpace(body.name) && Categories.Exists(db, body.categoryId)
      && !PairUsedByOther(db, body.name, body.categoryId, id) && id in db.types
    ensures o.response != NoContent ==> o.db == db
    ensures o.db.categories == db.categories && o.db.usages == db.usages
    ensures o.response == NoContent ==> id in db.types && o.db.types == db.types[id := body]
  {
    if id != body.id then Outcome(BadRequest, db)
    else if IsNullOrWhiteSpace(body.name) then Outcome(BadRequest, db)
    else if !Categories.Exists(db, body.categoryId) then Outcome(BadRequest, db)
    else if PairUsedByOther(db, body.name, body.categoryId, id) then Outcome(Conflict, db)
    else if !Exists(db, id) then Outcome(NotFound, db)
    else Outcome(NoContent, db.(types := db.types[id := body]))
  }

  /** POST api/SubstanceTypes; `freshId` is the identity value the database assigns. */
  function Post(db: Db, body: SubstanceType, freshId: int): (o: Outcome<SubstanceType>)
    requires freshId !in db.types
    ensures IsNullOrWhiteSpace(body.name) ==> o == Outcome(BadRequest, db)
    ensures !Categories.Exists(db, body.categoryId) ==> o == Outcome(BadRequest, db)
    ensures
      && !IsNullOrWhiteSpace(body.name) && Categories.Exists(db, body.categoryId)
      && PairInUse(db, body.name, body.categoryId)
      ==> o == Outcome(Conflict, db)
    ensures o.response.Created? <==>
      !IsNullOrWhiteSpace(body.name) && Categories.Exists(db, body.categoryId)
      && !PairInUse(db, body.name, body.categoryId)
    ensures o.response.Created? ==>
      && o.response.id == freshId
      && o.db == db.(types := db.types[freshId := body.(id := freshId)])
  {
    if IsNullOrWhiteSpace(body.name) then Outcome(BadRequest, db)
    else if !Categories.Exists(db, body.categoryId) then Outcome(BadRequest, db)
    else if PairInUse(db, body.name, body.categoryId) then Outcome(Conflict, db)
    else
      var t := body.(id := freshId);
      Outcome(Created(freshId), db.(types := db.types[freshId := t]))
  }

  /** DELETE api/SubstanceTypes/{id}: refused (400) while a usage record uses the type. */
  function Delete(db: Db, id: int): (o: Outcome<SubstanceType>)
    ensures o.response in {NotFound, BadRequest, NoContent}
    ensures o.response == NotFound <==> id !in db.types
    ensures o.response == BadRequest <==>
      id in db.types && exists k :: k in db.usages && db.usages[k].substanceTypeId == id
    ensures o.response != NoContent ==> o.db == db
    ensures o.response == NoContent ==>
      && o.db == db.(types := db.types - {id})
      && forall u :: u in o.db.usages.Values ==> u.substanceTypeId != id
  {
    if id !in db.types then Outcome(NotFound, db)
    else if exists k :: k in db.usages && db.usages[k].substanceTypeId == id then Outcome(BadRequest, db)
    else Outcome(NoContent, db.(types := db.types - {id}))
  }

  /** Every listed type can be fetched again by its Id, with its category loaded. */
  lemma ListedAreGettable(db: Db, categoryId: Option<int>)
    requires Valid(db)
    ensures forall t :: t in List(db, categoryId) ==> Get(db, t.id) == Ok(t) && CategoryOf(db, t).Some?
  {
    forall t | t in List(db, categoryId) ensures Get(db, t.id) == Ok(t) && CategoryOf(db, t).Some? {
      Query.ValueHasKey(db.types, t);
    }
  }

  // Properties of the transitions

  /** Under the invariants every stored type has its category loaded by Include. */
  lemma CategoryAlwaysLoaded(db: Db, id: int)
    requires Valid(db) && id in db.types
    ensures CategoryOf(db, db.types[id]) == Some(db.categories[db.types[id].categoryId])
    ensures CategoryOf(db, db.types[id]).value.id == db.types[id].categoryId
  {
  }

  lemma PostPreservesValid(db: Db, body: SubstanceType, freshId: int)
    requires Valid(db) && freshId !in db.types
    ensures Valid(Post(db, body, freshId).db)
  {
  }

  /** Round trip: the id a successful create answers with reads back the submitted
      fields, and the category it names exists. */
  lemma PostThenGet(db: Db, body: SubstanceType, freshId: int)
    requires freshId !in db.types
    requires Post(db, body, freshId).response.Created?
    ensures Get(Post(db, body, freshId).db, freshId) == Ok(body.(id := freshId))
    ensures Categories.Exists(Post(db, body, freshId).db, body.categoryId)
    ensures forall id :: id != freshId ==> Get(Post(db, body, freshId).db, id) == Get(db, id)
  {
  }

  /** The same (CategoryId, Name) twice: the second create is a conflict. */
  lemma SecondPostConflicts(db: Db, first: SubstanceType, id1: int, second: SubstanceType, id2: int)
    requires id1 !in db.types && Post(db, first, id1).response.Created?
    requires second.name == first.name && second.categoryId == first.categoryId
    requires id2 !in Post(db, first, id1).db.types
    ensures Post(Post(db, first, id1).db, second, id2) == Outcome(Conflict, Post(db, first, id1).db)
  {
    var db1 := Post(db, first, id1).db;
    assert db1.types[id1].name == second.name && db1.types[id1].categoryId == second.categoryId;
  }

  /** One name under two different categories: both creates succeed. */
  lemma SameNameInOtherCategory(db: Db, first: SubstanceType, id1: int, second: SubstanceType, id2: int)
    requires id1 !in db.types && Post(db, first, id1).response.Created?
    requires second.name == first.name && second.categoryId != first.categoryId
    requires Categories.Exists(db, second.categoryId) && !PairInUse(db, second.name, second.categoryId)
    requires id2 !in Post(db, first, id1).db.types
    ensures Post(Post(db, first, id1).db, second, id2).response == Created(id2)
  {
  }

  lemma PutPreservesValid(db: Db, id: int, body: SubstanceType)
    requires Valid(db)
    ensures Valid(Put(db, id, body).db)
  {
  }

  lemma DeletePreservesValid(db: Db, id: int)
    requires Valid(db)
    ensures Valid(Delete(db, id).db)
  {
  }

  /** Deleting a category that a type still uses is refused, and the type keeps its category. */
  lemma CategoryDeleteKeepsTypesAttached(db: Db, id: int)
    requires Valid(db) && id in db.types
    ensures Categories.Delete(db, db.types[id].categoryId) == Outcome(BadRequest, db)
  {
  }
}
