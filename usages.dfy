/** SubstanceUsagesController: list (four optional filters), get, update, create and
    delete usage records. */
module Usages {
  import opened Common
  import opened Text
  import opened Schema
  import SubstanceTypes
  import Query

  /** SubstanceUsageExists, Any(e => e.Id == id): a lookup of the primary key. */
  predicate Exists(db: Db, id: int)
    ensures KeysAreIds(db) ==>
      (Exists(db, id) <==> exists k :: k in db.usages && db.usages[k].id == id)
  {
    id in db.usages
  }

  /** Include(u => u.SubstanceType): the referenced type, when it is stored. */
  function TypeOf(db: Db, u: SubstanceUsage): (r: Option<SubstanceType>)
    ensures r.Some? <==> u.substanceTypeId in db.types
    ensures r.Some? ==> r.value == db.types[u.substanceTypeId]
    ensures KeysAreIds(db) && r.Some? ==> r.value.id == u.substanceTypeId
  {
    if u.substanceTypeId in db.types then Some(db.types[u.substanceTypeId]) else None
  }

  /** The conjunction of the filters the list action applies, one per query parameter
      that has a value; the end date covers its whole day. */
  predicate Matches(db: Db, u: SubstanceUsage, startDate: Option<Ticks>, endDate: Option<Ticks>,
                    substanceTypeId: Option<int>, categoryId: Option<int>)
  {
    && (startDate.Some? ==> u.usageDate >= startDate.value)
    && (endDate.Some? ==> u.usageDate < endDate.value + DayTicks)
    && (substanceTypeId.Some? ==> u.substanceTypeId == substanceTypeId.value)
    && (categoryId.Some? ==> TypeOf(db, u).Some? && TypeOf(db, u).value.categoryId == categoryId.value)
  }

  /** OrderByDescending(u => u.UsageDate). */
  predicate Later(a: SubstanceUsage, b: SubstanceUsage) {
    a.usageDate >= b.usageDate
  }

  /** `if (parameter.HasValue) query = query.Where(p)`: one optional narrowing step. */
  function Where(q: seq<SubstanceUsage>, active: bool, p: SubstanceUsage -> bool): (r: seq<SubstanceUsage>)
    ensures forall u :: multiset(r)[u] == if !active || p(u) then multiset(q)[u] else 0
  {
    if active then Query.Filter(q, p) else q
  }

  /** The four optional Where steps of the list action applied to the usage table. */
  function Narrowed(db: Db, startDate: Option<Ticks>, endDate: Option<Ticks>,
                    substanceTypeId: Option<int>, categoryId: Option<int>): (q: seq<SubstanceUsage>)
    ensures forall u ::
      multiset(q)[u] ==
        if Matches(db, u, startDate, endDate, substanceTypeId, categoryId)
        then multiset(Query.Rows(db.usages))[u] else 0
  {
    var q0 := Query.Rows(db.usages);
    var q1 := Where(q0, startDate.Some?, (u: SubstanceUsage) =>
                startDate.Some? ==> u.usageDate >= startDate.value);
    var q2 := Where(q1, endDate.Some?, (u: SubstanceUsage) =>
                endDate.Some? ==> u.usageDate < endDate.value + DayTicks);
    var q3 := Where(q2, substanceTypeId.Some?, (u: SubstanceUsage) =>
                substanceTypeId.Some? ==> u.substanceTypeId == substanceTypeId.value);
    var q4 := Where(q3, categoryId.Some?, (u: SubstanceUsage) =>
                categoryId.Some? ==> TypeOf(db, u).Some? && TypeOf(db, u).value.categoryId == categoryId.value);
    assert forall u ::
      multiset(q2)[u] ==
        if (startDate.Some? ==> u.usageDate >= startDate.value) && (endDate.Some? ==> u.usageDate < endDate.value + DayTicks)
        then multiset(q0)[u] else 0;
    q4
  }

  /** GET api/SubstanceUsages?startDate=&endDate=&substanceTypeId=&categoryId=: the
      records that pass every supplied filter, newest first. endDate.AddDays(1) throws
      past DateTime.MaxValue, which ends the request with 500. */
  function List(db: Db, startDate: Option<Ticks>, endDate: Option<Ticks>,
                substanceTypeId: Option<int>, categoryId: Option<int>): (r: Response<seq<SubstanceUsage>>)
    ensures r.Ok? || r == ServerError
    ensures r == ServerError <==> endDate.Some? && endDate.value + DayTicks > MaxTicks
    ensures r.Ok? ==> forall u ::
      multiset(r.value)[u] ==
        if Matches(db, u, startDate, endDate, substanceTypeId, categoryId)
        then multiset(Query.Rows(db.usages))[u] else 0
    ensures r.Ok? ==> forall i, j :: 0 <= i < j < |r.value| ==> r.value[i].usageDate >= r.value[j].usageDate
    ensures r.Ok? ==> forall u ::
      u in r.value <==> u in db.usages.Values && Matches(db, u, startDate, endDate, substanceTypeId, categoryId)
  {
    if endDate.Some? && AddOneDay(endDate.value).None? then ServerError
    else
      NarrowedMembers(db, startDate, endDate, substanceTypeId, categoryId);
      Ok(NewestFirst(Narrowed(db, startDate, endDate, substanceTypeId, categoryId)))
  }

  /** A record passes the four Where steps exactly when it is stored and matches. */
  lemma NarrowedMembers(db: Db, startDate: Option<Ticks>, endDate: Option<Ticks>,
                        substanceTypeId: Option<int>, categoryId: Option<int>)
    ensures forall u :: u in Narrowed(db, startDate, endDate, substanceTypeId, categoryId) <==>
      u in db.usages.Values && Matches(db, u, startDate, endDate, substanceTypeId, categoryId)
  {
    var q := Narrowed(db, startDate, endDate, substanceTypeId, categoryId);
    forall u ensures u in q <==> u in db.usages.Values && Matches(db, u, startDate, endDate, substanceTypeId, categoryId) {
      assert u in q <==> u in multiset(q);
      assert u in Query.Rows(db.usages) <==> u in multiset(Query.Rows(db.usages));
    }
  }

  /** OrderByDescending(u => u.UsageDate): the same records, most recent first. */
  function NewestFirst(q: seq<SubstanceUsage>): (r: seq<SubstanceUsage>)
    ensures multiset(r) == multiset(q)
    ensures forall i, j :: 0 <= i < j < |r| ==> r[i].usageDate >= r[j].usageDate
    ensures forall u :: u in r <==> u in q
  {
    var le := (a: SubstanceUsage, b: SubstanceUsage) => Later(a, b);
    assert Query.Total(le);
    assert Query.Transitive(le);
    Query.SortBySorted(q, le);
    var sorted := Query.SortBy(q, le);
    forall u ensures u in sorted <==> u in q {
      assert u in sorted <==> u in multiset(sorted);
    }
    sorted
  }

  /** GET api/SubstanceUsages/{id}: the row whose Id is `id`, else 404. */
  function Get(db: Db, id: int): (r: Response<SubstanceUsage>)
    ensures r.Ok? || r == NotFound
    ensures r.Ok? ==> r.value in db.usages.Values
    ensures r.Ok? <==> Exists(db, id)
    ensures KeysAreIds(db) && r.Ok? ==> r.value.id == id
  {
    if id in db.usages then Ok(db.usages[id]) else NotFound
  }

  /** The value checks shared by create and update (type exists, Amount > 0, Unit not
      blank); each failure answers 400, so their order does not change the response. */
  predicate Validate(db: Db, body: SubstanceUsage) {
    && SubstanceTypes.Exists(db, body.substanceTypeId)
    && body.amount > 0
    && !IsNullOrWhiteSpace(body.unit)
  }

  /** The date a created record is stored with: the default DateTime means "now". */
  function StoredDate(given: Ticks, now: Ticks): Ticks {
    if given == DefaultDate then now else given
  }

  /** PUT api/SubstanceUsages/{id}: id mismatch, then the value checks, then a vanished
      row (404); on success the whole row is replaced as sent, date included. */
  function Put(db: Db, id: int, body: SubstanceUsage): (o: Outcome<SubstanceUsage>)
    ensures o.response in {NoContent, BadRequest, NotFound}
    ensures o.response == BadRequest <==> id != body.id || !Validate(db, body)
    ensures o.response == NotFound <==> id == body.id && Validate(db, body) && id !in db.usages
    ensures o.response == NoContent <==> id == body.id && Validate(db, body) && id in db.usages
    ensures o.response != NoContent ==> o.db == db
    ensures o.db.categories == db.categories && o.db.types == db.types
    ensures o.response == NoContent ==> id in db.usages && o.db.usages == db.usages[id := body]
  {
    if id != body.id then Outcome(BadRequest, db)
    else if !Validate(db, body) then Outcome(BadRequest, db)
    else if !Exists(db, id) then Outcome(NotFound, db)
    else Outcome(NoContent, db.(usages := db.usages[id := body]))
  }

  /** POST api/SubstanceUsages; `freshId` is the identity value the database assigns and
      `now` is DateTime.UtcNow. */
  function Post(db: Db, body: SubstanceUsage, freshId: int, now: Ticks): (o: Outcome<SubstanceUsage>)
    requires freshId !in db.usages
    ensures !Validate(db, body) ==> o == Outcome(BadRequest, db)
    ensures o.response.Created? <==> Validate(db, body)
    ensures o.response.Created? ==>
      && o.response.id == freshId
      && o.db.categories == db.categories && o.db.types == db.types
      && o.db.usages.Keys == db.usages.Keys + {freshId}
      && (forall k :: k in db.usages ==> o.db.usages[k] == db.usages[k])
      && o.db.usages[freshId] == body.(id := freshId, usageDate := StoredDate(body.usageDate, now))
  {
    if !Validate(db, body) then Outcome(BadRequest, db)
    else
      var u := body.(id := freshId, usageDate := StoredDate(body.usageDate, now));
      Outcome(Created(freshId), db.(usages := db.usages[freshId := u]))
  }

  /** DELETE api/SubstanceUsages/{id}: nothing refers to a usage, so no in-use check. */
  function Delete(db: Db, id: int): (o: Outcome<SubstanceUsage>)
    ensures o.response == NotFound <==> id !in db.usages
    ensures o.response != NotFound ==> o.response == NoContent
    ensures o.response == NotFound ==> o.db == db
    ensures o.response == NoContent ==> o.db == db.(usages := db.usages - {id})
  {
    if id !in db.usages then Outcome(NotFound, db)
    else Outcome(NoContent, db.(usages := db.usages - {id}))
  }

  // Properties of the list action

  /** With startDate = endDate = D the listing is exactly the records of day D. */
  lemma SingleDayListing(db: Db, day: Ticks, u: SubstanceUsage)
    requires day + DayTicks <= MaxTicks
    ensures List(db, Some(day), Some(day), None, None).Ok?
    ensures u in List(db, Some(day), Some(day), None, None).value <==>
      u in db.usages.Values && day <= u.usageDate < day + DayTicks
  {
  }

  /** A record at 23:59 on the end date is listed; one at 00:00 the next day is not. */
  lemma EndOfDayBoundary(db: Db, day: Ticks, late: SubstanceUsage, next: SubstanceUsage)
    requires day + DayTicks <= MaxTicks
    requires late in db.usages.Values && late.usageDate == day + DayTicks - TicksPerMinute
    requires next.usageDate == day + DayTicks
    ensures late in List(db, Some(day), Some(day), None, None).value
    ensures next !in List(db, Some(day), Some(day), None, None).value
  {
    SingleDayListing(db, day, late);
    SingleDayListing(db, day, next);
  }

  /** Filtering by category goes through the referenced type. Under the invariants it
      keeps exactly the records whose type lies in that category. */
  lemma CategoryFilterThroughType(db: Db, categoryId: int, u: SubstanceUsage)
    requires Valid(db)
    ensures List(db, None, None, None, Some(categoryId)).Ok?
    ensures u in List(db, None, None, None, Some(categoryId)).value <==>
      u in db.usages.Values && db.types[u.substanceTypeId].categoryId == categoryId
  {
    if u in db.usages.Values {
      Query.ValueHasKey(db.usages, u);
    }
  }

  // Properties of the transitions

  /** Under the invariants every stored record has its type and that type's category. */
  lemma ParentsAlwaysLoaded(db: Db, id: int)
    requires Valid(db) && id in db.usages
    ensures TypeOf(db, db.usages[id]) == Some(db.types[db.usages[id].substanceTypeId])
    ensures SubstanceTypes.CategoryOf(db, TypeOf(db, db.usages[id]).value)
      == Some(db.categories[db.types[db.usages[id].substanceTypeId].categoryId])
  {
  }

  lemma PostPreservesValid(db: Db, body: SubstanceUsage, freshId: int, now: Ticks)
    requires Valid(db) && freshId !in db.usages
    ensures Valid(Post(db, body, freshId, now).db)
  {
  }

  /** Round trip: the created record reads back as submitted, with the assigned id and
      the default date replaced by `now`. */
  lemma PostThenGet(db: Db, body: SubstanceUsage, freshId: int, now: Ticks)
    requires freshId !in db.usages
    requires Post(db, body, freshId, now).response.Created?
    ensures Get(Post(db, body, freshId, now).db, freshId).Ok?
    ensures var u := Get(Post(db, body, freshId, now).db, freshId).value;
      && u.id == freshId
      && u.substanceTypeId == body.substanceTypeId && u.amount == body.amount
      && u.unit == body.unit && u.notes == body.notes
      && (body.usageDate == DefaultDate ==> u.usageDate == now)
      && (body.usageDate != DefaultDate ==> u.usageDate == body.usageDate)
  {
  }

  /** A zero amount is refused; the store is left as it was. */
  lemma ZeroAmountRejected(db: Db, body: SubstanceUsage, freshId: int, now: Ticks)
    requires freshId !in db.usages && body.amount == 0
    ensures Post(db, body, freshId, now) == Outcome(BadRequest, db)
  {
  }

  lemma PutPreservesValid(db: Db, id: int, body: SubstanceUsage)
    requires Valid(db)
    ensures Valid(Put(db, id, body).db)
  {
  }

  lemma DeletePreservesValid(db: Db, id: int)
    requires Valid(db)
    ensures Valid(Delete(db, id).db)
  {
  }

  /** Deleting a type that a usage still uses is refused, and the record keeps its type. */
  lemma TypeDeleteKeepsUsagesAttached(db: Db, id: int)
    requires Valid(db) && id in db.usages
    ensures SubstanceTypes.Delete(db, db.usages[id].substanceTypeId) == Outcome(BadRequest, db)
  {
  }
}
