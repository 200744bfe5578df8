/** The three controllers over one SubstancesDbContext: the tables are fields that
    the endpoints update in place, after the same guards as the transition functions
    in Categories, SubstanceTypes and Usages. */
module Store {
  import opened Common
  import opened Text
  import opened Schema
  import Categories
  import SubstanceTypes
  import Usages

  class SubstanceStore {
    var categories: map<int, SubstanceCategory>
    var types: map<int, SubstanceType>
    var usages: map<int, SubstanceUsage>
    /** The next value of each table's identity column; ids are never reused. */
    var nextCategoryId: int
    var nextTypeId: int
    var nextUsageId: int

    /** The database as the queries see it. */
    function Snapshot(): Db
      reads this
    {
      Db(categories, types, usages)
    }

    ghost predicate Valid()
      reads this
    {
      && Schema.Valid(Snapshot())
      && (forall k :: k in categories ==> k < nextCategoryId)
      && (forall k :: k in types ==> k < nextTypeId)
      && (forall k :: k in usages ==> k < nextUsageId)
    }

    /** A fresh database: empty tables, identities seeded at 1. */
    constructor ()
      ensures Valid() && Snapshot() == Empty
      ensures nextCategoryId == 1 && nextTypeId == 1 && nextUsageId == 1
    {
      categories, types, usages := map[], map[], map[];
      nextCategoryId, nextTypeId, nextUsageId := 1, 1, 1;
      EmptyIsValid();
    }

    // SubstanceCategoriesController

    method GetSubstanceCategories() returns (r: seq<SubstanceCategory>)
      ensures r == Categories.List(Snapshot())
    {
      r := Categories.List(Snapshot());
    }

    method GetSubstanceCategory(id: int) returns (r: Response<SubstanceCategory>)
      ensures r == Categories.Get(Snapshot(), id)
    {
      if id !in categories {
        return NotFound;
      }
      return Ok(categories[id]);
    }

    method PutSubstanceCategory(id: int, body: SubstanceCategory) returns (r: Response<SubstanceCategory>)
      requires Valid()
      modifies this
      ensures Valid()
      ensures Outcome(r, Snapshot()) == Categories.Put(old(Snapshot()), id, body)
      ensures nextCategoryId == old(nextCategoryId) && nextTypeId == old(nextTypeId)
      ensures nextUsageId == old(nextUsageId)
    {
      if id != body.id {
        return BadRequest;
      }
      if IsNullOrWhiteSpace(body.name) {
        return BadRequest;
      }
      if Categories.NameUsedByOther(Snapshot(), body.name, id) {
        return Conflict;
      }
      if id !in categories {
        // the UPDATE matched no row: DbUpdateConcurrencyException, and the row is gone
        return NotFound;
      }
      categories := categories[id := body];
      Categories.PutPreservesValid(old(Snapshot()), id, body);
      return NoContent;
    }

    method PostSubstanceCategory(body: SubstanceCategory) returns (r: Response<SubstanceCategory>)
      requires Valid()
      modifies this
      ensures Valid()
      ensures Outcome(r, Snapshot()) == Categories.Post(old(Snapshot()), body, old(nextCategoryId))
      ensures nextCategoryId == if r.Created? then old(nextCategoryId) + 1 else old(nextCategoryId)
      ensures nextTypeId == old(nextTypeId) && nextUsageId == old(nextUsageId)
    {
      if IsNullOrWhiteSpace(body.name) {
        return BadRequest;
      }
      if Categories.NameInUse(Snapshot(), body.name) {
        return Conflict;
      }
      var c := body.(id := nextCategoryId);
      categories := categories[c.id := c];
      nextCategoryId := nextCategoryId + 1;
      Categories.PostPreservesValid(old(Snapshot()), body, c.id);
      return Created(c.id);
    }

    method DeleteSubstanceCategory(id: int) returns (r: Response<SubstanceCategory>)
      requires Valid()
      modifies this
      ensures Valid()
      ensures Outcome(r, Snapshot()) == Categories.Delete(old(Snapshot()), id)
      ensures nextCategoryId == old(nextCategoryId) && nextTypeId == old(nextTypeId)
      ensures nextUsageId == old(nextUsageId)
    {
      if id !in categories {
        return NotFound;
      }
      if exists k :: k in types && types[k].categoryId == id {
        return BadRequest;
      }
      categories := categories - {id};
      Categories.DeletePreservesValid(old(Snapshot()), id);
      return NoContent;
    }

    // SubstanceTypesController

    method GetSubstanceTypes(categoryId: Option<int>) returns (r: seq<SubstanceType>)
      ensures r == SubstanceTypes.List(Snapshot(), categoryId)
    {
      r := SubstanceTypes.List(Snapshot(), categoryId);
    }

    method GetSubstanceType(id: int) returns (r: Response<SubstanceType>)
      ensures r == SubstanceTypes.Get(Snapshot(), id)
    {
      if id !in types {
        return NotFound;
      }
      return Ok(types[id]);
    }

    method PutSubstanceType(id: int, body: SubstanceType) returns (r: Response<SubstanceType>)
      requires Valid()
      modifies this
      ensures Valid()
      ensures Outcome(r, Snapshot()) == SubstanceTypes.Put(old(Snapshot()), id, body)
      ensures nextCategoryId == old(nextCategoryId) && nextTypeId == old(nextTypeId)
      ensures nextUsageId == old(nextUsageId)
    {
      if id != body.id {
        return BadRequest;
      }
      if IsNullOrWhiteSpace(body.name) {
        return BadRequest;
      }
      if body.categoryId !in categories {
        return BadRequest;
      }
      if SubstanceTypes.PairUsedByOther(Snapshot(), body.name, body.categoryId, id) {
        return Conflict;
      }
      if id !in types {
        return NotFound;
      }
      types := types[id := body];
      SubstanceTypes.PutPreservesValid(old(Snapshot()), id, body);
      return NoContent;
    }

    method PostSubstanceType(body: SubstanceType) returns (r: Response<SubstanceType>)
      requires Valid()
      modifies this
      ensures Valid()
      ensures Outcome(r, Snapshot()) == SubstanceTypes.Post(old(Snapshot()), body, old(nextTypeId))
      ensures nextTypeId == if r.Created? then old(nextTypeId) + 1 else old(nextTypeId)
      ensures nextCategoryId == old(nextCategoryId) && nextUsageId == old(nextUsageId)
    {
      if IsNullOrWhiteSpace(body.name) {
        return BadRequest;
      }
      if body.categoryId !in categories {
        return BadRequest;
      }
      if SubstanceTypes.PairInUse(Snapshot(), body.name, body.categoryId) {
        return Conflict;
      }
      var t := body.(id := nextTypeId);
      types := types[t.id := t];
      nextTypeId := nextTypeId + 1;
      SubstanceTypes.PostPreservesValid(old(Snapshot()), body, t.id);
      return Created(t.id);
    }

    method DeleteSubstanceType(id: int) returns (r: Response<SubstanceType>)
      requires Valid()
      modifies this
      ensures Valid()
      ensures Outcome(r, Snapshot()) == SubstanceTypes.Delete(old(Snapshot()), id)
      ensures nextCategoryId == old(nextCategoryId) && nextTypeId == old(nextTypeId)
      ensures nextUsageId == old(nextUsageId)
    {
      if id !in types {
        return NotFound;
      }
      if exists k :: k in usages && usages[k].substanceTypeId == id {
        return BadRequest;
      }
      types := types - {id};
      SubstanceTypes.DeletePreservesValid(old(Snapshot()), id);
      return NoContent;
    }

    // SubstanceUsagesController

    method GetSubstanceUsages(startDate: Option<Ticks>, endDate: Option<Ticks>,
                              substanceTypeId: Option<int>, categoryId: Option<int>)
      returns (r: Response<seq<SubstanceUsage>>)
      ensures r == Usages.List(Snapshot(), startDate, endDate, substanceTypeId, categoryId)
    {
      r := Usages.List(Snapshot(), startDate, endDate, substanceTypeId, categoryId);
    }

    method GetSubstanceUsage(id: int) returns (r: Response<SubstanceUsage>)
      ensures r == Usages.Get(Snapshot(), id)
    {
      if id !in usages {
        return NotFound;
      }
      return Ok(usages[id]);
    }

    method PutSubstanceUsage(id: int, body: SubstanceUsage) returns (r: Response<SubstanceUsage>)
      requires Valid()
      modifies this
      ensures Valid()
      ensures Outcome(r, Snapshot()) == Usages.Put(old(Snapshot()), id, body)
      ensures nextCategoryId == old(nextCategoryId) && nextTypeId == old(nextTypeId)
      ensures nextUsageId == old(nextUsageId)
    {
      if id != body.id {
        return BadRequest;
      }
      if body.substanceTypeId !in types {
        return BadRequest;
      }
      if body.amount <= 0 {
        return BadRequest;
      }
      if IsNullOrWhiteSpace(body.unit) {
        return BadRequest;
      }
      if id !in usages {
        return NotFound;
      }
      usages := usages[id := body];
      Usages.PutPreservesValid(old(Snapshot()), id, body);
      return NoContent;
    }

    /** `now` stands for DateTime.UtcNow at the time of the request. */
    method PostSubstanceUsage(body: SubstanceUsage, now: Ticks) returns (r: Response<SubstanceUsage>)
      requires Valid()
      modifies this
      ensures Valid()
      ensures Outcome(r, Snapshot()) == Usages.Post(old(Snapshot()), body, old(nextUsageId), now)
      ensures nextUsageId == if r.Created? then old(nextUsageId) + 1 else old(nextUsageId)
      ensures nextCategoryId == old(nextCategoryId) && nextTypeId == old(nextTypeId)
    {
      if body.substanceTypeId !in types {
        return BadRequest;
      }
      if body.amount <= 0 {
        return BadRequest;
      }
      if IsNullOrWhiteSpace(body.unit) {
        return BadRequest;
      }
      var u := body;
      if u.usageDate == DefaultDate {
        u := u.(usageDate := now);
      }
      u := u.(id := nextUsageId);
      usages := usages[u.id := u];
      nextUsageId := nextUsageId + 1;
      Usages.PostPreservesValid(old(Snapshot()), body, u.id, now);
      return Created(u.id);
    }

    method DeleteSubstanceUsage(id: int) returns (r: Response<SubstanceUsage>)
      requires Valid()
      modifies this
      ensures Valid()
      ensures Outcome(r, Snapshot()) == Usages.Delete(old(Snapshot()), id)
      ensures nextCategoryId == old(nextCategoryId) && nextTypeId == old(nextTypeId)
      ensures nextUsageId == old(nextUsageId)
    {
      if id !in usages {
        return NotFound;
      }
      usages := usages - {id};
      Usages.DeletePreservesValid(old(Snapshot()), id);
      return NoContent;
    }
  }
}
