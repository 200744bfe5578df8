/** The three tables of SubstancesDbContext and the integrity rules that the controllers'
    checks keep, for request bodies taken as their scalar fields. */
module Schema {
  import opened Common
  import opened Text

  datatype SubstanceCategory = SubstanceCategory(id: int, name: string)

  datatype SubstanceType = SubstanceType(
    id: int,
    name: string,
    defaultUnit: Option<string>,
    categoryId: int)

  /** A usage record as the controllers use it (SubstanceTypeId, UsageDate, Notes,
      Amount, Unit). */
  datatype SubstanceUsage = SubstanceUsage(
    id: int,
    substanceTypeId: int,
    usageDate: Ticks,
    notes: Option<string>,
    amount: int,
    unit: string)

  /** The database: each table maps the primary key Id to its row. */
  datatype Db = Db(
    categories: map<int, SubstanceCategory>,
    types: map<int, SubstanceType>,
    usages: map<int, SubstanceUsage>)

  /** What an endpoint answers and the database after it. */
  datatype Outcome<T> = Outcome(response: Response<T>, db: Db)

  const Empty: Db := Db(map[], map[], map[])

  /** Every row is stored under its own Id. */
  ghost predicate KeysAreIds(db: Db) {
    && (forall k :: k in db.categories ==> db.categories[k].id == k)
    && (forall k :: k in db.types ==> db.types[k].id == k)
    && (forall k :: k in db.usages ==> db.usages[k].id == k)
  }

  /** The unique index on SubstanceCategory.Name. */
  ghost predicate UniqueCategoryNames(db: Db) {
    forall a, b ::
      a in db.categories && b in db.categories && db.categories[a].name == db.categories[b].name
      ==> a == b
  }

  /** The unique index on (SubstanceType.CategoryId, SubstanceType.Name). */
  ghost predicate UniqueTypeNames(db: Db) {
    forall a, b ::
      && a in db.types && b in db.types
      && db.types[a].name == db.types[b].name
      && db.types[a].categoryId == db.types[b].categoryId
      ==> a == b
  }

  /** Every type belongs to a stored category and every usage to a stored type. */
  ghost predicate ReferencesResolve(db: Db) {
    && (forall k :: k in db.types ==> db.types[k].categoryId in db.categories)
    && (forall k :: k in db.usages ==> db.usages[k].substanceTypeId in db.types)
  }

  /** The value checks the controllers make before every write. */
  ghost predicate FieldsChecked(db: Db) {
    && (forall k :: k in db.categories ==> !IsNullOrWhiteSpace(db.categories[k].name))
    && (forall k :: k in db.types ==> !IsNullOrWhiteSpace(db.types[k].name))
    && (forall k :: k in db.usages ==> db.usages[k].amount > 0 && !IsNullOrWhiteSpace(db.usages[k].unit))
  }

  ghost predicate Valid(db: Db) {
    && KeysAreIds(db)
    && UniqueCategoryNames(db)
    && UniqueTypeNames(db)
    && ReferencesResolve(db)
    && FieldsChecked(db)
  }

  lemma EmptyIsValid()
    ensures Valid(Empty)
  {
  }
}
