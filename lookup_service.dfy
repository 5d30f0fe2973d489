/**
 * LookupService (Calorizer.Business/Services/LookupService.cs): reference-data lists,
 * filtered by their category's code and projected to DTOs.
 */
module LookupService {
  import opened Wrappers
  import opened Entities
  import opened Store

  /**
   * A value of the LookupTypes enumeration; LookupTypes.cs is not part of this model, so a
   * value is its underlying integer, which `(int)lookupType` yields.
   */
  datatype LookupType = LookupType(code: int)

  /** The LookupDto built from a stored lookup: Id, NameEn, NameAr and Code copied. */
  function LookupDtoOf(row: Row<Lookup>): LookupDto
  {
    LookupDto(row.id, row.entity.nameEn, row.entity.nameAr, row.entity.code)
  }

  function LookupId(d: LookupDto): int { d.id }

  /**
   * `l.Category.Code == code`: the lookup's category exists and has that code. The query
   * joins to the category table, so a lookup whose category row is missing never matches.
   */
  predicate HasCategoryCode(categories: map<int, LookupCategory>, l: Lookup, code: int)
  {
    l.categoryId in categories && categories[l.categoryId].code == code
  }

  class LookupService {
    const lookups: Repository<Lookup>
    const categories: Repository<LookupCategory>

    ghost predicate Valid()
      reads this, lookups, categories
    {
      lookups.Valid() && categories.Valid()
    }

    constructor (lookups: Repository<Lookup>, categories: Repository<LookupCategory>)
      ensures this.lookups == lookups && this.categories == categories
    {
      this.lookups := lookups;
      this.categories := categories;
    }

    /** `GetLookupItemsByCategoryId(code)`: exactly the lookups of the categories with that code, in key order. */
    function GetLookupItemsByCategoryId(code: int): (r: seq<LookupDto>)
      requires Valid()
      reads this, lookups, categories
      ensures forall d | d in r ::
        && d.id in lookups.rows && HasCategoryCode(categories.rows, lookups.rows[d.id], code)
        && d == LookupDtoOf(Row(d.id, lookups.rows[d.id]))
      ensures forall id | id in lookups.rows && HasCategoryCode(categories.rows, lookups.rows[id], code) ::
        LookupDtoOf(Row(id, lookups.rows[id])) in r
      ensures forall i, j | 0 <= i < j < |r| :: r[i].id < r[j].id
    {
      var table := categories.rows;
      var matches := (l: Lookup) => HasCategoryCode(table, l, code);
      ProjectedFind(lookups, matches, LookupDtoOf, LookupId);
      Project(lookups.Find(matches), LookupDtoOf)
    }

    /** `GetLookupItems(lookupType)`: the lookups of the category whose code is the enumeration value. */
    function GetLookupItems(lookupType: LookupType): (r: seq<LookupDto>)
      requires Valid()
      reads this, lookups, categories
      ensures r == GetLookupItemsByCategoryId(lookupType.code)
    {
      GetLookupItemsByCategoryId(lookupType.code)
    }

    /** `GetLookupById(id)`: null when no lookup has that id, its DTO otherwise. */
    function GetLookupById(id: int): (r: Option<LookupDto>)
      reads this, lookups
      ensures r.None? <==> id !in lookups.rows
      ensures r.Some? ==> var l := lookups.rows[id];
        r.value.id == id && r.value.nameEn == l.nameEn && r.value.nameAr == l.nameAr && r.value.code == l.code
    {
      match lookups.GetById(id)
      case None => None
      case Some(l) => Some(LookupDtoOf(Row(id, l)))
    }
  }

  /** A lookup listed for a code is one `GetLookupById` returns the same DTO for. */
  lemma ListedLookupsAreFoundById(service: LookupService, code: int)
    requires service.Valid()
    ensures forall d | d in service.GetLookupItemsByCategoryId(code) :: service.GetLookupById(d.id) == Some(d)
  {
  }
}
