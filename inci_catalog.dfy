/**
 * The ingredient record (`InciEntity`) and the catalog the commands work on: the
 * Shopware entity repository, reduced to an in-memory map from id to record with
 * exact-match search.
 */
module InciCatalog {
  import opened Wrappers
  import opened PhpString
  import opened Json

  /** A record's primary key (a hex UUID). */
  type Id = Bytes

  /** The entity's fields; as on the entity class, every one of them may be null. */
  datatype Inci = Inci(
    name: Option<Bytes>,
    slug: Option<Bytes>,
    alternativeNames: Option<Bytes>,
    casNumber: Option<Bytes>,
    polishName: Option<Bytes>,
    description: Option<Bytes>,
    mainFunctions: Option<Bytes>,
    safetyInformation: Option<Bytes>,
    rating: Option<int>,
    resources: Option<Bytes>,
    natural: Option<bool>,
    active: Option<bool>)

  /** The fields a content-generation update may write. */
  datatype Field =
    | Description | MainFunctions | SafetyInformation | Rating
    | AlternativeNames | CasNumber | PolishName | Resources | Natural

  function TextValue(v: Option<Bytes>): Value {
    if v.Some? then JString(v.value) else JNull
  }

  /** The stored value of an updatable field, as the JSON value that would write it. */
  function Get(r: Inci, f: Field): Value {
    match f
    case Description => TextValue(r.description)
    case MainFunctions => TextValue(r.mainFunctions)
    case SafetyInformation => TextValue(r.safetyInformation)
    case AlternativeNames => TextValue(r.alternativeNames)
    case CasNumber => TextValue(r.casNumber)
    case PolishName => TextValue(r.polishName)
    case Resources => TextValue(r.resources)
    case Rating => if r.rating.Some? then JInt(r.rating.value) else JNull
    case Natural => if r.natural.Some? then JBool(r.natural.value) else JNull
  }

  /** The field's type accepts the value: text fields take strings, rating an int, natural a bool. */
  predicate Fits(f: Field, v: Value) {
    match f
    case Rating => v.JInt?
    case Natural => v.JBool?
    case _ => v.JString?
  }

  function SetText(u: map<Field, Value>, f: Field, current: Option<Bytes>): Option<Bytes>
    requires f in u ==> u[f].JString?
  {
    if f in u then Some(u[f].s) else current
  }

  /**
   * A partial update (`update([$updates])`): the fields named in `u` take their
   * new values and every other field keeps its stored value. A value the field's
   * type does not accept makes the write fail as a whole (`None`).
   */
  function ApplyUpdates(r: Inci, u: map<Field, Value>): (r': Option<Inci>)
    ensures r'.Some? <==> forall f :: f in u ==> Fits(f, u[f])
    ensures r'.Some? ==> forall f :: Get(r'.value, f) == if f in u then u[f] else Get(r, f)
    ensures r'.Some? ==> r'.value.name == r.name && r'.value.slug == r.slug && r'.value.active == r.active
  {
    if forall f :: f in u ==> Fits(f, u[f]) then
      Some(r.(
        description := SetText(u, Description, r.description),
        mainFunctions := SetText(u, MainFunctions, r.mainFunctions),
        safetyInformation := SetText(u, SafetyInformation, r.safetyInformation),
        alternativeNames := SetText(u, AlternativeNames, r.alternativeNames),
        casNumber := SetText(u, CasNumber, r.casNumber),
        polishName := SetText(u, PolishName, r.polishName),
        resources := SetText(u, Resources, r.resources),
        rating := if Rating in u then Some(u[Rating].i) else r.rating,
        natural := if Natural in u then Some(u[Natural].b) else r.natural))
    else
      None
  }

  // ---------------------------------------------------------------------------
  // Searches (Criteria with EqualsFilter, compared exactly)
  // ---------------------------------------------------------------------------

  /** Some record has this slug (`ingredientExists`: the search total is above 0). */
  predicate SlugTaken(records: map<Id, Inci>, slug: Bytes) {
    exists id :: id in records && records[id].slug == Some(slug)
  }

  predicate NameTaken(records: map<Id, Inci>, name: Bytes) {
    exists id :: id in records && records[id].name == Some(name)
  }

  /**
   * `findIngredient`: the first record whose name equals `name`, or null. The
   * search result's order is not specified, so any matching record may be the first.
   */
  method FindByName(records: map<Id, Inci>, name: Bytes) returns (found: Option<Id>)
    ensures found.Some? ==> found.value in records && records[found.value].name == Some(name)
    ensures found.None? <==> !NameTaken(records, name)
  {
    if NameTaken(records, name) {
      var id :| id in records && records[id].name == Some(name);
      found := Some(id);
    } else {
      found := None;
    }
  }

  /** An unfiltered search: every record once, in an unspecified order. */
  method ListIds(records: map<Id, Inci>) returns (ids: seq<Id>)
    ensures |ids| == |records|
    ensures forall id :: id in records <==> id in ids
    ensures forall i, j :: 0 <= i < j < |ids| ==> ids[i] != ids[j]
  {
    ids := [];
    var rest := records.Keys;
    while rest != {}
      invariant rest <= records.Keys
      invariant forall id :: id in records <==> id in ids || id in rest
      invariant forall i :: 0 <= i < |ids| ==> ids[i] !in rest
      invariant forall i, j :: 0 <= i < j < |ids| ==> ids[i] != ids[j]
      invariant |ids| + |rest| == |records|
      decreases |rest|
    {
      var id :| id in rest;
      ids := ids + [id];
      rest := rest - {id};
    }
  }

  // ---------------------------------------------------------------------------
  // The repository
  // ---------------------------------------------------------------------------

  /** A write the repository was asked to perform. */
  datatype Write =
    | Created(id: Id, record: Inci)
    | Updated(id: Id, changes: map<Field, Value>)
    | Deleted(ids: seq<Id>)

  /** The entity repository: the stored records and the log of writes sent to it. */
  class Repository {
    var records: map<Id, Inci>
    ghost var writes: seq<Write>

    constructor (initial: map<Id, Inci>)
      ensures records == initial && writes == []
    {
      records := initial;
      writes := [];
    }

    /** `create([...])` of one record under a fresh id. */
    method Create(id: Id, record: Inci)
      requires id !in records
      modifies this
      ensures records == old(records)[id := record]
      ensures writes == old(writes) + [Created(id, record)]
    {
      records := records[id := record];
      writes := writes + [Created(id, record)];
    }

    /** `update([$changes])` of an existing record; `ok` is false when the write is rejected. */
    method Update(id: Id, changes: map<Field, Value>) returns (ok: bool)
      requires id in records
      modifies this
      ensures ok == ApplyUpdates(old(records)[id], changes).Some?
      ensures ok ==> records == old(records)[id := ApplyUpdates(old(records)[id], changes).value]
      ensures !ok ==> records == old(records)
      ensures writes == old(writes) + [Updated(id, changes)]
    {
      var updated := ApplyUpdates(records[id], changes);
      ok := updated.Some?;
      if ok {
        records := records[id := updated.value];
      }
      writes := writes + [Updated(id, changes)];
    }

    /** `delete([...])` of the given ids; ids that are not stored are ignored. */
    method Delete(ids: seq<Id>)
      modifies this
      ensures records.Keys == old(records).Keys - set i | i in ids
      ensures forall id :: id in records ==> records[id] == old(records)[id]
      ensures writes == old(writes) + [Deleted(ids)]
    {
      records := map id | id in records && id !in ids :: records[id];
      writes := writes + [Deleted(ids)];
    }
  }
}
