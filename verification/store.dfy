/** The relational store both loaders write to: seven tables of records, the
    database's own constraints (primary keys, UNIQUE kod, foreign keys), the
    generic queries the loaders issue, and a `Database` object whose tables the
    loaders update in place. Serial ids come from one counter that DELETE never
    resets. */
module Store {
  import opened Base

  /** A row of a table with a SERIAL primary key. */
  datatype Row<V> = Row(id: nat, val: V)

  datatype Province = Province(code: string, name: string, validDate: Date)
  datatype County = County(code: string, provinceId: nat, name: string, validDate: Date)
  datatype Parish = Parish(code: string, countyId: nat, name: string, parishType: nat, unitType: string, validDate: Date)
  /** A city's key is its own SYM code; `primaryCityId` is a plain string, not a foreign key. */
  datatype City = City(id: string, parishId: nat, name: string, primaryCityId: string, validDate: Date)
  datatype Street = Street(nameId: string, cityId: string, name1: string, name2: Option<string>,
                           streetType: string, validDate: Date)
  datatype PostalCode = PostalCode(code: string)
  datatype ParishPostalCode = ParishPostalCode(parishId: nat, postalCodeId: nat)

  datatype Tables = Tables(
    provinces: seq<Row<Province>>,
    counties: seq<Row<County>>,
    parishes: seq<Row<Parish>>,
    cities: seq<City>,
    streets: seq<Row<Street>>,
    postalCodes: seq<Row<PostalCode>>,
    links: seq<Row<ParishPostalCode>>,
    nextId: nat)

  datatype TableName = Streets | ParishPostalCodes | PostalCodes | Cities | Parishes | Counties | Provinces

  ghost function Ids<V>(rows: seq<Row<V>>): set<nat>
  {
    set r | r in rows :: r.id
  }

  ghost function CityIds(cities: seq<City>): set<string>
  {
    set c | c in cities :: c.id
  }

  /** SERIAL ids: increasing in insertion order (so distinct) and below the next value. */
  ghost predicate SerialIds<V>(rows: seq<Row<V>>, next: nat)
  {
    && (forall i, j :: 0 <= i < j < |rows| ==> rows[i].id < rows[j].id)
    && (forall i :: 0 <= i < |rows| ==> rows[i].id < next)
  }

  ghost predicate DistinctCityIds(cities: seq<City>)
  {
    forall i, j :: 0 <= i < j < |cities| ==> cities[i].id != cities[j].id
  }

  /** `kod_pocztowy.kod` is UNIQUE (and PostalCode.code is unique=True). */
  ghost predicate DistinctPostalCodes(codes: seq<Row<PostalCode>>)
  {
    forall i, j :: 0 <= i < j < |codes| ==> codes[i].val.code != codes[j].val.code
  }

  ghost predicate KeysHold(t: Tables)
  {
    && SerialIds(t.provinces, t.nextId)
    && SerialIds(t.counties, t.nextId)
    && SerialIds(t.parishes, t.nextId)
    && SerialIds(t.streets, t.nextId)
    && SerialIds(t.postalCodes, t.nextId)
    && SerialIds(t.links, t.nextId)
    && DistinctCityIds(t.cities)
    && DistinctPostalCodes(t.postalCodes)
  }

  /** Referential integrity: every foreign key names an existing row. */
  ghost predicate ReferencesHold(t: Tables)
  {
    && (forall c :: c in t.counties ==> c.val.provinceId in Ids(t.provinces))
    && (forall p :: p in t.parishes ==> p.val.countyId in Ids(t.counties))
    && (forall c :: c in t.cities ==> c.parishId in Ids(t.parishes))
    && (forall s :: s in t.streets ==> s.val.cityId in CityIds(t.cities))
    && (forall l :: l in t.links ==> l.val.parishId in Ids(t.parishes) && l.val.postalCodeId in Ids(t.postalCodes))
  }

  ghost predicate Consistent(t: Tables)
  {
    KeysHold(t) && ReferencesHold(t)
  }

  /** The rows of `t` with the SERIAL counter at `counter` when that is further on: a
      ROLLBACK undoes a transaction's rows but never a sequence's advance. */
  function RolledBack(t: Tables, counter: nat): (r: Tables)
    ensures r.nextId >= t.nextId && r.nextId >= counter
    ensures r.nextId == t.nextId || r.nextId == counter
    ensures r.(nextId := t.nextId) == t
  {
    t.(nextId := if counter > t.nextId then counter else t.nextId)
  }

  /** A counter moved forward keeps every id below it, so a rollback keeps consistency. */
  lemma RolledBackConsistent(t: Tables, counter: nat)
    requires Consistent(t)
    ensures Consistent(RolledBack(t, counter))
  {
  }

  function EmptyTables(nextId: nat): Tables
  {
    Tables([], [], [], [], [], [], [], nextId)
  }

  /** Deleting every row of `name` and nothing else: what a delete does when no other row
      references the table. */
  function Cleared(t: Tables, name: TableName): Tables
  {
    match name
    case Streets => t.(streets := [])
    case ParishPostalCodes => t.(links := [])
    case PostalCodes => t.(postalCodes := [])
    case Cities => t.(cities := [])
    case Parishes => t.(parishes := [])
    case Counties => t.(counties := [])
    case Provinces => t.(provinces := [])
  }

  function ClearedInOrder(t: Tables, order: seq<TableName>): Tables
    decreases |order|
  {
    if order == [] then t else ClearedInOrder(Cleared(t, order[0]), order[1..])
  }

  /** The table `name` of `t` holds no row. */
  predicate IsEmpty(t: Tables, name: TableName)
  {
    match name
    case Streets => t.streets == []
    case ParishPostalCodes => t.links == []
    case PostalCodes => t.postalCodes == []
    case Cities => t.cities == []
    case Parishes => t.parishes == []
    case Counties => t.counties == []
    case Provinces => t.provinces == []
  }

  /** Clearing every table, in any order, leaves only the id counter behind. */
  lemma ClearedEveryTable(t: Tables, order: seq<TableName>)
    requires forall n: TableName :: n in order
    ensures ClearedInOrder(t, order) == EmptyTables(t.nextId)
  {
    forall n: TableName ensures IsEmpty(ClearedInOrder(t, order), n) {
      ClearedKeepsEmpty(t, order, n);
    }
    var u := ClearedInOrder(t, order);
    ClearedKeepsEmpty(t, order, Streets);
    assert IsEmpty(u, Streets) && IsEmpty(u, ParishPostalCodes) && IsEmpty(u, PostalCodes) && IsEmpty(u, Cities);
    assert IsEmpty(u, Parishes) && IsEmpty(u, Counties) && IsEmpty(u, Provinces);
  }

  /** A table that is cleared, or already empty, stays empty while the others are cleared. */
  lemma {:induction false} ClearedKeepsEmpty(t: Tables, order: seq<TableName>, name: TableName)
    ensures ClearedInOrder(t, order).nextId == t.nextId
    ensures name in order || IsEmpty(t, name) ==> IsEmpty(ClearedInOrder(t, order), name)
    decreases |order|
  {
    if order != [] {
      ClearedKeepsEmpty(Cleared(t, order[0]), order[1..], name);
      if name in order && name != order[0] {
        assert name in order[1..];
      }
    }
  }

  /** Every table holding a foreign key into `name` is empty. */
  predicate ReferrersEmpty(t: Tables, name: TableName)
  {
    match name
    case Streets => true
    case ParishPostalCodes => true
    case PostalCodes => t.links == []
    case Cities => t.streets == []
    case Parishes => t.cities == [] && t.links == []
    case Counties => t.parishes == []
    case Provinces => t.counties == []
  }

  /** Deleting a table whose referrers are already empty leaves no dangling reference. */
  lemma ClearedConsistent(t: Tables, name: TableName)
    requires Consistent(t) && ReferrersEmpty(t, name)
    ensures Consistent(Cleared(t, name))
  {
  }

  lemma {:induction false} ClearedInOrderSnoc(t: Tables, order: seq<TableName>, name: TableName)
    ensures ClearedInOrder(t, order + [name]) == Cleared(ClearedInOrder(t, order), name)
    decreases |order|
  {
    if order != [] {
      assert (order + [name])[1..] == order[1..] + [name];
      ClearedInOrderSnoc(Cleared(t, order[0]), order[1..], name);
    }
  }

  lemma EmptyIsConsistent(nextId: nat)
    ensures Consistent(EmptyTables(nextId))
  {
  }

  /** Deleting every row of `name` under ON DELETE CASCADE (declared by both schemas). In a
      consistent database every row of a table that references `name`, directly or through
      another table, points at a deleted row, so each such table is emptied as well. */
  function Cascaded(t: Tables, name: TableName): Tables
  {
    match name
    case Streets => t.(streets := [])
    case ParishPostalCodes => t.(links := [])
    case PostalCodes => t.(postalCodes := [], links := [])
    case Cities => t.(cities := [], streets := [])
    case Parishes => t.(parishes := [], cities := [], streets := [], links := [])
    case Counties => t.(counties := [], parishes := [], cities := [], streets := [], links := [])
    case Provinces => t.(provinces := [], counties := [], parishes := [], cities := [], streets := [], links := [])
  }

  function CascadedInOrder(t: Tables, order: seq<TableName>): Tables
    decreases |order|
  {
    if order == [] then t else CascadedInOrder(Cascaded(t, order[0]), order[1..])
  }

  /** A cascading delete always leaves a consistent database consistent. */
  lemma CascadedConsistent(t: Tables, name: TableName)
    requires Consistent(t)
    ensures Consistent(Cascaded(t, name))
    ensures Cascaded(t, name).nextId == t.nextId
  {
  }

  /** When the direct referrers of `name` are already empty, the cascade deletes nothing
      beyond the table itself. */
  lemma CascadeNotNeeded(t: Tables, name: TableName)
    requires Consistent(t) && ReferrersEmpty(t, name)
    ensures Cascaded(t, name) == Cleared(t, name)
  {
    if t.parishes != [] {
      assert t.parishes[0] in t.parishes;
    }
    if t.cities != [] {
      assert t.cities[0] in t.cities;
    }
    if t.links != [] {
      assert t.links[0] in t.links;
    }
    if t.streets != [] {
      assert t.streets[0] in t.streets;
    }
  }

  /** Cascading deletes of every table, in any order, leave only the id counter behind. */
  lemma CascadedEveryTable(t: Tables, order: seq<TableName>)
    requires forall n: TableName :: n in order
    ensures CascadedInOrder(t, order) == EmptyTables(t.nextId)
  {
    forall n: TableName ensures IsEmpty(CascadedInOrder(t, order), n) {
      CascadedKeepsEmpty(t, order, n);
    }
    var u := CascadedInOrder(t, order);
    CascadedKeepsEmpty(t, order, Streets);
    assert IsEmpty(u, Streets) && IsEmpty(u, ParishPostalCodes) && IsEmpty(u, PostalCodes) && IsEmpty(u, Cities);
    assert IsEmpty(u, Parishes) && IsEmpty(u, Counties) && IsEmpty(u, Provinces);
  }

  lemma {:induction false} CascadedKeepsEmpty(t: Tables, order: seq<TableName>, name: TableName)
    ensures CascadedInOrder(t, order).nextId == t.nextId
    ensures name in order || IsEmpty(t, name) ==> IsEmpty(CascadedInOrder(t, order), name)
    decreases |order|
  {
    if order != [] {
      CascadedKeepsEmpty(Cascaded(t, order[0]), order[1..], name);
      if name in order && name != order[0] {
        assert name in order[1..];
      }
    }
  }

  lemma {:induction false} CascadedInOrderSnoc(t: Tables, order: seq<TableName>, name: TableName)
    ensures CascadedInOrder(t, order + [name]) == Cascaded(CascadedInOrder(t, order), name)
    decreases |order|
  {
    if order != [] {
      assert (order + [name])[1..] == order[1..] + [name];
      CascadedInOrderSnoc(Cascaded(t, order[0]), order[1..], name);
    }
  }

  // ---- appends -------------------------------------------------------------

  function WithProvince(t: Tables, p: Province): Tables
  {
    t.(provinces := t.provinces + [Row(t.nextId, p)], nextId := t.nextId + 1)
  }

  function WithCounty(t: Tables, c: County): Tables
  {
    t.(counties := t.counties + [Row(t.nextId, c)], nextId := t.nextId + 1)
  }

  function WithParish(t: Tables, p: Parish): Tables
  {
    t.(parishes := t.parishes + [Row(t.nextId, p)], nextId := t.nextId + 1)
  }

  function WithCity(t: Tables, c: City): Tables
  {
    t.(cities := t.cities + [c])
  }

  function WithStreet(t: Tables, s: Street): Tables
  {
    t.(streets := t.streets + [Row(t.nextId, s)], nextId := t.nextId + 1)
  }

  function WithPostalCode(t: Tables, p: PostalCode): Tables
  {
    t.(postalCodes := t.postalCodes + [Row(t.nextId, p)], nextId := t.nextId + 1)
  }

  function WithLink(t: Tables, l: ParishPostalCode): Tables
  {
    t.(links := t.links + [Row(t.nextId, l)], nextId := t.nextId + 1)
  }

  lemma SerialAppend<V>(rows: seq<Row<V>>, next: nat, v: V)
    requires SerialIds(rows, next)
    ensures SerialIds(rows + [Row(next, v)], next + 1)
    ensures Ids(rows + [Row(next, v)]) == Ids(rows) + {next}
  {
    var rs := rows + [Row(next, v)];
    assert forall r :: r in rs <==> r in rows || r == Row(next, v);
  }

  lemma SerialBump<V>(rows: seq<Row<V>>, next: nat)
    requires SerialIds(rows, next)
    ensures SerialIds(rows, next + 1)
  {
  }

  /** The counter moves on: every serial table stays below it. */
  lemma BumpAll(t: Tables)
    requires KeysHold(t)
    ensures KeysHold(t.(nextId := t.nextId + 1))
  {
    SerialBump(t.provinces, t.nextId);
    SerialBump(t.counties, t.nextId);
    SerialBump(t.parishes, t.nextId);
    SerialBump(t.streets, t.nextId);
    SerialBump(t.postalCodes, t.nextId);
    SerialBump(t.links, t.nextId);
  }

  lemma WithProvinceConsistent(t: Tables, p: Province)
    requires Consistent(t)
    ensures Consistent(WithProvince(t, p))
    ensures Ids(WithProvince(t, p).provinces) == Ids(t.provinces) + {t.nextId}
  {
    BumpAll(t);
    SerialAppend(t.provinces, t.nextId, p);
  }

  lemma WithCountyConsistent(t: Tables, c: County)
    requires Consistent(t) && c.provinceId in Ids(t.provinces)
    ensures Consistent(WithCounty(t, c))
    ensures Ids(WithCounty(t, c).counties) == Ids(t.counties) + {t.nextId}
  {
    BumpAll(t);
    SerialAppend(t.counties, t.nextId, c);
  }

  lemma WithParishConsistent(t: Tables, p: Parish)
    requires Consistent(t) && p.countyId in Ids(t.counties)
    ensures Consistent(WithParish(t, p))
    ensures Ids(WithParish(t, p).parishes) == Ids(t.parishes) + {t.nextId}
  {
    BumpAll(t);
    SerialAppend(t.parishes, t.nextId, p);
  }

  lemma WithCityConsistent(t: Tables, c: City)
    requires Consistent(t) && c.parishId in Ids(t.parishes) && c.id !in CityIds(t.cities)
    ensures Consistent(WithCity(t, c))
    ensures CityIds(WithCity(t, c).cities) == CityIds(t.cities) + {c.id}
  {
    var cs := t.cities + [c];
    assert forall x :: x in cs <==> x in t.cities || x == c;
    forall i, j | 0 <= i < j < |cs| ensures cs[i].id != cs[j].id {
      if j == |t.cities| {
        assert cs[i] in t.cities;
      }
    }
  }

  lemma WithStreetConsistent(t: Tables, s: Street)
    requires Consistent(t) && s.cityId in CityIds(t.cities)
    ensures Consistent(WithStreet(t, s))
  {
    BumpAll(t);
    SerialAppend(t.streets, t.nextId, s);
  }

  lemma WithPostalCodeConsistent(t: Tables, p: PostalCode)
    requires Consistent(t) && forall r :: r in t.postalCodes ==> r.val.code != p.code
    ensures Consistent(WithPostalCode(t, p))
    ensures Ids(WithPostalCode(t, p).postalCodes) == Ids(t.postalCodes) + {t.nextId}
  {
    BumpAll(t);
    SerialAppend(t.postalCodes, t.nextId, p);
    var ps := t.postalCodes + [Row(t.nextId, p)];
    forall i, j | 0 <= i < j < |ps| ensures ps[i].val.code != ps[j].val.code {
      if j == |t.postalCodes| {
        assert ps[i] in t.postalCodes;
      }
    }
  }

  lemma WithLinkConsistent(t: Tables, l: ParishPostalCode)
    requires Consistent(t) && l.parishId in Ids(t.parishes) && l.postalCodeId in Ids(t.postalCodes)
    ensures Consistent(WithLink(t, l))
  {
    BumpAll(t);
    SerialAppend(t.links, t.nextId, l);
  }

  lemma RowIdInIds<V>(rows: seq<Row<V>>, i: nat)
    requires i < |rows|
    ensures rows[i].id in Ids(rows)
  {
    assert rows[i] in rows;
  }

  lemma CityIdInIds(cities: seq<City>, i: nat)
    requires i < |cities|
    ensures cities[i].id in CityIds(cities)
  {
    assert cities[i] in cities;
  }

  // ---- queries -------------------------------------------------------------

  /** The first row, in insertion order, that satisfies `p`: what `fetchone()`
      returns for a query without ORDER BY in this model. */
  function FirstIndex<R>(s: seq<R>, p: R -> bool): (r: Option<nat>)
    ensures r.Some? ==> r.value < |s| && p(s[r.value]) && forall j :: 0 <= j < r.value ==> !p(s[j])
    ensures r.None? <==> forall j :: 0 <= j < |s| ==> !p(s[j])
  {
    if s == [] then None
    else if p(s[0]) then Some(0)
    else match FirstIndex(s[1..], p)
      case None => None
      case Some(k) => Some(k + 1)
  }

  /** Django's `Model.objects.get(...)`: the one matching row, DoesNotExist
      when there is none, MultipleObjectsReturned when there are several. */
  function GetOne<R>(s: seq<R>, p: R -> bool): (r: Result<nat>)
    ensures r.Success? ==> r.value < |s| && p(s[r.value])
    ensures r.Success? ==> forall j :: 0 <= j < |s| && j != r.value ==> !p(s[j])
    ensures r == Failure(DoesNotExist) <==> forall j :: 0 <= j < |s| ==> !p(s[j])
    ensures r == Failure(MultipleObjectsReturned) <==>
              exists i, j :: 0 <= i < j < |s| && p(s[i]) && p(s[j])
    ensures r.Failure? ==> r.error in {DoesNotExist, MultipleObjectsReturned}
  {
    match FirstIndex(s, p)
    case None => Failure(DoesNotExist)
    case Some(i) =>
      match FirstIndex(s[i + 1..], p)
      case None =>
        assert forall j :: i < j < |s| ==> s[j] == s[i + 1..][j - i - 1];
        Success(i)
      case Some(k) =>
        assert s[i + 1..][k] == s[i + 1 + k];
        Failure(MultipleObjectsReturned)
  }

  /** The province with this id has this code (the `province__code` / JOIN condition). */
  predicate ProvinceHasCode(provinces: seq<Row<Province>>, id: nat, code: string)
  {
    exists i :: 0 <= i < |provinces| && provinces[i].id == id && provinces[i].val.code == code
  }

  /** The county with this id has code `kodPow` and belongs to a province with code `kodWoj`. */
  predicate CountyHasCodes(provinces: seq<Row<Province>>, counties: seq<Row<County>>, id: nat, kodWoj: string, kodPow: string)
  {
    exists i :: 0 <= i < |counties| && counties[i].id == id && counties[i].val.code == kodPow
      && ProvinceHasCode(provinces, counties[i].val.provinceId, kodWoj)
  }

  ghost predicate HasProvinceCode(provinces: seq<Row<Province>>, code: string)
  {
    exists p :: p in provinces && p.val.code == code
  }

  ghost predicate HasPostalCode(codes: seq<Row<PostalCode>>, code: string)
  {
    exists p :: p in codes && p.val.code == code
  }

  /** No (parish, postal code) pair is linked twice. */
  ghost predicate DistinctLinks(links: seq<Row<ParishPostalCode>>)
  {
    forall i, j :: 0 <= i < j < |links| ==> links[i].val != links[j].val
  }

  // ---- one loader stage ----------------------------------------------------

  /** Where a stage stopped: the tables reached and the exception, if any. */
  datatype Run = Run(tables: Tables, failure: Option<Error>)

  /** A loader loop over `rows`, one `step` per row, stopping at the first exception. */
  function Replay<R>(t: Tables, rows: seq<R>, step: (Tables, R) -> Result<Tables>): Run
    decreases |rows|
  {
    if rows == [] then Run(t, None)
    else
      var prev := Replay(t, rows[..|rows| - 1], step);
      if prev.failure.Some? then prev
      else match step(prev.tables, rows[|rows| - 1])
        case Success(u) => Run(u, None)
        case Failure(e) => Run(prev.tables, Some(e))
  }

  lemma ReplayNext<R>(t: Tables, rows: seq<R>, i: nat, step: (Tables, R) -> Result<Tables>)
    requires i < |rows| && Replay(t, rows[..i], step).failure.None?
    ensures Replay(t, rows[..i + 1], step) ==
      match step(Replay(t, rows[..i], step).tables, rows[i])
      case Success(u) => Run(u, None)
      case Failure(e) => Run(Replay(t, rows[..i], step).tables, Some(e))
  {
    assert rows[..i + 1][..i] == rows[..i];
  }

  /** Once a row has failed, the rest of the rows are never looked at. */
  lemma {:induction false} ReplayStopsAtFailure<R>(t: Tables, rows: seq<R>, k: nat, step: (Tables, R) -> Result<Tables>)
    requires k <= |rows| && Replay(t, rows[..k], step).failure.Some?
    ensures Replay(t, rows, step) == Replay(t, rows[..k], step)
    decreases |rows| - k
  {
    if k < |rows| {
      assert rows[..|rows| - 1][..k] == rows[..k];
      ReplayStopsAtFailure(t, rows[..|rows| - 1], k, step);
    } else {
      assert rows[..k] == rows;
    }
  }

  /** A property every successful step keeps holds of wherever the stage stops. */
  lemma {:induction false} ReplayKeeps<R>(t: Tables, rows: seq<R>, step: (Tables, R) -> Result<Tables>, inv: Tables -> bool)
    requires inv(t)
    requires forall u: Tables, r: R :: inv(u) && step(u, r).Success? ==> inv(step(u, r).value)
    ensures inv(Replay(t, rows, step).tables)
    decreases |rows|
  {
    if rows != [] {
      ReplayKeeps(t, rows[..|rows| - 1], step, inv);
    }
  }

  /** When every step keeps `inv` and fails with `e` exactly on the rows failing `ok`, a
      stage keeps `inv` and stops with `e` exactly when some row fails `ok`. */
  lemma {:induction false} ReplayRaisesIff<R>(t: Tables, rows: seq<R>, step: (Tables, R) -> Result<Tables>,
                                              inv: Tables -> bool, ok: R -> bool, e: Error)
    requires inv(t)
    requires forall u: Tables, r: R :: inv(u) ==>
               if ok(r) then step(u, r).Success? && inv(step(u, r).value) else step(u, r) == Failure(e)
    ensures inv(Replay(t, rows, step).tables)
    ensures Replay(t, rows, step).failure == (if forall i :: 0 <= i < |rows| ==> ok(rows[i]) then None else Some(e))
    decreases |rows|
  {
    if rows != [] {
      var init := rows[..|rows| - 1];
      ReplayRaisesIff(t, init, step, inv, ok, e);
      assert forall i :: 0 <= i < |init| ==> init[i] == rows[i];
    }
  }

  /** When every step succeeds, keeps `inv`, records its own row in `has` and keeps what
      earlier rows recorded, a stage succeeds with every row recorded. */
  lemma {:induction false} ReplayCollects<R>(t: Tables, rows: seq<R>, step: (Tables, R) -> Result<Tables>,
                                             inv: Tables -> bool, has: (Tables, R) -> bool)
    requires inv(t)
    requires forall u: Tables, r: R :: inv(u) ==> step(u, r).Success? && inv(step(u, r).value) && has(step(u, r).value, r)
    requires forall u: Tables, r: R, q: R :: inv(u) && step(u, r).Success? && has(u, q) ==> has(step(u, r).value, q)
    ensures Replay(t, rows, step).failure.None? && inv(Replay(t, rows, step).tables)
    ensures forall i :: 0 <= i < |rows| ==> has(Replay(t, rows, step).tables, rows[i])
    decreases |rows|
  {
    if rows != [] {
      var init := rows[..|rows| - 1];
      ReplayCollects(t, init, step, inv, has);
      assert forall i :: 0 <= i < |init| ==> init[i] == rows[i];
    }
  }

  // ---- the database object ---------------------------------------------------

  /** The database the loaders write to, one field per table. */
  class Database {
    var provinces: seq<Row<Province>>
    var counties: seq<Row<County>>
    var parishes: seq<Row<Parish>>
    var cities: seq<City>
    var streets: seq<Row<Street>>
    var postalCodes: seq<Row<PostalCode>>
    var links: seq<Row<ParishPostalCode>>
    var nextId: nat

    function State(): Tables
      reads this
    {
      Tables(provinces, counties, parishes, cities, streets, postalCodes, links, nextId)
    }

    ghost predicate Valid()
      reads this
    {
      Consistent(State())
    }

    /** A freshly created schema: every table empty, SERIAL starting at 1. */
    constructor ()
      ensures State() == EmptyTables(1) && Valid()
    {
      provinces, counties, parishes, cities := [], [], [], [];
      streets, postalCodes, links, nextId := [], [], [], 1;
    }

    /** ROLLBACK to the rows saved when the transaction began; the SERIAL counter keeps
        the values the transaction drew. */
    method Restore(t: Tables)
      requires Consistent(t)
      modifies this
      ensures State() == RolledBack(t, old(nextId))
      ensures Valid()
    {
      RolledBackConsistent(t, nextId);
      var counter := if nextId > t.nextId then nextId else t.nextId;
      provinces, counties, parishes, cities := t.provinces, t.counties, t.parishes, t.cities;
      streets, postalCodes, links, nextId := t.streets, t.postalCodes, t.links, counter;
    }

    /** `DELETE FROM <table>` / `<Model>.objects.all().delete()`, with the cascade. */
    method DeleteAll(name: TableName)
      modifies this
      ensures State() == Cascaded(old(State()), name)
    {
      match name
      case Streets => streets := [];
      case ParishPostalCodes => links := [];
      case PostalCodes => postalCodes, links := [], [];
      case Cities => cities, streets := [], [];
      case Parishes => parishes, cities, streets, links := [], [], [], [];
      case Counties => counties, parishes, cities, streets, links := [], [], [], [], [];
      case Provinces => provinces, counties, parishes, cities, streets, links := [], [], [], [], [], [];
    }

    method InsertProvince(p: Province) returns (id: nat)
      modifies this
      ensures id == old(nextId) && State() == WithProvince(old(State()), p)
    {
      id := nextId;
      provinces, nextId := provinces + [Row(id, p)], nextId + 1;
    }

    method InsertCounty(c: County) returns (id: nat)
      modifies this
      ensures id == old(nextId) && State() == WithCounty(old(State()), c)
    {
      id := nextId;
      counties, nextId := counties + [Row(id, c)], nextId + 1;
    }

    method InsertParish(p: Parish) returns (id: nat)
      modifies this
      ensures id == old(nextId) && State() == WithParish(old(State()), p)
    {
      id := nextId;
      parishes, nextId := parishes + [Row(id, p)], nextId + 1;
    }

    method InsertCity(c: City)
      modifies this
      ensures State() == WithCity(old(State()), c)
    {
      cities := cities + [c];
    }

    method InsertStreet(s: Street) returns (id: nat)
      modifies this
      ensures id == old(nextId) && State() == WithStreet(old(State()), s)
    {
      id := nextId;
      streets, nextId := streets + [Row(id, s)], nextId + 1;
    }

    method InsertPostalCode(p: PostalCode) returns (id: nat)
      modifies this
      ensures id == old(nextId) && State() == WithPostalCode(old(State()), p)
    {
      id := nextId;
      postalCodes, nextId := postalCodes + [Row(id, p)], nextId + 1;
    }

    method InsertLink(l: ParishPostalCode) returns (id: nat)
      modifies this
      ensures id == old(nextId) && State() == WithLink(old(State()), l)
    {
      id := nextId;
      links, nextId := links + [Row(id, l)], nextId + 1;
    }
  }
}
