/** `inster_models.py`: the same registry loaded through the Django models. Every write
    is a `get_or_create` (look the row up by its natural key, create it only when no row
    matches), a `get` that matches several rows raises, and nothing runs inside a
    transaction: whatever a loop wrote before an exception stays in the database. */
module OrmLoader {
  import opened Base
  import opened Extract
  import opened Store

  // ---- Django lookups --------------------------------------------------------

  /** `Model.objects.get(...)` over a table with a SERIAL key: the id of the single
      matching row, DoesNotExist when none matches, MultipleObjectsReturned when several do. */
  function GetId<V>(rows: seq<Row<V>>, p: Row<V> -> bool): (r: Result<nat>)
    ensures r.Success? ==> exists i :: 0 <= i < |rows| && rows[i].id == r.value && p(rows[i])
    ensures r.Success? ==> forall i :: 0 <= i < |rows| && p(rows[i]) ==> rows[i].id == r.value
    ensures r.Success? ==> r.value in Ids(rows)
    ensures r == Failure(DoesNotExist) <==> forall i :: 0 <= i < |rows| ==> !p(rows[i])
    ensures r == Failure(MultipleObjectsReturned) <==> exists i, j :: 0 <= i < j < |rows| && p(rows[i]) && p(rows[j])
    ensures r.Failure? ==> r.error in {DoesNotExist, MultipleObjectsReturned}
  {
    match GetOne(rows, p)
    case Success(i) => RowIdInIds(rows, i); Success(rows[i].id)
    case Failure(e) => Failure(e)
  }

  /** `Province.objects.get(code=...)` */
  function ProvinceByCode(provinces: seq<Row<Province>>, code: string): Result<nat>
  {
    GetId(provinces, (p: Row<Province>) => p.val.code == code)
  }

  /** The lookup of `County.objects.get_or_create(code=..., province=...)`. */
  function CountyByKey(counties: seq<Row<County>>, code: string, provinceId: nat): Result<nat>
  {
    GetId(counties, (c: Row<County>) => c.val.code == code && c.val.provinceId == provinceId)
  }

  /** `County.objects.get(code=..., province__code=...)` */
  function CountyByCodes(provinces: seq<Row<Province>>, counties: seq<Row<County>>, kodWoj: string, kodPow: string): Result<nat>
  {
    GetId(counties, (c: Row<County>) => c.val.code == kodPow && ProvinceHasCode(provinces, c.val.provinceId, kodWoj))
  }

  /** The lookup of `Parish.objects.get_or_create(code=..., county=...)`. */
  function ParishByKey(parishes: seq<Row<Parish>>, code: string, countyId: nat): Result<nat>
  {
    GetId(parishes, (g: Row<Parish>) => g.val.code == code && g.val.countyId == countyId)
  }

  /** `Parish.objects.get(code=GMI)`: the parish code alone. */
  function ParishByCode(parishes: seq<Row<Parish>>, code: string): Result<nat>
  {
    GetId(parishes, (g: Row<Parish>) => g.val.code == code)
  }

  /** The parish by its full TERYT key: parish code GMI in county POW of province WOJ. */
  function ParishByCodes(provinces: seq<Row<Province>>, counties: seq<Row<County>>, parishes: seq<Row<Parish>>,
                         kodWoj: string, kodPow: string, kodGmi: string): Result<nat>
  {
    GetId(parishes, (g: Row<Parish>) => g.val.code == kodGmi && CountyHasCodes(provinces, counties, g.val.countyId, kodWoj, kodPow))
  }

  /** `City.objects.get(id=...)`: the index of the city. */
  function CityById(cities: seq<City>, id: string): Result<nat>
  {
    GetOne(cities, (c: City) => c.id == id)
  }

  /** The lookup of `City.objects.get_or_create(id=..., parish=...)`. */
  function CityByKey(cities: seq<City>, id: string, parishId: nat): Result<nat>
  {
    GetOne(cities, (c: City) => c.id == id && c.parishId == parishId)
  }

  /** The lookup of `Street.objects.get_or_create(name_id=..., city=...)`. */
  function StreetByKey(streets: seq<Row<Street>>, nameId: string, cityId: string): Result<nat>
  {
    GetId(streets, (s: Row<Street>) => s.val.nameId == nameId && s.val.cityId == cityId)
  }

  /** The lookup of `PostalCode.objects.get_or_create(code=...)`. */
  function PostalCodeByCode(postalCodes: seq<Row<PostalCode>>, code: string): Result<nat>
  {
    GetId(postalCodes, (p: Row<PostalCode>) => p.val.code == code)
  }

  /** `Parish.objects.get(name=...)`: the parish name alone. */
  function ParishByName(parishes: seq<Row<Parish>>, name: string): Result<nat>
  {
    GetId(parishes, (g: Row<Parish>) => g.val.name == name)
  }

  /** The lookup of `ParishPostalCode.objects.get_or_create(parish=..., postal_code=...)`. */
  function LinkByPair(links: seq<Row<ParishPostalCode>>, parishId: nat, codeId: nat): Result<nat>
  {
    GetId(links, (l: Row<ParishPostalCode>) => l.val == ParishPostalCode(parishId, codeId))
  }

  // ---- one row of each loop ----------------------------------------------------

  /** `_insert_provinces`: get_or_create by code; name and date only for a new row. */
  function ProvinceStep(t: Tables, row: ProvinceRow): Run
  {
    match ProvinceByCode(t.provinces, row.kod)
    case Success(_) => Run(t, None)
    case Failure(DoesNotExist) => Run(WithProvince(t, Province(row.kod, row.nazwa, row.stanNa)), None)
    case Failure(e) => Run(t, Some(e))
  }

  /** `_insert_counties`: the province by code, then get_or_create by (code, province). */
  function CountyStep(t: Tables, row: CountyRow): Run
  {
    match ProvinceByCode(t.provinces, row.kodWoj)
    case Failure(e) => Run(t, Some(e))
    case Success(provinceId) =>
      match CountyByKey(t.counties, row.kodPow, provinceId)
      case Success(_) => Run(t, None)
      case Failure(DoesNotExist) => Run(WithCounty(t, County(row.kodPow, provinceId, row.nazwa, row.stanNa)), None)
      case Failure(e) => Run(t, Some(e))
  }

  /** `_insert_parishes`: the county by (county code, province code), then get_or_create by
      (code, county). RODZ is not part of the key; an empty RODZ fails only on a create. */
  function ParishStep(t: Tables, row: ParishRow): Run
  {
    match CountyByCodes(t.provinces, t.counties, row.kodWoj, row.kodPow)
    case Failure(e) => Run(t, Some(e))
    case Success(countyId) =>
      match ParishByKey(t.parishes, row.kodGmi, countyId)
      case Success(_) => Run(t, None)
      case Failure(DoesNotExist) =>
        (match row.rodzaj
         case None => Run(t, Some(InvalidValue))
         case Some(k) => Run(WithParish(t, Parish(row.kodGmi, countyId, row.nazwa, k, row.typJednostki, row.stanNa)), None))
      case Failure(e) => Run(t, Some(e))
  }

  /** `City.objects.get_or_create(id=SYM, parish=...)`: a SYM already stored under another
      parish makes the create violate the primary key. */
  function CreateCity(t: Tables, row: SimcRow, parishId: nat): Run
  {
    match CityByKey(t.cities, row.sym, parishId)
    case Success(_) => Run(t, None)
    case Failure(DoesNotExist) =>
      if CityById(t.cities, row.sym) != Failure(DoesNotExist) then Run(t, Some(IntegrityError))
      else Run(WithCity(t, City(row.sym, parishId, row.nazwa, row.sympod, row.stanNa)), None)
    case Failure(e) => Run(t, Some(e))
  }

  /** `_insert_cities` as written: the parent parish by its code alone. */
  function CityStepAsWritten(t: Tables, row: SimcRow): Run
  {
    match ParishByCode(t.parishes, row.gmi)
    case Failure(e) => Run(t, Some(e))
    case Success(parishId) => CreateCity(t, row, parishId)
  }

  /** `_insert_cities` with the parent parish looked up by (WOJ, POW, GMI), the key
      `_insert_parishes` stored it under. */
  function CityStep(t: Tables, row: SimcRow): Run
  {
    match ParishByCodes(t.provinces, t.counties, t.parishes, row.woj, row.pow, row.gmi)
    case Failure(e) => Run(t, Some(e))
    case Success(parishId) => CreateCity(t, row, parishId)
  }

  /** `_insert_streets`: the city by SYM, then get_or_create by (SYM_UL, city). NAZWA_2 is
      stored as read, so a missing second name becomes the empty string, not NULL. */
  function StreetStep(t: Tables, row: UlicRow): Run
  {
    match CityById(t.cities, row.sym)
    case Failure(e) => Run(t, Some(e))
    case Success(i) =>
      var cityId := t.cities[i].id;
      match StreetByKey(t.streets, row.symUl, cityId)
      case Success(_) => Run(t, None)
      case Failure(DoesNotExist) =>
        Run(WithStreet(t, Street(row.symUl, cityId, row.nazwa1, Some(row.nazwa2), row.cecha, row.stanNa)), None)
      case Failure(e) => Run(t, Some(e))
  }

  /** The `try` block of `_insert_codes`: the parish by name alone (DoesNotExist is caught
      and the row skipped), then get_or_create of the (parish, postal code) link. */
  function LinkStep(t: Tables, gmina: string, codeId: nat): Run
  {
    match ParishByName(t.parishes, gmina)
    case Failure(DoesNotExist) => Run(t, None)
    case Failure(e) => Run(t, Some(e))
    case Success(parishId) =>
      match LinkByPair(t.links, parishId, codeId)
      case Success(_) => Run(t, None)
      case Failure(DoesNotExist) => Run(WithLink(t, ParishPostalCode(parishId, codeId)), None)
      case Failure(e) => Run(t, Some(e))
  }

  /** `_insert_codes`: get_or_create of the postal code, then the link. */
  function CodeStep(t: Tables, row: CodeRow): Run
  {
    match PostalCodeByCode(t.postalCodes, row.kod)
    case Success(codeId) => LinkStep(t, row.gmina, codeId)
    case Failure(DoesNotExist) => LinkStep(WithPostalCode(t, PostalCode(row.kod)), row.gmina, t.nextId)
    case Failure(e) => Run(t, Some(e))
  }

  // ---- loops under autocommit ------------------------------------------------

  /** A loader loop under Django's autocommit: each write persists at once, and the first
      exception ends the loop keeping everything written before it. */
  function Autocommit<R>(t: Tables, rows: seq<R>, step: (Tables, R) -> Run): Run
    decreases |rows|
  {
    if rows == [] then Run(t, None)
    else
      var prev := Autocommit(t, rows[..|rows| - 1], step);
      if prev.failure.Some? then prev else step(prev.tables, rows[|rows| - 1])
  }

  lemma AutocommitNext<R>(t: Tables, rows: seq<R>, i: nat, step: (Tables, R) -> Run)
    requires i < |rows| && Autocommit(t, rows[..i], step).failure.None?
    ensures Autocommit(t, rows[..i + 1], step) == step(Autocommit(t, rows[..i], step).tables, rows[i])
  {
    assert rows[..i + 1][..i] == rows[..i];
  }

  /** Once a row has raised, the rest of the rows are never looked at. */
  lemma {:induction false} AutocommitStopsAtFailure<R>(t: Tables, rows: seq<R>, k: nat, step: (Tables, R) -> Run)
    requires k <= |rows| && Autocommit(t, rows[..k], step).failure.Some?
    ensures Autocommit(t, rows, step) == Autocommit(t, rows[..k], step)
    decreases |rows| - k
  {
    if k < |rows| {
      assert rows[..|rows| - 1][..k] == rows[..k];
      AutocommitStopsAtFailure(t, rows[..|rows| - 1], k, step);
    } else {
      assert rows[..k] == rows;
    }
  }

  /** A stage of `populate_db`: an exception in an earlier stage ends the run. */
  function Stage<R>(prev: Run, rows: seq<R>, step: (Tables, R) -> Run): Run
  {
    if prev.failure.Some? then prev else Autocommit(prev.tables, rows, step)
  }

  // ---- the natural keys get_or_create keeps unique ---------------------------

  ghost predicate DistinctProvinceCodes(provinces: seq<Row<Province>>)
  {
    forall i, j :: 0 <= i < j < |provinces| ==> provinces[i].val.code != provinces[j].val.code
  }

  ghost predicate DistinctCountyKeys(counties: seq<Row<County>>)
  {
    forall i, j :: 0 <= i < j < |counties| ==>
      counties[i].val.code != counties[j].val.code || counties[i].val.provinceId != counties[j].val.provinceId
  }

  ghost predicate DistinctParishKeys(parishes: seq<Row<Parish>>)
  {
    forall i, j :: 0 <= i < j < |parishes| ==>
      parishes[i].val.code != parishes[j].val.code || parishes[i].val.countyId != parishes[j].val.countyId
  }

  ghost predicate DistinctStreetKeys(streets: seq<Row<Street>>)
  {
    forall i, j :: 0 <= i < j < |streets| ==>
      streets[i].val.nameId != streets[j].val.nameId || streets[i].val.cityId != streets[j].val.cityId
  }

  /** The database constraints plus one row per natural key: what every ORM stage keeps. */
  ghost predicate OrmValid(t: Tables)
  {
    && Consistent(t)
    && DistinctProvinceCodes(t.provinces)
    && DistinctCountyKeys(t.counties)
    && DistinctParishKeys(t.parishes)
    && DistinctStreetKeys(t.streets)
    && DistinctLinks(t.links)
  }

  /** Under distinct province codes a code names at most one province id. */
  lemma ProvinceCodeDeterminesId(provinces: seq<Row<Province>>, id1: nat, id2: nat, code: string)
    requires DistinctProvinceCodes(provinces)
    requires ProvinceHasCode(provinces, id1, code) && ProvinceHasCode(provinces, id2, code)
    ensures id1 == id2
  {
    var a :| 0 <= a < |provinces| && provinces[a].id == id1 && provinces[a].val.code == code;
    var b :| 0 <= b < |provinces| && provinces[b].id == id2 && provinces[b].val.code == code;
    assert a == b;
  }

  /** Under the ORM keys, (province code, county code) names at most one county id. */
  lemma CountyCodesDetermineId(t: Tables, id1: nat, id2: nat, kodWoj: string, kodPow: string)
    requires DistinctProvinceCodes(t.provinces) && DistinctCountyKeys(t.counties)
    requires CountyHasCodes(t.provinces, t.counties, id1, kodWoj, kodPow)
    requires CountyHasCodes(t.provinces, t.counties, id2, kodWoj, kodPow)
    ensures id1 == id2
  {
    var a :| 0 <= a < |t.counties| && t.counties[a].id == id1 && t.counties[a].val.code == kodPow
      && ProvinceHasCode(t.provinces, t.counties[a].val.provinceId, kodWoj);
    var b :| 0 <= b < |t.counties| && t.counties[b].id == id2 && t.counties[b].val.code == kodPow
      && ProvinceHasCode(t.provinces, t.counties[b].val.provinceId, kodWoj);
    ProvinceCodeDeterminesId(t.provinces, t.counties[a].val.provinceId, t.counties[b].val.provinceId, kodWoj);
    assert a == b;
  }

  lemma CityIdAbsent(cities: seq<City>, id: string)
    requires forall j :: 0 <= j < |cities| ==> cities[j].id != id
    ensures id !in CityIds(cities)
  {
    assert forall c | c in cities :: c.id != id;
  }

  lemma CityIdPresent(cities: seq<City>, id: string)
    requires id in CityIds(cities)
    ensures exists j :: 0 <= j < |cities| && cities[j].id == id
  {
    var c :| c in cities && c.id == id;
    var j :| 0 <= j < |cities| && cities[j] == c;
  }

  lemma AppendProvinceKeepsCodes(provinces: seq<Row<Province>>, r: Row<Province>)
    requires DistinctProvinceCodes(provinces)
    requires forall i :: 0 <= i < |provinces| ==> provinces[i].val.code != r.val.code
    ensures DistinctProvinceCodes(provinces + [r])
  {
    var u := provinces + [r];
    forall i, j | 0 <= i < j < |u| ensures u[i].val.code != u[j].val.code {
      if j == |provinces| {
        assert u[i] == provinces[i];
      }
    }
  }

  lemma AppendCountyKeepsKeys(counties: seq<Row<County>>, r: Row<County>)
    requires DistinctCountyKeys(counties)
    requires forall i :: 0 <= i < |counties| ==> counties[i].val.code != r.val.code || counties[i].val.provinceId != r.val.provinceId
    ensures DistinctCountyKeys(counties + [r])
  {
    var u := counties + [r];
    forall i, j | 0 <= i < j < |u| ensures u[i].val.code != u[j].val.code || u[i].val.provinceId != u[j].val.provinceId {
      if j == |counties| {
        assert u[i] == counties[i];
      }
    }
  }

  lemma AppendParishKeepsKeys(parishes: seq<Row<Parish>>, r: Row<Parish>)
    requires DistinctParishKeys(parishes)
    requires forall i :: 0 <= i < |parishes| ==> parishes[i].val.code != r.val.code || parishes[i].val.countyId != r.val.countyId
    ensures DistinctParishKeys(parishes + [r])
  {
    var u := parishes + [r];
    forall i, j | 0 <= i < j < |u| ensures u[i].val.code != u[j].val.code || u[i].val.countyId != u[j].val.countyId {
      if j == |parishes| {
        assert u[i] == parishes[i];
      }
    }
  }

  lemma AppendStreetKeepsKeys(streets: seq<Row<Street>>, r: Row<Street>)
    requires DistinctStreetKeys(streets)
    requires forall i :: 0 <= i < |streets| ==> streets[i].val.nameId != r.val.nameId || streets[i].val.cityId != r.val.cityId
    ensures DistinctStreetKeys(streets + [r])
  {
    var u := streets + [r];
    forall i, j | 0 <= i < j < |u| ensures u[i].val.nameId != u[j].val.nameId || u[i].val.cityId != u[j].val.cityId {
      if j == |streets| {
        assert u[i] == streets[i];
      }
    }
  }

  lemma AppendLinkKeepsPairs(links: seq<Row<ParishPostalCode>>, r: Row<ParishPostalCode>)
    requires DistinctLinks(links)
    requires forall i :: 0 <= i < |links| ==> links[i].val != r.val
    ensures DistinctLinks(links + [r])
  {
    var u := links + [r];
    forall i, j | 0 <= i < j < |u| ensures u[i].val != u[j].val {
      if j == |links| {
        assert u[i] == links[i];
      }
    }
  }

  /** A province row under unique codes never raises, leaves the row's code present, and
      changes nothing when the code is already there: the first row with a code wins. */
  lemma ProvinceStepKeepsKeys(t: Tables, row: ProvinceRow)
    requires OrmValid(t)
    ensures var r := ProvinceStep(t, row);
      && r.failure.None?
      && OrmValid(r.tables)
      && t.provinces <= r.tables.provinces
      && (exists i :: 0 <= i < |r.tables.provinces| && r.tables.provinces[i].val.code == row.kod)
      && ((exists i :: 0 <= i < |t.provinces| && t.provinces[i].val.code == row.kod) ==> r.tables == t)
      && ((forall i :: 0 <= i < |t.provinces| ==> t.provinces[i].val.code != row.kod) ==>
            r.tables == WithProvince(t, Province(row.kod, row.nazwa, row.stanNa)))
  {
    assert !exists i, j :: 0 <= i < j < |t.provinces| && t.provinces[i].val.code == row.kod && t.provinces[j].val.code == row.kod;
    if ProvinceByCode(t.provinces, row.kod) == Failure(DoesNotExist) {
      var p := Province(row.kod, row.nazwa, row.stanNa);
      WithProvinceConsistent(t, p);
      AppendProvinceKeepsCodes(t.provinces, Row(t.nextId, p));
      assert WithProvince(t, p).provinces[|t.provinces|].val.code == row.kod;
    }
  }

  /** Two rows with the same code: the second changes nothing, so when the code was new
      the stored province keeps the first row's name and date (`defaults` only apply on a
      create). */
  lemma ProvinceStepFirstWins(t: Tables, first: ProvinceRow, later: ProvinceRow)
    requires DistinctProvinceCodes(t.provinces)
    requires later.kod == first.kod
    ensures var u := ProvinceStep(t, first).tables;
      && ProvinceStep(u, later) == Run(u, None)
      && ((forall i :: 0 <= i < |t.provinces| ==> t.provinces[i].val.code != first.kod) ==>
            forall i :: 0 <= i < |u.provinces| && u.provinces[i].val.code == first.kod ==>
              u.provinces[i].val == Province(first.kod, first.nazwa, first.stanNa))
  {
    var key := (q: Row<Province>) => q.val.code == first.kod;
    assert !exists i, j :: 0 <= i < j < |t.provinces| && key(t.provinces[i]) && key(t.provinces[j]);
    var u := ProvinceStep(t, first).tables;
    if ProvinceByCode(t.provinces, first.kod) == Failure(DoesNotExist) {
      var p := Province(first.kod, first.nazwa, first.stanNa);
      assert u.provinces == t.provinces + [Row(t.nextId, p)];
      assert forall i :: 0 <= i < |t.provinces| ==> u.provinces[i] == t.provinces[i];
      assert key(u.provinces[|t.provinces|]);
    }
    assert !exists i, j :: 0 <= i < j < |u.provinces| && key(u.provinces[i]) && key(u.provinces[j]);
    assert ProvinceByCode(u.provinces, later.kod).Success?;
  }

  /** A county row keeps the keys unique and the provinces untouched; a row that raises
      writes nothing. */
  lemma CountyStepKeepsKeys(t: Tables, row: CountyRow)
    requires OrmValid(t)
    ensures var r := CountyStep(t, row);
      && OrmValid(r.tables)
      && r.tables.provinces == t.provinces
      && (r.failure.Some? ==> r.tables == t)
  {
    CountyStepShape(t, row);
    if CountyStep(t, row).tables != t {
      var c := County(row.kodPow, ProvinceByCode(t.provinces, row.kodWoj).value, row.nazwa, row.stanNa);
      WithCountyConsistent(t, c);
      AppendCountyKeepsKeys(t.counties, Row(t.nextId, c));
    }
  }

  /** A county row raises exactly when no province has its WOJ code, with DoesNotExist and
      writing nothing; otherwise it stores nothing or one county under that province whose
      key is new. */
  lemma CountyStepShape(t: Tables, row: CountyRow)
    requires DistinctProvinceCodes(t.provinces) && DistinctCountyKeys(t.counties)
    ensures var r := CountyStep(t, row);
      && (r.failure.Some? <==> forall i :: 0 <= i < |t.provinces| ==> t.provinces[i].val.code != row.kodWoj)
      && (r.failure.Some? ==> r.failure.value == DoesNotExist)
      && (|| r.tables == t
          || (&& r.failure.None?
              && ProvinceByCode(t.provinces, row.kodWoj).Success?
              && ProvinceByCode(t.provinces, row.kodWoj).value in Ids(t.provinces)
              && var c := County(row.kodPow, ProvinceByCode(t.provinces, row.kodWoj).value, row.nazwa, row.stanNa);
                 && r.tables == WithCounty(t, c)
                 && forall i :: 0 <= i < |t.counties| ==>
                      t.counties[i].val.code != c.code || t.counties[i].val.provinceId != c.provinceId))
  {
    assert !exists i, j :: 0 <= i < j < |t.provinces| && t.provinces[i].val.code == row.kodWoj && t.provinces[j].val.code == row.kodWoj;
    var found := ProvinceByCode(t.provinces, row.kodWoj);
    if found.Success? {
      var provinceId := found.value;
      var key := (c: Row<County>) => c.val.code == row.kodPow && c.val.provinceId == provinceId;
      assert !exists i, j :: 0 <= i < j < |t.counties| && key(t.counties[i]) && key(t.counties[j]);
      if CountyByKey(t.counties, row.kodPow, provinceId) == Failure(DoesNotExist) {
        var c := County(row.kodPow, provinceId, row.nazwa, row.stanNa);
        assert CountyStep(t, row) == Run(WithCounty(t, c), None);
      } else {
        assert CountyStep(t, row) == Run(t, None);
      }
    }
  }

  /** Under the ORM keys, `County.objects.get(code=..., province__code=...)` never matches
      two counties. */
  lemma CountyByCodesSingle(t: Tables, kodWoj: string, kodPow: string)
    requires DistinctProvinceCodes(t.provinces) && DistinctCountyKeys(t.counties)
    ensures CountyByCodes(t.provinces, t.counties, kodWoj, kodPow) != Failure(MultipleObjectsReturned)
  {
    forall i, j | 0 <= i < |t.counties| && 0 <= j < |t.counties|
      && t.counties[i].val.code == kodPow && ProvinceHasCode(t.provinces, t.counties[i].val.provinceId, kodWoj)
      && t.counties[j].val.code == kodPow && ProvinceHasCode(t.provinces, t.counties[j].val.provinceId, kodWoj)
      ensures i == j
    {
      ProvinceCodeDeterminesId(t.provinces, t.counties[i].val.provinceId, t.counties[j].val.provinceId, kodWoj);
    }
  }

  /** A parish row raises DoesNotExist exactly when no county matches its (WOJ, POW) codes,
      InvalidValue only when it would create a parish with an empty RODZ, and never
      MultipleObjectsReturned; a raising row writes nothing. */
  lemma ParishStepKeepsKeys(t: Tables, row: ParishRow)
    requires OrmValid(t)
    ensures var r := ParishStep(t, row);
      && OrmValid(r.tables)
      && (r.failure == Some(DoesNotExist) <==> forall i :: 0 <= i < |t.counties| ==>
            !(t.counties[i].val.code == row.kodPow && ProvinceHasCode(t.provinces, t.counties[i].val.provinceId, row.kodWoj)))
      && (r.failure.Some? ==> r.tables == t && r.failure.value in {DoesNotExist, InvalidValue})
      && (r.failure == Some(InvalidValue) ==> row.rodzaj.None?)
  {
    ParishStepShape(t, row);
    if ParishStep(t, row).tables != t {
      var countyId := CountyByCodes(t.provinces, t.counties, row.kodWoj, row.kodPow).value;
      var g := Parish(row.kodGmi, countyId, row.nazwa, row.rodzaj.value, row.typJednostki, row.stanNa);
      WithParishConsistent(t, g);
      AppendParishKeepsKeys(t.parishes, Row(t.nextId, g));
    }
  }

  /** The outcome of a parish row under the ORM keys: the three lookups never see two
      matches, so the row raises only on a missing county or an empty RODZ, and a row that
      writes adds one parish whose key is new. */
  lemma ParishStepShape(t: Tables, row: ParishRow)
    requires DistinctProvinceCodes(t.provinces) && DistinctCountyKeys(t.counties) && DistinctParishKeys(t.parishes)
    ensures var r := ParishStep(t, row);
      && (r.failure == Some(DoesNotExist) <==> forall i :: 0 <= i < |t.counties| ==>
            !(t.counties[i].val.code == row.kodPow && ProvinceHasCode(t.provinces, t.counties[i].val.provinceId, row.kodWoj)))
      && (r.failure.Some? ==> r.tables == t && r.failure.value in {DoesNotExist, InvalidValue})
      && (r.failure == Some(InvalidValue) ==> row.rodzaj.None?)
      && (|| r.tables == t
          || (&& r.failure.None?
              && row.rodzaj.Some?
              && CountyByCodes(t.provinces, t.counties, row.kodWoj, row.kodPow).Success?
              && var countyId := CountyByCodes(t.provinces, t.counties, row.kodWoj, row.kodPow).value;
                 && countyId in Ids(t.counties)
                 && ParishByKey(t.parishes, row.kodGmi, countyId) == Failure(DoesNotExist)
                 && r.tables == WithParish(t, Parish(row.kodGmi, countyId, row.nazwa, row.rodzaj.value, row.typJednostki, row.stanNa))
                 && forall i :: 0 <= i < |t.parishes| ==>
                      t.parishes[i].val.code != row.kodGmi || t.parishes[i].val.countyId != countyId))
  {
    CountyByCodesSingle(t, row.kodWoj, row.kodPow);
    var found := CountyByCodes(t.provinces, t.counties, row.kodWoj, row.kodPow);
    if found.Failure? {
      assert ParishStep(t, row) == Run(t, Some(DoesNotExist));
    } else {
      var countyId := found.value;
      var key := (g: Row<Parish>) => g.val.code == row.kodGmi && g.val.countyId == countyId;
      assert !exists i, j :: 0 <= i < j < |t.parishes| && key(t.parishes[i]) && key(t.parishes[j]);
      var existing := ParishByKey(t.parishes, row.kodGmi, countyId);
      if existing.Success? {
        assert ParishStep(t, row) == Run(t, None);
      } else if row.rodzaj.None? {
        assert ParishStep(t, row) == Run(t, Some(InvalidValue));
      } else {
        var g := Parish(row.kodGmi, countyId, row.nazwa, row.rodzaj.value, row.typJednostki, row.stanNa);
        assert ParishStep(t, row) == Run(WithParish(t, g), None);
      }
    }
  }

  /** get_or_create of a city under a resolved parish: it raises (IntegrityError, writing
      nothing) exactly when the SYM is already stored under another parish, and otherwise
      leaves the SYM stored. */
  lemma CreateCityKeepsKeys(t: Tables, row: SimcRow, parishId: nat)
    requires OrmValid(t) && parishId in Ids(t.parishes)
    ensures var r := CreateCity(t, row, parishId);
      && OrmValid(r.tables)
      && (r.failure.Some? <==> exists j :: 0 <= j < |t.cities| && t.cities[j].id == row.sym && t.cities[j].parishId != parishId)
      && (r.failure.Some? ==> r.failure.value == IntegrityError && r.tables == t)
      && (r.failure.None? ==> row.sym in CityIds(r.tables.cities))
  {
    CreateCityShape(t, row, parishId);
    if CreateCity(t, row, parishId).tables != t {
      WithCityConsistent(t, City(row.sym, parishId, row.nazwa, row.sympod, row.stanNa));
    }
  }

  /** The outcome of get_or_create of a city under distinct SYMs: the same outcomes as
      above, and a row that writes appends its city under a SYM not yet stored. */
  lemma CreateCityShape(t: Tables, row: SimcRow, parishId: nat)
    requires DistinctCityIds(t.cities)
    ensures var r := CreateCity(t, row, parishId);
      && (r.failure.Some? <==> exists j :: 0 <= j < |t.cities| && t.cities[j].id == row.sym && t.cities[j].parishId != parishId)
      && (r.failure.Some? ==> r.failure.value == IntegrityError && r.tables == t)
      && (r.failure.None? ==> row.sym in CityIds(r.tables.cities))
      && (|| r.tables == t
          || (row.sym !in CityIds(t.cities) && r.tables == WithCity(t, City(row.sym, parishId, row.nazwa, row.sympod, row.stanNa))))
  {
    var byKey := CityByKey(t.cities, row.sym, parishId);
    var byId := CityById(t.cities, row.sym);
    if byKey.Success? {
      CityIdInIds(t.cities, byKey.value);
    } else if byId == Failure(DoesNotExist) {
      var c := City(row.sym, parishId, row.nazwa, row.sympod, row.stanNa);
      CityIdAbsent(t.cities, row.sym);
      assert CreateCity(t, row, parishId) == Run(WithCity(t, c), None);
      assert WithCity(t, c).cities[|t.cities|] == c;
      CityIdInIds(WithCity(t, c).cities, |t.cities|);
    }
  }

  /** A city row, its parish looked up by (WOJ, POW, GMI): never MultipleObjectsReturned;
      DoesNotExist exactly when no parish has that key; IntegrityError only for a SYM already
      stored; a raising row writes nothing, and a loaded row leaves its SYM stored. */
  lemma CityStepKeepsKeys(t: Tables, row: SimcRow)
    requires OrmValid(t)
    ensures var r := CityStep(t, row);
      && OrmValid(r.tables)
      && (r.failure == Some(DoesNotExist) <==> forall i :: 0 <= i < |t.parishes| ==>
            !(t.parishes[i].val.code == row.gmi && CountyHasCodes(t.provinces, t.counties, t.parishes[i].val.countyId, row.woj, row.pow)))
      && (r.failure.Some? ==> r.tables == t && r.failure.value in {DoesNotExist, IntegrityError})
      && (r.failure == Some(IntegrityError) ==> row.sym in CityIds(t.cities))
      && (r.failure.None? ==> row.sym in CityIds(r.tables.cities))
  {
    CityStepShape(t, row);
    var found := ParishByCodes(t.provinces, t.counties, t.parishes, row.woj, row.pow, row.gmi);
    if found.Success? {
      CreateCityKeepsKeys(t, row, found.value);
    }
  }

  /** The outcomes of a city row under the ORM keys, as above: the parent lookup by (WOJ,
      POW, GMI) never sees two parishes. */
  lemma CityStepShape(t: Tables, row: SimcRow)
    requires DistinctProvinceCodes(t.provinces) && DistinctCountyKeys(t.counties)
    requires DistinctParishKeys(t.parishes) && DistinctCityIds(t.cities)
    ensures var r := CityStep(t, row);
      && (r.failure == Some(DoesNotExist) <==> forall i :: 0 <= i < |t.parishes| ==>
            !(t.parishes[i].val.code == row.gmi && CountyHasCodes(t.provinces, t.counties, t.parishes[i].val.countyId, row.woj, row.pow)))
      && (r.failure.Some? ==> r.tables == t && r.failure.value in {DoesNotExist, IntegrityError})
      && (r.failure == Some(IntegrityError) ==> row.sym in CityIds(t.cities))
      && (r.failure.None? ==> row.sym in CityIds(r.tables.cities))
      && (|| r.tables == t
          || exists i :: && 0 <= i < |t.parishes| && t.parishes[i].val.code == row.gmi
                         && CountyHasCodes(t.provinces, t.counties, t.parishes[i].val.countyId, row.woj, row.pow)
                         && r.tables == WithCity(t, City(row.sym, t.parishes[i].id, row.nazwa, row.sympod, row.stanNa)))
  {
    forall i, j | 0 <= i < |t.parishes| && 0 <= j < |t.parishes|
      && t.parishes[i].val.code == row.gmi && CountyHasCodes(t.provinces, t.counties, t.parishes[i].val.countyId, row.woj, row.pow)
      && t.parishes[j].val.code == row.gmi && CountyHasCodes(t.provinces, t.counties, t.parishes[j].val.countyId, row.woj, row.pow)
      ensures i == j
    {
      CountyCodesDetermineId(t, t.parishes[i].val.countyId, t.parishes[j].val.countyId, row.woj, row.pow);
    }
    var found := ParishByCodes(t.provinces, t.counties, t.parishes, row.woj, row.pow, row.gmi);
    if found.Success? {
      CreateCityShape(t, row, found.value);
      var r := CreateCity(t, row, found.value);
      if r.failure.Some? {
        var j :| 0 <= j < |t.cities| && t.cities[j].id == row.sym && t.cities[j].parishId != found.value;
        CityIdInIds(t.cities, j);
      }
    }
  }

  /** A street row raises DoesNotExist exactly when its SYM names no stored city, and then
      writes nothing; a loaded row leaves its (SYM_UL, SYM) key stored. */
  lemma StreetStepKeepsKeys(t: Tables, row: UlicRow)
    requires OrmValid(t)
    ensures var r := StreetStep(t, row);
      && OrmValid(r.tables)
      && (r.failure.Some? <==> row.sym !in CityIds(t.cities))
      && (r.failure.Some? ==> r.failure.value == DoesNotExist && r.tables == t)
      && (r.failure.None? ==>
            exists i :: 0 <= i < |r.tables.streets| && r.tables.streets[i].val.nameId == row.symUl
                          && r.tables.streets[i].val.cityId == row.sym)
      && (r.tables != t ==>
            r.tables == WithStreet(t, Street(row.symUl, row.sym, row.nazwa1, Some(row.nazwa2), row.cecha, row.stanNa)))
  {
    StreetStepShape(t, row);
    if StreetStep(t, row).tables != t {
      var st := Street(row.symUl, row.sym, row.nazwa1, Some(row.nazwa2), row.cecha, row.stanNa);
      WithStreetConsistent(t, st);
      AppendStreetKeepsKeys(t.streets, Row(t.nextId, st));
    }
  }

  /** The outcome of a street row: it raises DoesNotExist, writing nothing, exactly when
      its SYM names no city; otherwise the street is stored afterwards, either already
      there or appended under a key that is new. The appended street is the row itself,
      its NAZWA_2 stored as read, so a missing second name is `Some("")`, never NULL. */
  lemma StreetStepShape(t: Tables, row: UlicRow)
    requires DistinctCityIds(t.cities) && DistinctStreetKeys(t.streets)
    ensures var r := StreetStep(t, row);
      && (r.failure.Some? <==> row.sym !in CityIds(t.cities))
      && (r.failure.Some? ==> r.failure.value == DoesNotExist && r.tables == t)
      && (r.failure.None? ==>
            exists i :: 0 <= i < |r.tables.streets| && r.tables.streets[i].val.nameId == row.symUl
                          && r.tables.streets[i].val.cityId == row.sym)
      && (|| r.tables == t
          || (&& row.sym in CityIds(t.cities)
              && r.tables == WithStreet(t, Street(row.symUl, row.sym, row.nazwa1, Some(row.nazwa2), row.cecha, row.stanNa))
              && forall i :: 0 <= i < |t.streets| ==> t.streets[i].val.nameId != row.symUl || t.streets[i].val.cityId != row.sym))
  {
    var found := CityById(t.cities, row.sym);
    if found.Success? {
      var cityId := t.cities[found.value].id;
      CityIdInIds(t.cities, found.value);
      var key := (s: Row<Street>) => s.val.nameId == row.symUl && s.val.cityId == cityId;
      assert !exists i, j :: 0 <= i < j < |t.streets| && key(t.streets[i]) && key(t.streets[j]);
      if StreetByKey(t.streets, row.symUl, cityId) == Failure(DoesNotExist) {
        var st := Street(row.symUl, cityId, row.nazwa1, Some(row.nazwa2), row.cecha, row.stanNa);
        assert StreetStep(t, row) == Run(WithStreet(t, st), None);
        assert WithStreet(t, st).streets[|t.streets|].val == st;
      }
    } else {
      assert found == Failure(DoesNotExist);
      CityIdAbsent(t.cities, row.sym);
    }
  }

  /** The `try` block of a postal-code row keeps the keys and changes only the links; a
      row that raises writes nothing. */
  lemma LinkStepKeepsKeys(t: Tables, gmina: string, codeId: nat)
    requires OrmValid(t) && codeId in Ids(t.postalCodes)
    ensures var r := LinkStep(t, gmina, codeId);
      && OrmValid(r.tables)
      && r.tables == t.(links := r.tables.links, nextId := r.tables.nextId)
      && (r.failure.Some? ==> r.tables == t)
  {
    LinkStepShape(t, gmina, codeId);
    if LinkStep(t, gmina, codeId).tables != t {
      var pair := ParishPostalCode(ParishByName(t.parishes, gmina).value, codeId);
      WithLinkConsistent(t, pair);
      AppendLinkKeepsPairs(t.links, Row(t.nextId, pair));
    }
  }

  /** The `try` block either leaves the tables as they are or, with no exception, appends
      one link of the named parish to the code, a pair not linked before. */
  lemma LinkStepShape(t: Tables, gmina: string, codeId: nat)
    requires DistinctLinks(t.links)
    ensures var r := LinkStep(t, gmina, codeId);
      || r.tables == t
      || (&& r.failure.None?
          && ParishByName(t.parishes, gmina).Success?
          && ParishByName(t.parishes, gmina).value in Ids(t.parishes)
          && r.tables == WithLink(t, ParishPostalCode(ParishByName(t.parishes, gmina).value, codeId))
          && forall i :: 0 <= i < |t.links| ==> t.links[i].val != ParishPostalCode(ParishByName(t.parishes, gmina).value, codeId))
  {
    var found := ParishByName(t.parishes, gmina);
    if found.Success? {
      var pair := ParishPostalCode(found.value, codeId);
      if LinkByPair(t.links, found.value, codeId).Failure? {
        assert !exists a, b :: 0 <= a < b < |t.links| && t.links[a].val == pair && t.links[b].val == pair;
        assert LinkStep(t, gmina, codeId) == Run(WithLink(t, pair), None);
      }
    }
  }

  /** The `try` block raises exactly when two parishes bear the name, always with
      MultipleObjectsReturned, and does nothing when no parish bears it. */
  lemma LinkStepRaises(t: Tables, gmina: string, codeId: nat)
    requires DistinctLinks(t.links)
    ensures var r := LinkStep(t, gmina, codeId);
      && (r.failure.Some? <==> exists i, j :: 0 <= i < j < |t.parishes| && t.parishes[i].val.name == gmina && t.parishes[j].val.name == gmina)
      && (r.failure.Some? ==> r.failure.value == MultipleObjectsReturned)
      && ((forall i :: 0 <= i < |t.parishes| ==> t.parishes[i].val.name != gmina) ==> r == Run(t, None))
  {
    var found := ParishByName(t.parishes, gmina);
    if found.Success? {
      var pair := ParishPostalCode(found.value, codeId);
      assert !exists a, b :: 0 <= a < b < |t.links| && t.links[a].val == pair && t.links[b].val == pair;
      assert LinkStep(t, gmina, codeId).failure.None?;
    } else if found == Failure(DoesNotExist) {
      assert LinkStep(t, gmina, codeId) == Run(t, None);
    } else {
      assert LinkStep(t, gmina, codeId) == Run(t, Some(MultipleObjectsReturned));
    }
  }

  /** When exactly one parish bears the name, the code ends up linked to it. */
  lemma LinkStepLinksParish(t: Tables, gmina: string, codeId: nat)
    requires LinkStep(t, gmina, codeId).failure.None?
    requires exists i :: 0 <= i < |t.parishes| && t.parishes[i].val.name == gmina
    ensures exists i, l :: 0 <= i < |t.parishes| && t.parishes[i].val.name == gmina
                           && l in LinkStep(t, gmina, codeId).tables.links && l.val == ParishPostalCode(t.parishes[i].id, codeId)
  {
    var found := ParishByName(t.parishes, gmina);
    var parishId := found.value;
    var pair := ParishPostalCode(parishId, codeId);
    var i :| 0 <= i < |t.parishes| && t.parishes[i].id == parishId && t.parishes[i].val.name == gmina;
    var existing := LinkByPair(t.links, parishId, codeId);
    if existing.Success? {
      var k :| 0 <= k < |t.links| && t.links[k].id == existing.value && t.links[k].val == pair;
      assert t.links[k] in t.links;
      assert LinkStep(t, gmina, codeId) == Run(t, None);
    } else {
      var u := WithLink(t, pair);
      assert u.links[|t.links|] in u.links;
      assert LinkStep(t, gmina, codeId) == Run(u, None);
    }
  }

  /** A postal-code row keeps the keys, changes only the codes and the links, and leaves
      its code stored even when the row raises (the insert is already committed). */
  lemma CodeStepKeepsKeys(t: Tables, row: CodeRow)
    requires OrmValid(t)
    ensures var r := CodeStep(t, row);
      && OrmValid(r.tables)
      && HasPostalCode(r.tables.postalCodes, row.kod)
      && r.tables == t.(postalCodes := r.tables.postalCodes, links := r.tables.links, nextId := r.tables.nextId)
  {
    var found := PostalCodeByCode(t.postalCodes, row.kod);
    assert !exists a, b :: 0 <= a < b < |t.postalCodes| && t.postalCodes[a].val.code == row.kod && t.postalCodes[b].val.code == row.kod;
    var t1, codeId, p := CodeStepLink(t, row);
    assert OrmValid(t1) by {
      if found.Failure? {
        WithPostalCodeConsistent(t, PostalCode(row.kod));
      }
    }
    LinkStepKeepsKeys(t1, row.gmina, codeId);
  }

  /** The postal code a row's link is made with: the stored one, or the one just inserted. */
  lemma CodeStepLink(t: Tables, row: CodeRow) returns (t1: Tables, codeId: nat, p: Row<PostalCode>)
    requires DistinctPostalCodes(t.postalCodes)
    ensures CodeStep(t, row) == LinkStep(t1, row.gmina, codeId)
    ensures p in t1.postalCodes && p.id == codeId && p.val.code == row.kod
    ensures t1 == t.(postalCodes := t1.postalCodes, nextId := t1.nextId)
    ensures PostalCodeByCode(t.postalCodes, row.kod).Success? ==> t1 == t
    ensures PostalCodeByCode(t.postalCodes, row.kod).Failure? ==> t1 == WithPostalCode(t, PostalCode(row.kod))
  {
    var found := PostalCodeByCode(t.postalCodes, row.kod);
    assert !exists a, b :: 0 <= a < b < |t.postalCodes| && t.postalCodes[a].val.code == row.kod && t.postalCodes[b].val.code == row.kod;
    if found.Success? {
      t1, codeId := t, found.value;
      var k :| 0 <= k < |t.postalCodes| && t.postalCodes[k].id == codeId && t.postalCodes[k].val.code == row.kod;
      p := t.postalCodes[k];
    } else {
      var pc := PostalCode(row.kod);
      t1, codeId := WithPostalCode(t, pc), t.nextId;
      p := Row(t.nextId, pc);
      assert t1.postalCodes[|t.postalCodes|] == p;
    }
  }

  /** A postal-code row raises MultipleObjectsReturned exactly when two parishes bear its
      parish name; a name no parish bears adds no link; when one parish bears it, the code
      is linked to that parish. */
  lemma CodeStepLinksParish(t: Tables, row: CodeRow)
    requires DistinctPostalCodes(t.postalCodes) && DistinctLinks(t.links)
    ensures var r := CodeStep(t, row);
      && (r.failure.Some? <==> exists i, j :: 0 <= i < j < |t.parishes| && t.parishes[i].val.name == row.gmina && t.parishes[j].val.name == row.gmina)
      && (r.failure.Some? ==> r.failure.value == MultipleObjectsReturned)
      && ((forall i :: 0 <= i < |t.parishes| ==> t.parishes[i].val.name != row.gmina) ==> r.tables.links == t.links)
      && (r.failure.None? && (exists i :: 0 <= i < |t.parishes| && t.parishes[i].val.name == row.gmina) ==>
            exists i, l, p :: 0 <= i < |t.parishes| && t.parishes[i].val.name == row.gmina && p in r.tables.postalCodes
                              && p.val.code == row.kod && l in r.tables.links && l.val == ParishPostalCode(t.parishes[i].id, p.id))
  {
    var t1, codeId, p := CodeStepLink(t, row);
    LinkStepRaises(t1, row.gmina, codeId);
    var r := LinkStep(t1, row.gmina, codeId);
    if r.failure.None? && exists i :: 0 <= i < |t.parishes| && t.parishes[i].val.name == row.gmina {
      LinkStepLinksParish(t1, row.gmina, codeId);
      LinkStepShape(t1, row.gmina, codeId);
      assert p in r.tables.postalCodes;
    }
  }

  // ---- what the stages promise ----------------------------------------------

  /** Province codes carry no UNIQUE constraint, but get_or_create keeps them unique: the
      province stage never raises, keeps every province already stored, and leaves each
      row's code present exactly once. */
  lemma ProvincesStageLoadsEveryCode(t: Tables, rows: seq<ProvinceRow>)
    requires OrmValid(t)
    ensures var r := Autocommit(t, rows, ProvinceStep);
      && r.failure.None?
      && OrmValid(r.tables)
      && t.provinces <= r.tables.provinces
      && forall i :: 0 <= i < |rows| ==> HasProvinceCode(r.tables.provinces, rows[i].kod)
  {
    ProvincesKeepOrmValid(t, rows);
    ProvincesLoad(t, rows);
  }

  lemma ProvincesKeepOrmValid(t: Tables, rows: seq<ProvinceRow>)
    requires OrmValid(t)
    ensures OrmValid(Autocommit(t, rows, ProvinceStep).tables)
  {
    ProvinceStepKeepsOrmValid();
    AutocommitKeeps(t, rows, ProvinceStep, (u: Tables) => OrmValid(u));
  }

  lemma {:induction false} ProvincesLoad(t: Tables, rows: seq<ProvinceRow>)
    requires OrmValid(t)
    ensures var r := Autocommit(t, rows, ProvinceStep);
      && r.failure.None?
      && t.provinces <= r.tables.provinces
      && forall i :: 0 <= i < |rows| ==> HasProvinceCode(r.tables.provinces, rows[i].kod)
    decreases |rows|
  {
    if rows != [] {
      var init := rows[..|rows| - 1];
      var last := rows[|rows| - 1];
      ProvincesLoad(t, init);
      ProvincesKeepOrmValid(t, init);
      var u := Autocommit(t, init, ProvinceStep).tables;
      ProvinceStepLoadsCode(u, last);
      var w := ProvinceStep(u, last).tables;
      assert Autocommit(t, rows, ProvinceStep) == ProvinceStep(u, last);
      forall i | 0 <= i < |rows| ensures HasProvinceCode(w.provinces, rows[i].kod) {
        if i < |rows| - 1 {
          assert init[i] == rows[i];
          var p :| p in u.provinces && p.val.code == rows[i].kod;
          assert p in w.provinces;
        }
      }
    }
  }

  /** One province row, in the terms of the stage lemma above. */
  lemma ProvinceStepLoadsCode(t: Tables, row: ProvinceRow)
    requires OrmValid(t)
    ensures var r := ProvinceStep(t, row);
      && r.failure.None?
      && t.provinces <= r.tables.provinces
      && HasProvinceCode(r.tables.provinces, row.kod)
  {
    ProvinceStepKeepsKeys(t, row);
    var w := ProvinceStep(t, row).tables;
    var j :| 0 <= j < |w.provinces| && w.provinces[j].val.code == row.kod;
    assert w.provinces[j] in w.provinces;
  }

  /** The county stage leaves the provinces alone and raises exactly when some row's
      province code is missing, with DoesNotExist; the counties loaded before that row stay. */
  lemma CountiesStageNeedsProvinces(t: Tables, rows: seq<CountyRow>)
    requires DistinctProvinceCodes(t.provinces) && DistinctCountyKeys(t.counties)
    ensures Autocommit(t, rows, CountyStep).tables.provinces == t.provinces
    ensures Autocommit(t, rows, CountyStep).failure.None? <==>
              forall i :: 0 <= i < |rows| ==> HasProvinceCode(t.provinces, rows[i].kodWoj)
    ensures Autocommit(t, rows, CountyStep).failure.Some? ==> Autocommit(t, rows, CountyStep).failure.value == DoesNotExist
  {
    var inv := (u: Tables) => u.provinces == t.provinces && DistinctProvinceCodes(u.provinces) && DistinctCountyKeys(u.counties);
    var ok := (r: CountyRow) => HasProvinceCode(t.provinces, r.kodWoj);
    forall u: Tables, r: CountyRow | inv(u)
      ensures inv(CountyStep(u, r).tables)
      ensures CountyStep(u, r).failure == (if ok(r) then None else Some(DoesNotExist))
    {
      CountyStepNeedsProvince(u, r);
    }
    AutocommitRaisesIff(t, rows, CountyStep, inv, ok, DoesNotExist);
  }

  lemma CountiesKeepOrmValid(t: Tables, rows: seq<CountyRow>)
    requires OrmValid(t)
    ensures OrmValid(Autocommit(t, rows, CountyStep).tables)
  {
    CountyStepKeepsOrmValid();
    AutocommitKeeps(t, rows, CountyStep, (u: Tables) => OrmValid(u));
  }

  /** One county row, in the terms of the stage lemma above. */
  lemma CountyStepNeedsProvince(t: Tables, row: CountyRow)
    requires DistinctProvinceCodes(t.provinces) && DistinctCountyKeys(t.counties)
    ensures var r := CountyStep(t, row);
      && DistinctCountyKeys(r.tables.counties)
      && r.tables.provinces == t.provinces
      && (r.failure.None? <==> HasProvinceCode(t.provinces, row.kodWoj))
      && (r.failure.Some? ==> r.failure.value == DoesNotExist)
  {
    CountyStepShape(t, row);
    HasProvinceCodeAt(t.provinces, row.kodWoj);
    if CountyStep(t, row).tables != t {
      var c := County(row.kodPow, ProvinceByCode(t.provinces, row.kodWoj).value, row.nazwa, row.stanNa);
      AppendCountyKeepsKeys(t.counties, Row(t.nextId, c));
    }
  }

  lemma HasProvinceCodeAt(provinces: seq<Row<Province>>, code: string)
    ensures HasProvinceCode(provinces, code) <==> exists j :: 0 <= j < |provinces| && provinces[j].val.code == code
  {
    if HasProvinceCode(provinces, code) {
      var p :| p in provinces && p.val.code == code;
      var j :| 0 <= j < |provinces| && provinces[j] == p;
    } else {
      assert forall j :: 0 <= j < |provinces| ==> provinces[j] in provinces;
    }
  }

  /** RODZ is not part of the parish key: once a row has loaded, a later row with the same
      (WOJ, POW, GMI) codes (the town or the rural area of the same parish, say) changes
      nothing, so the parish keeps the name and type of the first row. */
  lemma ParishStepFirstWins(t: Tables, first: ParishRow, later: ParishRow)
    requires DistinctProvinceCodes(t.provinces) && DistinctCountyKeys(t.counties) && DistinctParishKeys(t.parishes)
    requires ParishStep(t, first).failure.None?
    requires later.kodWoj == first.kodWoj && later.kodPow == first.kodPow && later.kodGmi == first.kodGmi
    ensures ParishStep(ParishStep(t, first).tables, later) == Run(ParishStep(t, first).tables, None)
  {
    ParishStepShape(t, first);
    var countyId := CountyByCodes(t.provinces, t.counties, first.kodWoj, first.kodPow).value;
    var u := ParishStep(t, first).tables;
    var key := (g: Row<Parish>) => g.val.code == first.kodGmi && g.val.countyId == countyId;
    if u == t {
      assert ParishByKey(t.parishes, first.kodGmi, countyId).Success?;
    } else {
      var g := Parish(first.kodGmi, countyId, first.nazwa, first.rodzaj.value, first.typJednostki, first.stanNa);
      AppendParishKeepsKeys(t.parishes, Row(t.nextId, g));
      assert key(u.parishes[|t.parishes|]);
    }
    assert !exists i, j :: 0 <= i < j < |u.parishes| && key(u.parishes[i]) && key(u.parishes[j]);
    assert ParishByKey(u.parishes, later.kodGmi, countyId).Success?;
  }

  /** As written, a city row raises MultipleObjectsReturned as soon as two parishes anywhere
      share its GMI code, whatever its WOJ and POW say. */
  lemma CityStepAsWrittenRejectsSharedCode(t: Tables, row: SimcRow)
    requires exists i, j :: 0 <= i < j < |t.parishes| && t.parishes[i].val.code == row.gmi && t.parishes[j].val.code == row.gmi
    ensures CityStepAsWritten(t, row) == Run(t, Some(MultipleObjectsReturned))
  {
  }

  /** Province 02 with counties 01 and 02, each holding a parish numbered 01: what the
      parish stage stores for any province with two counties, since parish numbers restart
      in every county. */
  function TwoCountyProvince(): Tables
  {
    Tables(
      [Row(1, Province("02", "dolnośląskie", "2024-01-01"))],
      [Row(2, County("01", 1, "bolesławiecki", "2024-01-01")), Row(3, County("02", 1, "dzierżoniowski", "2024-01-01"))],
      [Row(4, Parish("01", 2, "bolesławiec", 1, "gmina miejska", "2024-01-01")),
       Row(5, Parish("01", 3, "bielawa", 1, "gmina miejska", "2024-01-01"))],
      [], [], [], [], 6)
  }

  /** A SIMC row for a town of parish 01 in county 02 of province 02. */
  function TownOfSecondCounty(): SimcRow
  {
    SimcRow("02", "02", "01", 1, "0000001", "0000001", "bielawa", "2024-01-01")
  }

  lemma TwoCountyProvinceIsValid()
    ensures OrmValid(TwoCountyProvince())
  {
    TwoCountyProvinceKeys();
    TwoCountyProvinceReferences();
  }

  lemma TwoCountyProvinceKeys()
    ensures KeysHold(TwoCountyProvince())
    ensures DistinctProvinceCodes(TwoCountyProvince().provinces) && DistinctCountyKeys(TwoCountyProvince().counties)
    ensures DistinctParishKeys(TwoCountyProvince().parishes)
  {
  }

  lemma TwoCountyProvinceReferences()
    ensures ReferencesHold(TwoCountyProvince())
  {
    var t := TwoCountyProvince();
    assert Ids(t.provinces) == {1} by { assert t.provinces[0] in t.provinces; }
    assert Ids(t.counties) == {2, 3} by { assert t.counties[0] in t.counties && t.counties[1] in t.counties; }
  }

  /** On a database the parish stage reaches, the lookup by GMI alone raises for a town of
      the second county. */
  lemma CityParentAsWrittenExample()
    ensures OrmValid(TwoCountyProvince())
    ensures CityStepAsWritten(TwoCountyProvince(), TownOfSecondCounty()) == Run(TwoCountyProvince(), Some(MultipleObjectsReturned))
  {
    var t := TwoCountyProvince();
    TwoCountyProvinceIsValid();
    assert t.parishes[0].val.code == "01" && t.parishes[1].val.code == "01";
    CityStepAsWrittenRejectsSharedCode(t, TownOfSecondCounty());
  }

  /** The lookup by (WOJ, POW, GMI) files the same town under the parish of county 02. */
  lemma CityParentCorrectedExample()
    ensures CityStep(TwoCountyProvince(), TownOfSecondCounty()) ==
      Run(TwoCountyProvince().(cities := [City("0000001", 5, "bielawa", "0000001", "2024-01-01")]), None)
  {
    var t := TwoCountyProvince();
    var row := TownOfSecondCounty();
    assert ProvinceHasCode(t.provinces, 1, "02") by { assert t.provinces[0].id == 1; }
    assert CountyHasCodes(t.provinces, t.counties, 3, "02", "02") by { assert t.counties[1].id == 3; }
    assert !CountyHasCodes(t.provinces, t.counties, 2, "02", "02");
    var key := (g: Row<Parish>) => g.val.code == "01" && CountyHasCodes(t.provinces, t.counties, g.val.countyId, "02", "02");
    assert !key(t.parishes[0]) && key(t.parishes[1]);
    assert ParishByCodes(t.provinces, t.counties, t.parishes, "02", "02", "01") == Success(5);
    assert CityByKey(t.cities, row.sym, 5) == Failure(DoesNotExist);
    assert CityById(t.cities, row.sym) == Failure(DoesNotExist);
  }

  /** The key `_read_codes` reads the province name under: "Województwo" with the two UTF-8
      bytes of "ó" shown as the Mac OS Roman characters "√≥". */
  const MISDECODED_PROVINCE_COLUMN := "Wojew√≥dztwo"

  /** As written, a postal-code file whose header carries the real column name raises
      KeyError on its first record, so no code is read at all; under the column name the SQL
      loader uses, the same record is read. */
  lemma MisdecodedColumnRejectsCodeFile(records: seq<CsvRecord>)
    requires |records| > 0
    requires CODE_COLUMN in records[0] && PROVINCE_COLUMN in records[0]
    requires COUNTY_COLUMN in records[0] && PARISH_COLUMN in records[0]
    requires MISDECODED_PROVINCE_COLUMN !in records[0]
    ensures ReadCodes(records, MISDECODED_PROVINCE_COLUMN) == Failure(KeyError)
    ensures ReadCodeRecord(records[0], PROVINCE_COLUMN).Success?
  {
  }

  /** A one-record file with the header the registry publishes. */
  lemma MisdecodedColumnExample()
    ensures var rec := map[CODE_COLUMN := "00-001", PROVINCE_COLUMN := "MAZOWIECKIE",
                           COUNTY_COLUMN := "Warszawa", PARISH_COLUMN := "Warszawa"];
      && ReadCodes([rec], MISDECODED_PROVINCE_COLUMN) == Failure(KeyError)
      && ReadCodes([rec], PROVINCE_COLUMN).Success?
  {
    var rec := map[CODE_COLUMN := "00-001", PROVINCE_COLUMN := "MAZOWIECKIE",
                   COUNTY_COLUMN := "Warszawa", PARISH_COLUMN := "Warszawa"];
    assert MISDECODED_PROVINCE_COLUMN !in rec;
    MisdecodedColumnRejectsCodeFile([rec]);
  }

  // ---- the reset ---------------------------------------------------------------

  /** `_clear_tables`: parishes first, provinces last. */
  const RESET_ORDER: seq<TableName> := [Parishes, ParishPostalCodes, PostalCodes, Cities, Streets, Counties, Provinces]

  lemma ResetOrderCoversEveryTable()
    ensures forall n: TableName :: n in RESET_ORDER
  {
    forall n: TableName ensures n in RESET_ORDER {
      match n
      case Parishes => assert RESET_ORDER[0] == n;
      case ParishPostalCodes => assert RESET_ORDER[1] == n;
      case PostalCodes => assert RESET_ORDER[2] == n;
      case Cities => assert RESET_ORDER[3] == n;
      case Streets => assert RESET_ORDER[4] == n;
      case Counties => assert RESET_ORDER[5] == n;
      case Provinces => assert RESET_ORDER[6] == n;
    }
  }

  /** The first delete of `_clear_tables` removes parishes while cities may still point at
      them: without ON DELETE CASCADE it would leave dangling references. */
  lemma ResetReliesOnCascade(t: Tables)
    requires Consistent(t) && t.cities != []
    ensures !Consistent(Cleared(t, RESET_ORDER[0]))
    ensures Consistent(Cascaded(t, RESET_ORDER[0]))
  {
    assert t.cities[0] in t.cities;
    assert t.cities[0].parishId !in Ids(Cleared(t, Parishes).parishes);
    CascadedConsistent(t, Parishes);
  }

  lemma ResetStep(t: Tables, k: nat)
    requires k < |RESET_ORDER|
    ensures CascadedInOrder(t, RESET_ORDER[..k + 1]) == Cascaded(CascadedInOrder(t, RESET_ORDER[..k]), RESET_ORDER[k])
  {
    assert RESET_ORDER[..k + 1] == RESET_ORDER[..k] + [RESET_ORDER[k]];
    CascadedInOrderSnoc(t, RESET_ORDER[..k], RESET_ORDER[k]);
  }

  // ---- the whole run -----------------------------------------------------------

  /** The six loops of `populate_db`, in order, on the extracts as read. */
  function Load(t0: Tables, levels: TercTables, miasta: seq<SimcRow>, ulice: seq<UlicRow>, kody: seq<CodeRow>): Run
  {
    var r1 := Stage(Run(t0, None), levels.provinces, ProvinceStep);
    var r2 := Stage(r1, levels.counties, CountyStep);
    var r3 := Stage(r2, levels.parishes, ParishStep);
    var r4 := Stage(r3, miasta, CityStep);
    var r5 := Stage(r4, ulice, StreetStep);
    Stage(r5, kody, CodeStep)
  }

  /** `populate_db`: reset, read the four extracts, then the six loops in order, the city
      loop with its parent parish looked up by the full key and the postal codes read
      under the column name the file carries. */
  function Pipeline(t: Tables, terc: seq<RawTercRow>, simc: seq<RawSimcRow>,
                    ulic: seq<RawUlicRow>, codes: seq<CsvRecord>): Run
  {
    var t0 := CascadedInOrder(t, RESET_ORDER);
    match ReadTerc(terc)
    case Failure(e) => Run(t0, Some(e))
    case Success(levels) =>
      match ReadSimc(simc)
      case Failure(e) => Run(t0, Some(e))
      case Success(miasta) =>
        match ReadUlic(ulic)
        case Failure(e) => Run(t0, Some(e))
        case Success(ulice) =>
          match ReadCodes(codes, PROVINCE_COLUMN)
          case Failure(e) => Run(t0, Some(e))
          case Success(kody) =>
            Load(t0, levels, miasta, ulice, kody)
  }

  /** The six loops as written: the city loop looks the parent parish up by GMI alone. */
  function LoadAsWritten(t0: Tables, levels: TercTables, miasta: seq<SimcRow>, ulice: seq<UlicRow>, kody: seq<CodeRow>): Run
  {
    var r1 := Stage(Run(t0, None), levels.provinces, ProvinceStep);
    var r2 := Stage(r1, levels.counties, CountyStep);
    var r3 := Stage(r2, levels.parishes, ParishStep);
    var r4 := Stage(r3, miasta, CityStepAsWritten);
    var r5 := Stage(r4, ulice, StreetStep);
    Stage(r5, kody, CodeStep)
  }

  /** `populate_db` as written: the postal codes are read under the mis-decoded column name
      and the city loop uses the code-only parent lookup. */
  function PipelineAsWritten(t: Tables, terc: seq<RawTercRow>, simc: seq<RawSimcRow>,
                             ulic: seq<RawUlicRow>, codes: seq<CsvRecord>): Run
  {
    var t0 := CascadedInOrder(t, RESET_ORDER);
    match ReadTerc(terc)
    case Failure(e) => Run(t0, Some(e))
    case Success(levels) =>
      match ReadSimc(simc)
      case Failure(e) => Run(t0, Some(e))
      case Success(miasta) =>
        match ReadUlic(ulic)
        case Failure(e) => Run(t0, Some(e))
        case Success(ulice) =>
          match ReadCodes(codes, MISDECODED_PROVINCE_COLUMN)
          case Failure(e) => Run(t0, Some(e))
          case Success(kody) =>
            LoadAsWritten(t0, levels, miasta, ulice, kody)
  }

  /** As written, a postal-code file with the real header ends the run with KeyError right
      after the reset: no row of any extract is inserted. */
  lemma PipelineAsWrittenInsertsNothing(t: Tables, terc: seq<RawTercRow>, simc: seq<RawSimcRow>,
                                        ulic: seq<RawUlicRow>, codes: seq<CsvRecord>)
    requires |codes| > 0
    requires CODE_COLUMN in codes[0] && PROVINCE_COLUMN in codes[0]
    requires COUNTY_COLUMN in codes[0] && PARISH_COLUMN in codes[0]
    requires MISDECODED_PROVINCE_COLUMN !in codes[0]
    ensures PipelineAsWritten(t, terc, simc, ulic, codes).tables == CascadedInOrder(t, RESET_ORDER)
    ensures PipelineAsWritten(t, terc, simc, ulic, codes).failure.Some?
    ensures ReadTerc(terc).Success? && ReadSimc(simc).Success? && ReadUlic(ulic).Success? ==>
              PipelineAsWritten(t, terc, simc, ulic, codes).failure == Some(KeyError)
  {
    MisdecodedColumnRejectsCodeFile(codes);
  }

  /** A property every step keeps, raising or not, holds wherever a stage stops. */
  lemma {:induction false} AutocommitKeeps<R>(t: Tables, rows: seq<R>, step: (Tables, R) -> Run, inv: Tables -> bool)
    requires inv(t)
    requires forall u: Tables, r: R :: inv(u) ==> inv(step(u, r).tables)
    ensures inv(Autocommit(t, rows, step).tables)
    decreases |rows|
  {
    if rows != [] {
      AutocommitKeeps(t, rows[..|rows| - 1], step, inv);
    }
  }

  /** When every step keeps `inv` and raises `e` exactly on the rows failing `ok`, a stage
      keeps `inv` and raises `e` exactly when some row fails `ok`. */
  lemma {:induction false} AutocommitRaisesIff<R>(t: Tables, rows: seq<R>, step: (Tables, R) -> Run,
                                                  inv: Tables -> bool, ok: R -> bool, e: Error)
    requires inv(t)
    requires forall u: Tables, r: R :: inv(u) ==> inv(step(u, r).tables)
    requires forall u: Tables, r: R :: inv(u) ==> step(u, r).failure == (if ok(r) then None else Some(e))
    ensures inv(Autocommit(t, rows, step).tables)
    ensures Autocommit(t, rows, step).failure == (if forall i :: 0 <= i < |rows| ==> ok(rows[i]) then None else Some(e))
    decreases |rows|
  {
    if rows != [] {
      var init := rows[..|rows| - 1];
      AutocommitRaisesIff(t, init, step, inv, ok, e);
      assert forall i :: 0 <= i < |init| ==> init[i] == rows[i];
    }
  }

  lemma StageKeepsOrmValid<R>(prev: Run, rows: seq<R>, step: (Tables, R) -> Run)
    requires OrmValid(prev.tables)
    requires forall u: Tables, r: R :: OrmValid(u) ==> OrmValid(step(u, r).tables)
    ensures OrmValid(Stage(prev, rows, step).tables)
  {
    if prev.failure.None? {
      AutocommitKeeps(prev.tables, rows, step, (u: Tables) => OrmValid(u));
    }
  }

  lemma ProvinceStepKeepsOrmValid()
    ensures forall u: Tables, r: ProvinceRow :: OrmValid(u) ==> OrmValid(ProvinceStep(u, r).tables)
  {
    forall u: Tables, r: ProvinceRow | OrmValid(u) ensures OrmValid(ProvinceStep(u, r).tables) {
      ProvinceStepKeepsKeys(u, r);
    }
  }

  lemma CountyStepKeepsOrmValid()
    ensures forall u: Tables, r: CountyRow :: OrmValid(u) ==> OrmValid(CountyStep(u, r).tables)
  {
    forall u: Tables, r: CountyRow | OrmValid(u) ensures OrmValid(CountyStep(u, r).tables) {
      CountyStepKeepsKeys(u, r);
    }
  }

  lemma ParishStepKeepsOrmValid()
    ensures forall u: Tables, r: ParishRow :: OrmValid(u) ==> OrmValid(ParishStep(u, r).tables)
  {
    forall u: Tables, r: ParishRow | OrmValid(u) ensures OrmValid(ParishStep(u, r).tables) {
      ParishStepKeepsKeys(u, r);
    }
  }

  lemma CityStepKeepsOrmValid()
    ensures forall u: Tables, r: SimcRow :: OrmValid(u) ==> OrmValid(CityStep(u, r).tables)
  {
    forall u: Tables, r: SimcRow | OrmValid(u) ensures OrmValid(CityStep(u, r).tables) {
      CityStepKeepsKeys(u, r);
    }
  }

  lemma StreetStepKeepsOrmValid()
    ensures forall u: Tables, r: UlicRow :: OrmValid(u) ==> OrmValid(StreetStep(u, r).tables)
  {
    forall u: Tables, r: UlicRow | OrmValid(u) ensures OrmValid(StreetStep(u, r).tables) {
      StreetStepKeepsKeys(u, r);
    }
  }

  lemma CodeStepKeepsOrmValid()
    ensures forall u: Tables, r: CodeRow :: OrmValid(u) ==> OrmValid(CodeStep(u, r).tables)
  {
    forall u: Tables, r: CodeRow | OrmValid(u) ensures OrmValid(CodeStep(u, r).tables) {
      CodeStepKeepsKeys(u, r);
    }
  }

  /** The six stages keep `OrmValid` wherever the run stops. */
  lemma LoadKeepsOrmValid(t0: Tables, levels: TercTables, miasta: seq<SimcRow>, ulice: seq<UlicRow>, kody: seq<CodeRow>)
    requires OrmValid(t0)
    ensures OrmValid(Load(t0, levels, miasta, ulice, kody).tables)
  {
    ProvinceStepKeepsOrmValid();
    CountyStepKeepsOrmValid();
    ParishStepKeepsOrmValid();
    CityStepKeepsOrmValid();
    StreetStepKeepsOrmValid();
    CodeStepKeepsOrmValid();
    var r1 := Stage(Run(t0, None), levels.provinces, ProvinceStep);
    StageKeepsOrmValid(Run(t0, None), levels.provinces, ProvinceStep);
    var r2 := Stage(r1, levels.counties, CountyStep);
    StageKeepsOrmValid(r1, levels.counties, CountyStep);
    var r3 := Stage(r2, levels.parishes, ParishStep);
    StageKeepsOrmValid(r2, levels.parishes, ParishStep);
    var r4 := Stage(r3, miasta, CityStep);
    StageKeepsOrmValid(r3, miasta, CityStep);
    var r5 := Stage(r4, ulice, StreetStep);
    StageKeepsOrmValid(r4, ulice, StreetStep);
    StageKeepsOrmValid(r5, kody, CodeStep);
  }

  /** Whatever the extracts hold and wherever the run stops, the ORM run leaves a
      consistent database with one row per natural key: the reset empties every table,
      and no step, raising or not, breaks either property. */
  lemma PipelineKeepsOrmValid(t: Tables, terc: seq<RawTercRow>, simc: seq<RawSimcRow>,
                              ulic: seq<RawUlicRow>, codes: seq<CsvRecord>)
    ensures OrmValid(Pipeline(t, terc, simc, ulic, codes).tables)
  {
    var t0 := CascadedInOrder(t, RESET_ORDER);
    ResetOrderCoversEveryTable();
    CascadedEveryTable(t, RESET_ORDER);
    EmptyIsConsistent(t.nextId);
    assert OrmValid(t0);
    var levels := ReadTerc(terc);
    var miasta := ReadSimc(simc);
    var ulice := ReadUlic(ulic);
    var kody := ReadCodes(codes, PROVINCE_COLUMN);
    if levels.Success? && miasta.Success? && ulice.Success? && kody.Success? {
      LoadKeepsOrmValid(t0, levels.value, miasta.value, ulice.value, kody.value);
    }
  }

  // ---- the loader on the database object ---------------------------------------

  /** `_clear_tables`: the seven deletes in the source's order, each cascading. */
  method ClearTables(db: Database)
    requires db.Valid()
    modifies db
    ensures db.Valid()
    ensures db.State() == CascadedInOrder(old(db.State()), RESET_ORDER) == EmptyTables(old(db.nextId))
  {
    ghost var t := db.State();
    assert RESET_ORDER[..0] == [];
    ResetStep(t, 0);
    db.DeleteAll(Parishes);
    assert db.State() == CascadedInOrder(t, RESET_ORDER[..1]);
    ResetStep(t, 1);
    db.DeleteAll(ParishPostalCodes);
    assert db.State() == CascadedInOrder(t, RESET_ORDER[..2]);
    ResetStep(t, 2);
    db.DeleteAll(PostalCodes);
    assert db.State() == CascadedInOrder(t, RESET_ORDER[..3]);
    ResetStep(t, 3);
    db.DeleteAll(Cities);
    assert db.State() == CascadedInOrder(t, RESET_ORDER[..4]);
    ResetStep(t, 4);
    db.DeleteAll(Streets);
    assert db.State() == CascadedInOrder(t, RESET_ORDER[..5]);
    ResetStep(t, 5);
    db.DeleteAll(Counties);
    assert db.State() == CascadedInOrder(t, RESET_ORDER[..6]);
    ResetStep(t, 6);
    db.DeleteAll(Provinces);
    assert db.State() == CascadedInOrder(t, RESET_ORDER[..7]);
    assert RESET_ORDER[..7] == RESET_ORDER;
    ResetOrderCoversEveryTable();
    CascadedEveryTable(t, RESET_ORDER);
    EmptyIsConsistent(t.nextId);
  }

  /** `Province.objects.get_or_create(code=...)` for one TERC province row. */
  method GetOrCreateProvince(db: Database, row: ProvinceRow) returns (failure: Option<Error>)
    requires db.Valid()
    modifies db
    ensures db.Valid()
    ensures Run(db.State(), failure) == ProvinceStep(old(db.State()), row)
  {
    ghost var u := db.State();
    var found := ProvinceByCode(db.provinces, row.kod);
    if found == Failure(DoesNotExist) {
      var p := Province(row.kod, row.nazwa, row.stanNa);
      assert ProvinceStep(u, row) == Run(WithProvince(u, p), None);
      WithProvinceConsistent(u, p);
      var _ := db.InsertProvince(p);
      failure := None;
    } else if found.Failure? {
      assert ProvinceStep(u, row) == Run(u, Some(found.error));
      failure := Some(found.error);
    } else {
      assert ProvinceStep(u, row) == Run(u, None);
      failure := None;
    }
  }

  method InsertProvinces(db: Database, rows: seq<ProvinceRow>) returns (failure: Option<Error>)
    requires db.Valid()
    modifies db
    ensures db.Valid()
    ensures Run(db.State(), failure) == Autocommit(old(db.State()), rows, ProvinceStep)
  {
    ghost var t0 := db.State();
    for i := 0 to |rows|
      invariant db.Valid()
      invariant Autocommit(t0, rows[..i], ProvinceStep) == Run(db.State(), None)
    {
      AutocommitNext(t0, rows, i, ProvinceStep);
      var rowFailure := GetOrCreateProvince(db, rows[i]);
      if rowFailure.Some? {
        AutocommitStopsAtFailure(t0, rows, i + 1, ProvinceStep);
        return rowFailure;
      }
    }
    assert rows[..|rows|] == rows;
    failure := None;
  }

  /** The province lookup and `County.objects.get_or_create` for one TERC county row. */
  method GetOrCreateCounty(db: Database, row: CountyRow) returns (failure: Option<Error>)
    requires db.Valid()
    modifies db
    ensures db.Valid()
    ensures Run(db.State(), failure) == CountyStep(old(db.State()), row)
  {
    ghost var u := db.State();
    var province := ProvinceByCode(db.provinces, row.kodWoj);
    if province.Failure? {
      assert CountyStep(u, row) == Run(u, Some(province.error));
      return Some(province.error);
    }
    var found := CountyByKey(db.counties, row.kodPow, province.value);
    if found == Failure(DoesNotExist) {
      var c := County(row.kodPow, province.value, row.nazwa, row.stanNa);
      assert CountyStep(u, row) == Run(WithCounty(u, c), None);
      WithCountyConsistent(u, c);
      var _ := db.InsertCounty(c);
      failure := None;
    } else if found.Failure? {
      assert CountyStep(u, row) == Run(u, Some(found.error));
      failure := Some(found.error);
    } else {
      assert CountyStep(u, row) == Run(u, None);
      failure := None;
    }
  }

  method InsertCounties(db: Database, rows: seq<CountyRow>) returns (failure: Option<Error>)
    requires db.Valid()
    modifies db
    ensures db.Valid()
    ensures Run(db.State(), failure) == Autocommit(old(db.State()), rows, CountyStep)
  {
    ghost var t0 := db.State();
    for i := 0 to |rows|
      invariant db.Valid()
      invariant Autocommit(t0, rows[..i], CountyStep) == Run(db.State(), None)
    {
      AutocommitNext(t0, rows, i, CountyStep);
      var rowFailure := GetOrCreateCounty(db, rows[i]);
      if rowFailure.Some? {
        AutocommitStopsAtFailure(t0, rows, i + 1, CountyStep);
        return rowFailure;
      }
    }
    assert rows[..|rows|] == rows;
    failure := None;
  }

  /** The county lookup and `Parish.objects.get_or_create` for one TERC parish row. */
  method GetOrCreateParish(db: Database, row: ParishRow) returns (failure: Option<Error>)
    requires db.Valid()
    modifies db
    ensures db.Valid()
    ensures Run(db.State(), failure) == ParishStep(old(db.State()), row)
  {
    ghost var u := db.State();
    var county := CountyByCodes(db.provinces, db.counties, row.kodWoj, row.kodPow);
    if county.Failure? {
      assert ParishStep(u, row) == Run(u, Some(county.error));
      return Some(county.error);
    }
    var found := ParishByKey(db.parishes, row.kodGmi, county.value);
    if found == Failure(DoesNotExist) {
      if row.rodzaj.None? {
        assert ParishStep(u, row) == Run(u, Some(InvalidValue));
        return Some(InvalidValue);
      }
      var g := Parish(row.kodGmi, county.value, row.nazwa, row.rodzaj.value, row.typJednostki, row.stanNa);
      assert ParishStep(u, row) == Run(WithParish(u, g), None);
      WithParishConsistent(u, g);
      var _ := db.InsertParish(g);
      failure := None;
    } else if found.Failure? {
      assert ParishStep(u, row) == Run(u, Some(found.error));
      failure := Some(found.error);
    } else {
      assert ParishStep(u, row) == Run(u, None);
      failure := None;
    }
  }

  method InsertParishes(db: Database, rows: seq<ParishRow>) returns (failure: Option<Error>)
    requires db.Valid()
    modifies db
    ensures db.Valid()
    ensures Run(db.State(), failure) == Autocommit(old(db.State()), rows, ParishStep)
  {
    ghost var t0 := db.State();
    for i := 0 to |rows|
      invariant db.Valid()
      invariant Autocommit(t0, rows[..i], ParishStep) == Run(db.State(), None)
    {
      AutocommitNext(t0, rows, i, ParishStep);
      var rowFailure := GetOrCreateParish(db, rows[i]);
      if rowFailure.Some? {
        AutocommitStopsAtFailure(t0, rows, i + 1, ParishStep);
        return rowFailure;
      }
    }
    assert rows[..|rows|] == rows;
    failure := None;
  }

  /** `City.objects.get_or_create(id=SYM, parish=...)` under a resolved parish. */
  method GetOrCreateCity(db: Database, row: SimcRow, parishId: nat) returns (failure: Option<Error>)
    requires db.Valid() && parishId in Ids(db.parishes)
    modifies db
    ensures db.Valid()
    ensures Run(db.State(), failure) == CreateCity(old(db.State()), row, parishId)
  {
    ghost var u := db.State();
    var found := CityByKey(db.cities, row.sym, parishId);
    assert found != Failure(MultipleObjectsReturned);
    if found.Success? {
      return None;
    }
    if CityById(db.cities, row.sym) != Failure(DoesNotExist) {
      return Some(IntegrityError);
    }
    var c := City(row.sym, parishId, row.nazwa, row.sympod, row.stanNa);
    assert CreateCity(u, row, parishId) == Run(WithCity(u, c), None);
    CityIdAbsent(db.cities, row.sym);
    WithCityConsistent(u, c);
    db.InsertCity(c);
    failure := None;
  }

  /** `_insert_cities`, its parent parish looked up by (WOJ, POW, GMI). */
  method InsertCities(db: Database, rows: seq<SimcRow>) returns (failure: Option<Error>)
    requires db.Valid()
    modifies db
    ensures db.Valid()
    ensures Run(db.State(), failure) == Autocommit(old(db.State()), rows, CityStep)
  {
    ghost var t0 := db.State();
    for i := 0 to |rows|
      invariant db.Valid()
      invariant Autocommit(t0, rows[..i], CityStep) == Run(db.State(), None)
    {
      AutocommitNext(t0, rows, i, CityStep);
      var row := rows[i];
      ghost var u := db.State();
      var parish := ParishByCodes(db.provinces, db.counties, db.parishes, row.woj, row.pow, row.gmi);
      if parish.Failure? {
        assert CityStep(u, row) == Run(u, Some(parish.error));
        AutocommitStopsAtFailure(t0, rows, i + 1, CityStep);
        return Some(parish.error);
      }
      assert CityStep(u, row) == CreateCity(u, row, parish.value);
      var createFailure := GetOrCreateCity(db, row, parish.value);
      if createFailure.Some? {
        AutocommitStopsAtFailure(t0, rows, i + 1, CityStep);
        return createFailure;
      }
    }
    assert rows[..|rows|] == rows;
    failure := None;
  }

  /** The city lookup and `Street.objects.get_or_create` for one ULIC row. */
  method GetOrCreateStreet(db: Database, row: UlicRow) returns (failure: Option<Error>)
    requires db.Valid()
    modifies db
    ensures db.Valid()
    ensures Run(db.State(), failure) == StreetStep(old(db.State()), row)
  {
    ghost var u := db.State();
    var city := CityById(db.cities, row.sym);
    if city.Failure? {
      assert StreetStep(u, row) == Run(u, Some(city.error));
      return Some(city.error);
    }
    var cityId := db.cities[city.value].id;
    CityIdInIds(db.cities, city.value);
    var found := StreetByKey(db.streets, row.symUl, cityId);
    if found == Failure(DoesNotExist) {
      var st := Street(row.symUl, cityId, row.nazwa1, Some(row.nazwa2), row.cecha, row.stanNa);
      assert StreetStep(u, row) == Run(WithStreet(u, st), None);
      WithStreetConsistent(u, st);
      var _ := db.InsertStreet(st);
      failure := None;
    } else if found.Failure? {
      assert StreetStep(u, row) == Run(u, Some(found.error));
      failure := Some(found.error);
    } else {
      assert StreetStep(u, row) == Run(u, None);
      failure := None;
    }
  }

  method InsertStreets(db: Database, rows: seq<UlicRow>) returns (failure: Option<Error>)
    requires db.Valid()
    modifies db
    ensures db.Valid()
    ensures Run(db.State(), failure) == Autocommit(old(db.State()), rows, StreetStep)
  {
    ghost var t0 := db.State();
    for i := 0 to |rows|
      invariant db.Valid()
      invariant Autocommit(t0, rows[..i], StreetStep) == Run(db.State(), None)
    {
      AutocommitNext(t0, rows, i, StreetStep);
      var rowFailure := GetOrCreateStreet(db, rows[i]);
      if rowFailure.Some? {
        AutocommitStopsAtFailure(t0, rows, i + 1, StreetStep);
        return rowFailure;
      }
    }
    assert rows[..|rows|] == rows;
    failure := None;
  }

  /** The `try` block of `_insert_codes`: link the parish bearing the name to the code. */
  method LinkCode(db: Database, gmina: string, codeId: nat) returns (failure: Option<Error>)
    requires db.Valid() && codeId in Ids(db.postalCodes)
    modifies db
    ensures db.Valid()
    ensures Run(db.State(), failure) == LinkStep(old(db.State()), gmina, codeId)
  {
    ghost var u := db.State();
    var parish := ParishByName(db.parishes, gmina);
    if parish == Failure(DoesNotExist) {
      assert LinkStep(u, gmina, codeId) == Run(u, None);
      return None;
    }
    if parish.Failure? {
      assert LinkStep(u, gmina, codeId) == Run(u, Some(parish.error));
      return Some(parish.error);
    }
    var found := LinkByPair(db.links, parish.value, codeId);
    if found == Failure(DoesNotExist) {
      var l := ParishPostalCode(parish.value, codeId);
      assert LinkStep(u, gmina, codeId) == Run(WithLink(u, l), None);
      WithLinkConsistent(u, l);
      var _ := db.InsertLink(l);
      failure := None;
    } else if found.Failure? {
      assert LinkStep(u, gmina, codeId) == Run(u, Some(found.error));
      failure := Some(found.error);
    } else {
      assert LinkStep(u, gmina, codeId) == Run(u, None);
      failure := None;
    }
  }

  /** `_insert_codes`: the postal code is committed before its parish is looked up, so a
      row that raises leaves its code behind. */
  method InsertCodes(db: Database, rows: seq<CodeRow>) returns (failure: Option<Error>)
    requires db.Valid()
    modifies db
    ensures db.Valid()
    ensures Run(db.State(), failure) == Autocommit(old(db.State()), rows, CodeStep)
  {
    ghost var t0 := db.State();
    for i := 0 to |rows|
      invariant db.Valid()
      invariant Autocommit(t0, rows[..i], CodeStep) == Run(db.State(), None)
    {
      AutocommitNext(t0, rows, i, CodeStep);
      var row := rows[i];
      ghost var u := db.State();
      var code := PostalCodeByCode(db.postalCodes, row.kod);
      var codeId: nat;
      if code.Success? {
        codeId := code.value;
        assert CodeStep(u, row) == LinkStep(u, row.gmina, codeId);
      } else {
        assert code == Failure(DoesNotExist);
        WithPostalCodeConsistent(u, PostalCode(row.kod));
        codeId := db.InsertPostalCode(PostalCode(row.kod));
        assert CodeStep(u, row) == LinkStep(db.State(), row.gmina, codeId);
      }
      var linkFailure := LinkCode(db, row.gmina, codeId);
      if linkFailure.Some? {
        AutocommitStopsAtFailure(t0, rows, i + 1, CodeStep);
        return linkFailure;
      }
    }
    assert rows[..|rows|] == rows;
    failure := None;
  }

  /** The six loops run one after the other, stopping at the first that raises. */
  method LoadExtracts(db: Database, levels: TercTables, miasta: seq<SimcRow>, ulice: seq<UlicRow>, kody: seq<CodeRow>)
    returns (failure: Option<Error>)
    requires db.Valid()
    modifies db
    ensures db.Valid()
    ensures Run(db.State(), failure) == Load(old(db.State()), levels, miasta, ulice, kody)
  {
    failure := InsertProvinces(db, levels.provinces);
    if failure.Some? { return; }
    failure := InsertCounties(db, levels.counties);
    if failure.Some? { return; }
    failure := InsertParishes(db, levels.parishes);
    if failure.Some? { return; }
    failure := InsertCities(db, miasta);
    if failure.Some? { return; }
    failure := InsertStreets(db, ulice);
    if failure.Some? { return; }
    failure := InsertCodes(db, kody);
  }

  /** `populate_db`; the run leaves one row per natural key whatever the extracts hold. */
  method PopulateDb(db: Database, terc: seq<RawTercRow>, simc: seq<RawSimcRow>,
                    ulic: seq<RawUlicRow>, codes: seq<CsvRecord>) returns (failure: Option<Error>)
    requires db.Valid()
    modifies db
    ensures db.Valid() && OrmValid(db.State())
    ensures Run(db.State(), failure) == Pipeline(old(db.State()), terc, simc, ulic, codes)
  {
    ghost var t := db.State();
    PipelineKeepsOrmValid(t, terc, simc, ulic, codes);
    ClearTables(db);
    var levels := ReadTerc(terc);
    if levels.Failure? { return Some(levels.error); }
    var miasta := ReadSimc(simc);
    if miasta.Failure? { return Some(miasta.error); }
    var ulice := ReadUlic(ulic);
    if ulice.Failure? { return Some(ulice.error); }
    var kody := ReadCodes(codes, PROVINCE_COLUMN);
    if kody.Failure? { return Some(kody.error); }
    failure := LoadExtracts(db, levels.value, miasta.value, ulice.value, kody.value);
  }
}
