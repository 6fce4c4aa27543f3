/** The raw-SQL loader of read_data.py. Each `_insert_*` stage runs inside
    `with self.conn:`, so an exception rolls the whole stage back; rows are
    inserted without checking for an existing key (except postal codes and
    their links); a parent that the SELECT does not find makes
    `fetchone()[0]` raise. */
module SqlLoader {
  import opened Base
  import opened Extract
  import opened Store

  // ---- queries -------------------------------------------------------------

  /** `SELECT id FROM wojewodztwa WHERE kod = %s` */
  function ProvinceIdByCode(provinces: seq<Row<Province>>, kod: string): (r: Option<nat>)
    ensures r.Some? ==> r.value in Ids(provinces) && ProvinceHasCode(provinces, r.value, kod)
    ensures r.None? <==> forall p :: p in provinces ==> p.val.code != kod
  {
    match FirstIndex(provinces, (p: Row<Province>) => p.val.code == kod)
    case None => None
    case Some(i) => RowIdInIds(provinces, i); Some(provinces[i].id)
  }

  /** `SELECT p.id FROM powiaty p JOIN wojewodztwa w ON w.id = p.wojewodztwo_id WHERE w.kod = %s AND p.kod = %s` */
  function CountyIdByCodes(t: Tables, kodWoj: string, kodPow: string): (r: Option<nat>)
    ensures r.Some? ==> r.value in Ids(t.counties) && CountyHasCodes(t.provinces, t.counties, r.value, kodWoj, kodPow)
    ensures r.None? <==> forall c :: c in t.counties ==> !CountyHasCodes(t.provinces, t.counties, c.id, kodWoj, kodPow)
  {
    match FirstIndex(t.counties, (c: Row<County>) => c.val.code == kodPow && ProvinceHasCode(t.provinces, c.val.provinceId, kodWoj))
    case None => None
    case Some(i) => RowIdInIds(t.counties, i); Some(t.counties[i].id)
  }

  /** The parish with this id has code `kodGmi` and type `rodzaj`, in county `kodPow` of province `kodWoj`. */
  predicate ParishHasKey(t: Tables, id: nat, kodWoj: string, kodPow: string, kodGmi: string, rodzaj: nat)
  {
    exists i :: 0 <= i < |t.parishes| && t.parishes[i].id == id && t.parishes[i].val.code == kodGmi
      && t.parishes[i].val.parishType == rodzaj && CountyHasCodes(t.provinces, t.counties, t.parishes[i].val.countyId, kodWoj, kodPow)
  }

  /** `SELECT g.id FROM gminy g JOIN powiaty p ... JOIN wojewodztwa w ...
      WHERE w.kod = %s AND p.kod = %s AND g.kod = %s AND g.rodzaj = %s` */
  function ParishIdByKey(t: Tables, kodWoj: string, kodPow: string, kodGmi: string, rodzaj: nat): (r: Option<nat>)
    ensures r.Some? ==> r.value in Ids(t.parishes) && ParishHasKey(t, r.value, kodWoj, kodPow, kodGmi, rodzaj)
    ensures r.None? <==> forall g :: g in t.parishes ==> !ParishHasKey(t, g.id, kodWoj, kodPow, kodGmi, rodzaj)
  {
    match FirstIndex(t.parishes, (g: Row<Parish>) => g.val.code == kodGmi && g.val.parishType == rodzaj
                                                     && CountyHasCodes(t.provinces, t.counties, g.val.countyId, kodWoj, kodPow))
    case None => None
    case Some(i) => RowIdInIds(t.parishes, i); Some(t.parishes[i].id)
  }

  /** `SELECT m.id FROM miasta m WHERE m.id = %s` */
  function CityIdById(cities: seq<City>, sym: string): (r: Option<string>)
    ensures r.Some? ==> r.value == sym && sym in CityIds(cities)
    ensures r.None? <==> sym !in CityIds(cities)
  {
    match FirstIndex(cities, (c: City) => c.id == sym)
    case None => None
    case Some(i) => CityIdInIds(cities, i); Some(sym)
  }

  /** `SELECT id FROM kod_pocztowy WHERE kod = %s` */
  function PostalCodeIdByCode(postalCodes: seq<Row<PostalCode>>, kod: string): (r: Option<nat>)
    ensures r.Some? ==> r.value in Ids(postalCodes)
    ensures r.Some? ==> exists p :: p in postalCodes && p.id == r.value && p.val.code == kod
    ensures r.None? <==> forall p :: p in postalCodes ==> p.val.code != kod
  {
    match FirstIndex(postalCodes, (p: Row<PostalCode>) => p.val.code == kod)
    case None => None
    case Some(i) => RowIdInIds(postalCodes, i); assert postalCodes[i] in postalCodes; Some(postalCodes[i].id)
  }

  /** Province `w` is the first one, in insertion order, named `name`: the row
      `SELECT id FROM wojewodztwa WHERE nazwa = %s` fetches. */
  predicate FirstProvinceNamed(provinces: seq<Row<Province>>, w: int, name: string)
  {
    && 0 <= w < |provinces| && provinces[w].val.name == name
    && forall j :: 0 <= j < w ==> provinces[j].val.name != name
  }

  /** County `p` is the first one named `name` within the province with id `provinceId`. */
  predicate FirstCountyNamed(counties: seq<Row<County>>, p: int, name: string, provinceId: nat)
  {
    && 0 <= p < |counties| && counties[p].val.name == name && counties[p].val.provinceId == provinceId
    && forall j :: 0 <= j < p ==> !(counties[j].val.name == name && counties[j].val.provinceId == provinceId)
  }

  /** Parish `g` is the first one named `name` within the county with id `countyId`. */
  predicate FirstParishNamed(parishes: seq<Row<Parish>>, g: int, name: string, countyId: nat)
  {
    && 0 <= g < |parishes| && parishes[g].val.name == name && parishes[g].val.countyId == countyId
    && forall j :: 0 <= j < g ==> !(parishes[j].val.name == name && parishes[j].val.countyId == countyId)
  }

  /** The three SELECTs of `_insert_codes` all find a row: province `w` by name, then
      county `p` by name within it, then parish `g` by name within that county. */
  predicate NameChain(provinces: seq<Row<Province>>, counties: seq<Row<County>>, parishes: seq<Row<Parish>>,
                      wojewodztwo: string, powiat: string, gmina: string, w: int, p: int, g: int)
  {
    && FirstProvinceNamed(provinces, w, wojewodztwo)
    && FirstCountyNamed(counties, p, powiat, provinces[w].id)
    && FirstParishNamed(parishes, g, gmina, counties[p].id)
  }

  /** The name chain of `_insert_codes`. A step that finds nothing ends the chain (the
      `TypeError` the loop catches). */
  function ParishIdByNames(provinces: seq<Row<Province>>, counties: seq<Row<County>>, parishes: seq<Row<Parish>>,
                           wojewodztwo: string, powiat: string, gmina: string): (r: Option<nat>)
    ensures r.Some? ==> r.value in Ids(parishes)
    ensures r.Some? ==> exists w, p, g :: NameChain(provinces, counties, parishes, wojewodztwo, powiat, gmina, w, p, g)
                                          && r.value == parishes[g].id
    ensures r.None? <==> forall w, p, g :: !NameChain(provinces, counties, parishes, wojewodztwo, powiat, gmina, w, p, g)
  {
    match FirstIndex(provinces, (w: Row<Province>) => w.val.name == wojewodztwo)
    case None => None
    case Some(w) =>
      var wojId := provinces[w].id;
      assert forall w' :: FirstProvinceNamed(provinces, w', wojewodztwo) ==> w' == w;
      match FirstIndex(counties, (p: Row<County>) => p.val.name == powiat && p.val.provinceId == wojId)
      case None => None
      case Some(p) =>
        var powId := counties[p].id;
        assert forall p' :: FirstCountyNamed(counties, p', powiat, wojId) ==> p' == p;
        match FirstIndex(parishes, (g: Row<Parish>) => g.val.name == gmina && g.val.countyId == powId)
        case None => None
        case Some(g) =>
          assert NameChain(provinces, counties, parishes, wojewodztwo, powiat, gmina, w, p, g);
          RowIdInIds(parishes, g); Some(parishes[g].id)
  }

  /** `SELECT id FROM gmina_kod_pocztowy WHERE gmina_id = %s AND kod_id = %s` */
  function LinkIdByPair(links: seq<Row<ParishPostalCode>>, gminaId: nat, kodId: nat): (r: Option<nat>)
    ensures r.None? <==> forall l :: l in links ==> l.val != ParishPostalCode(gminaId, kodId)
  {
    match FirstIndex(links, (l: Row<ParishPostalCode>) => l.val == ParishPostalCode(gminaId, kodId))
    case None => None
    case Some(i) => Some(links[i].id)
  }

  // ---- one loop iteration of each stage --------------------------------------

  /** `_insert_woj`: INSERT, no lookup, no deduplication. */
  function WojStep(t: Tables, row: ProvinceRow): Result<Tables>
  {
    Success(WithProvince(t, Province(row.kod, row.nazwa, row.stanNa)))
  }

  /** `_insert_pow`: the province by code, then INSERT. */
  function PowStep(t: Tables, row: CountyRow): Result<Tables>
  {
    match ProvinceIdByCode(t.provinces, row.kodWoj)
    case None => Failure(NoRowFound)
    case Some(wojId) => Success(WithCounty(t, County(row.kodPow, wojId, row.nazwa, row.stanNa)))
  }

  /** `_insert_gmina`: the county by (province code, county code), then INSERT;
      an empty RODZ cannot be stored in `rodzaj INT NOT NULL`. */
  function GminaStep(t: Tables, row: ParishRow): Result<Tables>
  {
    match CountyIdByCodes(t, row.kodWoj, row.kodPow)
    case None => Failure(NoRowFound)
    case Some(powId) =>
      match row.rodzaj
      case None => Failure(InvalidValue)
      case Some(rodzaj) => Success(WithParish(t, Parish(row.kodGmi, powId, row.nazwa, rodzaj, row.typJednostki, row.stanNa)))
  }

  /** `_insert_miasta`: the parish by (WOJ, POW, GMI, RODZ_GMI), then INSERT with SYM as the
      primary key (a SYM already present violates it). SYMPOD is stored unchecked. */
  function MiastoStep(t: Tables, row: SimcRow): Result<Tables>
  {
    match ParishIdByKey(t, row.woj, row.pow, row.gmi, row.rodzGmi)
    case None => Failure(NoRowFound)
    case Some(gminaId) =>
      if CityIdById(t.cities, row.sym).Some? then Failure(IntegrityError)
      else Success(WithCity(t, City(row.sym, gminaId, row.nazwa, row.sympod, row.stanNa)))
  }

  /** `nazwa2` is left NULL when NAZWA_2 is empty (`if not row['NAZWA_2']`). */
  function Nazwa2Column(nazwa2: string): (r: Option<string>)
    ensures r.None? <==> nazwa2 == ""
    ensures r.Some? ==> r.value == nazwa2
  {
    if nazwa2 == "" then None else Some(nazwa2)
  }

  /** `_insert_ulice`: the city by id, then INSERT. */
  function UlicaStep(t: Tables, row: UlicRow): Result<Tables>
  {
    match CityIdById(t.cities, row.sym)
    case None => Failure(NoRowFound)
    case Some(miastoId) =>
      Success(WithStreet(t, Street(row.symUl, miastoId, row.nazwa1, Nazwa2Column(row.nazwa2), row.cecha, row.stanNa)))
  }

  /** `_insert_codes`: reuse or insert the postal code, resolve the parish by the name chain,
      and add the (gmina, kod) link when the chain resolves and the link is absent. */
  function CodeStep(t: Tables, row: CodeRow): Result<Tables>
  {
    var existing := PostalCodeIdByCode(t.postalCodes, row.kod);
    var t1 := if existing.None? then WithPostalCode(t, PostalCode(row.kod)) else t;
    var kodId := if existing.None? then t.nextId else existing.value;
    match ParishIdByNames(t.provinces, t.counties, t.parishes, row.wojewodztwo, row.powiat, row.gmina)
    case None => Success(t1)
    case Some(gminaId) =>
      if LinkIdByPair(t.links, gminaId, kodId).Some? then Success(t1)
      else Success(WithLink(t1, ParishPostalCode(gminaId, kodId)))
  }

  /** `with self.conn:` commits a stage that finished and rolls back one that raised; the
      rollback leaves the SERIAL counter where the stage left it. */
  function Transaction(t: Tables, run: Run): Run
  {
    if run.failure.None? then run else Run(RolledBack(t, run.tables.nextId), run.failure)
  }

  /** A stage of `populate_db`, run only if every earlier stage succeeded. */
  function Stage<R>(prev: Run, rows: seq<R>, step: (Tables, R) -> Result<Tables>): Run
  {
    if prev.failure.Some? then prev else Transaction(prev.tables, Replay(prev.tables, rows, step))
  }

  /** `_clear_tables`: children before parents. */
  const RESET_ORDER: seq<TableName> := [Streets, ParishPostalCodes, PostalCodes, Cities, Parishes, Counties, Provinces]

  /** Every intermediate state of `_clear_tables` is referentially consistent, and each
      table is deleted only after every table that references it is empty. */
  lemma {:induction false} ResetOrderKeepsReferences(t: Tables, k: nat)
    requires Consistent(t) && k <= |RESET_ORDER|
    ensures Consistent(ClearedInOrder(t, RESET_ORDER[..k]))
    ensures k < |RESET_ORDER| ==> ReferrersEmpty(ClearedInOrder(t, RESET_ORDER[..k]), RESET_ORDER[k])
  {
    if k > 0 {
      ResetOrderKeepsReferences(t, k - 1);
      assert RESET_ORDER[..k] == RESET_ORDER[..k - 1] + [RESET_ORDER[k - 1]];
      ClearedInOrderSnoc(t, RESET_ORDER[..k - 1], RESET_ORDER[k - 1]);
      ClearedConsistent(ClearedInOrder(t, RESET_ORDER[..k - 1]), RESET_ORDER[k - 1]);
    }
    if k < |RESET_ORDER| {
      ResetOrderEmptiesReferrers(t, k);
    }
  }

  lemma ResetOrderEmptiesReferrers(t: Tables, k: nat)
    requires k < |RESET_ORDER|
    ensures ReferrersEmpty(ClearedInOrder(t, RESET_ORDER[..k]), RESET_ORDER[k])
  {
    var before := RESET_ORDER[..k];
    if k == 2 || k == 4 {
      assert before[1] == ParishPostalCodes;
      ClearedKeepsEmpty(t, before, ParishPostalCodes);
    }
    if k == 3 {
      assert before[0] == Streets;
      ClearedKeepsEmpty(t, before, Streets);
    }
    if k == 4 {
      assert before[3] == Cities;
      ClearedKeepsEmpty(t, before, Cities);
    }
    if k == 5 {
      assert before[4] == Parishes;
      ClearedKeepsEmpty(t, before, Parishes);
    }
    if k == 6 {
      assert before[5] == Counties;
      ClearedKeepsEmpty(t, before, Counties);
    }
  }

  /** The deletes of `_clear_tables` never reach the ON DELETE CASCADE clauses: each one,
      run with the cascade, removes exactly its own table. */
  lemma ResetStepNeedsNoCascade(t: Tables, k: nat)
    requires Consistent(t) && k < |RESET_ORDER|
    ensures Cascaded(ClearedInOrder(t, RESET_ORDER[..k]), RESET_ORDER[k]) == ClearedInOrder(t, RESET_ORDER[..k + 1])
  {
    ResetOrderKeepsReferences(t, k);
    CascadeNotNeeded(ClearedInOrder(t, RESET_ORDER[..k]), RESET_ORDER[k]);
    assert RESET_ORDER[..k + 1] == RESET_ORDER[..k] + [RESET_ORDER[k]];
    ClearedInOrderSnoc(t, RESET_ORDER[..k], RESET_ORDER[k]);
  }

  lemma ResetOrderCoversEveryTable()
    ensures forall n: TableName :: n in RESET_ORDER
  {
    forall n: TableName ensures n in RESET_ORDER {
      match n
      case Streets => assert RESET_ORDER[0] == n;
      case ParishPostalCodes => assert RESET_ORDER[1] == n;
      case PostalCodes => assert RESET_ORDER[2] == n;
      case Cities => assert RESET_ORDER[3] == n;
      case Parishes => assert RESET_ORDER[4] == n;
      case Counties => assert RESET_ORDER[5] == n;
      case Provinces => assert RESET_ORDER[6] == n;
    }
  }

  /** The six insert stages of `populate_db`, in order, on the extracts as read. */
  function Load(t0: Tables, levels: TercTables, miasta: seq<SimcRow>, ulice: seq<UlicRow>, kody: seq<CodeRow>): Run
  {
    var r1 := Stage(Run(t0, None), levels.provinces, WojStep);
    var r2 := Stage(r1, levels.counties, PowStep);
    var r3 := Stage(r2, levels.parishes, GminaStep);
    var r4 := Stage(r3, miasta, MiastoStep);
    var r5 := Stage(r4, ulice, UlicaStep);
    Stage(r5, kody, CodeStep)
  }

  /** `populate_db`: reset, read the four extracts, then the six insert stages in order. */
  function Pipeline(t: Tables, terc: seq<RawTercRow>, simc: seq<RawSimcRow>,
                    ulic: seq<RawUlicRow>, codes: seq<CsvRecord>): Run
  {
    var t0 := ClearedInOrder(t, RESET_ORDER);
    match ReadTerc(terc)
    case Failure(e) => Run(t0, Some(e))
    case Success(levels) =>
      match ReadSimc(simc)
      case Failure(e) => Run(t0, Some(e))
      case Success(miasta) =>
        match ReadUlic(ulic)
        case Failure(e) => Run(t0, Some(e))
        case Success(ulice) =>
          match ReadCodes(codes, PROVINCE_COLUMN)
          case Failure(e) => Run(t0, Some(e))
          case Success(kody) =>
            Load(t0, levels, miasta, ulice, kody)
  }

  // ---- what the stages promise ----------------------------------------------

  /** `wojewodztwa.kod` carries no UNIQUE constraint: every row of the stage becomes a new
      province, in order, under consecutive ids, and nothing else changes. */
  lemma {:induction false} WojStageAppendsEveryRow(t: Tables, rows: seq<ProvinceRow>)
    ensures Replay(t, rows, WojStep).failure.None?
    ensures var u := Replay(t, rows, WojStep).tables;
      && |u.provinces| == |t.provinces| + |rows|
      && u.provinces[..|t.provinces|] == t.provinces
      && (forall i :: 0 <= i < |rows| ==>
            u.provinces[|t.provinces| + i] == Row(t.nextId + i, Province(rows[i].kod, rows[i].nazwa, rows[i].stanNa)))
      && u.nextId == t.nextId + |rows|
      && u == t.(provinces := u.provinces, nextId := u.nextId)
    decreases |rows|
  {
    if rows != [] {
      var init := rows[..|rows| - 1];
      WojStageAppendsEveryRow(t, init);
      var u := Replay(t, init, WojStep).tables;
      var v := Replay(t, rows, WojStep).tables;
      assert v.provinces == u.provinces + [Row(u.nextId, Province(rows[|rows| - 1].kod, rows[|rows| - 1].nazwa, rows[|rows| - 1].stanNa))];
      forall i | 0 <= i < |rows|
        ensures v.provinces[|t.provinces| + i] == Row(t.nextId + i, Province(rows[i].kod, rows[i].nazwa, rows[i].stanNa))
      {
        if i < |init| {
          assert init[i] == rows[i];
        }
      }
    }
  }

  /** The county stage leaves the provinces alone, succeeds exactly when every row's
      province code is already present, and otherwise fails with "no row found". */
  lemma PowStageNeedsProvinces(t: Tables, rows: seq<CountyRow>)
    ensures Replay(t, rows, PowStep).tables.provinces == t.provinces
    ensures Replay(t, rows, PowStep).failure.None? <==>
              forall i :: 0 <= i < |rows| ==> HasProvinceCode(t.provinces, rows[i].kodWoj)
    ensures Replay(t, rows, PowStep).failure.Some? ==> Replay(t, rows, PowStep).failure.value == NoRowFound
  {
    var inv := (u: Tables) => u.provinces == t.provinces;
    var ok := (r: CountyRow) => HasProvinceCode(t.provinces, r.kodWoj);
    forall u: Tables, r: CountyRow | inv(u)
      ensures if ok(r) then PowStep(u, r).Success? && inv(PowStep(u, r).value) else PowStep(u, r) == Failure(NoRowFound)
    {
      PowStepNeedsProvince(u, r);
    }
    ReplayRaisesIff(t, rows, PowStep, inv, ok, NoRowFound);
  }

  /** One county row, in the terms of the stage lemma above. */
  lemma PowStepNeedsProvince(t: Tables, row: CountyRow)
    ensures PowStep(t, row).Success? <==> HasProvinceCode(t.provinces, row.kodWoj)
    ensures PowStep(t, row).Success? ==> PowStep(t, row).value.provinces == t.provinces
    ensures PowStep(t, row).Failure? ==> PowStep(t, row).error == NoRowFound
    ensures PowStep(t, row).Success? ==>
      exists id :: id in Ids(t.provinces) && ProvinceHasCode(t.provinces, id, row.kodWoj)
                   && PowStep(t, row).value == WithCounty(t, County(row.kodPow, id, row.nazwa, row.stanNa))
  {
    if ProvinceIdByCode(t.provinces, row.kodWoj).None? {
      assert !HasProvinceCode(t.provinces, row.kodWoj);
    }
  }

  /** The street stage leaves the cities alone and succeeds exactly when every row's SYM
      names a city already loaded. */
  lemma UliceStageNeedsCities(t: Tables, rows: seq<UlicRow>)
    ensures Replay(t, rows, UlicaStep).tables.cities == t.cities
    ensures Replay(t, rows, UlicaStep).failure.None? <==> forall i :: 0 <= i < |rows| ==> rows[i].sym in CityIds(t.cities)
    ensures Replay(t, rows, UlicaStep).failure.Some? ==> Replay(t, rows, UlicaStep).failure.value == NoRowFound
  {
    var inv := (u: Tables) => u.cities == t.cities;
    var ok := (r: UlicRow) => r.sym in CityIds(t.cities);
    forall u: Tables, r: UlicRow | inv(u)
      ensures if ok(r) then UlicaStep(u, r).Success? && inv(UlicaStep(u, r).value) else UlicaStep(u, r) == Failure(NoRowFound)
    {
    }
    ReplayRaisesIff(t, rows, UlicaStep, inv, ok, NoRowFound);
  }

  /** A street stage that finishes has appended every row, in order, under consecutive
      ids, each with its city's SYM and with `nazwa2` NULL exactly when NAZWA_2 is empty;
      nothing else changes. */
  lemma {:induction false} UliceStageAppendsEveryRow(t: Tables, rows: seq<UlicRow>)
    ensures var r := Replay(t, rows, UlicaStep);
      r.failure.None? ==>
        var u := r.tables;
        && |u.streets| == |t.streets| + |rows|
        && u.streets[..|t.streets|] == t.streets
        && (forall i :: 0 <= i < |rows| ==>
              u.streets[|t.streets| + i]
                == Row(t.nextId + i, Street(rows[i].symUl, rows[i].sym, rows[i].nazwa1, Nazwa2Column(rows[i].nazwa2), rows[i].cecha, rows[i].stanNa)))
        && u.nextId == t.nextId + |rows|
        && u == t.(streets := u.streets, nextId := u.nextId)
    decreases |rows|
  {
    if rows != [] {
      var init := rows[..|rows| - 1];
      var last := rows[|rows| - 1];
      UliceStageAppendsEveryRow(t, init);
      var prev := Replay(t, init, UlicaStep);
      var v := Replay(t, rows, UlicaStep);
      if v.failure.None? {
        assert prev.failure.None? && UlicaStep(prev.tables, last).Success?;
        var u := prev.tables;
        assert v.tables.streets == u.streets
          + [Row(u.nextId, Street(last.symUl, last.sym, last.nazwa1, Nazwa2Column(last.nazwa2), last.cecha, last.stanNa))];
        forall i | 0 <= i < |rows|
          ensures v.tables.streets[|t.streets| + i]
                    == Row(t.nextId + i, Street(rows[i].symUl, rows[i].sym, rows[i].nazwa1, Nazwa2Column(rows[i].nazwa2), rows[i].cecha, rows[i].stanNa))
        {
          if i < |init| {
            assert init[i] == rows[i];
          }
        }
      }
    }
  }

  /** The city stage stores SYMPOD as given: whether a row loads never depends on it. */
  lemma MiastoStepIgnoresSympod(t: Tables, row: SimcRow, sympod: string)
    ensures MiastoStep(t, row).Success? <==> MiastoStep(t, row.(sympod := sympod)).Success?
    ensures MiastoStep(t, row).Success? ==>
      MiastoStep(t, row).value.cities == t.cities + [City(row.sym, ParishIdByKey(t, row.woj, row.pow, row.gmi, row.rodzGmi).value, row.nazwa, row.sympod, row.stanNa)]
  {
  }

  /** One postal-code row keeps the database consistent. */
  lemma CodeStepConsistent(t: Tables, row: CodeRow)
    requires Consistent(t)
    ensures CodeStep(t, row).Success? && Consistent(CodeStep(t, row).value)
  {
    var existing := PostalCodeIdByCode(t.postalCodes, row.kod);
    var t1: Tables;
    var kodId: nat;
    if existing.None? {
      t1, kodId := WithPostalCode(t, PostalCode(row.kod)), t.nextId;
      WithPostalCodeConsistent(t, PostalCode(row.kod));
    } else {
      t1, kodId := t, existing.value;
    }
    assert Consistent(t1) && kodId in Ids(t1.postalCodes);
    var gminaId := ParishIdByNames(t.provinces, t.counties, t.parishes, row.wojewodztwo, row.powiat, row.gmina);
    if gminaId.None? || LinkIdByPair(t.links, gminaId.value, kodId).Some? {
      assert CodeStep(t, row) == Success(t1);
    } else {
      var l := ParishPostalCode(gminaId.value, kodId);
      WithLinkConsistent(t1, l);
      assert CodeStep(t, row) == Success(WithLink(t1, l));
    }
  }

  /** One postal-code row never raises: the code is in the table afterwards (reused,
      never duplicated), the territorial tables are untouched, at most one link is added
      and none when no parish bears the name, and distinct links stay distinct. */
  lemma CodeStepKeepsCodesAndLinks(t: Tables, row: CodeRow)
    ensures CodeStep(t, row).Success?
    ensures var u := CodeStep(t, row).value;
      && HasPostalCode(u.postalCodes, row.kod)
      && (HasPostalCode(t.postalCodes, row.kod) ==> u.postalCodes == t.postalCodes)
      && (!HasPostalCode(t.postalCodes, row.kod) ==> u.postalCodes == t.postalCodes + [Row(t.nextId, PostalCode(row.kod))])
      && u.provinces == t.provinces && u.counties == t.counties && u.parishes == t.parishes
      && u.cities == t.cities && u.streets == t.streets
      && (u.links == t.links || exists l :: u.links == t.links + [l])
      && (DistinctLinks(t.links) ==> DistinctLinks(u.links))
      && ((forall w, p, g :: !NameChain(t.provinces, t.counties, t.parishes, row.wojewodztwo, row.powiat, row.gmina, w, p, g))
          ==> u.links == t.links)
  {
    var u := CodeStep(t, row).value;
    var existing := PostalCodeIdByCode(t.postalCodes, row.kod);
    var kodId := if existing.None? then t.nextId else existing.value;
    if existing.None? {
      assert u.postalCodes[|t.postalCodes|] in u.postalCodes;
    }
    var gminaId := ParishIdByNames(t.provinces, t.counties, t.parishes, row.wojewodztwo, row.powiat, row.gmina);
    if gminaId.Some? && LinkIdByPair(t.links, gminaId.value, kodId).None? {
      var l := ParishPostalCode(gminaId.value, kodId);
      var ls := u.links;
      assert ls == t.links + [ls[|t.links|]] && ls[|t.links|].val == l;
      if DistinctLinks(t.links) {
        forall i, j | 0 <= i < j < |ls| ensures ls[i].val != ls[j].val {
          if j == |t.links| {
            assert ls[i] in t.links;
          }
        }
      }
    }
  }

  /** When the name chain resolves to parish `g`, a row adds a link only for a new pair:
      if parish `g` is already linked to the stored code the links are left as they were,
      and otherwise exactly the (parish `g`, code) link is appended. */
  lemma CodeStepLinksOnlyNewPair(t: Tables, row: CodeRow, w: int, p: int, g: int)
    requires NameChain(t.provinces, t.counties, t.parishes, row.wojewodztwo, row.powiat, row.gmina, w, p, g)
    ensures CodeStep(t, row).Success?
    ensures var u := CodeStep(t, row).value;
      var kodId := PostalCodeIdByCode(u.postalCodes, row.kod);
      && kodId.Some?
      && ((exists l :: l in t.links && l.val == ParishPostalCode(t.parishes[g].id, kodId.value)) ==> u.links == t.links)
      && ((forall l :: l in t.links ==> l.val != ParishPostalCode(t.parishes[g].id, kodId.value)) ==>
            && |u.links| == |t.links| + 1
            && u.links[..|t.links|] == t.links
            && u.links[|t.links|].val == ParishPostalCode(t.parishes[g].id, kodId.value))
  {
    var resolved := ParishIdByNames(t.provinces, t.counties, t.parishes, row.wojewodztwo, row.powiat, row.gmina);
    var w', p', g' :| NameChain(t.provinces, t.counties, t.parishes, row.wojewodztwo, row.powiat, row.gmina, w', p', g')
                      && resolved.value == t.parishes[g'].id;
    NameChainUnique(t.provinces, t.counties, t.parishes, row.wojewodztwo, row.powiat, row.gmina, w, p, g, w', p', g');
    var u := CodeStep(t, row).value;
    var existing := PostalCodeIdByCode(t.postalCodes, row.kod);
    var kodId := if existing.None? then t.nextId else existing.value;
    if existing.None? {
      var key := (c: Row<PostalCode>) => c.val.code == row.kod;
      assert u.postalCodes == t.postalCodes + [Row(t.nextId, PostalCode(row.kod))];
      assert forall j :: 0 <= j < |t.postalCodes| ==> !key(u.postalCodes[j]);
      assert key(u.postalCodes[|t.postalCodes|]);
    }
    assert PostalCodeIdByCode(u.postalCodes, row.kod) == Some(kodId);
  }

  /** The name chain picks first rows, so it resolves in at most one way. */
  lemma NameChainUnique(provinces: seq<Row<Province>>, counties: seq<Row<County>>, parishes: seq<Row<Parish>>,
                        wojewodztwo: string, powiat: string, gmina: string, w: int, p: int, g: int, w': int, p': int, g': int)
    requires NameChain(provinces, counties, parishes, wojewodztwo, powiat, gmina, w, p, g)
    requires NameChain(provinces, counties, parishes, wojewodztwo, powiat, gmina, w', p', g')
    ensures w == w' && p == p' && g == g'
  {
  }

  /** When the name chain resolves to parish `g`, the row's postal code is linked to that
      parish afterwards. */
  lemma CodeStepLinksResolvedParish(t: Tables, row: CodeRow, w: int, p: int, g: int)
    requires NameChain(t.provinces, t.counties, t.parishes, row.wojewodztwo, row.powiat, row.gmina, w, p, g)
    ensures CodeStep(t, row).Success?
    ensures var u := CodeStep(t, row).value;
      exists l, c :: l in u.links && c in u.postalCodes && c.val.code == row.kod && l.val == ParishPostalCode(t.parishes[g].id, c.id)
  {
    var resolved := ParishIdByNames(t.provinces, t.counties, t.parishes, row.wojewodztwo, row.powiat, row.gmina);
    var w', p', g' :| NameChain(t.provinces, t.counties, t.parishes, row.wojewodztwo, row.powiat, row.gmina, w', p', g')
                      && resolved.value == t.parishes[g'].id;
    NameChainUnique(t.provinces, t.counties, t.parishes, row.wojewodztwo, row.powiat, row.gmina, w, p, g, w', p', g');
    CodeStepLinksParishId(t, row);
  }

  lemma CodeStepLinksParishId(t: Tables, row: CodeRow)
    requires ParishIdByNames(t.provinces, t.counties, t.parishes, row.wojewodztwo, row.powiat, row.gmina).Some?
    ensures CodeStep(t, row).Success?
    ensures var u := CodeStep(t, row).value;
      var gminaId := ParishIdByNames(t.provinces, t.counties, t.parishes, row.wojewodztwo, row.powiat, row.gmina).value;
      exists l, c :: l in u.links && c in u.postalCodes && c.val.code == row.kod && l.val == ParishPostalCode(gminaId, c.id)
  {
    var u := CodeStep(t, row).value;
    var gminaId := ParishIdByNames(t.provinces, t.counties, t.parishes, row.wojewodztwo, row.powiat, row.gmina).value;
    var existing := PostalCodeIdByCode(t.postalCodes, row.kod);
    var kodId := if existing.None? then t.nextId else existing.value;
    var c: Row<PostalCode>;
    if existing.None? {
      c := Row(t.nextId, PostalCode(row.kod));
      assert u.postalCodes[|t.postalCodes|] == c;
    } else {
      c :| c in t.postalCodes && c.id == kodId && c.val.code == row.kod;
    }
    assert c in u.postalCodes;
    if LinkIdByPair(t.links, gminaId, kodId).Some? {
      var l :| l in t.links && l.val == ParishPostalCode(gminaId, kodId);
      assert l in u.links;
    } else {
      assert u.links[|t.links|].val == ParishPostalCode(gminaId, kodId);
      assert u.links[|t.links|] in u.links;
    }
  }

  /** The postal-code stage never fails and keeps the database consistent. */
  lemma {:induction false} CodesStageConsistent(t: Tables, rows: seq<CodeRow>)
    requires Consistent(t)
    ensures Replay(t, rows, CodeStep).failure.None? && Consistent(Replay(t, rows, CodeStep).tables)
    decreases |rows|
  {
    if rows != [] {
      var init := rows[..|rows| - 1];
      CodesStageConsistent(t, init);
      CodeStepConsistent(Replay(t, init, CodeStep).tables, rows[|rows| - 1]);
    }
  }

  /** Every code of the stage's rows is in the table once the stage is done. */
  lemma CodesStageKeepsEveryCode(t: Tables, rows: seq<CodeRow>)
    ensures var r := Replay(t, rows, CodeStep);
      && r.failure.None?
      && (forall i :: 0 <= i < |rows| ==> HasPostalCode(r.tables.postalCodes, rows[i].kod))
  {
    var inv := (u: Tables) => true;
    var has := (u: Tables, r: CodeRow) => HasPostalCode(u.postalCodes, r.kod);
    forall u: Tables, r: CodeRow ensures CodeStep(u, r).Success? && has(CodeStep(u, r).value, r) {
      CodeStepKeepsCodesAndLinks(u, r);
    }
    forall u: Tables, r: CodeRow, q: CodeRow | CodeStep(u, r).Success? && has(u, q) ensures has(CodeStep(u, r).value, q) {
      CodeStepKeepsCodesAndLinks(u, r);
      var p :| p in u.postalCodes && p.val.code == q.kod;
      assert p in CodeStep(u, r).value.postalCodes;
    }
    ReplayCollects(t, rows, CodeStep, inv, has);
  }

  /** A parish row fails with "no row found" exactly when no county matches its (WOJ, POW)
      codes, with InvalidValue exactly when one does but RODZ is empty, and otherwise
      appends one parish under a matching county, keeping the database consistent. */
  lemma GminaStepNeedsCounty(t: Tables, row: ParishRow)
    requires Consistent(t)
    ensures GminaStep(t, row) == Failure(NoRowFound) <==>
              forall c :: c in t.counties ==> !CountyHasCodes(t.provinces, t.counties, c.id, row.kodWoj, row.kodPow)
    ensures GminaStep(t, row) == Failure(InvalidValue) <==>
              row.rodzaj.None? && exists c :: c in t.counties && CountyHasCodes(t.provinces, t.counties, c.id, row.kodWoj, row.kodPow)
    ensures GminaStep(t, row).Success? ==>
              && Consistent(GminaStep(t, row).value)
              && exists powId :: powId in Ids(t.counties) && CountyHasCodes(t.provinces, t.counties, powId, row.kodWoj, row.kodPow)
                   && GminaStep(t, row).value == WithParish(t, Parish(row.kodGmi, powId, row.nazwa, row.rodzaj.value, row.typJednostki, row.stanNa))
  {
    var powId := CountyIdByCodes(t, row.kodWoj, row.kodPow);
    if powId.Some? {
      var c :| c in t.counties && c.id == powId.value;
      if row.rodzaj.Some? {
        WithParishConsistent(t, Parish(row.kodGmi, powId.value, row.nazwa, row.rodzaj.value, row.typJednostki, row.stanNa));
      }
    }
  }

  /** A city row fails with "no row found" exactly when no parish has its (WOJ, POW, GMI,
      RODZ_GMI) key, with IntegrityError exactly when one does but its SYM is already
      stored, and otherwise adds exactly its SYM to the cities, keeping the database
      consistent. */
  lemma MiastoStepKeepsKeys(t: Tables, row: SimcRow)
    requires Consistent(t)
    ensures var r := MiastoStep(t, row);
      && (r == Failure(NoRowFound) <==> forall g :: g in t.parishes ==> !ParishHasKey(t, g.id, row.woj, row.pow, row.gmi, row.rodzGmi))
      && (r == Failure(IntegrityError) <==>
            row.sym in CityIds(t.cities) && exists g :: g in t.parishes && ParishHasKey(t, g.id, row.woj, row.pow, row.gmi, row.rodzGmi))
      && (r.Success? ==> Consistent(r.value) && CityIds(r.value.cities) == CityIds(t.cities) + {row.sym})
      && (r.Success? ==> exists id :: ParishHasKey(t, id, row.woj, row.pow, row.gmi, row.rodzGmi)
                                      && r.value == WithCity(t, City(row.sym, id, row.nazwa, row.sympod, row.stanNa)))
  {
    var gminaId := ParishIdByKey(t, row.woj, row.pow, row.gmi, row.rodzGmi);
    if gminaId.Some? {
      var g :| g in t.parishes && g.id == gminaId.value;
      if CityIdById(t.cities, row.sym).None? {
        WithCityConsistent(t, City(row.sym, gminaId.value, row.nazwa, row.sympod, row.stanNa));
      }
    }
  }

  /** With `with self.conn:` a stage is all or nothing: one that raises leaves every table
      as it was before the stage began, with only the SERIAL counter moved on, and fails
      with the loop's exception; one that finishes commits the loop's state. */
  lemma StageIsAllOrNothing<R>(prev: Run, rows: seq<R>, step: (Tables, R) -> Result<Tables>)
    requires prev.failure.None?
    ensures var s := Stage(prev, rows, step);
      s.failure.Some? ==> && s.tables.(nextId := prev.tables.nextId) == prev.tables
                          && s.tables.nextId >= prev.tables.nextId
                          && s.failure == Replay(prev.tables, rows, step).failure
    ensures Stage(prev, rows, step).failure.None? ==> Stage(prev, rows, step) == Replay(prev.tables, rows, step)
  {
  }

  lemma StageKeepsConsistent<R>(prev: Run, rows: seq<R>, step: (Tables, R) -> Result<Tables>)
    requires Consistent(prev.tables)
    requires forall u: Tables, r: R :: Consistent(u) && step(u, r).Success? ==> Consistent(step(u, r).value)
    ensures Consistent(Stage(prev, rows, step).tables)
  {
    if prev.failure.None? {
      var run := Replay(prev.tables, rows, step);
      if run.failure.None? {
        ReplayKeeps(prev.tables, rows, step, (u: Tables) => Consistent(u));
      } else {
        RolledBackConsistent(prev.tables, run.tables.nextId);
      }
    }
  }

  lemma WojStepKeepsConsistent()
    ensures forall u: Tables, r: ProvinceRow :: Consistent(u) && WojStep(u, r).Success? ==> Consistent(WojStep(u, r).value)
  {
    forall u: Tables, r: ProvinceRow | Consistent(u) && WojStep(u, r).Success? ensures Consistent(WojStep(u, r).value) {
      WithProvinceConsistent(u, Province(r.kod, r.nazwa, r.stanNa));
    }
  }

  lemma PowStepKeepsConsistent()
    ensures forall u: Tables, r: CountyRow :: Consistent(u) && PowStep(u, r).Success? ==> Consistent(PowStep(u, r).value)
  {
    forall u: Tables, r: CountyRow | Consistent(u) && PowStep(u, r).Success? ensures Consistent(PowStep(u, r).value) {
      var wojId := ProvinceIdByCode(u.provinces, r.kodWoj).value;
      WithCountyConsistent(u, County(r.kodPow, wojId, r.nazwa, r.stanNa));
    }
  }

  lemma GminaStepKeepsConsistent()
    ensures forall u: Tables, r: ParishRow :: Consistent(u) && GminaStep(u, r).Success? ==> Consistent(GminaStep(u, r).value)
  {
    forall u: Tables, r: ParishRow | Consistent(u) && GminaStep(u, r).Success? ensures Consistent(GminaStep(u, r).value) {
      GminaStepNeedsCounty(u, r);
    }
  }

  lemma MiastoStepKeepsConsistent()
    ensures forall u: Tables, r: SimcRow :: Consistent(u) && MiastoStep(u, r).Success? ==> Consistent(MiastoStep(u, r).value)
  {
    forall u: Tables, r: SimcRow | Consistent(u) && MiastoStep(u, r).Success? ensures Consistent(MiastoStep(u, r).value) {
      MiastoStepKeepsKeys(u, r);
    }
  }

  lemma UlicaStepKeepsConsistent()
    ensures forall u: Tables, r: UlicRow :: Consistent(u) && UlicaStep(u, r).Success? ==> Consistent(UlicaStep(u, r).value)
  {
    forall u: Tables, r: UlicRow | Consistent(u) && UlicaStep(u, r).Success? ensures Consistent(UlicaStep(u, r).value) {
      WithStreetConsistent(u, Street(r.symUl, r.sym, r.nazwa1, Nazwa2Column(r.nazwa2), r.cecha, r.stanNa));
    }
  }

  lemma CodeStepKeepsConsistent()
    ensures forall u: Tables, r: CodeRow :: Consistent(u) && CodeStep(u, r).Success? ==> Consistent(CodeStep(u, r).value)
  {
    forall u: Tables, r: CodeRow | Consistent(u) && CodeStep(u, r).Success? ensures Consistent(CodeStep(u, r).value) {
      CodeStepConsistent(u, r);
    }
  }

  /** The six stages keep `Consistent` wherever the run stops. */
  lemma LoadKeepsConsistent(t0: Tables, levels: TercTables, miasta: seq<SimcRow>, ulice: seq<UlicRow>, kody: seq<CodeRow>)
    requires Consistent(t0)
    ensures Consistent(Load(t0, levels, miasta, ulice, kody).tables)
  {
    WojStepKeepsConsistent();
    PowStepKeepsConsistent();
    GminaStepKeepsConsistent();
    MiastoStepKeepsConsistent();
    UlicaStepKeepsConsistent();
    CodeStepKeepsConsistent();
    var r1 := Stage(Run(t0, None), levels.provinces, WojStep);
    StageKeepsConsistent(Run(t0, None), levels.provinces, WojStep);
    var r2 := Stage(r1, levels.counties, PowStep);
    StageKeepsConsistent(r1, levels.counties, PowStep);
    var r3 := Stage(r2, levels.parishes, GminaStep);
    StageKeepsConsistent(r2, levels.parishes, GminaStep);
    var r4 := Stage(r3, miasta, MiastoStep);
    StageKeepsConsistent(r3, miasta, MiastoStep);
    var r5 := Stage(r4, ulice, UlicaStep);
    StageKeepsConsistent(r4, ulice, UlicaStep);
    StageKeepsConsistent(r5, kody, CodeStep);
  }

  /** Whatever the extracts hold and wherever the run stops, the SQL run leaves every
      primary key, UNIQUE and foreign-key constraint satisfied. */
  lemma PipelineConsistent(t: Tables, terc: seq<RawTercRow>, simc: seq<RawSimcRow>,
                           ulic: seq<RawUlicRow>, codes: seq<CsvRecord>)
    ensures Consistent(Pipeline(t, terc, simc, ulic, codes).tables)
  {
    var t0 := ClearedInOrder(t, RESET_ORDER);
    ResetOrderCoversEveryTable();
    ClearedEveryTable(t, RESET_ORDER);
    EmptyIsConsistent(t.nextId);
    var levels := ReadTerc(terc);
    var miasta := ReadSimc(simc);
    var ulice := ReadUlic(ulic);
    var kody := ReadCodes(codes, PROVINCE_COLUMN);
    if levels.Success? && miasta.Success? && ulice.Success? && kody.Success? {
      LoadKeepsConsistent(t0, levels.value, miasta.value, ulice.value, kody.value);
    }
  }

  // ---- the stages as the source runs them ------------------------------------

  method ClearTables(db: Database)
    requires db.Valid()
    modifies db
    ensures db.Valid()
    ensures db.State() == ClearedInOrder(old(db.State()), RESET_ORDER) == EmptyTables(old(db.nextId))
  {
    ghost var t := db.State();
    assert RESET_ORDER[..0] == [];
    ResetStepNeedsNoCascade(t, 0);
    db.DeleteAll(Streets);
    assert db.State() == ClearedInOrder(t, RESET_ORDER[..1]);
    ResetStepNeedsNoCascade(t, 1);
    db.DeleteAll(ParishPostalCodes);
    assert db.State() == ClearedInOrder(t, RESET_ORDER[..2]);
    ResetStepNeedsNoCascade(t, 2);
    db.DeleteAll(PostalCodes);
    assert db.State() == ClearedInOrder(t, RESET_ORDER[..3]);
    ResetStepNeedsNoCascade(t, 3);
    db.DeleteAll(Cities);
    assert db.State() == ClearedInOrder(t, RESET_ORDER[..4]);
    ResetStepNeedsNoCascade(t, 4);
    db.DeleteAll(Parishes);
    assert db.State() == ClearedInOrder(t, RESET_ORDER[..5]);
    ResetStepNeedsNoCascade(t, 5);
    db.DeleteAll(Counties);
    assert db.State() == ClearedInOrder(t, RESET_ORDER[..6]);
    ResetStepNeedsNoCascade(t, 6);
    db.DeleteAll(Provinces);
    assert db.State() == ClearedInOrder(t, RESET_ORDER[..7]);
    assert RESET_ORDER[..7] == RESET_ORDER;
    ResetOrderCoversEveryTable();
    ClearedEveryTable(t, RESET_ORDER);
    EmptyIsConsistent(t.nextId);
  }

  method InsertWoj(db: Database, rows: seq<ProvinceRow>) returns (failure: Option<Error>)
    requires db.Valid()
    modifies db
    ensures db.Valid()
    ensures Run(db.State(), failure) == Transaction(old(db.State()), Replay(old(db.State()), rows, WojStep))
  {
    ghost var t0 := db.State();
    for i := 0 to |rows|
      invariant db.Valid()
      invariant Replay(t0, rows[..i], WojStep) == Run(db.State(), None)
    {
      ReplayNext(t0, rows, i, WojStep);
      var p := Province(rows[i].kod, rows[i].nazwa, rows[i].stanNa);
      WithProvinceConsistent(db.State(), p);
      var _ := db.InsertProvince(p);
    }
    assert rows[..|rows|] == rows;
    failure := None;
  }

  method InsertPow(db: Database, rows: seq<CountyRow>) returns (failure: Option<Error>)
    requires db.Valid()
    modifies db
    ensures db.Valid()
    ensures Run(db.State(), failure) == Transaction(old(db.State()), Replay(old(db.State()), rows, PowStep))
  {
    var saved := db.State();
    for i := 0 to |rows|
      invariant db.Valid()
      invariant Replay(saved, rows[..i], PowStep) == Run(db.State(), None)
    {
      ReplayNext(saved, rows, i, PowStep);
      var wojId := ProvinceIdByCode(db.provinces, rows[i].kodWoj);
      if wojId.None? {
        ReplayStopsAtFailure(saved, rows, i + 1, PowStep);
        db.Restore(saved);
        return Some(NoRowFound);
      }
      var c := County(rows[i].kodPow, wojId.value, rows[i].nazwa, rows[i].stanNa);
      WithCountyConsistent(db.State(), c);
      var _ := db.InsertCounty(c);
    }
    assert rows[..|rows|] == rows;
    failure := None;
  }

  method InsertGmina(db: Database, rows: seq<ParishRow>) returns (failure: Option<Error>)
    requires db.Valid()
    modifies db
    ensures db.Valid()
    ensures Run(db.State(), failure) == Transaction(old(db.State()), Replay(old(db.State()), rows, GminaStep))
  {
    var saved := db.State();
    for i := 0 to |rows|
      invariant db.Valid()
      invariant Replay(saved, rows[..i], GminaStep) == Run(db.State(), None)
    {
      ReplayNext(saved, rows, i, GminaStep);
      var powId := CountyIdByCodes(db.State(), rows[i].kodWoj, rows[i].kodPow);
      if powId.None? {
        ReplayStopsAtFailure(saved, rows, i + 1, GminaStep);
        db.Restore(saved);
        return Some(NoRowFound);
      }
      if rows[i].rodzaj.None? {
        ReplayStopsAtFailure(saved, rows, i + 1, GminaStep);
        db.Restore(saved);
        return Some(InvalidValue);
      }
      var g := Parish(rows[i].kodGmi, powId.value, rows[i].nazwa, rows[i].rodzaj.value, rows[i].typJednostki, rows[i].stanNa);
      WithParishConsistent(db.State(), g);
      var _ := db.InsertParish(g);
    }
    assert rows[..|rows|] == rows;
    failure := None;
  }

  method InsertMiasta(db: Database, rows: seq<SimcRow>) returns (failure: Option<Error>)
    requires db.Valid()
    modifies db
    ensures db.Valid()
    ensures Run(db.State(), failure) == Transaction(old(db.State()), Replay(old(db.State()), rows, MiastoStep))
  {
    var saved := db.State();
    for i := 0 to |rows|
      invariant db.Valid()
      invariant Replay(saved, rows[..i], MiastoStep) == Run(db.State(), None)
    {
      ReplayNext(saved, rows, i, MiastoStep);
      var gminaId := ParishIdByKey(db.State(), rows[i].woj, rows[i].pow, rows[i].gmi, rows[i].rodzGmi);
      if gminaId.None? {
        ReplayStopsAtFailure(saved, rows, i + 1, MiastoStep);
        db.Restore(saved);
        return Some(NoRowFound);
      }
      if CityIdById(db.cities, rows[i].sym).Some? {
        ReplayStopsAtFailure(saved, rows, i + 1, MiastoStep);
        db.Restore(saved);
        return Some(IntegrityError);
      }
      var m := City(rows[i].sym, gminaId.value, rows[i].nazwa, rows[i].sympod, rows[i].stanNa);
      WithCityConsistent(db.State(), m);
      db.InsertCity(m);
    }
    assert rows[..|rows|] == rows;
    failure := None;
  }

  method InsertUlice(db: Database, rows: seq<UlicRow>) returns (failure: Option<Error>)
    requires db.Valid()
    modifies db
    ensures db.Valid()
    ensures Run(db.State(), failure) == Transaction(old(db.State()), Replay(old(db.State()), rows, UlicaStep))
  {
    var saved := db.State();
    for i := 0 to |rows|
      invariant db.Valid()
      invariant Replay(saved, rows[..i], UlicaStep) == Run(db.State(), None)
    {
      ReplayNext(saved, rows, i, UlicaStep);
      var miastoId := CityIdById(db.cities, rows[i].sym);
      if miastoId.None? {
        ReplayStopsAtFailure(saved, rows, i + 1, UlicaStep);
        db.Restore(saved);
        return Some(NoRowFound);
      }
      var u := Street(rows[i].symUl, miastoId.value, rows[i].nazwa1, Nazwa2Column(rows[i].nazwa2), rows[i].cecha, rows[i].stanNa);
      WithStreetConsistent(db.State(), u);
      var _ := db.InsertStreet(u);
    }
    assert rows[..|rows|] == rows;
    failure := None;
  }

  /** One iteration of `_insert_codes`. */
  method InsertCodeRow(db: Database, row: CodeRow)
    requires db.Valid()
    modifies db
    ensures db.Valid()
    ensures CodeStep(old(db.State()), row) == Success(db.State())
  {
    ghost var u := db.State();
    var kodId: nat;
    var existing := PostalCodeIdByCode(db.postalCodes, row.kod);
    if existing.None? {
      WithPostalCodeConsistent(u, PostalCode(row.kod));
      kodId := db.InsertPostalCode(PostalCode(row.kod));
    } else {
      kodId := existing.value;
    }
    ghost var u1 := db.State();
    var gminaId := ParishIdByNames(db.provinces, db.counties, db.parishes, row.wojewodztwo, row.powiat, row.gmina);
    if gminaId.None? {
      assert CodeStep(u, row) == Success(u1);
      return;
    }
    if LinkIdByPair(db.links, gminaId.value, kodId).None? {
      var l := ParishPostalCode(gminaId.value, kodId);
      assert CodeStep(u, row) == Success(WithLink(u1, l));
      WithLinkConsistent(u1, l);
      var _ := db.InsertLink(l);
    } else {
      assert CodeStep(u, row) == Success(u1);
    }
  }

  method InsertCodes(db: Database, rows: seq<CodeRow>) returns (failure: Option<Error>)
    requires db.Valid()
    modifies db
    ensures db.Valid()
    ensures Run(db.State(), failure) == Transaction(old(db.State()), Replay(old(db.State()), rows, CodeStep))
  {
    ghost var t0 := db.State();
    for i := 0 to |rows|
      invariant db.Valid()
      invariant Replay(t0, rows[..i], CodeStep) == Run(db.State(), None)
    {
      ReplayNext(t0, rows, i, CodeStep);
      InsertCodeRow(db, rows[i]);
    }
    assert rows[..|rows|] == rows;
    failure := None;
  }

  /** The six insert stages run one after the other, stopping at the first that raises. */
  method LoadExtracts(db: Database, levels: TercTables, miasta: seq<SimcRow>, ulice: seq<UlicRow>, kody: seq<CodeRow>)
    returns (failure: Option<Error>)
    requires db.Valid()
    modifies db
    ensures db.Valid()
    ensures Run(db.State(), failure) == Load(old(db.State()), levels, miasta, ulice, kody)
  {
    failure := InsertWoj(db, levels.provinces);
    if failure.Some? { return; }
    failure := InsertPow(db, levels.counties);
    if failure.Some? { return; }
    failure := InsertGmina(db, levels.parishes);
    if failure.Some? { return; }
    failure := InsertMiasta(db, miasta);
    if failure.Some? { return; }
    failure := InsertUlice(db, ulice);
    if failure.Some? { return; }
    failure := InsertCodes(db, kody);
  }

  method PopulateDb(db: Database, terc: seq<RawTercRow>, simc: seq<RawSimcRow>,
                    ulic: seq<RawUlicRow>, codes: seq<CsvRecord>) returns (failure: Option<Error>)
    requires db.Valid()
    modifies db
    ensures db.Valid()
    ensures Run(db.State(), failure) == Pipeline(old(db.State()), terc, simc, ulic, codes)
  {
    ghost var t := db.State();
    ClearTables(db);
    var levels := ReadTerc(terc);
    if levels.Failure? { return Some(levels.error); }
    var miasta := ReadSimc(simc);
    if miasta.Failure? { return Some(miasta.error); }
    var ulice := ReadUlic(ulic);
    if ulice.Failure? { return Some(ulice.error); }
    var kody := ReadCodes(codes, PROVINCE_COLUMN);
    if kody.Failure? { return Some(kody.error); }
    failure := LoadExtracts(db, levels.value, miasta.value, ulice.value, kody.value);
  }
}
