/** The readers `_read_terc`, `_read_simc`, `_read_ulic` and `_read_codes`
    (identical in both loaders up to column names): per-field normalisation of
    each extract and the split of the TERC table into three levels. A numeric
    cell is `Some(n)`, or `None` when the CSV leaves it empty (pandas' NaN). */
module Extract {
  import opened Base
  import opened Normalize

  datatype RawTercRow = RawTercRow(woj: Option<nat>, pow: Option<nat>, gmi: Option<nat>,
                                   nazwa: string, rodz: Option<nat>, nazwaDod: string, stanNa: Date)
  datatype RawSimcRow = RawSimcRow(woj: Option<nat>, pow: Option<nat>, gmi: Option<nat>, rodzGmi: Option<nat>,
                                   sym: Option<nat>, sympod: Option<nat>, nazwa: string, stanNa: Date)
  datatype RawUlicRow = RawUlicRow(sym: Option<nat>, symUl: Option<nat>, nazwa1: string,
                                   nazwa2: Option<string>, cecha: string, stanNa: Date)
  /** One record of the postal-code file as `csv.DictReader` yields it: column name to text. */
  type CsvRecord = map<string, string>

  /** A TERC row after normalisation: codes padded, absent codes `''`, name lower-cased. */
  datatype TercRow = TercRow(woj: string, pow: string, gmi: string,
                             nazwa: string, rodz: Option<nat>, nazwaDod: string, stanNa: Date)
  datatype ProvinceRow = ProvinceRow(kod: string, nazwa: string, stanNa: Date)
  datatype CountyRow = CountyRow(kodWoj: string, kodPow: string, nazwa: string, stanNa: Date)
  datatype ParishRow = ParishRow(kodWoj: string, kodPow: string, kodGmi: string, nazwa: string,
                                 rodzaj: Option<nat>, typJednostki: string, stanNa: Date)
  datatype SimcRow = SimcRow(woj: string, pow: string, gmi: string, rodzGmi: nat,
                             sym: string, sympod: string, nazwa: string, stanNa: Date)
  datatype UlicRow = UlicRow(sym: string, symUl: string, nazwa1: string, nazwa2: string, cecha: string, stanNa: Date)
  datatype CodeRow = CodeRow(kod: string, wojewodztwo: string, powiat: string, gmina: string)

  datatype TercTables = TercTables(provinces: seq<ProvinceRow>, counties: seq<CountyRow>, parishes: seq<ParishRow>)

  /** `df[col].apply(f)` over a whole column: the first failing row aborts the read. */
  function MapAll<A, B>(xs: seq<A>, f: A -> Result<B>): (r: Result<seq<B>>)
    ensures r.Success? <==> forall i :: 0 <= i < |xs| ==> f(xs[i]).Success?
    ensures r.Success? ==> |r.value| == |xs| && forall i :: 0 <= i < |xs| ==> r.value[i] == f(xs[i]).value
    ensures r.Failure? ==> exists i :: 0 <= i < |xs| && f(xs[i]) == Failure(r.error)
  {
    if xs == [] then Success([])
    else
      match f(xs[0])
      case Failure(e) => Failure(e)
      case Success(y) =>
        match MapAll(xs[1..], f)
        case Failure(e) => Failure(e)
        case Success(ys) => Success([y] + ys)
  }

  function NormalizeTerc(r: RawTercRow): (n: Result<TercRow>)
    ensures n.Success? <==> r.woj.Some?
    ensures n.Failure? ==> n.error == ParseError
    ensures n.Success? ==> (&& n.value.woj == Pad(r.woj.value, PROVINCE_WIDTH)
                            && n.value.pow == OptionalCode(r.pow, COUNTY_WIDTH)
                            && n.value.gmi == OptionalCode(r.gmi, PARISH_WIDTH)
                            && n.value.nazwa == Lower(r.nazwa))
    ensures n.Success? ==> n.value.rodz == r.rodz && n.value.nazwaDod == r.nazwaDod && n.value.stanNa == r.stanNa
  {
    match RequiredCode(r.woj, PROVINCE_WIDTH)
    case Failure(e) => Failure(e)
    case Success(woj) =>
      Success(TercRow(woj, OptionalCode(r.pow, COUNTY_WIDTH), OptionalCode(r.gmi, PARISH_WIDTH),
                      Lower(r.nazwa), r.rodz, r.nazwaDod, r.stanNa))
  }

  /** The three boolean masks of `_read_terc`. */
  predicate ProvinceMask(r: TercRow) { r.pow == "" && r.gmi == "" }
  predicate CountyMask(r: TercRow) { r.gmi == "" && r.pow != "" }
  predicate ParishMask(r: TercRow) { r.gmi != "" }

  /** The same three levels, read off the raw row's empty cells. */
  predicate ProvinceCells(r: RawTercRow) { r.pow.None? && r.gmi.None? }
  predicate CountyCells(r: RawTercRow) { r.pow.Some? && r.gmi.None? }
  predicate ParishCells(r: RawTercRow) { r.gmi.Some? }

  function ProvinceOf(r: TercRow): ProvinceRow { ProvinceRow(r.woj, r.nazwa, r.stanNa) }
  function CountyOf(r: TercRow): CountyRow { CountyRow(r.woj, r.pow, r.nazwa, r.stanNa) }
  function ParishOf(r: TercRow): ParishRow { ParishRow(r.woj, r.pow, r.gmi, r.nazwa, r.rodz, r.nazwaDod, r.stanNa) }

  /** `df[mask][cols]`: the rows of `xs` that satisfy `keep`, in file order, each
      projected by `f`. */
  function Select<T, U>(xs: seq<T>, keep: T -> bool, f: T -> U): seq<U>
  {
    if xs == [] then []
    else Select(xs[..|xs| - 1], keep, f) + (if keep(xs[|xs| - 1]) then [f(xs[|xs| - 1])] else [])
  }

  /** The indices of the rows of `xs` that satisfy `keep`, in increasing order: the
      index of a masked data frame. */
  function Positions<T>(xs: seq<T>, keep: T -> bool): (ps: seq<nat>)
    ensures forall k :: 0 <= k < |ps| ==> ps[k] < |xs|
    ensures forall k, l :: 0 <= k < l < |ps| ==> ps[k] < ps[l]
    ensures forall i :: 0 <= i < |xs| ==> (i in ps <==> keep(xs[i]))
  {
    if xs == [] then []
    else
      var init := xs[..|xs| - 1];
      assert forall i :: 0 <= i < |init| ==> init[i] == xs[i];
      Positions(init, keep) + (if keep(xs[|xs| - 1]) then [|xs| - 1] else [])
  }

  /** The k-th selected row is the row at the k-th selected position. */
  lemma {:induction false} SelectByPositions<T, U>(xs: seq<T>, keep: T -> bool, f: T -> U)
    ensures |Select(xs, keep, f)| == |Positions(xs, keep)|
    ensures forall k :: 0 <= k < |Positions(xs, keep)| ==> Select(xs, keep, f)[k] == f(xs[Positions(xs, keep)[k]])
  {
    if xs != [] {
      var init := xs[..|xs| - 1];
      SelectByPositions(init, keep, f);
      var s0, p0 := Select(init, keep, f), Positions(init, keep);
      var s, p := Select(xs, keep, f), Positions(xs, keep);
      assert s == s0 + (if keep(xs[|xs| - 1]) then [f(xs[|xs| - 1])] else []);
      assert p == p0 + (if keep(xs[|xs| - 1]) then [|xs| - 1] else []);
      forall k | 0 <= k < |p| ensures s[k] == f(xs[p[k]]) {
        if k < |p0| {
          assert s[k] == s0[k] && p[k] == p0[k] && init[p0[k]] == xs[p0[k]];
        }
      }
    }
  }

  /** Two tables whose masks agree row for row select the same positions. */
  lemma {:induction false} PositionsAgree<T, V>(xs: seq<T>, ys: seq<V>, p: T -> bool, q: V -> bool)
    requires |xs| == |ys|
    requires forall i :: 0 <= i < |xs| ==> p(xs[i]) == q(ys[i])
    ensures Positions(xs, p) == Positions(ys, q)
  {
    if xs != [] {
      var n := |xs| - 1;
      PositionsAgree(xs[..n], ys[..n], p, q);
    }
  }

  function Partition(rows: seq<TercRow>): TercTables
  {
    TercTables(Select(rows, ProvinceMask, ProvinceOf), Select(rows, CountyMask, CountyOf), Select(rows, ParishMask, ParishOf))
  }

  /** Every TERC row satisfies exactly one of the three masks. */
  lemma MasksPartition(r: TercRow)
    ensures ProvinceMask(r) || CountyMask(r) || ParishMask(r)
    ensures !(ProvinceMask(r) && CountyMask(r))
    ensures !(ProvinceMask(r) && ParishMask(r))
    ensures !(CountyMask(r) && ParishMask(r))
  {
  }

  /** The level of a normalised row is decided by which raw cells were empty. */
  lemma MasksFromRawCells(r: RawTercRow)
    requires NormalizeTerc(r).Success?
    ensures ProvinceMask(NormalizeTerc(r).value) <==> ProvinceCells(r)
    ensures CountyMask(NormalizeTerc(r).value) <==> CountyCells(r)
    ensures ParishMask(NormalizeTerc(r).value) <==> ParishCells(r)
  {
  }

  /** The split loses no row and duplicates none. */
  lemma {:induction false} PartitionSizes(rows: seq<TercRow>)
    ensures |Partition(rows).provinces| + |Partition(rows).counties| + |Partition(rows).parishes| == |rows|
  {
    if rows != [] {
      PartitionSizes(rows[..|rows| - 1]);
      MasksPartition(rows[|rows| - 1]);
    }
  }

  /** `table` lists, in file order, `f` of the normalised form of each raw row that passes
      `cells`, and nothing else. */
  ghost predicate SelectsInOrder<A, T, U>(raw: seq<A>, norm: A -> Result<T>, cells: A -> bool, f: T -> U, table: seq<U>)
  {
    var ps := Positions(raw, cells);
    && |table| == |ps|
    && forall k :: 0 <= k < |ps| ==> norm(raw[ps[k]]).Success? && table[k] == f(norm(raw[ps[k]]).value)
  }

  /** Each table holds, in file order, exactly the rows whose raw cells mark its level;
      since the levels exclude each other, no row reaches two tables. */
  lemma PartitionInFileOrder(raw: seq<RawTercRow>, rows: seq<TercRow>)
    requires |rows| == |raw|
    requires forall i :: 0 <= i < |raw| ==> NormalizeTerc(raw[i]).Success? && rows[i] == NormalizeTerc(raw[i]).value
    ensures SelectsInOrder(raw, NormalizeTerc, ProvinceCells, ProvinceOf, Partition(rows).provinces)
    ensures SelectsInOrder(raw, NormalizeTerc, CountyCells, CountyOf, Partition(rows).counties)
    ensures SelectsInOrder(raw, NormalizeTerc, ParishCells, ParishOf, Partition(rows).parishes)
  {
    forall i | 0 <= i < |raw| ensures ProvinceMask(rows[i]) == ProvinceCells(raw[i]) && CountyMask(rows[i]) == CountyCells(raw[i])
                                   && ParishMask(rows[i]) == ParishCells(raw[i]) {
      MasksFromRawCells(raw[i]);
    }
    SelectNormalized(raw, rows, NormalizeTerc, ProvinceCells, ProvinceMask, ProvinceOf);
    SelectNormalized(raw, rows, NormalizeTerc, CountyCells, CountyMask, CountyOf);
    SelectNormalized(raw, rows, NormalizeTerc, ParishCells, ParishMask, ParishOf);
  }

  /** Selecting the normalised rows by a mask that agrees row for row with a test on the
      raw rows picks, in order, the normalised forms of the raw rows that pass the test. */
  lemma SelectNormalized<A, T, U>(raw: seq<A>, rows: seq<T>, norm: A -> Result<T>, cells: A -> bool, mask: T -> bool, f: T -> U)
    requires |rows| == |raw|
    requires forall i :: 0 <= i < |raw| ==> norm(raw[i]).Success? && rows[i] == norm(raw[i]).value
    requires forall i :: 0 <= i < |raw| ==> mask(rows[i]) == cells(raw[i])
    ensures SelectsInOrder(raw, norm, cells, f, Select(rows, mask, f))
  {
    PositionsAgree(rows, raw, mask, cells);
    SelectByPositions(rows, mask, f);
  }

  /** `_read_terc`: normalise every row, then split by mask. A row whose POW and GMI
      cells are empty is a province, one with only GMI empty a county, one with GMI
      present a parish; each table keeps the file's order. */
  function ReadTerc(raw: seq<RawTercRow>): (r: Result<TercTables>)
    ensures r.Success? <==> forall i :: 0 <= i < |raw| ==> raw[i].woj.Some?
    ensures r.Failure? ==> r.error == ParseError
    ensures r.Success? ==> |r.value.provinces| + |r.value.counties| + |r.value.parishes| == |raw|
    ensures r.Success? ==> SelectsInOrder(raw, NormalizeTerc, ProvinceCells, ProvinceOf, r.value.provinces)
    ensures r.Success? ==> SelectsInOrder(raw, NormalizeTerc, CountyCells, CountyOf, r.value.counties)
    ensures r.Success? ==> SelectsInOrder(raw, NormalizeTerc, ParishCells, ParishOf, r.value.parishes)
  {
    match MapAll(raw, NormalizeTerc)
    case Failure(e) => Failure(e)
    case Success(rows) => PartitionSizes(rows); PartitionInFileOrder(raw, rows); Success(Partition(rows))
  }

  function NormalizeSimc(r: RawSimcRow): (n: Result<SimcRow>)
    ensures n.Success? <==> r.woj.Some? && r.rodzGmi.Some? && r.sym.Some? && r.sympod.Some?
    ensures n.Failure? ==> n.error == ParseError
    ensures n.Success? ==> (&& AllDigits(n.value.sym) && ParseDigits(n.value.sym) == r.sym.value
                            && AllDigits(n.value.sympod) && ParseDigits(n.value.sympod) == r.sympod.value
                            && n.value.gmi == OptionalCode(r.gmi, PARISH_WIDTH) && n.value.rodzGmi == r.rodzGmi.value)
    ensures n.Success? ==> (&& n.value.woj == Pad(r.woj.value, PROVINCE_WIDTH)
                            && n.value.pow == OptionalCode(r.pow, COUNTY_WIDTH)
                            && n.value.sym == Pad(r.sym.value, CITY_WIDTH)
                            && n.value.sympod == Pad(r.sympod.value, CITY_WIDTH)
                            && n.value.nazwa == Lower(r.nazwa) && n.value.stanNa == r.stanNa)
  {
    match RequiredCode(r.woj, PROVINCE_WIDTH)
    case Failure(e) => Failure(e)
    case Success(woj) =>
      match RequiredInt(r.rodzGmi)
      case Failure(e) => Failure(e)
      case Success(rodzGmi) =>
        match RequiredCode(r.sym, CITY_WIDTH)
        case Failure(e) => Failure(e)
        case Success(sym) =>
          match RequiredCode(r.sympod, CITY_WIDTH)
          case Failure(e) => Failure(e)
          case Success(sympod) =>
            Success(SimcRow(woj, OptionalCode(r.pow, COUNTY_WIDTH), OptionalCode(r.gmi, PARISH_WIDTH),
                            rodzGmi, sym, sympod, Lower(r.nazwa), r.stanNa))
  }

  /** `_read_simc`: every row in file order; an empty WOJ, RODZ_GMI, SYM or SYMPOD cell
      aborts the read. */
  function ReadSimc(raw: seq<RawSimcRow>): (r: Result<seq<SimcRow>>)
    ensures r.Success? <==> forall i :: 0 <= i < |raw| ==>
              raw[i].woj.Some? && raw[i].rodzGmi.Some? && raw[i].sym.Some? && raw[i].sympod.Some?
    ensures r.Failure? ==> r.error == ParseError
    ensures r.Success? ==> |r.value| == |raw|
    ensures r.Success? ==> forall i :: 0 <= i < |raw| ==> r.value[i] == NormalizeSimc(raw[i]).value
  {
    MapAll(raw, NormalizeSimc)
  }

  /** NAZWA_2 is lower-cased when present and `''` when the cell is empty. */
  function NormalizeUlic(r: RawUlicRow): (n: Result<UlicRow>)
    ensures n.Success? <==> r.sym.Some? && r.symUl.Some?
    ensures n.Failure? ==> n.error == ParseError
    ensures n.Success? ==> (&& AllDigits(n.value.sym) && ParseDigits(n.value.sym) == r.sym.value
                            && AllDigits(n.value.symUl) && ParseDigits(n.value.symUl) == r.symUl.value)
    ensures n.Success? ==> n.value.nazwa2 == (if r.nazwa2.Some? then Lower(r.nazwa2.value) else "")
    ensures n.Success? ==> (&& n.value.sym == Pad(r.sym.value, CITY_WIDTH) && n.value.symUl == Pad(r.symUl.value, STREET_WIDTH)
                            && n.value.nazwa1 == Lower(r.nazwa1) && n.value.cecha == r.cecha && n.value.stanNa == r.stanNa)
  {
    match RequiredCode(r.sym, CITY_WIDTH)
    case Failure(e) => Failure(e)
    case Success(sym) =>
      match RequiredCode(r.symUl, STREET_WIDTH)
      case Failure(e) => Failure(e)
      case Success(symUl) =>
        var nazwa2 := match r.nazwa2 case None => "" case Some(s) => Lower(s);
        Success(UlicRow(sym, symUl, Lower(r.nazwa1), nazwa2, r.cecha, r.stanNa))
  }

  /** `_read_ulic`: every row in file order; an empty SYM or SYM_UL cell aborts the read. */
  function ReadUlic(raw: seq<RawUlicRow>): (r: Result<seq<UlicRow>>)
    ensures r.Success? <==> forall i :: 0 <= i < |raw| ==> raw[i].sym.Some? && raw[i].symUl.Some?
    ensures r.Failure? ==> r.error == ParseError
    ensures r.Success? ==> |r.value| == |raw|
    ensures r.Success? ==> forall i :: 0 <= i < |raw| ==> r.value[i] == NormalizeUlic(raw[i]).value
  {
    MapAll(raw, NormalizeUlic)
  }

  /** The postal-code file's column names as `read_data.py` looks them up. */
  const CODE_COLUMN := "Kod"
  const PROVINCE_COLUMN := "Województwo"
  const COUNTY_COLUMN := "Powiat"
  const PARISH_COLUMN := "Gmina"

  /** One record of the postal-code file, the province name read under `provinceColumn`;
      a column the record lacks raises KeyError. */
  function ReadCodeRecord(rec: CsvRecord, provinceColumn: string): (r: Result<CodeRow>)
    ensures r.Success? <==> CODE_COLUMN in rec && provinceColumn in rec && COUNTY_COLUMN in rec && PARISH_COLUMN in rec
    ensures r.Failure? ==> r.error == KeyError
    ensures r.Success? ==> && r.value.kod == rec[CODE_COLUMN]
                           && r.value.wojewodztwo == Lower(rec[provinceColumn])
                           && r.value.powiat == Lower(rec[COUNTY_COLUMN])
                           && r.value.gmina == Lower(rec[PARISH_COLUMN])
  {
    if CODE_COLUMN in rec && provinceColumn in rec && COUNTY_COLUMN in rec && PARISH_COLUMN in rec then
      Success(CodeRow(rec[CODE_COLUMN], Lower(rec[provinceColumn]), Lower(rec[COUNTY_COLUMN]), Lower(rec[PARISH_COLUMN])))
    else Failure(KeyError)
  }

  /** `_read_codes`: every record in file order; the code is kept as written, the three
      names are lower-cased. */
  function ReadCodes(records: seq<CsvRecord>, provinceColumn: string): (r: Result<seq<CodeRow>>)
    ensures r.Success? <==> forall i :: 0 <= i < |records| ==> ReadCodeRecord(records[i], provinceColumn).Success?
    ensures r.Failure? ==> r.error == KeyError
    ensures r.Success? ==> |r.value| == |records|
    ensures r.Success? ==> forall i :: 0 <= i < |records| ==> r.value[i] == ReadCodeRecord(records[i], provinceColumn).value
  {
    MapAll(records, (rec: CsvRecord) => ReadCodeRecord(rec, provinceColumn))
  }
}
