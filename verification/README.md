# TERYT loader, modelled in Dafny

The repository loads Poland's official territorial registry (TERYT) into a
relational database. TERYT is published as three extracts: TERC (provinces,
counties, parishes), SIMC (localities) and ULIC (streets). A fourth file maps
postal codes to parishes. There are two loaders:

- `read_data.py` writes raw SQL through psycopg2. Every stage runs inside
  `with self.conn:`, so a stage that raises is rolled back whole.
- `inster_models.py` writes through the Django models of `models.py`. It uses
  `get_or_create` for every row and runs under autocommit, so the rows written
  before an exception stay.

Both loaders do the same things in the same order:

1. Reset the seven tables.
2. Read the four extracts. Numeric codes are zero-padded (`str(int(x)).zfill(w)`
   with widths 2/2/2/7/5), an empty optional code becomes `''`, and names are
   lower-cased.
3. Split TERC into provinces, counties and parishes by which code cells are empty.
4. Insert provinces, counties, parishes, cities, streets, then postal codes with
   their (parish, postal code) links.

The model has six modules, one per file:

- `Base`: option, result and error kinds.
- `Normalize`: the code normaliser and the lower-casing.
- `Extract`: the four readers and the TERC split, shared by both loaders. Their
  code is the same up to column names.
- `Store`: the seven tables as a value `Tables` and the schema's constraints as
  the invariant `Consistent`. It also holds the generic queries, the cascading
  delete and a `Database` class whose table fields the loaders update in place.
- `SqlLoader`: `read_data.py`.
- `OrmLoader`: `inster_models.py`.

How the model is built:

- Each loop body is a step function on `Tables`. Each loop is a method on
  `Database` proved equal to a fold of that step: `Replay` plus `Transaction` for
  SQL, `Autocommit` for the ORM.
- `PopulateDb` is proved equal to a `Pipeline` function.
- The properties are lemmas about those functions. Among them: both runs always
  end in a consistent database, whatever the extracts hold. The ORM run also keeps
  one row per natural key.

Notes on the two loaders:

- They read the province column of the postal-code file under different names:
  `Województwo` (read_data.py:101) and a mis-decoded form of it
  (inster_models.py:73). The second is one of the two Findings below.
- A postal code whose parish is not found gets no link. `read_data.py` skips it
  silently (read_data.py:239-240); `inster_models.py` prints a message
  (inster_models.py:158-159).
- `SqlLoader` follows `read_data.py` as written. `OrmLoader.Pipeline`, `Load`,
  `LoadExtracts` and `PopulateDb` run `inster_models.py` with both Findings
  corrected; `OrmLoader.PipelineAsWritten` and `LoadAsWritten` run it as written.

## Model

| member | source | states |
|---|---|---|
| `Normalize.ZFill` | read_data.py:32 | The result is the string left-padded with '0' to width w. The original digits are its suffix, and nothing is padded when the string is already w long. |
| `Normalize.Digits` | read_data.py:32 | `str(n)` of a non-negative integer: at least one character, all of them decimal digits, most significant first. Proved about it: `ParseDigitsOfDigits`, so `int(str(n)) == n`. |
| `Normalize.Pad` | read_data.py:32 | `str(int(x)).zfill(w)`, the normalisation of every numeric code (WOJ, POW, GMI, SYM, SYMPOD, SYM_UL). Proved about it: `PadRoundTrip`, `PadInjective`, `PadWidth`. |
| `Normalize.PadRoundTrip` | read_data.py:32-36 | A padded code is all digits and `int()` of it gives back the number it came from. |
| `Normalize.PadInjective` | read_data.py:32-36 | Two different numbers never get the same padded code, so padding loses no key. |
| `Normalize.PadWidth` | read_data.py:32 | A padded code is at least w long, and exactly w long iff the number is below 10^w. |
| `Normalize.OptionalCode` | read_data.py:33-36 | POW/GMI: `''` exactly when the cell is empty. Otherwise digits that parse back to the cell, at least w long, and exactly w long when the number is below 10^w. |
| `Normalize.RequiredCode` | read_data.py:32 | WOJ/SYM/SYMPOD/SYM_UL: an empty cell raises (`int(NaN)`). Otherwise a non-empty digit string that parses back, of width w when the number fits. |
| `Normalize.RequiredInt` | read_data.py:76 | RODZ_GMI: an empty cell raises; otherwise the number itself. |
| `Normalize.LowerChar` | read_data.py:37 | A capital A-Z becomes the small letter at the same place in the alphabet; any other character is kept. |
| `Normalize.Lower` | read_data.py:37 | Same length and no capital left: each capital A-Z becomes its own small letter in place, and every other character is kept. |
| `Normalize.LowerKeepsLowerCase` | read_data.py:37 | A name with no capital is its own lower-case form. |
| `Normalize.LowerIdempotent` | read_data.py:37 | Lower-casing a stored name again changes nothing, so names compare as stored. |
| `Normalize.LowerConcat` | read_data.py:37 | Lower-casing works per character, so it commutes with concatenation. |
| `Normalize.LowerEqualIff` | read_data.py:227-238 | Two names are equal after lower-casing iff they have the same length and agree letter by letter up to ASCII case. |
| `Extract.MapAll` | read_data.py:32 | A column `apply`: it succeeds iff every row does, gives the row-wise results, and otherwise fails with some row's error. |
| `Extract.NormalizeTerc` | read_data.py:32-37 | A TERC row fails iff WOJ is empty, with a parse error. On success WOJ is padded to 2, POW/GMI are optional codes, the name is lower-cased, and RODZ, NAZWA_DOD and STAN_NA are carried unchanged. |
| `Extract.MasksPartition` | read_data.py:39-52 | Every TERC row satisfies exactly one of the three masks. |
| `Extract.MasksFromRawCells` | read_data.py:33-52 | A row is a province iff POW and GMI were empty, a county iff only GMI was, and a parish iff GMI was present. |
| `Extract.ProvinceMask` | read_data.py:39 | The province mask: POW and GMI both `''`. |
| `Extract.CountyMask` | read_data.py:45 | The county mask: GMI `''` and POW not. |
| `Extract.ParishMask` | read_data.py:52 | The parish mask: GMI not `''`. |
| `Extract.Select` | read_data.py:39-40 | `df[mask][cols]`: the rows that pass the mask, in file order, each projected. Proved about it: `SelectByPositions`, `PartitionSizes`. |
| `Extract.Partition` | read_data.py:39-65 | The three selections of `_read_terc`: provinces, counties and parishes, each projected to its own columns. Proved about it: `PartitionSizes`, `PartitionInFileOrder`. |
| `Extract.PartitionSizes` | read_data.py:39-65 | The three tables together have exactly as many rows as TERC: none lost, none duplicated. |
| `Extract.Positions` | read_data.py:39-40 | The index of a masked frame: increasing row numbers, and a row's number is in it iff the row passes the mask. |
| `Extract.SelectByPositions` | read_data.py:39-65 | The k-th row of a masked selection is the projection of the row at the k-th selected position. |
| `Extract.PositionsAgree` | read_data.py:39-52 | Two masks that agree row for row select the same positions. |
| `Extract.PartitionInFileOrder` | read_data.py:39-65 | Each of the three tables holds, in file order, exactly the rows whose raw POW/GMI cells mark its level, and nothing else. |
| `Extract.ReadTerc` | read_data.py:29-65 | `_read_terc` succeeds iff every WOJ is present, and fails with a parse error otherwise. On success the provinces are, in file order, exactly the rows with POW and GMI empty; the counties those with only GMI empty; the parishes those with GMI present; each normalised and projected. |
| `Extract.NormalizeSimc` | read_data.py:71-79 | A SIMC row fails (parse error) iff WOJ, RODZ_GMI, SYM or SYMPOD is empty. WOJ is padded to 2 and SYM/SYMPOD to 7 and parse back; POW and GMI are optional codes; RODZ_GMI and STAN_NA are kept; NAZWA is lower-cased. |
| `Extract.ReadSimc` | read_data.py:67-81 | `_read_simc` succeeds iff every row does, row for row, and fails with a parse error otherwise. |
| `Extract.NormalizeUlic` | read_data.py:86-90 | A ULIC row fails iff SYM or SYM_UL is empty. SYM is padded to 7 and SYM_UL to 5, both parse back; NAZWA_1 is lower-cased; NAZWA_2 is lower-cased, or `''` when empty; CECHA and STAN_NA are kept. |
| `Extract.ReadUlic` | read_data.py:83-92 | `_read_ulic` succeeds iff every row does, row for row, and fails with a parse error otherwise. |
| `Extract.ReadCodeRecord` | read_data.py:98-104 | A record is read iff it has all four columns, and raises KeyError otherwise. The code is kept; the three names are lower-cased. |
| `Extract.ReadCodes` | read_data.py:94-105 | `_read_codes` succeeds iff every record has the four columns. The result is record for record; the only error is KeyError. |
| `Store.FirstIndex` | read_data.py:143-144 | `fetchone()`: the first matching row, or none exactly when no row matches. |
| `Store.GetOne` | inster_models.py:99 | Django `get`: the single match; DoesNotExist iff none matches; MultipleObjectsReturned iff two do. |
| `Store.Consistent` | read_data.py:265-323 | The schema's constraints: SERIAL ids unique and below the counter, `miasta.id` a primary key, `kod_pocztowy.kod` UNIQUE, and every REFERENCES satisfied. Proved kept: `EmptyIsConsistent`, the `With*Consistent` lemmas, `CascadedConsistent`. |
| `Store.Cleared` | read_data.py:111 | `DELETE FROM` one table: that table emptied, every other table and the counter kept. Proved about it: `ClearedConsistent`, `ClearedEveryTable`. |
| `Store.ClearedInOrder` | read_data.py:111-123 | The deletes of a sequence of tables, one after another. Proved about it: `ClearedEveryTable`. |
| `Store.Cascaded` | read_data.py:276-318 | A delete under ON DELETE CASCADE: the table emptied together with every table that references it, directly or transitively. Proved about it: `CascadedConsistent`, `CascadeNotNeeded`. |
| `Store.CascadedInOrder` | inster_models.py:81-87 | Cascading deletes of a sequence of tables, one after another. Proved about it: `CascadedEveryTable`. |
| `Store.WithProvince` | read_data.py:132-135 | INSERT INTO wojewodztwa: the province appended under the next SERIAL id, which is drawn. Proved about it: `WithProvinceConsistent`. |
| `Store.WithCounty` | read_data.py:145-148 | INSERT INTO powiaty under the next SERIAL id. Proved about it: `WithCountyConsistent`. |
| `Store.WithParish` | read_data.py:162-166 | INSERT INTO gminy under the next SERIAL id. Proved about it: `WithParishConsistent`. |
| `Store.WithCity` | read_data.py:181-184 | INSERT INTO miasta under its own SYM; no SERIAL id is drawn. Proved about it: `WithCityConsistent`. |
| `Store.WithStreet` | read_data.py:198-206 | INSERT INTO ulice under the next SERIAL id. Proved about it: `WithStreetConsistent`. |
| `Store.WithPostalCode` | read_data.py:221-222 | INSERT INTO kod_pocztowy under the next SERIAL id. Proved about it: `WithPostalCodeConsistent`. |
| `Store.WithLink` | read_data.py:252-258 | INSERT INTO gmina_kod_pocztowy under the next SERIAL id. Proved about it: `WithLinkConsistent`. |
| `Store.Replay` | read_data.py:129-136 | The `iterrows()` loop of every `_insert_*`: each row's step in turn, the first exception ending the loop. Proved about it: `ReplayStopsAtFailure`, `ReplayKeeps`, `ReplayRaisesIff`, `ReplayCollects`. |
| `Store.ClearedConsistent` | read_data.py:274-318 | Deleting a table whose referrers are already empty leaves every foreign key satisfied. |
| `Store.ClearedEveryTable` | read_data.py:107-126 | Deleting every table, in any order, leaves only the SERIAL counter. |
| `Store.CascadedConsistent` | models.py:13-15 | A delete under ON DELETE CASCADE always leaves a consistent database consistent, and never resets SERIAL. |
| `Store.CascadeNotNeeded` | read_data.py:276-318 | When a table's referrers are empty, the cascade deletes nothing beyond the table itself. |
| `Store.CascadedEveryTable` | inster_models.py:79-88 | Cascading deletes of every table, in any order, leave only the SERIAL counter. |
| `Store.EmptyIsConsistent` | read_data.py:261-325 | The empty database meets every constraint of the schema. |
| `Store.WithProvinceConsistent` | read_data.py:265-270 | Appending a province under the next SERIAL id keeps the database consistent and adds exactly that id. |
| `Store.WithCountyConsistent` | read_data.py:273-279 | Appending a county whose province exists keeps the database consistent and adds exactly the new id. |
| `Store.WithParishConsistent` | read_data.py:282-290 | Appending a parish whose county exists keeps the database consistent and adds exactly the new id. |
| `Store.WithStreetConsistent` | read_data.py:315-323 | Appending a street whose city exists keeps the database consistent. |
| `Store.WithLinkConsistent` | read_data.py:299-303 | Appending a link whose parish and postal code both exist keeps the database consistent. |
| `Store.WithCityConsistent` | read_data.py:307-308 | Appending a city whose SYM is new and whose parish exists keeps the database consistent and adds exactly that SYM. |
| `Store.WithPostalCodeConsistent` | read_data.py:293-296 | Appending a postal code whose text is new keeps `kod` UNIQUE and the database consistent. |
| `Store.ReplayStopsAtFailure` | read_data.py:141-144 | Once a row of a loop has raised, the rest of the rows are never looked at. |
| `Store.ReplayKeeps` | read_data.py:129-136 | A property every successful row keeps holds wherever the loop stops. |
| `Store.ReplayRaisesIff` | read_data.py:138-149 | When every row keeps an invariant and fails with one error exactly on the rows a test rejects, the loop keeps it and stops with that error iff some row is rejected. |
| `Store.ReplayCollects` | read_data.py:213-225 | When every row succeeds, records itself and keeps what earlier rows recorded, the loop succeeds with every row recorded. |
| `Store.Database.constructor` | read_data.py:261-325 | A freshly created schema: all tables empty, SERIAL at 1, consistent. |
| `Store.RolledBack` | read_data.py:129 | A rollback gives back the saved rows with the SERIAL counter where the transaction left it, never lower. |
| `Store.RolledBackConsistent` | read_data.py:129 | Rolling back a consistent state keeps it consistent. |
| `Store.Database.Restore` | read_data.py:129 | A rollback puts back every row saved when the stage began; the SERIAL counter keeps the values the stage drew. The database stays consistent. |
| `Store.Database.DeleteAll` | read_data.py:111 | A delete of one table leaves exactly the cascaded state. |
| `Store.Database.InsertProvince` | read_data.py:132-135 | An insert returns the next SERIAL id and appends exactly that row. |
| `Store.Database.InsertCounty` | read_data.py:145-148 | An insert returns the next SERIAL id and appends exactly that county. |
| `Store.Database.InsertParish` | read_data.py:162-166 | An insert returns the next SERIAL id and appends exactly that parish. |
| `Store.Database.InsertCity` | read_data.py:181-184 | A city insert appends exactly that city under its own SYM; the SERIAL counter is untouched. |
| `Store.Database.InsertStreet` | read_data.py:198-206 | An insert returns the next SERIAL id and appends exactly that street. |
| `Store.Database.InsertPostalCode` | read_data.py:220-222 | An insert returns the next SERIAL id and appends exactly that code. |
| `Store.Database.InsertLink` | read_data.py:251-258 | An insert returns the next SERIAL id and appends exactly that (parish, code) link. |
| `SqlLoader.ProvinceIdByCode` | read_data.py:142-144 | The id returned is a province with that code; none exactly when no province has it. |
| `SqlLoader.CountyIdByCodes` | read_data.py:155-161 | The id returned is a county with code POW in a province with code WOJ; none iff no such county. |
| `SqlLoader.ParishIdByKey` | read_data.py:173-180 | The id returned is a parish matching (WOJ, POW, GMI, RODZ_GMI); none iff no parish has that key. |
| `SqlLoader.CityIdById` | read_data.py:192-197 | The SYM comes back iff a city with it is stored. |
| `SqlLoader.PostalCodeIdByCode` | read_data.py:215-217 | The id returned is a stored code with that text; none iff no code has it. |
| `SqlLoader.ParishIdByNames` | read_data.py:227-240 | A resolved id is that of the first parish named GMINA in the first county named POWIAT of the first province named WOJEWODZTWO. It is none iff one of the three SELECTs finds nothing. |
| `SqlLoader.NameChainUnique` | read_data.py:227-238 | The three `fetchone()` calls pick first rows, so the chain resolves in at most one way. |
| `SqlLoader.LinkIdByPair` | read_data.py:243-249 | None iff that (parish, code) pair is not linked. |
| `SqlLoader.Nazwa2Column` | read_data.py:198-206 | NAZWA_2 is stored as NULL iff it is empty, and as written otherwise. |
| `SqlLoader.WojStep` | read_data.py:132-135 | One province row: an INSERT with no lookup. Proved about it: `WojStageAppendsEveryRow`. |
| `SqlLoader.PowStep` | read_data.py:142-148 | One county row: the province by code, `fetchone()[0]` raising when it is absent, then an INSERT. Proved about it: `PowStepNeedsProvince` (the exact county appended under a province with that code, nothing else changed), `PowStageNeedsProvinces`. |
| `SqlLoader.GminaStep` | read_data.py:155-166 | One parish row: the county by (WOJ, POW), then an INSERT that refuses an empty RODZ. Proved about it: `GminaStepNeedsCounty`. |
| `SqlLoader.MiastoStep` | read_data.py:173-184 | One city row: the parish by its four-part key, then an INSERT keyed by SYM. Proved about it: `MiastoStepKeepsKeys` (the exact city appended under a parish with that key, nothing else changed), `MiastoStepIgnoresSympod`. |
| `SqlLoader.UlicaStep` | read_data.py:192-206 | One street row: the city by SYM, then an INSERT with NAZWA_2 NULL when empty. Proved about it: `UliceStageNeedsCities`, `UliceStageAppendsEveryRow`. |
| `SqlLoader.CodeStep` | read_data.py:213-258 | One postal-code row: reuse or insert the code, resolve the name chain, add the link if it is new. Proved about it: `CodeStepKeepsCodesAndLinks`, `CodeStepLinksResolvedParish`, `CodeStepLinksOnlyNewPair` (an existing pair leaves the links unchanged). |
| `SqlLoader.Transaction` | read_data.py:129-136 | `with self.conn:`: commit a finished loop, roll back a raising one. Proved about it: `StageIsAllOrNothing`. |
| `SqlLoader.Stage` | read_data.py:339-350 | A stage runs only when every earlier one finished. Proved about it: `StageIsAllOrNothing`. |
| `SqlLoader.Load` | read_data.py:339-350 | The six insert stages in source order. Proved about it: `LoadKeepsConsistent`. |
| `SqlLoader.Pipeline` | read_data.py:327-350 | `populate_db`: reset, the four reads, then `Load`. Proved about it: `PipelineConsistent`. |
| `SqlLoader.ResetOrderKeepsReferences` | read_data.py:107-126 | Each intermediate state of `_clear_tables` is consistent, and every table is deleted only after its referrers are empty. |
| `SqlLoader.ResetStepNeedsNoCascade` | read_data.py:111-123 | Run with the cascade, each delete of `_clear_tables` removes exactly its own table. |
| `SqlLoader.ResetOrderEmptiesReferrers` | read_data.py:111-123 | When `_clear_tables` reaches a table, every table that references it has already been emptied. |
| `SqlLoader.ResetOrderCoversEveryTable` | read_data.py:111-123 | The reset deletes all seven tables. |
| `SqlLoader.WojStageAppendsEveryRow` | read_data.py:128-136 | The province stage never fails. It appends every row in order under consecutive ids, duplicates included, and changes nothing else. |
| `SqlLoader.PowStageNeedsProvinces` | read_data.py:138-149 | The county stage leaves provinces alone. It succeeds iff every row's WOJ code is present, and otherwise fails on `fetchone()[0]`. |
| `SqlLoader.PowStepNeedsProvince` | read_data.py:142-148 | One county row succeeds iff its WOJ code is stored, and otherwise fails on `fetchone()[0]`. On success the new state is exactly the old one with `County(POW, id, NAZWA, STAN_NA)` appended, for the id of a stored province with that WOJ code. |
| `SqlLoader.GminaStepNeedsCounty` | read_data.py:151-167 | A parish row fails (no row) iff no county matches (WOJ, POW), and fails on RODZ iff one matches but RODZ is empty. Otherwise it appends one parish under a matching county and stays consistent. |
| `SqlLoader.MiastoStepKeepsKeys` | read_data.py:169-186 | A city row fails (no row) iff no parish has its 4-part key, and raises IntegrityError iff one does but the SYM is stored. Otherwise it adds exactly that SYM: the new state is the old one with `City(SYM, id, NAZWA, SYMPOD, STAN_NA)` appended, for the id of a parish with that key. |
| `SqlLoader.MiastoStepIgnoresSympod` | read_data.py:181-184 | SYMPOD is stored unchecked: whether a city loads never depends on it. |
| `SqlLoader.UliceStageNeedsCities` | read_data.py:188-208 | The street stage leaves cities alone and succeeds iff every row's SYM names a loaded city. |
| `SqlLoader.UliceStageAppendsEveryRow` | read_data.py:188-208 | A street stage that finishes has appended every row in order under consecutive ids, with the row's SYM, SYM_UL, NAZWA_1, CECHA and STAN_NA, and `nazwa2` NULL iff NAZWA_2 is empty; nothing else changes. |
| `SqlLoader.CodeStepConsistent` | read_data.py:210-259 | A postal-code row never raises and keeps the database consistent. |
| `SqlLoader.CodeStepKeepsCodesAndLinks` | read_data.py:213-258 | The code is stored afterwards, reused and never duplicated, and the territorial tables are untouched. At most one link is added, none when the name chain does not resolve, and links stay distinct. Which link is added is stated by `CodeStepLinksOnlyNewPair`. |
| `SqlLoader.CodeStepLinksResolvedParish` | read_data.py:227-258 | When the name chain resolves to a parish, the row's code is linked to that parish. |
| `SqlLoader.CodeStepLinksParishId` | read_data.py:242-258 | When the lookup returns an id, the row's code is linked to that id. |
| `SqlLoader.CodeStepLinksOnlyNewPair` | read_data.py:242-258 | When the name chain resolves to a parish: if that parish is already linked to the stored code, the links are unchanged; otherwise exactly the (parish, code) link is appended. |
| `SqlLoader.CodesStageConsistent` | read_data.py:210-259 | The postal-code stage never fails and keeps the database consistent. |
| `SqlLoader.CodesStageKeepsEveryCode` | read_data.py:213-225 | Every code of the stage is in the table when it ends. |
| `SqlLoader.StageIsAllOrNothing` | read_data.py:129-136 | A stage that raises leaves every table as it was before the stage, moves the SERIAL counter only forward, and reports the loop's exception. One that finishes commits the loop's state. |
| `SqlLoader.PipelineConsistent` | read_data.py:327-350 | Whatever the extracts hold and wherever the run stops, every key, UNIQUE and foreign-key constraint holds. |
| `SqlLoader.LoadKeepsConsistent` | read_data.py:339-350 | From a consistent database, the six insert stages leave it consistent wherever they stop. |
| `SqlLoader.ClearTables` | read_data.py:107-126 | The seven deletes leave all tables empty and the database consistent. |
| `SqlLoader.InsertWoj` | read_data.py:128-136 | The loop's end state and exception are those of the province fold under rollback; the database stays consistent. |
| `SqlLoader.InsertPow` | read_data.py:138-149 | The same, for the county loop. |
| `SqlLoader.InsertGmina` | read_data.py:151-167 | The same, for the parish loop. |
| `SqlLoader.InsertMiasta` | read_data.py:169-186 | The same, for the city loop. |
| `SqlLoader.InsertUlice` | read_data.py:188-208 | The same, for the street loop. |
| `SqlLoader.InsertCodes` | read_data.py:210-259 | The same, for the postal-code loop. |
| `SqlLoader.InsertCodeRow` | read_data.py:213-258 | One pass of the postal-code loop: the new state is that of the code step, and the database stays consistent. |
| `SqlLoader.LoadExtracts` | read_data.py:339-350 | The six insert stages, stopping at the first that raises, end where `Load` does. |
| `SqlLoader.PopulateDb` | read_data.py:327-350 | The run ends in the state and with the exception of `Pipeline`, and the database stays consistent. |
| `OrmLoader.GetId` | inster_models.py:99 | Django `get` on a SERIAL table: the id of the one match; DoesNotExist iff none; MultipleObjectsReturned iff two. |
| `OrmLoader.ProvinceByCode` | inster_models.py:99 | `Province.objects.get(code=...)`; also the lookup of `get_or_create(code=...)` at inster_models.py:92. |
| `OrmLoader.CountyByKey` | inster_models.py:100-104 | The lookup of `County.objects.get_or_create(code=..., province=...)`. |
| `OrmLoader.CountyByCodes` | inster_models.py:108-109 | `County.objects.get(code=POW, province__code=WOJ)`: the join through the province. Proved about it: `CountyByCodesSingle`. |
| `OrmLoader.ParishByKey` | inster_models.py:110-119 | The lookup of `Parish.objects.get_or_create(code=..., county=...)`. |
| `OrmLoader.ParishByCode` | inster_models.py:123 | `Parish.objects.get(code=GMI)`, the parish code alone, as written. Proved about it: `CityStepAsWrittenRejectsSharedCode`. |
| `OrmLoader.ParishByCodes` | inster_models.py:123 | The corrected parent lookup: parish GMI in county POW of province WOJ. Proved about it: `CityStepKeepsKeys`. |
| `OrmLoader.CityById` | inster_models.py:133 | `City.objects.get(id=SYM)`. |
| `OrmLoader.CityByKey` | inster_models.py:124-129 | The lookup of `City.objects.get_or_create(id=..., parish=...)`. |
| `OrmLoader.StreetByKey` | inster_models.py:134-143 | The lookup of `Street.objects.get_or_create(name_id=..., city=...)`. |
| `OrmLoader.PostalCodeByCode` | inster_models.py:147-148 | The lookup of `PostalCode.objects.get_or_create(code=...)`. |
| `OrmLoader.ParishByName` | inster_models.py:153 | `Parish.objects.get(name=...)`, the parish name alone. Proved about it: `LinkStepRaises`. |
| `OrmLoader.LinkByPair` | inster_models.py:154-157 | The lookup of `ParishPostalCode.objects.get_or_create(parish=..., postal_code=...)`. |
| `OrmLoader.ProvinceStep` | inster_models.py:92-95 | One province row: get_or_create by code. Proved about it: `ProvinceStepKeepsKeys`, `ProvinceStepLoadsCode`, `ProvinceStepFirstWins`. |
| `OrmLoader.CountyStep` | inster_models.py:99-104 | One county row: the province by code, then get_or_create by (code, province). Proved about it: `CountyStepShape`, `CountyStepNeedsProvince`. |
| `OrmLoader.ParishStep` | inster_models.py:108-119 | One parish row: the county by (POW, WOJ), then get_or_create by (code, county). Proved about it: `ParishStepShape`, `ParishStepFirstWins`. |
| `OrmLoader.CreateCity` | inster_models.py:124-129 | `City.objects.get_or_create(id=SYM, parish=...)`. Proved about it: `CreateCityShape`, `CreateCityKeepsKeys`. |
| `OrmLoader.CityStepAsWritten` | inster_models.py:123-129 | One city row as written: the parent parish by GMI alone. Proved about it: `CityStepAsWrittenRejectsSharedCode`. |
| `OrmLoader.CityStep` | inster_models.py:121-129 | One city row with the corrected parent lookup by (WOJ, POW, GMI). Proved about it: `CityStepShape` (the city is filed under the parish with that key), `CityStepKeepsKeys`. |
| `OrmLoader.StreetStep` | inster_models.py:133-143 | One street row: the city by SYM, then get_or_create by (SYM_UL, city). Proved about it: `StreetStepShape`. |
| `OrmLoader.LinkStep` | inster_models.py:152-159 | The `try` block: the parish by name, DoesNotExist caught, then get_or_create of the link. Proved about it: `LinkStepRaises`, `LinkStepShape`. |
| `OrmLoader.CodeStep` | inster_models.py:147-159 | One postal-code row: get_or_create of the code, then the `try` block. Proved about it: `CodeStepKeepsKeys`, `CodeStepLinksParish`. |
| `OrmLoader.Autocommit` | inster_models.py:90-95 | A loop under autocommit: the first exception ends it and keeps what was written. Proved about it: `AutocommitRaisesIff`. |
| `OrmLoader.Stage` | inster_models.py:173-183 | A loop runs only when every earlier one finished. |
| `OrmLoader.Load` | inster_models.py:173-183 | The six loops in source order, with the corrected city lookup. Proved about it: `LoadKeepsOrmValid`. |
| `OrmLoader.LoadAsWritten` | inster_models.py:173-183 | The six loops as written, with the GMI-only city lookup. |
| `OrmLoader.Pipeline` | inster_models.py:161-185 | `populate_db` with both Findings corrected. Proved about it: `PipelineKeepsOrmValid`. |
| `OrmLoader.PipelineAsWritten` | inster_models.py:161-185 | `populate_db` as written: codes read under the mis-decoded column, cities by GMI alone. |
| `OrmLoader.PipelineAsWrittenInsertsNothing` | inster_models.py:161-185 | As written, a postal-code file with the real header ends the run with an exception right after the reset, with nothing inserted; KeyError when the other three reads succeed. |
| `OrmLoader.ProvinceStepKeepsKeys` | inster_models.py:90-95 | Under unique keys a province row never raises. It keeps earlier provinces and leaves its code present. It changes nothing when the code was already there, and otherwise appends exactly `Province(kod, nazwa, stan_na)` from the row's defaults. |
| `OrmLoader.ProvinceStepFirstWins` | inster_models.py:92-95 | A second row with the same code changes nothing, so a province created by the first row keeps the first row's name and date. |
| `OrmLoader.CountyStepKeepsKeys` | inster_models.py:97-104 | A county row keeps every key unique and the provinces untouched, and a row that raises writes nothing. |
| `OrmLoader.CountyStepShape` | inster_models.py:97-104 | A county row raises DoesNotExist iff no province has its WOJ code, writing nothing. Otherwise it stores nothing or one county under that province, under a key not stored before. |
| `OrmLoader.CountyByCodesSingle` | inster_models.py:108-109 | Under unique keys the county lookup never matches two counties. |
| `OrmLoader.ParishStepKeepsKeys` | inster_models.py:106-119 | A parish row raises DoesNotExist iff no county matches (WOJ, POW), and the RODZ error only on creating with an empty RODZ. It never raises MultipleObjectsReturned, and a raising row writes nothing. |
| `OrmLoader.ParishStepShape` | inster_models.py:106-119 | The same outcomes under unique keys alone, and a row that writes appends one parish whose (GMI, county) key is new. |
| `OrmLoader.ParishStepFirstWins` | inster_models.py:110-119 | A later row with the same (WOJ, POW, GMI) changes nothing: the parish keeps the first row's name and type. |
| `OrmLoader.CreateCityKeepsKeys` | inster_models.py:124-129 | A city create raises IntegrityError iff its SYM is stored under another parish, writing nothing; otherwise the SYM is stored. |
| `OrmLoader.CreateCityShape` | inster_models.py:124-129 | The same outcomes under unique SYMs alone, and a create that writes appends the city under a SYM not stored before. |
| `OrmLoader.CityStepKeepsKeys` | inster_models.py:121-129 | With the parent found by (WOJ, POW, GMI), a city row never raises MultipleObjectsReturned. It raises DoesNotExist iff no parish has the key, and IntegrityError only for a stored SYM. |
| `OrmLoader.CityStepShape` | inster_models.py:121-129 | The same outcomes, under unique keys alone. A row that writes appends exactly `City(SYM, id, NAZWA, SYMPOD, STAN_NA)`, where id is the parish with code GMI in county POW of province WOJ. |
| `OrmLoader.StreetStepKeepsKeys` | inster_models.py:131-143 | A street row raises DoesNotExist iff its SYM names no city, writing nothing; otherwise its (SYM_UL, SYM) key is stored. A row that writes appends exactly `Street(SYM_UL, SYM, NAZWA_1, Some(NAZWA_2), CECHA, STAN_NA)`. |
| `OrmLoader.StreetStepShape` | inster_models.py:131-143 | The same outcomes under unique keys alone. A row that writes appends exactly the street built from the row, under a (SYM_UL, SYM) key that is new; NAZWA_2 is stored as read, so a missing second name is stored as `''`, not NULL (inster_models.py:62-63, 139). |
| `OrmLoader.LinkStepKeepsKeys` | inster_models.py:152-159 | The `try` block keeps every key unique and changes only the links; a raising block writes nothing. |
| `OrmLoader.LinkStepShape` | inster_models.py:152-159 | The block writes nothing, or appends one link of the named parish to the code, a pair not linked before. |
| `OrmLoader.LinkStepRaises` | inster_models.py:152-159 | The block raises iff two parishes bear the name, always with MultipleObjectsReturned, and does nothing when no parish bears it. |
| `OrmLoader.LinkStepLinksParish` | inster_models.py:153-157 | When one parish bears the name, the code ends up linked to it. |
| `OrmLoader.CodeStepKeepsKeys` | inster_models.py:145-159 | A postal-code row keeps every key unique, changes only the codes and the links, and leaves its code stored even when it raises. |
| `OrmLoader.CodeStepLink` | inster_models.py:147-153 | The link is made with the stored code when there is one, and with the code just inserted otherwise. |
| `OrmLoader.CodeStepLinksParish` | inster_models.py:145-159 | A postal-code row raises MultipleObjectsReturned iff two parishes share its parish name. A name no parish bears adds no link; when one parish bears it, the code is linked to it. |
| `OrmLoader.ProvincesStageLoadsEveryCode` | inster_models.py:90-95 | The province stage never raises, keeps what was stored, and leaves every row's code present with codes unique. |
| `OrmLoader.ProvinceStepLoadsCode` | inster_models.py:92-95 | Under unique keys one province row never raises, keeps the stored provinces, and leaves its code present. |
| `OrmLoader.CountyStepNeedsProvince` | inster_models.py:99 | A county row raises iff its WOJ code is absent, always with DoesNotExist, and leaves provinces alone. |
| `OrmLoader.CountiesStageNeedsProvinces` | inster_models.py:97-104 | The county stage leaves provinces alone and raises (DoesNotExist) iff some row's WOJ code is absent. |
| `OrmLoader.AutocommitRaisesIff` | inster_models.py:97-104 | When every row keeps an invariant and raises one error exactly on the rows a test rejects, the loop keeps it and raises iff some row is rejected. |
| `OrmLoader.CityStepAsWrittenRejectsSharedCode` | inster_models.py:123 | As written, a city row raises MultipleObjectsReturned once two parishes anywhere share its GMI code. |
| `OrmLoader.CityParentAsWrittenExample` | inster_models.py:121-129 | On a database the parish stage reaches (two counties, each with a parish 01), the as-written lookup raises. |
| `OrmLoader.CityParentCorrectedExample` | inster_models.py:121-129 | On the same database the (WOJ, POW, GMI) lookup files the town under the parish of its own county. |
| `OrmLoader.MisdecodedColumnRejectsCodeFile` | inster_models.py:73 | As written, a file whose header has the real province column raises KeyError on its first record. The same record reads under the real name. |
| `OrmLoader.MisdecodedColumnExample` | inster_models.py:66-77 | A concrete one-record file: KeyError under the mis-decoded key, read under the real one. |
| `OrmLoader.ResetOrderCoversEveryTable` | inster_models.py:81-87 | The ORM reset deletes all seven tables. |
| `OrmLoader.ResetReliesOnCascade` | inster_models.py:81 | Deleting parishes first would leave cities dangling without the cascade; with it the state stays consistent. |
| `OrmLoader.PipelineKeepsOrmValid` | inster_models.py:161-185 | Whatever the extracts hold and wherever the run stops, the database is consistent with one row per natural key. |
| `OrmLoader.LoadKeepsOrmValid` | inster_models.py:173-183 | From a database with unique natural keys, the six loops keep it so wherever they stop. |
| `OrmLoader.ClearTables` | inster_models.py:79-88 | The seven cascading deletes, in the source's order, leave all tables empty. |
| `OrmLoader.InsertProvinces` | inster_models.py:90-95 | The loop's end state and exception are those of the province fold under autocommit; the database stays consistent. |
| `OrmLoader.GetOrCreateProvince` | inster_models.py:92-95 | One pass of the province loop ends in the state and exception of the province step. |
| `OrmLoader.InsertCounties` | inster_models.py:97-104 | The same, for the county loop. |
| `OrmLoader.GetOrCreateCounty` | inster_models.py:99-104 | The same, for one pass of the county loop. |
| `OrmLoader.InsertParishes` | inster_models.py:106-119 | The same, for the parish loop. |
| `OrmLoader.GetOrCreateParish` | inster_models.py:108-119 | The same, for one pass of the parish loop. |
| `OrmLoader.InsertCities` | inster_models.py:121-129 | The same, for the city loop with the corrected parent lookup. |
| `OrmLoader.GetOrCreateCity` | inster_models.py:124-129 | `City.objects.get_or_create` under a resolved parish ends where `CreateCity` does. |
| `OrmLoader.InsertStreets` | inster_models.py:131-143 | The same, for the street loop. |
| `OrmLoader.GetOrCreateStreet` | inster_models.py:133-143 | The same, for one pass of the street loop. |
| `OrmLoader.InsertCodes` | inster_models.py:145-159 | The same, for the postal-code loop; a row that raises leaves its code committed. |
| `OrmLoader.LinkCode` | inster_models.py:152-159 | The `try` block on the database ends in the state and exception of the link step. |
| `OrmLoader.LoadExtracts` | inster_models.py:173-183 | The six loops, stopping at the first that raises, end where `Load` does. This is the corrected program: its city loop uses the (WOJ, POW, GMI) parent lookup. |
| `OrmLoader.PopulateDb` | inster_models.py:161-185 | The run ends in the state and with the exception of `Pipeline`, consistent with one row per natural key. This is the corrected program: codes are read under `Województwo` and cities by (WOJ, POW, GMI). As written, the run stops after the reset (`PipelineAsWrittenInsertsNothing`). |

## Left out

- Reading the files is not modelled: pandas' CSV parsing, `csv.DictReader`, the UTF-8 BOM, and the file names are all left out. The readers take rows whose numeric cells are already numbers (`Some(n)`) or empty (`None`).
- Non-numeric text in a numeric cell is not modelled. Floats are not modelled either: `str(int(2.0))` is the same as `str(int(2))`.
- The hard-coded file names of `read_data.py`'s `_read_simc` and `_read_ulic` are left out. The model reads whatever extract it is given.
- OrmLoader.PopulateDb: models the corrected program. As written, inster_models.py:73 raises KeyError on a file with the real header before any insert (`PipelineAsWrittenInsertsNothing`), and inster_models.py:123 raises MultipleObjectsReturned at the first city whose GMI code two parishes share (`CityParentAsWrittenExample`). Both are in Findings.
- OrmLoader.LoadExtracts: models the corrected city loop, for the same reason as `PopulateDb`.
- Extract.ReadTerc, Extract.ReadSimc, Extract.ReadUlic, Extract.ReadCodes: text cells are strings, never missing. An empty NAZWA or NAZWA_1 cell is NaN to pandas, and `x.lower()` then raises AttributeError (read_data.py:37, 79, 88). A short record of the postal-code file gives None from `csv.DictReader`, and `.lower()` raises the same (read_data.py:101-103). Neither error is modelled, so the "succeeds iff" clauses of ReadTerc, ReadSimc, ReadUlic and ReadCodes hold only for files whose name cells are all filled.
- Numeric cells are `Option<nat>`, so negative codes are not modelled. Python would pad -1 to "-1" under `zfill(2)`.
- Normalize.Lower, Normalize.LowerChar: lower-case only ASCII letters. Python's `str.lower()` also lower-cases Polish letters such as `Ś`. The model has no Unicode case table, so a stored name is lower-case only in its ASCII letters.
- `print` calls, the psycopg2 connection and the Django settings are left out.
- `_create_tables` is not modelled as an operation. Its keys, UNIQUE and foreign-key clauses are the invariant `Consistent`. Its VARCHAR lengths, NOT NULL text columns and DATE type are not enforced. STAN_NA is kept as text.
- Each SERIAL table has its own sequence in PostgreSQL, but the model uses one counter for all of them. The loaders only compare ids, never their values.
- A SELECT without ORDER BY may return its rows in any order. `fetchone()` is modelled as the first matching row in insertion order.
- The cascade is modelled at table level. That is exact for consistent databases, and every database the loaders see is consistent.
- Django's `get_or_create` catches an IntegrityError, retries the `get`, then re-raises. The model keeps only the outcome: IntegrityError.
- The choices list of `Parish.parish_type` (models.py:24-32) is not enforced, because Django does not check choices on save.
- An empty RODZ cell reaches an integer column in both loaders. PostgreSQL and Django reject it with different exception classes; the model calls both InvalidValue.
- Concurrency, time measurement and Django's connection handling are left out.

## Findings

| source | as written | input that shows it | evidently intended | confidence | as-written member | corrected member |
|---|---|---|---|---|---|---|
| inster_models.py:123 | The city's parent is found by `Parish.objects.get(code=row['GMI'])`, the parish code alone. | Any TERYT load: every county numbers its parishes from 01, so a second county in any province gives two parishes with code 01, and the first city there raises MultipleObjectsReturned. | Look the parish up by province, county and parish code, the key `_insert_parishes` stored it under. | high; not executed | `OrmLoader.CityParentAsWrittenExample` | `OrmLoader.CityStepShape` |
| inster_models.py:73 | The province name is read as `row['Wojew√≥dztwo']`, which is "Województwo" with its UTF-8 bytes decoded as Mac OS Roman. | A postal-code file whose header is `Kod;Województwo;Powiat;Gmina`: the first record raises KeyError and no code is read. | Read the column `Województwo`, as `read_data.py:101` does. | medium; not executed | `OrmLoader.MisdecodedColumnRejectsCodeFile` | `Extract.ReadCodes` |
