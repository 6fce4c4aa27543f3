/** Shared vocabulary of the TERYT loader model: optional values, results
    carrying the loader's error kinds, and the opaque registry date. */
module Base {

  datatype Option<+T> = None | Some(value: T)

  /** Outcome of a step that the source lets raise. */
  datatype Result<+T> = Success(value: T) | Failure(error: Error)

  /** The exceptions that end a stage of either loader. */
  datatype Error =
    | ParseError              // int(x) of a missing (NaN) numeric cell
    | NoRowFound              // fetchone() returned None and was subscripted
    | DoesNotExist            // Django get() matched no row
    | MultipleObjectsReturned // Django get() matched several rows
    | IntegrityError          // a primary key constraint refused an insert
    | InvalidValue            // an empty (NaN) cell sent where the column holds an integer
    | KeyError                // a CSV record looked up under a column the file does not have

  /** STAN_NA, the registry's "valid as of" date, kept as the text the extract holds. */
  type Date = string
}
