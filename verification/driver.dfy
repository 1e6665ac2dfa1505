/** The database driver's error (`sqlx::Error`) as far as the service looks at
    it, and the PostgreSQL SQLSTATE codes the error mappers recognise. */
module Driver {
  import opened Base

  /** `RowNotFound` is what `fetch_one` reports when the query matched no row;
      `Database` is an error raised by the server, which may carry a SQLSTATE
      code; `Other` stands for every remaining driver failure (I/O, pool
      timeout, decoding, ...). */
  datatype DbError =
    | RowNotFound
    | Database(code: Option<string>)
    | Other

  /** `err.as_database_error()` followed by `.code()`: a code is only ever
      reported by a server-side error, and only when the server sent one. */
  function DatabaseCode(err: DbError): (code: Option<string>)
    ensures code.Some? ==> err.Database?
    ensures err.Database? ==> code == err.code
  {
    match err
    case Database(c) => c
    case _ => None
  }

  /** SQLSTATE class 23, integrity constraint violation (PostgreSQL error codes). */
  const ForeignKeyViolation: string := "23503"
  const UniqueViolation: string := "23505"
  const CheckViolation: string := "23514"
}
