/**
 * The health service: one ping of the database, reported under the key
 * "postgres". A failed ping changes the reported value, never the error.
 */
module Health {
  import opened GoErrors
  import opened Repository

  const Postgres := "postgres"

  /** The (map, error) pair Health returns. */
  datatype Report = Report(status: map<string, bool>, err: Option<Error>)

  /** Health, given the error the single Ping returned. */
  function Health(pingErr: Option<Error>): (r: Report)
    ensures r.status.Keys == {Postgres}
    ensures r.status[Postgres] <==> pingErr.None?
    ensures r.err == None
  {
    Report(map[Postgres := pingErr.None?], None)
  }

  /** The report reflects the database: healthy exactly when its driver is not failing. */
  lemma HealthOfDatabase(db: Repository.Database)
    ensures Health(db.Ping()).status == map[Postgres := db.failure.None?]
  {
  }
}
