/**
 * The mapping store: the `urls` table of (encoded_key, long_url) rows and the
 * three repository operations over it. Each operation is modelled as a
 * function of the answer the database driver gives to its one statement, so
 * that the translation of driver outcomes into the two sentinels is stated
 * exactly; the table itself lives in the class Database.
 */
module Repository {
  import opened GoErrors
  import opened NetUrl

  datatype UrlRow = UrlRow(encodedKey: string, longUrl: string)

  /** The driver's answer to a single-row SELECT followed by Scan. */
  datatype QueryOutcome = Row(column: string) | NoRows | QueryFailed(detail: string)

  /** The driver's answer to an INSERT. */
  datatype ExecOutcome = Executed | ExecFailed(detail: string)

  /** The driver detail of an INSERT whose encoded_key is already in the table. */
  const DuplicateKey := "duplicate key value violates unique constraint"

  // ---------------------------------------------------------------------------
  // The repository operations, given the driver's answer.

  /** FindEncodedKey: "no rows" is the empty key and no error; any other failure is ErrUnexpected. */
  function FindEncodedKey(q: QueryOutcome): (r: Result<string>)
    ensures r.Err? <==> q.QueryFailed?
    ensures r.Err? ==> r.error == ErrUnexpected
    ensures q.NoRows? ==> r == Ok("")
    ensures q.Row? ==> r == Ok(q.column)
  {
    match q
    case Row(key) => Ok(key)
    case NoRows => Ok("")
    case QueryFailed(_) => Err(ErrUnexpected)
  }

  /** FindLongURL: "no rows" is ErrNotFound; a failed query or a stored text that does not parse is ErrUnexpected. */
  function FindLongURL(q: QueryOutcome, parse: Parser): (r: Result<Url>)
    ensures q.NoRows? <==> r == Err(ErrNotFound)
    ensures r.Ok? <==> q.Row? && parse(q.column).Some?
    ensures r.Ok? ==> r.value == parse(q.column).value
    ensures r.Err? ==> r.error == ErrUnexpected || r.error == ErrNotFound
  {
    match q
    case NoRows => Err(ErrNotFound)
    case QueryFailed(_) => Err(ErrUnexpected)
    case Row(text) =>
      match parse(text)
      case None => Err(ErrUnexpected)
      case Some(u) => Ok(u)
  }

  /** SaveURL: nil on success, ErrUnexpected on any failure of the INSERT. */
  function SaveURL(e: ExecOutcome): (r: Option<Error>)
    ensures r.None? <==> e.Executed?
    ensures r.Some? ==> r.value == ErrUnexpected
  {
    match e
    case Executed => None
    case ExecFailed(_) => Some(ErrUnexpected)
  }

  /** Driver detail never reaches the caller: two failures with different details give the same results. */
  lemma DetailIsDropped(d: string, d': string, parse: Parser)
    ensures FindEncodedKey(QueryFailed(d)) == FindEncodedKey(QueryFailed(d'))
    ensures FindLongURL(QueryFailed(d), parse) == FindLongURL(QueryFailed(d'), parse)
    ensures SaveURL(ExecFailed(d)) == SaveURL(ExecFailed(d'))
  {
  }

  // ---------------------------------------------------------------------------
  // The urls table.

  /** No two rows share an encoded_key (the table's key). */
  ghost predicate UniqueKeys(rows: seq<UrlRow>)
  {
    forall i, j :: 0 <= i < j < |rows| ==> rows[i].encodedKey != rows[j].encodedKey
  }

  predicate HasKey(rows: seq<UrlRow>, key: string)
  {
    exists i :: 0 <= i < |rows| && rows[i].encodedKey == key
  }

  /** SELECT encoded_key FROM urls WHERE long_url = $1: the first matching row in insertion order. */
  function SelectKey(rows: seq<UrlRow>, longUrl: string): (q: QueryOutcome)
    ensures !q.QueryFailed?
    ensures q.NoRows? <==> forall i :: 0 <= i < |rows| ==> rows[i].longUrl != longUrl
    ensures q.Row? ==> exists i :: 0 <= i < |rows| && rows[i] == UrlRow(q.column, longUrl)
                                   && forall j :: 0 <= j < i ==> rows[j].longUrl != longUrl
  {
    if rows == [] then NoRows
    else if rows[0].longUrl == longUrl then Row(rows[0].encodedKey)
    else
      var q := SelectKey(rows[1..], longUrl);
      assert q.NoRows? ==> forall i :: 0 <= i < |rows| ==> rows[i].longUrl != longUrl by {
        if q.NoRows? {
          forall i | 0 <= i < |rows| ensures rows[i].longUrl != longUrl {
            if i > 0 { assert rows[i] == rows[1..][i - 1]; }
          }
        }
      }
      assert q.Row? ==> exists i :: 0 <= i < |rows| && rows[i] == UrlRow(q.column, longUrl)
                                    && forall j :: 0 <= j < i ==> rows[j].longUrl != longUrl by {
        if q.Row? {
          var k :| 0 <= k < |rows| - 1 && rows[1..][k] == UrlRow(q.column, longUrl)
                   && forall j :: 0 <= j < k ==> rows[1..][j].longUrl != longUrl;
          assert rows[k + 1] == UrlRow(q.column, longUrl);
          forall j | 0 <= j < k + 1 ensures rows[j].longUrl != longUrl {
            if j > 0 { assert rows[j] == rows[1..][j - 1]; }
          }
        }
      }
      q
  }

  /** SELECT long_url FROM urls WHERE encoded_key = $1: the first matching row in insertion order. */
  function SelectLongUrl(rows: seq<UrlRow>, key: string): (q: QueryOutcome)
    ensures !q.QueryFailed?
    ensures q.NoRows? <==> !HasKey(rows, key)
    ensures q.Row? ==> UrlRow(key, q.column) in rows
  {
    if rows == [] then NoRows
    else if rows[0].encodedKey == key then Row(rows[0].longUrl)
    else
      var q := SelectLongUrl(rows[1..], key);
      assert HasKey(rows, key) <==> HasKey(rows[1..], key) by {
        if HasKey(rows, key) {
          var i :| 0 <= i < |rows| && rows[i].encodedKey == key;
          assert rows[1..][i - 1] == rows[i];
        }
        if HasKey(rows[1..], key) {
          var i :| 0 <= i < |rows| - 1 && rows[1..][i].encodedKey == key;
          assert rows[i + 1] == rows[1..][i];
        }
      }
      q
  }

  /** The answer to a lookup by long URL, from a database that may be failing. */
  function QueryEncodedKey(rows: seq<UrlRow>, failure: Option<string>, longUrl: string): QueryOutcome
  {
    if failure.Some? then QueryFailed(failure.value) else SelectKey(rows, longUrl)
  }

  /** The answer to a lookup by key, from a database that may be failing. */
  function QueryLongUrl(rows: seq<UrlRow>, failure: Option<string>, key: string): QueryOutcome
  {
    if failure.Some? then QueryFailed(failure.value) else SelectLongUrl(rows, key)
  }

  datatype InsertResult = InsertResult(exec: ExecOutcome, rows: seq<UrlRow>)

  /**
   * INSERT INTO urls (encoded_key, long_url) VALUES ($1, $2), where `failure`
   * is the driver failure this statement meets: appends a row unless the
   * driver fails or the key is taken.
   */
  function InsertRow(rows: seq<UrlRow>, failure: Option<string>, key: string, longUrl: string): (r: InsertResult)
    ensures r.exec.Executed? <==> failure.None? && !HasKey(rows, key)
    ensures r.exec.Executed? ==> r.rows == rows + [UrlRow(key, longUrl)]
    ensures r.exec.ExecFailed? ==> r.rows == rows
    ensures UniqueKeys(rows) ==> UniqueKeys(r.rows)
  {
    if failure.Some? then InsertResult(ExecFailed(failure.value), rows)
    else if HasKey(rows, key) then InsertResult(ExecFailed(DuplicateKey), rows)
    else InsertResult(Executed, rows + [UrlRow(key, longUrl)])
  }

  /** With unique keys, a lookup by key finds exactly the row that holds it. */
  lemma {:induction false} SelectLongUrlOfRow(rows: seq<UrlRow>, i: int)
    requires UniqueKeys(rows) && 0 <= i < |rows|
    ensures SelectLongUrl(rows, rows[i].encodedKey) == Row(rows[i].longUrl)
  {
    if i > 0 {
      assert rows[0].encodedKey != rows[i].encodedKey;
      assert rows[1..][i - 1] == rows[i];
      SelectLongUrlOfRow(rows[1..], i - 1);
    }
  }

  /**
   * The database behind the repository: the urls table, whether the driver
   * currently fails (and with what detail), and a record of every INSERT.
   */
  class Database {
    var rows: seq<UrlRow>
    /** Some(detail): every statement and every ping fails with this driver detail. */
    var failure: Option<string>
    /**
     * Some(detail): an INSERT fails with this driver detail even while reads
     * and pings succeed (a write refused, a statement cancelled between the
     * lookup and the save).
     */
    var writeFailure: Option<string>
    /** Every INSERT issued, in order, whether it succeeded or not. */
    ghost var inserts: seq<UrlRow>

    ghost predicate Valid()
      reads this
    {
      UniqueKeys(rows)
    }

    constructor ()
      ensures Valid() && rows == [] && failure == None && writeFailure == None && inserts == []
    {
      rows := [];
      failure := None;
      writeFailure := None;
      inserts := [];
    }

    /** db.Ping(): nil unless the database is failing. */
    function Ping(): (err: Option<Error>)
      reads this
      ensures err.None? <==> failure.None?
    {
      if failure.Some? then Some(Plain(failure.value)) else None
    }

    /** The failure an INSERT meets: the database's, or else the write-only one. */
    function ExecFailure(): (f: Option<string>)
      reads this
      ensures f.None? <==> failure.None? && writeFailure.None?
    {
      if failure.Some? then failure else writeFailure
    }

    /** db.ExecContext on the INSERT of SaveURL. */
    method Insert(key: string, longUrl: string) returns (e: ExecOutcome)
      requires Valid()
      modifies this
      ensures Valid()
      ensures var r := InsertRow(old(rows), old(ExecFailure()), key, longUrl); e == r.exec && rows == r.rows
      ensures failure == old(failure) && writeFailure == old(writeFailure)
      ensures inserts == old(inserts) + [UrlRow(key, longUrl)]
    {
      inserts := inserts + [UrlRow(key, longUrl)];
      var f := ExecFailure();
      if f.Some? {
        e := ExecFailed(f.value);
      } else if HasKey(rows, key) {
        e := ExecFailed(DuplicateKey);
      } else {
        rows := rows + [UrlRow(key, longUrl)];
        e := Executed;
      }
    }
  }
}
