/**
 * The shortener service: look up an existing key for a long URL, otherwise
 * derive a new key from a generated id and save the pair, then build
 * host + "/" + key. Shorten states one call's outcome as a function of the
 * table before it; ShortenerService.Shortener performs the same steps in
 * order against the database and the id generator and is proved to agree
 * with it.
 */
module Service {
  import opened GoErrors
  import opened NetUrl
  import opened KeyCodec
  import opened Repository

  /** The error buildShortURL makes when the short URL does not parse (a fresh error, not a sentinel). */
  const BuildFailed: Error := Plain("failed to build short URL")

  /** buildShortURL: parse host + "/" + key; a parse failure becomes BuildFailed. */
  function BuildShortUrl(host: string, key: string, parse: Parser): (r: Result<Url>)
    ensures r.Ok? <==> parse(host + "/" + key).Some?
    ensures r.Ok? ==> r.value == parse(host + "/" + key).value
    ensures r.Err? ==> r.error == BuildFailed
  {
    match parse(host + "/" + key)
    case None => Err(BuildFailed)
    case Some(u) => Ok(u)
  }

  /** A key holding a control character never makes a short URL, whatever the host. */
  lemma ControlCharKeyFails(host: string, key: string, i: int, parse: Parser)
    requires RejectsControlChars(parse)
    requires 0 <= i < |key| && IsControl(key[i])
    ensures BuildShortUrl(host, key, parse) == Err(BuildFailed)
  {
    var s := host + "/" + key;
    assert s[|host| + 1 + i] == key[i];
  }

  /** The key "\x07" of the service's unit test: building fails with the fixed message. */
  lemma BellKeyFails(host: string, parse: Parser)
    requires RejectsControlChars(parse)
    ensures BuildShortUrl(host, [7 as char], parse) == Err(BuildFailed)
    ensures Message(BuildShortUrl(host, [7 as char], parse).error) == "failed to build short URL"
  {
    ControlCharKeyFails(host, [7 as char], 0, parse);
  }

  /**
   * What one Shortener call does: its result, the key it settled on ("" when
   * the lookup failed), the table after it, the INSERTs it issued and
   * whether it took an id from the generator.
   */
  datatype ShortenRun = ShortenRun(result: Result<Url>, key: string, rows: seq<UrlRow>,
                                   inserts: seq<UrlRow>, usedId: bool)

  /**
   * Shortener on a table `rows`, with `failure` the driver failure the lookup
   * meets, `writeFailure` the one the INSERT meets, and `id` the generator's
   * next id.
   */
  function Shorten(rows: seq<UrlRow>, failure: Option<string>, writeFailure: Option<string>, id: string, host: string,
                   parse: Parser, longUrl: string): (run: ShortenRun)
    ensures UniqueKeys(rows) ==> UniqueKeys(run.rows)
  {
    match FindEncodedKey(QueryEncodedKey(rows, failure, longUrl))
    case Err(e) => ShortenRun(Err(e), "", rows, [], false)
    case Ok(found) =>
      if found != "" then ShortenRun(BuildShortUrl(host, found, parse), found, rows, [], false)
      else
        var key := DeriveKey(id);
        var ins := InsertRow(rows, writeFailure, key, longUrl);
        match SaveURL(ins.exec)
        case Some(e) => ShortenRun(Err(e), key, ins.rows, [UrlRow(key, longUrl)], true)
        case None => ShortenRun(BuildShortUrl(host, key, parse), key, ins.rows, [UrlRow(key, longUrl)], true)
  }

  /** A failing lookup is returned as is; no id is taken and nothing is saved. */
  lemma LookupErrorStops(rows: seq<UrlRow>, failure: Option<string>, writeFailure: Option<string>, id: string, host: string,
                         parse: Parser, longUrl: string)
    requires failure.Some?
    ensures Shorten(rows, failure, writeFailure, id, host, parse, longUrl) == ShortenRun(Err(ErrUnexpected), "", rows, [], false)
  {
  }

  /** A long URL already in the table gets the short URL of its stored key; no id is taken and nothing is saved. */
  lemma ExistingKeyReused(rows: seq<UrlRow>, writeFailure: Option<string>, id: string, host: string,
                          parse: Parser, longUrl: string, key: string)
    requires SelectKey(rows, longUrl) == Row(key) && key != ""
    ensures var run := Shorten(rows, None, writeFailure, id, host, parse, longUrl);
      && run.result == BuildShortUrl(host, key, parse)
      && run.key == key && run.rows == rows && run.inserts == [] && !run.usedId
  {
  }

  /**
   * A lookup that answers the empty key (no row, or a stored empty key): one
   * id is taken and exactly one INSERT of the derived key and the unchanged
   * long URL is issued; an INSERT the driver fails or the key table refuses
   * is returned as ErrUnexpected with no short URL built and the table unchanged.
   */
  lemma NewKeySaved(rows: seq<UrlRow>, failure: Option<string>, writeFailure: Option<string>, id: string, host: string,
                    parse: Parser, longUrl: string)
    requires FindEncodedKey(QueryEncodedKey(rows, failure, longUrl)) == Ok("")
    ensures var run := Shorten(rows, failure, writeFailure, id, host, parse, longUrl);
      && run.key == DeriveKey(id) && run.usedId
      && run.inserts == [UrlRow(run.key, longUrl)]
      && (writeFailure.Some? || HasKey(rows, run.key) ==> run.result == Err(ErrUnexpected) && run.rows == rows)
      && (writeFailure.None? && !HasKey(rows, run.key) ==>
            run.result == BuildShortUrl(host, run.key, parse) && run.rows == rows + [UrlRow(run.key, longUrl)])
  {
  }

  /**
   * A stored empty key reads as absent: the call takes a new id and issues
   * another INSERT for the same long URL. With the empty id again that INSERT
   * collides with the stored "" and fails; with a fresh key it adds a second
   * row for the long URL.
   */
  lemma {:induction false} StoredEmptyKeyReadsAsAbsent(rows: seq<UrlRow>, id: string, host: string,
                                                      parse: Parser, longUrl: string)
    requires SelectKey(rows, longUrl) == Row("")
    ensures var run := Shorten(rows, None, None, id, host, parse, longUrl);
      && run.usedId && run.inserts == [UrlRow(DeriveKey(id), longUrl)]
      && (id == "" ==> run.result == Err(ErrUnexpected) && run.rows == rows)
      && (!HasKey(rows, DeriveKey(id)) ==> run.rows == rows + [UrlRow(DeriveKey(id), longUrl)])
  {
    var i :| 0 <= i < |rows| && rows[i] == UrlRow("", longUrl)
             && forall j :: 0 <= j < i ==> rows[j].longUrl != longUrl;
    DeriveKeyEmpty(id);
    assert rows[i].encodedKey == "";
  }

  /** A newly generated key is a prefix of at most seven base64url symbols of the id's encoding. */
  lemma NewKeyShape(rows: seq<UrlRow>, failure: Option<string>, writeFailure: Option<string>, id: string, host: string,
                    parse: Parser, longUrl: string)
    requires Shorten(rows, failure, writeFailure, id, host, parse, longUrl).usedId
    ensures var k := Shorten(rows, failure, writeFailure, id, host, parse, longUrl).key;
      && |k| == Min(KeyLength, |Encode(Utf8(id))|)
      && k == Encode(Utf8(id))[..|k|]
      && forall i :: 0 <= i < |k| ==> IsUrlSafe(k[i])
  {
  }

  /** The errors Shortener returns: the repository's ErrUnexpected or the build failure. */
  lemma ShortenErrors(rows: seq<UrlRow>, failure: Option<string>, writeFailure: Option<string>, id: string, host: string,
                      parse: Parser, longUrl: string)
    ensures var r := Shorten(rows, failure, writeFailure, id, host, parse, longUrl).result;
      r.Err? ==> r.error == ErrUnexpected || r.error == BuildFailed
  {
  }

  // ---------------------------------------------------------------------------
  // Properties over a sequence of calls.

  predicate NoEmptyKeys(rows: seq<UrlRow>)
  {
    forall i :: 0 <= i < |rows| ==> rows[i].encodedKey != ""
  }

  /** At most one row per long URL. */
  ghost predicate OneRowPerLongUrl(rows: seq<UrlRow>)
  {
    forall i, j :: 0 <= i < j < |rows| ==> rows[i].longUrl != rows[j].longUrl
  }

  /** The table as sequential Shortener calls with non-empty ids leave it. */
  ghost predicate TableInvariant(rows: seq<UrlRow>)
  {
    UniqueKeys(rows) && NoEmptyKeys(rows) && OneRowPerLongUrl(rows)
  }

  /** In a table without empty keys, the lookup finds a key exactly when the long URL is stored. */
  lemma FoundKeyNotEmpty(rows: seq<UrlRow>, longUrl: string)
    requires NoEmptyKeys(rows)
    ensures SelectKey(rows, longUrl).Row? ==> SelectKey(rows, longUrl).column != ""
  {
    var q := SelectKey(rows, longUrl);
    if q.Row? {
      var i :| 0 <= i < |rows| && rows[i] == UrlRow(q.column, longUrl);
    }
  }

  /** A row appended for a long URL the table did not hold is the one the lookup finds. */
  lemma SelectKeyAppended(rows: seq<UrlRow>, key: string, longUrl: string)
    requires SelectKey(rows, longUrl) == NoRows
    ensures SelectKey(rows + [UrlRow(key, longUrl)], longUrl) == Row(key)
  {
    var rows' := rows + [UrlRow(key, longUrl)];
    assert rows'[|rows|].longUrl == longUrl;
    var q := SelectKey(rows', longUrl);
    var i :| 0 <= i < |rows'| && rows'[i] == UrlRow(q.column, longUrl)
             && forall j :: 0 <= j < i ==> rows'[j].longUrl != longUrl;
  }

  /** Sequential shortening with non-empty ids keeps keys unique and non-empty, and one row per long URL. */
  lemma ShortenKeepsInvariant(rows: seq<UrlRow>, failure: Option<string>, writeFailure: Option<string>, id: string, host: string,
                              parse: Parser, longUrl: string)
    requires TableInvariant(rows) && id != ""
    ensures TableInvariant(Shorten(rows, failure, writeFailure, id, host, parse, longUrl).rows)
  {
    var run := Shorten(rows, failure, writeFailure, id, host, parse, longUrl);
    FoundKeyNotEmpty(rows, longUrl);
    DeriveKeyEmpty(id);
    if run.rows != rows {
      assert failure.None? && writeFailure.None? && SelectKey(rows, longUrl) == NoRows;
      assert run.rows == rows + [UrlRow(DeriveKey(id), longUrl)];
      forall i, j | 0 <= i < j < |run.rows| ensures run.rows[i].longUrl != run.rows[j].longUrl {
        if j == |rows| {
          assert run.rows[i] == rows[i];
        } else {
          assert run.rows[i] == rows[i] && run.rows[j] == rows[j];
        }
      }
    }
  }

  /** Round trip: once Shortener has returned a short URL for L, retrieving its key yields L as parsed. */
  lemma ShortenThenRetrieve(rows: seq<UrlRow>, failure: Option<string>, writeFailure: Option<string>, id: string, host: string,
                            parse: Parser, longUrl: string)
    requires UniqueKeys(rows)
    requires Shorten(rows, failure, writeFailure, id, host, parse, longUrl).result.Ok?
    ensures var run := Shorten(rows, failure, writeFailure, id, host, parse, longUrl);
      FindLongURL(QueryLongUrl(run.rows, None, run.key), parse)
        == if parse(longUrl).Some? then Ok(parse(longUrl).value) else Err(ErrUnexpected)
  {
    var run := Shorten(rows, failure, writeFailure, id, host, parse, longUrl);
    var q := SelectKey(rows, longUrl);
    if q.Row? && q.column != "" {
      var i :| 0 <= i < |rows| && rows[i] == UrlRow(q.column, longUrl);
      SelectLongUrlOfRow(rows, i);
    } else {
      assert run.rows == rows + [UrlRow(run.key, longUrl)];
      assert run.rows[|rows|] == UrlRow(run.key, longUrl);
      SelectLongUrlOfRow(run.rows, |rows|);
    }
  }

  /** Idempotence: shortening the same long URL again returns the same result, takes no id and saves nothing. */
  lemma ShortenTwice(rows: seq<UrlRow>, failure: Option<string>, writeFailure: Option<string>, writeFailure': Option<string>,
                     id: string, id': string, host: string,
                     parse: Parser, longUrl: string)
    requires NoEmptyKeys(rows) && id != ""
    requires Shorten(rows, failure, writeFailure, id, host, parse, longUrl).result.Ok?
    ensures var first := Shorten(rows, failure, writeFailure, id, host, parse, longUrl);
      var second := Shorten(first.rows, failure, writeFailure', id', host, parse, longUrl);
      && second.result == first.result
      && second.rows == first.rows
      && second.inserts == []
      && !second.usedId
  {
    var first := Shorten(rows, failure, writeFailure, id, host, parse, longUrl);
    FoundKeyNotEmpty(rows, longUrl);
    if SelectKey(rows, longUrl) == NoRows {
      DeriveKeyEmpty(id);
      assert first.rows == rows + [UrlRow(first.key, longUrl)];
      SelectKeyAppended(rows, first.key, longUrl);
    }
  }

  /** A key that is not in the table is reported as ErrNotFound. */
  lemma UnknownKeyNotFound(rows: seq<UrlRow>, key: string, parse: Parser)
    requires !HasKey(rows, key)
    ensures FindLongURL(QueryLongUrl(rows, None, key), parse) == Err(ErrNotFound)
  {
  }

  // ---------------------------------------------------------------------------
  // The service object.

  /** The injected id generator: hands out ids(0), ids(1), ... in turn. */
  class IdGenerator {
    const ids: nat -> string
    var issued: nat

    constructor (ids: nat -> string)
      ensures this.ids == ids && issued == 0
    {
      this.ids := ids;
      issued := 0;
    }

    method Next() returns (id: string)
      modifies this
      ensures id == ids(old(issued)) && issued == old(issued) + 1
    {
      id := ids(issued);
      issued := issued + 1;
    }
  }

  class ShortenerService {
    const db: Database
    const host: string
    const generator: IdGenerator
    const parse: Parser

    constructor (db: Database, host: string, generator: IdGenerator, parse: Parser)
      ensures this.db == db && this.host == host && this.generator == generator && this.parse == parse
    {
      this.db := db;
      this.host := host;
      this.generator := generator;
      this.parse := parse;
    }

    /** Shortener: lookup, then on a miss one generated id, one INSERT, and the short URL. */
    method Shortener(longUrl: string) returns (r: Result<Url>)
      requires db.Valid()
      modifies db, generator
      ensures db.Valid() && db.failure == old(db.failure) && db.writeFailure == old(db.writeFailure)
      ensures var run := Shorten(old(db.rows), old(db.failure), old(db.writeFailure), generator.ids(old(generator.issued)),
                                 host, parse, longUrl);
        && r == run.result
        && db.rows == run.rows
        && db.inserts == old(db.inserts) + run.inserts
        && generator.issued == old(generator.issued) + (if run.usedId then 1 else 0)
    {
      var found := FindEncodedKey(QueryEncodedKey(db.rows, db.failure, longUrl));
      if found.Err? {
        return Err(found.error);
      }
      var encodedKey := found.value;
      if encodedKey != "" {
        return BuildShortUrl(host, encodedKey, parse);
      }
      var id := generator.Next();
      encodedKey := Encode(Utf8(id));
      if |encodedKey| > KeyLength {
        encodedKey := encodedKey[..KeyLength];
      }
      var exec := db.Insert(encodedKey, longUrl);
      var err := SaveURL(exec);
      if err.Some? {
        return Err(err.value);
      }
      r := BuildShortUrl(host, encodedKey, parse);
    }

    /** Retrieve: the repository's answer for the key, passed through unchanged. */
    function Retrieve(key: string): (r: Result<Url>)
      reads db
      ensures r == FindLongURL(QueryLongUrl(db.rows, db.failure, key), parse)
    {
      var found := FindLongURL(QueryLongUrl(db.rows, db.failure, key), parse);
      if found.Err? then Err(found.error) else Ok(found.value)
    }
  }
}
