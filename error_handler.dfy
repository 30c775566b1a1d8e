/**
 * The status decision of the ErrorHandler middleware. After the downstream
 * handlers have run, the errors they attached are examined: with none there
 * is no response from this handler; otherwise only the last one decides the
 * status, and the body carries its message.
 */
module ErrorHandler {
  import opened GoErrors

  const StatusBadRequest := 400
  const StatusInternalServerError := 500

  /** A JSON response {"error": errorMessage} with a status. */
  datatype Response = Response(status: int, errorMessage: string)

  /** The switch over one error: the bad-request and the not-found sentinels (or errors wrapping them) give 400. */
  function StatusFor(e: Error): (status: int)
    ensures status == StatusBadRequest <==> Is(e, ErrBadRequest) || Is(e, ErrNotFound)
    ensures status == StatusBadRequest || status == StatusInternalServerError
  {
    if Is(e, ErrBadRequest) || Is(e, ErrNotFound) then StatusBadRequest else StatusInternalServerError
  }

  /** The response written for the errors attached downstream, in attachment order. */
  function Respond(attached: seq<Error>): (r: Option<Response>)
    ensures r.None? <==> attached == []
    ensures r.Some? ==> r.value.status == StatusFor(attached[|attached| - 1])
    ensures r.Some? ==> r.value.errorMessage == Message(attached[|attached| - 1])
  {
    if attached == [] then None
    else
      var last := attached[|attached| - 1];
      Some(Response(StatusFor(last), Message(last)))
  }

  /** Only the last attached error matters: what was attached before it changes nothing. */
  lemma OnlyLastErrorCounts(earlier: seq<Error>, last: Error)
    ensures Respond(earlier + [last]) == Respond([last])
  {
  }

  /** However deeply a sentinel is wrapped, the status is the sentinel's own. */
  lemma {:induction false} WrappingKeepsStatus(e: Error, texts: seq<string>)
    ensures StatusFor(WrapAll(texts, e)) == StatusFor(e)
    decreases |texts|
  {
    if texts != [] {
      WrappingKeepsStatus(e, texts[1..]);
      var inner := WrapAll(texts[1..], e);
      assert Is(Wrapped(texts[0], inner), ErrBadRequest) == Is(inner, ErrBadRequest);
      assert Is(Wrapped(texts[0], inner), ErrNotFound) == Is(inner, ErrNotFound);
    }
  }

  /** e wrapped once per text, the first text outermost. */
  function WrapAll(texts: seq<string>, e: Error): Error
  {
    if texts == [] then e else Wrapped(texts[0], WrapAll(texts[1..], e))
  }

  /** What each error the core returns becomes: not found is 400 (not 404), everything else but a bad request is 500. */
  lemma CoreErrorStatuses(text: string)
    ensures StatusFor(ErrBadRequest) == StatusBadRequest
    ensures StatusFor(ErrNotFound) == StatusBadRequest
    ensures StatusFor(ErrUnexpected) == StatusInternalServerError
    ensures StatusFor(Plain(text)) == StatusInternalServerError
  {
  }
}
