/** What a request handler answers: a status code and, for a failure, its error message. */
module Http {
  import JsRuntime

  datatype Response = Response(status: int, error: JsRuntime.Option<string>)
  {
    predicate IsSuccess() { 200 <= status < 300 }
  }

  function Ok(status: int): Response { Response(status, JsRuntime.None) }

  function Fail(status: int, message: string): Response { Response(status, JsRuntime.Some(message)) }

  /** What a middleware decides: pass the request on (`next()`), or answer it. */
  datatype Decision = Next | Reply(response: Response)

  /** The authenticated caller (`req.user`): its id and its role. */
  datatype Caller = Caller(id: string, role: string)

  /** The owner-or-admin rule of `getOrder`, `cancelOrder` and review deletion. */
  predicate OwnerOrAdmin(owner: string, caller: Caller)
  {
    owner == caller.id || caller.role == "admin"
  }

  /** `parseInt(req.query.page, 10) || 1` and `parseInt(req.query.limit, 10) || 10`, as
      `getOrders` and `getProducts` both read them. */
  function PagingParams(page: JsRuntime.Option<string>, limit: JsRuntime.Option<string>): (r: (int, int))
    ensures r.0 != 0 && r.1 != 0
    ensures page.None? ==> r.0 == 1
    ensures limit.None? ==> r.1 == 10
    ensures page.Some? && JsRuntime.ParseInt(page.value, JsRuntime.Decimal).Some?
            && JsRuntime.ParseInt(page.value, JsRuntime.Decimal).value != 0
            ==> r.0 == JsRuntime.ParseInt(page.value, JsRuntime.Decimal).value
    ensures page.Some? && (JsRuntime.ParseInt(page.value, JsRuntime.Decimal).None?
                           || JsRuntime.ParseInt(page.value, JsRuntime.Decimal).value == 0)
            ==> r.0 == 1
    ensures limit.Some? && JsRuntime.ParseInt(limit.value, JsRuntime.Decimal).Some?
            && JsRuntime.ParseInt(limit.value, JsRuntime.Decimal).value != 0
            ==> r.1 == JsRuntime.ParseInt(limit.value, JsRuntime.Decimal).value
    ensures limit.Some? && (JsRuntime.ParseInt(limit.value, JsRuntime.Decimal).None?
                            || JsRuntime.ParseInt(limit.value, JsRuntime.Decimal).value == 0)
            ==> r.1 == 10
  {
    (JsRuntime.ParseIntOr(page, 1), JsRuntime.ParseIntOr(limit, 10))
  }
}
