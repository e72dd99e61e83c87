/**
 * GET on the sync-log endpoint: reads the query string, decides between the
 * statistics call and the paged list call, builds the filter record the log
 * service receives, and turns a thrown error into a 500 response.
 *
 * The two log-service calls are opaque: the handler is modelled up to the
 * call it makes (a LogsQuery), and the call's outcome is an input.
 */
module LogsRoute {

  import opened Opt
  import opened Decimal

  /** The query string as URLSearchParams.get sees it: name to (first) value. */
  type QueryParams = map<string, string>

  /** searchParams.get(name): the value, or null when the name is absent. */
  function Param(params: QueryParams, name: string): Option<string>
  {
    if name in params then Some(params[name]) else None
  }

  /** JavaScript truthiness of searchParams.get(name): present and not the empty string. */
  predicate Given(params: QueryParams, name: string)
  {
    name in params && params[name] != ""
  }

  /** `new Date(text)`: kept uninterpreted, only the text it was built from is recorded. */
  datatype DateArg = DateOf(text: string)

  /** The filter object handed to the log service; an absent field is None. */
  datatype LogFilter = LogFilter(
    idSistema: Option<Num>,
    tabela: Option<string>,
    status: Option<string>,
    dataInicio: Option<DateArg>,
    dataFim: Option<DateArg>)

  /** Which service call the handler makes, with what. */
  datatype LogsQuery =
    | StatsQuery(filter: LogFilter)
    | ListQuery(filter: LogFilter, limit: Num, offset: Num)

  function IdFilter(params: QueryParams): Option<Num>
  {
    if Given(params, "idSistema") then Some(ParseIntPrefix(params["idSistema"])) else None
  }

  function TextFilter(params: QueryParams, name: string): Option<string>
  {
    if Given(params, name) then Some(params[name]) else None
  }

  function DateFilter(params: QueryParams, name: string): Option<DateArg>
  {
    if Given(params, name) then Some(DateOf(params[name])) else None
  }

  /** parseInt of the parameter when given, of the fallback text otherwise. */
  function NumberOr(params: QueryParams, name: string, fallback: string): Num
  {
    ParseIntPrefix(if Given(params, name) then params[name] else fallback)
  }

  lemma DefaultLimitOffset()
    ensures ParseIntPrefix("100") == Int(100)
    ensures ParseIntPrefix("0") == Int(0)
  {
    assert LeadingWhiteSpace("100") == 0 && TrimStart("100") == "100" && Unsigned("100") == "100";
    assert LeadingWhiteSpace("0") == 0 && TrimStart("0") == "0" && Unsigned("0") == "0";
    assert DigitPrefixLength("100") == 3;
    assert "100"[..3] == "100";
    assert "100"[..2] == "10" && "10"[..1] == "1" && "1"[..0] == "";
    assert "0"[..1] == "0" && "0"[..0] == "";
  }

  /** The query the handler makes for a request with these parameters. */
  function PlanQuery(params: QueryParams): (q: LogsQuery)
    ensures q.StatsQuery? <==> Param(params, "action") == Some("stats")
    ensures q.filter.idSistema.Some? <==> Given(params, "idSistema")
    ensures q.filter.idSistema.Some? ==> q.filter.idSistema.value == ParseIntPrefix(params["idSistema"])
    ensures q.filter.dataInicio.Some? <==> Given(params, "dataInicio")
    ensures q.filter.dataInicio.Some? ==> q.filter.dataInicio.value == DateOf(params["dataInicio"])
    ensures q.filter.dataFim.Some? <==> Given(params, "dataFim")
    ensures q.filter.dataFim.Some? ==> q.filter.dataFim.value == DateOf(params["dataFim"])
    ensures q.StatsQuery? ==> q.filter.tabela.None? && q.filter.status.None?
    ensures q.ListQuery? ==> (q.filter.tabela.Some? <==> Given(params, "tabela"))
    ensures q.ListQuery? && q.filter.tabela.Some? ==> q.filter.tabela.value == params["tabela"]
    ensures q.ListQuery? ==> (q.filter.status.Some? <==> Given(params, "status"))
    ensures q.ListQuery? && q.filter.status.Some? ==> q.filter.status.value == params["status"]
    ensures q.ListQuery? && !Given(params, "limit") ==> q.limit == Int(100)
    ensures q.ListQuery? && Given(params, "limit") ==> q.limit == ParseIntPrefix(params["limit"])
    ensures q.ListQuery? && !Given(params, "offset") ==> q.offset == Int(0)
    ensures q.ListQuery? && Given(params, "offset") ==> q.offset == ParseIntPrefix(params["offset"])
  {
    DefaultLimitOffset();
    if Param(params, "action") == Some("stats") then
      StatsQuery(LogFilter(IdFilter(params), None, None,
                           DateFilter(params, "dataInicio"), DateFilter(params, "dataFim")))
    else
      ListQuery(LogFilter(IdFilter(params), TextFilter(params, "tabela"), TextFilter(params, "status"),
                          DateFilter(params, "dataInicio"), DateFilter(params, "dataFim")),
                NumberOr(params, "limit", "100"),
                NumberOr(params, "offset", "0"))
  }

  /**
   * The two modes build the same idSistema / dataInicio / dataFim filter from
   * the same parameters; the statistics mode just leaves out tabela and
   * status (and has no paging).
   */
  lemma StatsFilterIsListFilterWithoutTableAndStatus(params: QueryParams)
    ensures PlanQuery(params["action" := "stats"]).filter
              == PlanQuery(params - {"action"}).filter.(tabela := None, status := None)
  {
  }

  /** A page size or offset written as `${n}` reaches the service as n. */
  lemma PagingRoundTrip(params: QueryParams, limit: int, offset: int)
    requires Param(params, "action") != Some("stats")
    requires Param(params, "limit") == Some(IntToString(limit))
    requires Param(params, "offset") == Some(IntToString(offset))
    ensures PlanQuery(params).limit == Int(limit)
    ensures PlanQuery(params).offset == Int(offset)
  {
    ParseIntPrefixOfIntToString(limit, []);
    ParseIntPrefixOfIntToString(offset, []);
    assert IntToString(limit) + [] == IntToString(limit);
    assert IntToString(offset) + [] == IntToString(offset);
  }

  // ---------------------------------------------------------------------------
  // The response

  /** How the log-service call ended: a value, or a thrown error with its message (if any). */
  datatype ServiceOutcome<T> = Returned(value: T) | Threw(message: Option<string>)

  datatype Body<T> = Payload(value: T) | ErrorBody(error: string)

  datatype Response<T> = Response(status: int, body: Body<T>)

  const FallbackMessage: string := "Erro ao buscar logs de sincronização"

  /** The service's value as a JSON answer, or an error answer with status 500 carrying the thrown message or a fixed text. */
  function Respond<T>(outcome: ServiceOutcome<T>): (r: Response<T>)
    ensures r.status == 500 <==> outcome.Threw?
    ensures outcome.Returned? ==> r == Response(200, Payload(outcome.value))
    ensures outcome.Threw? ==> r.body.ErrorBody? && r.body.error != ""
    ensures outcome.Threw? && outcome.message.Some? && outcome.message.value != "" ==>
              r.body.error == outcome.message.value
    ensures outcome.Threw? && (outcome.message.None? || outcome.message.value == "") ==>
              r.body == ErrorBody(FallbackMessage)
  {
    match outcome
    case Returned(v) => Response(200, Payload(v))
    case Threw(message) =>
      Response(500, ErrorBody(if message.Some? && message.value != "" then message.value else FallbackMessage))
  }

  /** The whole handler, with the log service passed in as the function it is. */
  function HandleGet<T>(params: QueryParams, service: LogsQuery -> ServiceOutcome<T>): (r: Response<T>)
    ensures r.status == 500 <==> service(PlanQuery(params)).Threw?
    ensures r.status == 200 ==> r.body == Payload(service(PlanQuery(params)).value)
    ensures service(PlanQuery(params)).Returned? ==> r == Response(200, Payload(service(PlanQuery(params)).value))
  {
    Respond(service(PlanQuery(params)))
  }
}
