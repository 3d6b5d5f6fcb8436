/** The `customGlobalSearch` REST endpoint: a bearer-token gate, elevation to
    the configured administrator, normalisation of the request arguments,
    dispatch to the `GlobalSearch` engine, and the response built from its
    result set. The framework services it calls are parameters (`Env`). */
module GlobalSearchApi {
  import opened Php
  import opened ResultFormatter
  import Pagination

  /** The Users bean after `retrieve_by_string_fields`; its `id` stays empty
      when no user has the configured user name. Only the id is read. */
  datatype User = User(id: Value)

  /** The request arguments the endpoint reads, each None when not `isset`.
      `sort` may be any value; the others arrive as strings. */
  datatype Args = Args(
    moduleList: Option<string>,
    q: Option<string>,
    maxNum: Option<string>,
    offset: Option<string>,
    highlights: Option<string>,
    sort: Option<Value>)

  /** The parameters after normalisation. */
  datatype SearchParams = SearchParams(
    term: string, limit: int, offset: int, highlights: bool, sort: Value, modules: seq<string>)

  /** What the engine's query builder is given; `term` is None when `term()`
      is not called. */
  datatype EngineQuery = EngineQuery(
    modules: seq<string>, term: Option<string>, limit: int, offset: int, highlighter: bool, sort: Value)

  datatype ResultSet = ResultSet(totalHits: int, queryTime: Value, hits: seq<Hit>)

  /** Building and running a query either throws or gives a result set. */
  datatype SearchResult = Threw | Found(resultSet: ResultSet)

  /** The `GlobalSearch` engine as the endpoint sees it: whether
      `SearchEngine::getInstance` throws, what `isAvailable()` answers, and
      what building and running a query on it gives. */
  datatype Engine = Engine(instanceThrows: bool, available: bool, run: EngineQuery -> SearchResult)

  /** The services outside the endpoint. `verifyToken` is `password_verify`
      against the hash configured in the environment; `admin` is the user
      looked up by the administrator user name configured there. */
  datatype Env = Env(verifyToken: string -> bool, admin: User, engine: Engine, formatBean: BeanFormatter)

  /** The calls into outside services a request makes, in order. */
  datatype Call = VerifyToken(token: string) | RetrieveAdmin | GetInstance | IsAvailable | RunQuery(query: EngineQuery)

  /** The success payload. */
  datatype Response = Response(nextOffset: int, total: int, queryTime: Value, records: seq<Record>)

  /** How a request ends: one of the exceptions the endpoint may raise, or a
      response. */
  datatype Outcome =
    | Unauthorized
    | AdminNotFound
    | MissingParam
    | SearchUnavailable
    | SearchRuntime
    | Success(response: Response)

  /** The exceptions `getSearchEngine` throws. */
  datatype EngineFailure = RuntimeFailure | UnavailableFailure

  /** The service object of the request (`$api`). */
  class ServiceBase {
    var user: Option<User>
  }

  /** Process-wide state (`global $current_user`). */
  class Globals {
    var currentUser: Option<User>
  }

  // ---------------------------------------------------------------------
  // The credential gate

  const BEARER_PREFIX: string := "Bearer "

  /** The `Authorization` header is set and starts with "Bearer ". */
  predicate HasBearerHeader(headers: map<string, string>) {
    "Authorization" in headers && BEARER_PREFIX <= headers["Authorization"]
  }

  /** `substr($header, 7)`: the token after the scheme. */
  function BearerToken(header: string): (token: string)
    requires BEARER_PREFIX <= header
    ensures BEARER_PREFIX + token == header
  {
    header[7..]
  }

  predicate Authenticated(headers: map<string, string>, env: Env) {
    HasBearerHeader(headers) && env.verifyToken(BearerToken(headers["Authorization"]))
  }

  /** `!empty($adminUser->id)` */
  predicate AdminResolved(env: Env) {
    Truthy(env.admin.id)
  }

  /** The request is authenticated and runs as the administrator. */
  predicate Elevated(headers: map<string, string>, env: Env) {
    Authenticated(headers, env) && AdminResolved(env)
  }

  // ---------------------------------------------------------------------
  // Parameter normalisation

  /** `!isset($args['module_list']) || empty(trim($args['module_list']))` */
  predicate ModuleListMissing(moduleList: Option<string>) {
    moduleList.None? || !Truthy(Str(Trim(moduleList.value)))
  }

  /** The module list counts as missing exactly when it is unset, blank, or
      "0" with blanks around it. */
  lemma ModuleListMissingIff(moduleList: Option<string>)
    ensures ModuleListMissing(moduleList) <==> moduleList.None? || BlankOrZero(moduleList.value)
  {
    if moduleList.Some? {
      EmptyTrimIff(moduleList.value);
    }
  }

  /** The gate and the module-list check have all passed. */
  predicate Ready(headers: map<string, string>, args: Args, env: Env) {
    Elevated(headers, env) && !ModuleListMissing(args.moduleList)
  }

  /** The assignments after the module-list check: defaults for the absent
      arguments, casts for the present ones, and the module list split on
      commas. */
  function NormalizeArgs(args: Args): (params: SearchParams)
    requires args.moduleList.Some?
    ensures |params.modules| >= 1
    ensures Implode(',', params.modules) == args.moduleList.value
    ensures forall i :: 0 <= i < |params.modules| ==> ',' !in params.modules[i]
    ensures |params.modules| == multiset(args.moduleList.value)[','] + 1
    ensures args.q.None? ==> params.term == ""
    ensures args.q.Some? ==> params.term == args.q.value
    ensures args.maxNum.None? ==> params.limit == 20
    ensures args.maxNum.Some? ==> params.limit == IntCast(args.maxNum.value)
    ensures args.offset.None? ==> params.offset == 0
    ensures args.offset.Some? ==> params.offset == IntCast(args.offset.value)
    ensures args.highlights.None? ==> params.highlights
    ensures PHP_INT_MIN <= params.limit <= PHP_INT_MAX && PHP_INT_MIN <= params.offset <= PHP_INT_MAX
  {
    ImplodeExplode(',', args.moduleList.value);
    ExplodeCount(',', args.moduleList.value);
    SearchParams(
      term := if args.q.Some? then args.q.value else "",
      limit := if args.maxNum.Some? then IntCast(args.maxNum.value) else 20,
      offset := if args.offset.Some? then IntCast(args.offset.value) else 0,
      highlights := if args.highlights.Some? then Truthy(Str(args.highlights.value)) else true,
      sort := if args.sort.Some? && IsArray(args.sort.value) then args.sort.value else List([]),
      modules := Explode(',', args.moduleList.value))
  }

  /** Each absent argument gets its own default, whatever the others are:
      empty term, 20 hits, offset 0, highlighting on, no sort. */
  lemma NormalizeDefaults(args: Args)
    requires args.moduleList.Some?
    ensures args.q.None? ==> NormalizeArgs(args).term == ""
    ensures args.maxNum.None? ==> NormalizeArgs(args).limit == 20
    ensures args.offset.None? ==> NormalizeArgs(args).offset == 0
    ensures args.highlights.None? ==> NormalizeArgs(args).highlights
    ensures args.sort.None? ==> NormalizeArgs(args).sort == List([])
  {
  }

  /** Page size and offset are taken as given, negative or beyond any hit
      count, with no clamping. */
  lemma NormalizeUnclamped(args: Args, limit: int, offset: int)
    requires args.moduleList.Some?
    requires PHP_INT_MIN <= limit <= PHP_INT_MAX && PHP_INT_MIN <= offset <= PHP_INT_MAX
    requires args.maxNum == Some(if limit < 0 then "-" + DecimalString(-limit) else DecimalString(limit))
    requires args.offset == Some(if offset < 0 then "-" + DecimalString(-offset) else DecimalString(offset))
    ensures NormalizeArgs(args).limit == limit && NormalizeArgs(args).offset == offset
  {
    IntCastOfDecimal(limit, "");
    IntCastOfDecimal(offset, "");
    assert args.maxNum.value + "" == args.maxNum.value;
    assert args.offset.value + "" == args.offset.value;
  }

  /** A `max_num` that is set but empty asks for 0 hits, not the default 20. */
  lemma NormalizeEmptyMaxNum(args: Args)
    requires args.moduleList.Some? && args.maxNum == Some("")
    ensures NormalizeArgs(args).limit == 0
  {
    IntCastNoDigits("");
  }

  /** A `max_num` whose value is at or beyond 2^1024 - 2^970, the least that
      rounds to an infinite double, asks for 0 hits, not for as many as
      possible. */
  lemma NormalizeMaxNumBeyondDouble(args: Args, m: nat)
    requires args.moduleList.Some? && m >= DOUBLE_OVERFLOW
    requires args.maxNum == Some(DecimalString(m))
    ensures NormalizeArgs(args).limit == 0
  {
    IntCastBeyondDouble(m, "");
    assert DecimalString(m) + "" == DecimalString(m);
  }

  /** Highlighting is off exactly when `highlights` is set to "" or "0". */
  lemma NormalizeHighlightsOff(args: Args)
    requires args.moduleList.Some?
    ensures !NormalizeArgs(args).highlights <==> args.highlights == Some("") || args.highlights == Some("0")
  {
  }

  /** A `sort` that is not an array is dropped silently; an array is passed on
      as it is. */
  lemma NormalizeSort(args: Args)
    requires args.moduleList.Some?
    ensures args.sort.Some? && IsArray(args.sort.value) ==> NormalizeArgs(args).sort == args.sort.value
    ensures (args.sort.None? || !IsArray(args.sort.value)) ==> NormalizeArgs(args).sort == List([])
  {
  }

  /** "Accounts,Contacts" names the two modules Accounts and Contacts. */
  lemma ModulesOfCommaList()
    ensures NormalizeArgs(Args(Some("Accounts,Contacts"), None, None, None, None, None)).modules
      == ["Accounts", "Contacts"]
  {
    var two := ["Accounts", "Contacts"];
    assert Implode(',', two) == "Accounts" + [','] + "Contacts" == "Accounts,Contacts";
    ExplodeImplode(',', two);
  }

  /** Blanks around a module name stay part of it, and a trailing comma adds
      an empty name. */
  lemma ModulesKeepBlanksAndEmptyNames()
    ensures NormalizeArgs(Args(Some("Accounts, Contacts,"), None, None, None, None, None)).modules
      == ["Accounts", " Contacts", ""]
  {
    var three := ["Accounts", " Contacts", ""];
    assert Implode(',', three) == "Accounts, Contacts," by {
      assert Implode(',', three[2..]) == "";
      assert Implode(',', three[1..]) == " Contacts" + [','] + "" == " Contacts,";
      assert Implode(',', three) == "Accounts" + [','] + " Contacts,";
    }
    ExplodeImplode(',', three);
  }

  // ---------------------------------------------------------------------
  // Dispatch

  /** The query handed to the engine: the free-text term only when it is
      not the empty string, everything else as normalised. */
  function BuildQuery(params: SearchParams): (query: EngineQuery)
    ensures query.term.None? <==> params.term == ""
    ensures query.term.Some? ==> query.term.value == params.term
    ensures query.modules == params.modules && query.sort == params.sort
    ensures query.limit == params.limit && query.offset == params.offset
    ensures query.highlighter == params.highlights
  {
    EngineQuery(
      params.modules,
      if params.term != "" then Some(params.term) else None,
      params.limit, params.offset, params.highlights, params.sort)
  }

  /** The term filter is left out exactly when `q` is unset or empty; "0"
      and blank terms are sent. */
  lemma TermOmittedIff(args: Args)
    requires args.moduleList.Some?
    ensures BuildQuery(NormalizeArgs(args)).term.None? <==> args.q.None? || args.q.value == ""
  {
  }

  /** The query a ready request sends. */
  function QueryFor(args: Args): EngineQuery
    requires args.moduleList.Some?
  {
    BuildQuery(NormalizeArgs(args))
  }

  /** `getSearchEngine`: a failing `getInstance` is a runtime failure, an
      engine that reports itself unavailable an unavailability failure;
      availability is asked only of an engine that was obtained. */
  method GetSearchEngine(engine: Engine) returns (failure: Option<EngineFailure>, calls: seq<Call>)
    ensures engine.instanceThrows ==> failure == Some(RuntimeFailure) && calls == [GetInstance]
    ensures !engine.instanceThrows ==> calls == [GetInstance, IsAvailable]
    ensures !engine.instanceThrows && !engine.available ==> failure == Some(UnavailableFailure)
    ensures failure.None? <==> !engine.instanceThrows && engine.available
  {
    calls := [GetInstance];
    if engine.instanceThrows {
      return Some(RuntimeFailure), calls;
    }
    calls := calls + [IsAvailable];
    if !engine.available {
      return Some(UnavailableFailure), calls;
    }
    failure := None;
  }

  /** The engine call reached the query itself and it returned a result set
      whose every hit formats. */
  predicate SearchSucceeds(args: Args, env: Env)
    requires args.moduleList.Some?
  {
    !env.engine.instanceThrows && env.engine.available &&
    env.engine.run(QueryFor(args)).Found? &&
    forall i :: 0 <= i < |env.engine.run(QueryFor(args)).resultSet.hits| ==>
      FormatHit(env.engine.run(QueryFor(args)).resultSet.hits[i], env.formatBean).Some?
  }

  /** A call of the gate: token verification or the administrator lookup. */
  predicate GateCall(c: Call) {
    c.VerifyToken? || c.RetrieveAdmin?
  }

  /** The response of a successful search, as the source assembles it. */
  predicate RespondsWith(response: Response, args: Args, env: Env)
    requires args.moduleList.Some? && env.engine.run(QueryFor(args)).Found?
  {
    var params := NormalizeArgs(args);
    var resultSet := env.engine.run(QueryFor(args)).resultSet;
    response.nextOffset == Pagination.NextOffset(resultSet.totalHits, params.limit, params.offset) &&
    response.total == resultSet.totalHits &&
    response.queryTime == resultSet.queryTime &&
    |response.records| == |resultSet.hits| &&
    forall i :: 0 <= i < |resultSet.hits| ==>
      FormatHit(resultSet.hits[i], env.formatBean) == Some(response.records[i])
  }

  /** The calls of the `try` block: `getInstance` alone when it throws,
      then `isAvailable`, and the query only on an engine that is up. */
  predicate SearchTrace(trace: seq<Call>, args: Args, env: Env)
    requires args.moduleList.Some?
  {
    (env.engine.instanceThrows ==> trace == [GetInstance]) &&
    (!env.engine.instanceThrows && !env.engine.available ==> trace == [GetInstance, IsAvailable]) &&
    (!env.engine.instanceThrows && env.engine.available ==>
      trace == [GetInstance, IsAvailable, RunQuery(QueryFor(args))])
  }

  /** The `try` block and its `catch`: every exception thrown while obtaining
      the engine (including its unavailability), running the query, or
      formatting the hits ends the request as a runtime error. */
  method TrySearch(args: Args, env: Env) returns (outcome: Outcome, calls: seq<Call>)
    requires args.moduleList.Some?
    ensures outcome.Success? || outcome == SearchRuntime
    ensures outcome.Success? <==> SearchSucceeds(args, env)
    ensures outcome.Success? ==> RespondsWith(outcome.response, args, env)
    ensures SearchTrace(calls, args, env)
    ensures env.engine.instanceThrows || !env.engine.available ==>
      forall i :: 0 <= i < |calls| ==> !calls[i].RunQuery?
  {
    var params := NormalizeArgs(args);
    var failure;
    failure, calls := GetSearchEngine(env.engine);
    if failure.Some? {
      return SearchRuntime, calls;
    }
    var query := BuildQuery(params);
    calls := calls + [RunQuery(query)];
    var found := env.engine.run(query);
    if found.Threw? {
      return SearchRuntime, calls;
    }
    var resultSet := found.resultSet;
    var nextOffset := Pagination.NextOffset(resultSet.totalHits, params.limit, params.offset);
    var records := FormatResults(resultSet.hits, env.formatBean);
    if records.None? {
      return SearchRuntime, calls;
    }
    outcome := Success(Response(nextOffset, resultSet.totalHits, resultSet.queryTime, records.value));
  }

  /** Gate calls followed by a search trace without a query make a trace
      without a query. */
  lemma NoQueryInTrace(gateCalls: seq<Call>, searchCalls: seq<Call>)
    requires forall i :: 0 <= i < |gateCalls| ==> GateCall(gateCalls[i])
    requires forall i :: 0 <= i < |searchCalls| ==> !searchCalls[i].RunQuery?
    ensures forall i :: 0 <= i < |gateCalls + searchCalls| ==> !(gateCalls + searchCalls)[i].RunQuery?
  {
  }

  /** The bearer-token check and the administrator lookup, in this order:
      a missing or malformed header fails before anything is called, a token
      that does not verify fails before the lookup, and an administrator
      without an id fails after it. */
  method Authenticate(headers: map<string, string>, env: Env) returns (failure: Option<Outcome>, calls: seq<Call>)
    ensures !HasBearerHeader(headers) ==> failure == Some(Unauthorized) && calls == []
    ensures HasBearerHeader(headers) && !Authenticated(headers, env) ==>
      failure == Some(Unauthorized) && calls == [VerifyToken(BearerToken(headers["Authorization"]))]
    ensures Authenticated(headers, env) ==>
      calls == [VerifyToken(BearerToken(headers["Authorization"])), RetrieveAdmin]
    ensures Authenticated(headers, env) && !AdminResolved(env) ==> failure == Some(AdminNotFound)
    ensures failure.None? <==> Elevated(headers, env)
    ensures forall i :: 0 <= i < |calls| ==> GateCall(calls[i])
  {
    calls := [];
    if "Authorization" !in headers || !(BEARER_PREFIX <= headers["Authorization"]) {
      return Some(Unauthorized), calls;
    }
    var token := BearerToken(headers["Authorization"]);
    calls := calls + [VerifyToken(token)];
    if !env.verifyToken(token) {
      return Some(Unauthorized), calls;
    }
    calls := calls + [RetrieveAdmin];
    var adminUser := env.admin;
    if !Truthy(adminUser.id) {
      return Some(AdminNotFound), calls;
    }
    failure := None;
  }

  /** What follows the elevation: the module-list check, then the `try`
      block. A missing module list ends the request before any service is
      called. */
  method CheckAndSearch(args: Args, env: Env) returns (outcome: Outcome, calls: seq<Call>)
    ensures ModuleListMissing(args.moduleList) ==> outcome == MissingParam && calls == []
    ensures !ModuleListMissing(args.moduleList) ==> outcome.Success? || outcome == SearchRuntime
    ensures !ModuleListMissing(args.moduleList) ==> SearchTrace(calls, args, env)
    ensures !ModuleListMissing(args.moduleList) && (env.engine.instanceThrows || !env.engine.available) ==>
      forall i :: 0 <= i < |calls| ==> !calls[i].RunQuery?
    ensures outcome.Success? <==> !ModuleListMissing(args.moduleList) && SearchSucceeds(args, env)
    ensures outcome.Success? ==> RespondsWith(outcome.response, args, env)
  {
    if args.moduleList.None? || !Truthy(Str(Trim(args.moduleList.value))) {
      return MissingParam, [];
    }
    outcome, calls := TrySearch(args, env);
  }

  /** `customGlobalSearchMethod`: the gate, the elevation of the request to
      the administrator (the process-wide current user and the service
      object's user), the module-list check, then the search. */
  method CustomGlobalSearchMethod(api: ServiceBase, globals: Globals, headers: map<string, string>, args: Args, env: Env)
    returns (outcome: Outcome, calls: seq<Call>)
    modifies api, globals
    // the gate, check by check and in this order
    ensures !HasBearerHeader(headers) ==> outcome == Unauthorized && calls == []
    ensures HasBearerHeader(headers) && !Authenticated(headers, env) ==>
      outcome == Unauthorized && calls == [VerifyToken(BearerToken(headers["Authorization"]))]
    ensures Authenticated(headers, env) ==>
      |calls| >= 2 && calls[..2] == [VerifyToken(BearerToken(headers["Authorization"])), RetrieveAdmin]
    ensures Authenticated(headers, env) && !AdminResolved(env) ==> outcome == AdminNotFound && |calls| == 2
    ensures Elevated(headers, env) && ModuleListMissing(args.moduleList) ==>
      outcome == MissingParam && |calls| == 2
    // the engine is reached only by a request that passed every check
    ensures !Ready(headers, args, env) ==> forall i :: 0 <= i < |calls| ==> GateCall(calls[i])
    ensures Ready(headers, args, env) ==> |calls| >= 2 && SearchTrace(calls[2..], args, env)
    // the query is never run on an engine that could not be obtained or is unavailable
    ensures Ready(headers, args, env) && (env.engine.instanceThrows || !env.engine.available) ==>
      forall i :: 0 <= i < |calls| ==> !calls[i].RunQuery?
    // the administrator is bound exactly when the lookup succeeded
    ensures Elevated(headers, env) ==> api.user == Some(env.admin) && globals.currentUser == Some(env.admin)
    ensures !Elevated(headers, env) ==> api.user == old(api.user) && globals.currentUser == old(globals.currentUser)
    // inside the try block every failure becomes a runtime error
    ensures Ready(headers, args, env) ==> outcome.Success? || outcome == SearchRuntime
    ensures outcome != SearchUnavailable
    ensures outcome.Success? <==> Ready(headers, args, env) && SearchSucceeds(args, env)
    ensures outcome.Success? ==> RespondsWith(outcome.response, args, env)
  {
    var failure;
    failure, calls := Authenticate(headers, env);
    if failure.Some? {
      assert !Ready(headers, args, env);
      return failure.value, calls;
    }
    globals.currentUser := Some(env.admin);
    api.user := globals.currentUser;

    var searchCalls;
    outcome, searchCalls := CheckAndSearch(args, env);
    ghost var gateCalls := calls;
    calls := calls + searchCalls;
    assert calls[..2] == gateCalls;
    assert calls[2..] == searchCalls;
    if ModuleListMissing(args.moduleList) {
      assert calls == gateCalls;
    } else if env.engine.instanceThrows || !env.engine.available {
      NoQueryInTrace(gateCalls, searchCalls);
    }
  }
}
