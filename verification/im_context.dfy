/** The global `Context` of the IM API plugin (src/im_api/im_api/core/context.py):
    one shared instance that is created lazily, initialised with the MCDR
    server, then holds the API object until it is reset. Python object
    identity is modelled by a serial number the registry hands out, so
    "the same object" means "the same serial". */
module ImContext {
  import opened Basics

  /** The parts of an MCDR `ServerInterface` the context uses. */
  datatype Server = Server(name: string, logger: string)

  /** An `ImAPI` object, known only by identity. */
  datatype Api = Api(serial: nat)

  datatype ContextError = RuntimeError(message: string)

  /** One `Context` object: its identity and its three attributes. */
  datatype Ctx = Ctx(serial: nat, server: Option<Server>, api: Option<Api>, initialized: bool)

  /** The class attribute `_instance`, and how many objects were built so far. */
  datatype Registry = Registry(instance: Option<Ctx>, built: nat)

  const NotInitialized: ContextError := RuntimeError("Context not initialized")
  const NoServer: ContextError := RuntimeError("Server instance not set in Context")

  /** `Context()`: nothing set and not initialised. */
  function NewCtx(serial: nat): (c: Ctx)
    ensures c.serial == serial
    ensures c.server.None? && c.api.None? && !c.initialized
  {
    Ctx(serial, None, None, false)
  }

  /** The `logger` property: the server's logger, or an error without a server. */
  function Logger(c: Ctx): (r: Result<string, ContextError>)
    ensures r.Ok? <==> c.server.Some?
    ensures r.Ok? ==> r.value == c.server.value.logger
    ensures r.Err? ==> r.error == NoServer
  {
    match c.server
    case None => Err(NoServer)
    case Some(s) => Ok(s.logger)
  }

  /** `initialize`: records the server and marks the context initialised;
      the API object is left as it was. */
  function Initialize(c: Ctx, server: Server): (r: Ctx)
    ensures r.serial == c.serial && r.api == c.api
    ensures r.server == Some(server) && r.initialized
  {
    c.(server := Some(server), initialized := true)
  }

  /** `set_api`: refused before `initialize`. */
  function SetApi(c: Ctx, api: Option<Api>): (r: Result<Ctx, ContextError>)
    ensures r.Ok? <==> c.initialized
    ensures r.Err? ==> r.error == NotInitialized
    ensures r.Ok? ==> r.value == c.(api := api)
  {
    if !c.initialized then Err(NotInitialized) else Ok(c.(api := api))
  }

  /** `get_api`: refused before `initialize`. */
  function GetApi(c: Ctx): (r: Result<Option<Api>, ContextError>)
    ensures r.Ok? <==> c.initialized
    ensures r.Err? ==> r.error == NotInitialized
    ensures r.Ok? ==> r.value == c.api
  {
    if !c.initialized then Err(NotInitialized) else Ok(c.api)
  }

  /** `reset`: the object keeps its identity but returns to its fresh state. */
  function Reset(c: Ctx): (r: Ctx)
    ensures r == NewCtx(c.serial)
  {
    c.(api := None, server := None, initialized := false)
  }

  /** `get_instance`: the stored object, or a new one stored first. */
  function GetInstance(reg: Registry): (r: (Registry, Ctx))
    ensures r.0.instance == Some(r.1)
    ensures reg.instance.Some? ==> r == (reg, reg.instance.value)
    ensures reg.instance.None? ==> r.1 == NewCtx(reg.built) && r.0.built == reg.built + 1
  {
    match reg.instance
    case Some(c) => (reg, c)
    case None =>
      var c := NewCtx(reg.built);
      (Registry(Some(c), reg.built + 1), c)
  }

  /** `reset_instance`: forgets the stored object after resetting it. The
      second component is the state in which any caller still holding the
      old object now sees it. */
  function ResetInstance(reg: Registry): (r: (Registry, Option<Ctx>))
    ensures r.0 == Registry(None, reg.built)
    ensures reg.instance.None? <==> r.1.None?
    ensures reg.instance.Some? ==> r.1 == Some(NewCtx(reg.instance.value.serial))
  {
    match reg.instance
    case None => (Registry(None, reg.built), None)
    case Some(c) => (Registry(None, reg.built), Some(Reset(c)))
  }

  // ---------------------------------------------------------------------
  // The plugin's calls, each made through `Context.get_instance()`
  // ---------------------------------------------------------------------

  datatype Call =
    | CallInitialize(server: Server)
    | CallSetApi(api: Option<Api>)
    | CallGetApi
    | CallLogger
    | CallReset
    | CallResetInstance

  /** What a call returns to its caller. */
  datatype Answer = Done | ApiAnswer(api: Option<Api>) | LoggerAnswer(logger: string) | Raised(error: ContextError)

  /** Runs one call against the shared instance. */
  function Step(reg: Registry, call: Call): (r: (Registry, Answer))
    ensures r.0.built >= reg.built
  {
    if call.CallResetInstance? then (ResetInstance(reg).0, Done)
    else
      var (reg1, c) := GetInstance(reg);
      match call
      case CallInitialize(s) => (reg1.(instance := Some(Initialize(c, s))), Done)
      case CallSetApi(a) =>
        (match SetApi(c, a)
         case Ok(c1) => (reg1.(instance := Some(c1)), Done)
         case Err(e) => (reg1, Raised(e)))
      case CallGetApi =>
        (match GetApi(c)
         case Ok(a) => (reg1, ApiAnswer(a))
         case Err(e) => (reg1, Raised(e)))
      case CallLogger =>
        (match Logger(c)
         case Ok(l) => (reg1, LoggerAnswer(l))
         case Err(e) => (reg1, Raised(e)))
      case CallReset => (reg1.(instance := Some(Reset(c))), Done)
  }

  /** Runs calls in order and collects their answers. */
  function Run(reg: Registry, calls: seq<Call>): (r: (Registry, seq<Answer>))
    ensures |r.1| == |calls|
    ensures r.0.built >= reg.built
    decreases |calls|
  {
    if |calls| == 0 then (reg, [])
    else
      var (reg1, a) := Step(reg, calls[0]);
      var (reg2, rest) := Run(reg1, calls[1..]);
      (reg2, [a] + rest)
  }

  // ---------------------------------------------------------------------
  // Properties
  // ---------------------------------------------------------------------

  /** A context is initialised exactly when it has a server, and holds an
      API object only once initialised. */
  predicate Consistent(c: Ctx)
  {
    c.initialized == c.server.Some? && (c.api.Some? ==> c.initialized)
  }

  /** The registry keeps a consistent instance whose serial was handed out. */
  predicate Good(reg: Registry)
  {
    reg.instance.Some? ==> Consistent(reg.instance.value) && reg.instance.value.serial < reg.built
  }

  /** Every call keeps the registry good. */
  lemma StepGood(reg: Registry, call: Call)
    requires Good(reg)
    ensures Good(Step(reg, call).0)
  {
  }

  /** Any sequence of calls keeps the registry good. */
  lemma {:induction false} RunGood(reg: Registry, calls: seq<Call>)
    requires Good(reg)
    ensures Good(Run(reg, calls).0)
    decreases |calls|
  {
    if |calls| > 0 {
      StepGood(reg, calls[0]);
      RunGood(Step(reg, calls[0]).0, calls[1..]);
    }
  }

  /** For a consistent context the logger is available exactly when the
      context is initialised, so `get_api` and `logger` fail together. */
  lemma LoggerIffInitialized(c: Ctx)
    requires Consistent(c)
    ensures Logger(c).Ok? <==> GetApi(c).Ok?
  {
  }

  /** `get_instance` is idempotent: a second call returns the same object
      and changes nothing. */
  lemma GetInstanceStable(reg: Registry)
    ensures var (reg1, c1) := GetInstance(reg);
            GetInstance(reg1) == (reg1, c1)
  {
  }

  /** After `reset_instance`, `get_instance` yields a brand-new object in its
      fresh state, distinct from every object built before. */
  lemma ResetInstanceGivesNew(reg: Registry)
    requires Good(reg)
    ensures var c := GetInstance(ResetInstance(reg).0).1;
            c == NewCtx(reg.built) &&
            (reg.instance.Some? ==> c.serial != reg.instance.value.serial)
  {
  }

  /** What `set_api` stores, `get_api` returns. */
  lemma SetThenGet(c: Ctx, api: Option<Api>)
    requires c.initialized
    ensures SetApi(c, api).Ok? && GetApi(SetApi(c, api).value) == Ok(api)
  {
  }

  /** Right after `initialize`, the API object can be set and read back and
      the logger is the server's. */
  lemma InitializeEnables(c: Ctx, server: Server, api: Option<Api>)
    ensures var c1 := Initialize(c, server);
            GetApi(c1) == Ok(c.api) && Logger(c1) == Ok(server.logger) &&
            SetApi(c1, api).Ok?
  {
  }

  /** After `reset`, `get_api`, `set_api` and `logger` all raise until the
      context is initialised again. */
  lemma ResetDisables(c: Ctx, api: Option<Api>)
    ensures GetApi(Reset(c)) == Err(NotInitialized)
    ensures SetApi(Reset(c), api) == Err(NotInitialized)
    ensures Logger(Reset(c)) == Err(NoServer)
  {
  }

  /** The lifecycle seen through the shared instance: from an empty registry,
      `get_api` raises; after `initialize` and `set_api` it returns the API;
      after `reset_instance` it raises again. */
  lemma {:induction false} Lifecycle(server: Server, api: Api)
    ensures Run(Registry(None, 0), [CallGetApi]).1 == [Raised(NotInitialized)]
    ensures Run(Registry(None, 0), [CallInitialize(server), CallSetApi(Some(api)), CallGetApi]).1
            == [Done, Done, ApiAnswer(Some(api))]
    ensures Run(Registry(None, 0), [CallInitialize(server), CallSetApi(Some(api)), CallResetInstance, CallGetApi]).1
            == [Done, Done, Done, Raised(NotInitialized)]
  {
    var r0 := Registry(None, 0);
    assert Run(r0, [CallGetApi]).1 == [Step(r0, CallGetApi).1] + Run(Step(r0, CallGetApi).0, []).1;
    var s1 := Step(r0, CallInitialize(server)).0;
    var s2 := Step(s1, CallSetApi(Some(api))).0;
    var t3 := Step(s2, CallGetApi);
    assert t3.1 == ApiAnswer(Some(api));
    assert Run(s2, [CallGetApi]).1 == [t3.1];
    assert Run(s1, [CallSetApi(Some(api)), CallGetApi]).1 == [Done, t3.1];
    var calls := [CallInitialize(server), CallSetApi(Some(api)), CallGetApi];
    assert calls[1..] == [CallSetApi(Some(api)), CallGetApi];
    var s3 := Step(s2, CallResetInstance).0;
    var t4 := Step(s3, CallGetApi);
    assert t4.1 == Raised(NotInitialized);
    assert Run(s3, [CallGetApi]).1 == [t4.1];
    assert Run(s2, [CallResetInstance, CallGetApi]).1 == [Done, t4.1];
    assert Run(s1, [CallSetApi(Some(api)), CallResetInstance, CallGetApi]).1 == [Done, Done, t4.1];
    var calls2 := [CallInitialize(server), CallSetApi(Some(api)), CallResetInstance, CallGetApi];
    assert calls2[1..] == [CallSetApi(Some(api)), CallResetInstance, CallGetApi];
  }
}
