/** internal/tools/service.go: from a request to a rejection, a preview or an execution,
    and the runs of such requests against databases. */
module Service {
  import opened Text
  import opened Json
  import opened SqlPlan
  import opened Preview
  import opened Execution
  import opened Operation

  datatype Engine = MySQLEngine | ClickHouseEngine | UnsupportedEngine

  datatype Source = Source(id: string, engine: Engine, atomicBatches: bool, connected: bool, displayName: string)

  datatype Config = Config(
    sources: map<string, Source>,
    mode: Mode,
    classify: (Engine, string) -> Option<Classified>,
    hash: Hash)

  datatype Meta = Meta(sourceID: string, confirm: bool, previewHash: string, requestID: string)

  /** The tools that reach a database through the confirmation policy. */
  datatype Call =
    | Query(sql: string, parameters: Parameters)
    | ExecuteSQL(sql: string, parameters: Parameters)
    | Migrate(sql: string, parameters: Parameters)
    | Typed(request: Request)
    | CopyTableStructure(source: string, destination: string)

  datatype Reason =
    | InvalidInput
    | UnknownSource
    | Unsupported
    | Unsafe
    | ReadOnlyRequired
    | MutationRequired

  /** Work that the policy lets through. */
  datatype Job = Job(source: Source, tool: string, plan: Plan, parameters: Parameters)

  datatype Reply =
    | Rejected(reason: Reason)
    | ConfirmationRequired(artifact: Artifact, job: Job)
    | Mismatch(artifact: Artifact, job: Job)
    | Accepted(job: Job)

  function ToolOf(call: Call): string {
    match call
    case Query(_, _) => "query"
    case ExecuteSQL(_, _) => "execute_sql"
    case Migrate(_, _) => "migrate"
    case CopyTableStructure(_, _) => "copy_table_structure"
    case Typed(request) =>
      match request
      case CreateTable(_, _) => "create_table"
      case DropTable(_) => "drop_table"
      case AddColumns(_, _) => "add_columns"
      case DropColumns(_, _) => "drop_columns"
      case ModifyColumns(_, _) => "modify_columns"
      case CreateIndex(_, _, _, _) => "create_index"
      case DropIndex(_, _) => "drop_index"
      case RenameTable(_, _) => "rename_table"
      case CopyTable(_, _, _) => "copy_table"
  }

  /** The schema request behind a typed call. */
  function RequestOf(call: Call): Request
    requires call.Typed? || call.CopyTableStructure?
  {
    match call
    case Typed(request) => request
    case CopyTableStructure(source, destination) => CopyTable(source, destination, false)
  }

  function DialectOf(engine: Engine): Dialect {
    if engine == ClickHouseEngine then ClickHouse else MySQL
  }

  function FindSource(config: Config, id: string): Result<Source, Reason> {
    if TrimSpace(id) == "" then Failure(InvalidInput)
    else if id !in config.sources then Failure(UnknownSource)
    else Success(config.sources[id])
  }

  function AnalyzerOf(config: Config, source: Source): Result<Classifier, Reason> {
    if source.engine == UnsupportedEngine then Failure(Unsupported)
    else Success(text => config.classify(source.engine, text))
  }

  function PlanForText(config: Config, source: Source, sql: string): Result<Plan, Reason> {
    if TrimSpace(sql) == "" then Failure(InvalidInput)
    else
      var classify :- AnalyzerOf(config, source);
      match Analyze(classify, sql)
      case Failure(_) => Failure(Unsafe)
      case Success(plan) => Success(plan)
  }

  function PlanForRequest(config: Config, source: Source, request: Request): Result<Plan, Reason> {
    match Build(DialectOf(source.engine), request)
    case Failure(error) => Failure(if error.UnsupportedCapability? then Unsupported else InvalidInput)
    case Success(statements) =>
      var classify :- AnalyzerOf(config, source);
      match Analyze(classify, Join(statements, "; "))
      case Failure(_) => Failure(Unsafe)
      case Success(plan) => if plan.readOnly then Failure(Unsafe) else Success(plan)
  }

  /** The plan of a call before any risk override. */
  function PlanFor(config: Config, source: Source, call: Call): Result<Plan, Reason> {
    match call
    case Query(sql, _) =>
      var plan :- PlanForText(config, source, sql);
      if !plan.readOnly || |plan.statements| != 1 then Failure(ReadOnlyRequired) else Success(plan)
    case ExecuteSQL(sql, _) =>
      var plan :- PlanForText(config, source, sql);
      if plan.readOnly then Failure(MutationRequired) else Success(plan)
    case Migrate(sql, _) =>
      var plan :- PlanForText(config, source, sql);
      if plan.readOnly then Failure(MutationRequired) else Success(plan)
    case _ =>
      PlanForRequest(config, source, RequestOf(call))
  }

  /** `migrate` always, and `execute_sql` for several statements, raise the risk. */
  function WithRiskOverride(call: Call, plan: Plan): Plan {
    if call.Migrate? || (call.ExecuteSQL? && |plan.statements| > 1) then plan.(risk := HighRisk) else plan
  }

  function ParametersOf(call: Call): Parameters {
    if call.Query? || call.ExecuteSQL? || call.Migrate? then call.parameters else None
  }

  function IntentOf(job: Job): Intent {
    Intent(job.source.id, job.tool, job.parameters, IsAtomicBatch(job.source.atomicBatches, job.plan), job.plan)
  }

  function AuthorizeJob(config: Config, meta: Meta, job: Job): Reply {
    match Authorize(config.hash, config.mode, IntentOf(job), Confirmation(meta.confirm, meta.previewHash))
    case Failure(_) => Rejected(Unsafe)
    case Success((state, artifact)) =>
      match state
      case ExecuteNow => Accepted(job)
      case PreviewRequired => ConfirmationRequired(artifact, job)
      case PreviewMismatch => Mismatch(artifact, job)
  }

  function JobFor(config: Config, sourceID: string, call: Call): Result<Job, Reason> {
    var source :- FindSource(config, sourceID);
    var plan :- PlanFor(config, source, call);
    Success(Job(source, ToolOf(call), WithRiskOverride(call, plan), ParametersOf(call)))
  }

  function Handle(config: Config, meta: Meta, call: Call): Reply {
    match JobFor(config, meta.sourceID, call)
    case Failure(reason) => Rejected(reason)
    case Success(job) => AuthorizeJob(config, meta, job)
  }

  // ---------- the handlers of the source ----------

  method AnalyzeText(config: Config, source: Source, sql: string) returns (r: Result<Plan, Reason>)
    ensures r == PlanForText(config, source, sql)
  {
    if TrimSpace(sql) == "" {
      return Failure(InvalidInput);
    }
    var classify :- AnalyzerOf(config, source);
    var analysis := AnalyzeStatements(classify, sql);
    match analysis
    case Failure(_) => return Failure(Unsafe);
    case Success(plan) => return Success(plan);
  }

  method HandleQuery(config: Config, meta: Meta, call: Call) returns (reply: Reply)
    requires call.Query?
    ensures reply == Handle(config, meta, call)
  {
    var source := FindSource(config, meta.sourceID);
    if source.Failure? { return Rejected(source.error); }
    var plan := AnalyzeText(config, source.value, call.sql);
    if plan.Failure? { return Rejected(plan.error); }
    if !plan.value.readOnly || |plan.value.statements| != 1 { return Rejected(ReadOnlyRequired); }
    return AuthorizeJob(config, meta, Job(source.value, "query", plan.value, call.parameters));
  }

  method HandleExecuteSQL(config: Config, meta: Meta, call: Call, tool: string, forceHighRisk: bool)
    returns (reply: Reply)
    requires call.ExecuteSQL? || call.Migrate?
    requires tool == ToolOf(call) && forceHighRisk == call.Migrate?
    ensures reply == Handle(config, meta, call)
  {
    var source := FindSource(config, meta.sourceID);
    if source.Failure? { return Rejected(source.error); }
    var analysis := AnalyzeText(config, source.value, call.sql);
    if analysis.Failure? { return Rejected(analysis.error); }
    var plan := analysis.value;
    if plan.readOnly { return Rejected(MutationRequired); }
    if forceHighRisk || |plan.statements| > 1 {
      plan := plan.(risk := HighRisk);
    }
    return AuthorizeJob(config, meta, Job(source.value, tool, plan, call.parameters));
  }

  method HandleOperation(config: Config, meta: Meta, call: Call) returns (reply: Reply)
    requires call.Typed? || call.CopyTableStructure?
    ensures reply == Handle(config, meta, call)
  {
    var source := FindSource(config, meta.sourceID);
    if source.Failure? { return Rejected(source.error); }
    var statements := BuildStatements(DialectOf(source.value.engine), RequestOf(call));
    if statements.Failure? {
      return Rejected(if statements.error.UnsupportedCapability? then Unsupported else InvalidInput);
    }
    var classify := AnalyzerOf(config, source.value);
    if classify.Failure? { return Rejected(classify.error); }
    var plan := AnalyzeStatements(classify.value, Join(statements.value, "; "));
    if plan.Failure? || plan.value.readOnly { return Rejected(Unsafe); }
    return AuthorizeJob(config, meta, Job(source.value, ToolOf(call), plan.value, None));
  }

  method HandleCall(config: Config, meta: Meta, call: Call) returns (reply: Reply)
    ensures reply == Handle(config, meta, call)
  {
    match call
    case Query(_, _) => reply := HandleQuery(config, meta, call);
    case ExecuteSQL(_, _) => reply := HandleExecuteSQL(config, meta, call, "execute_sql", false);
    case Migrate(_, _) => reply := HandleExecuteSQL(config, meta, call, "migrate", true);
    case _ => reply := HandleOperation(config, meta, call);
  }
}
