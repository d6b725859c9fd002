/** What the confirmation protocol guarantees, over every run of requests. */
module ServiceTheory {
  import opened Text
  import opened Json
  import opened SqlPlan
  import opened Preview
  import opened Execution
  import opened Operation
  import opened TypedPipeline
  import opened Service

  // ---------- runs ----------

  /** What the server shows or does. `Started` is accepted work, with the statements that
      the executor sent to the driver for it. */
  datatype Event =
    | Disclosed(artifact: Artifact, job: Job)
    | Started(job: Job, confirmed: bool, attempts: seq<DriverCall>)

  /** A source's database: its state, how many driver calls it had, and all statements sent. */
  datatype Connection<+S> = Connection(durable: S, calls: nat, attempts: seq<DriverCall>)

  datatype World<+S> = World(trace: seq<Event>, connections: map<string, Connection<S>>)

  datatype ToolCall = ToolCall(meta: Meta, call: Call)

  function EventOf(meta: Meta, reply: Reply, attempts: seq<DriverCall>): seq<Event> {
    match reply
    case Rejected(_) => []
    case ConfirmationRequired(artifact, job) => [Disclosed(artifact, job)]
    case Mismatch(artifact, job) => [Disclosed(artifact, job)]
    case Accepted(job) => [Started(job, meta.confirm, attempts)]
  }

  /** Work of `query`, whose plan is one statement. */
  predicate IsRead(job: Job) {
    job.tool == "query" && |job.plan.statements| == 1
  }

  /** A query reads; every other tool executes its plan. */
  function JobOutcome<S>(driver: Driver<S>, connection: Connection<S>, job: Job): Outcome<S> {
    if IsRead(job) then
      QueryOutcome(driver, connection.calls, connection.durable, job.source.connected,
                   job.plan.statements[0].facts.normalizedSQL, job.parameters)
    else
      PlanOutcome(driver, connection.calls, connection.durable, job.source.connected, job.source.atomicBatches,
                  job.plan, job.parameters)
  }

  function ConnectionAfter<S>(connection: Connection<S>, outcome: Outcome<S>): Connection<S> {
    Connection(outcome.durable, outcome.clock, connection.attempts + outcome.attempts)
  }

  predicate Executes<S>(drivers: map<string, Driver<S>>, w: World<S>, reply: Reply) {
    reply.Accepted? && reply.job.source.id in w.connections && reply.job.source.id in drivers
  }

  function SentBy<S>(drivers: map<string, Driver<S>>, w: World<S>, reply: Reply): seq<DriverCall> {
    if Executes(drivers, w, reply) then
      JobOutcome(drivers[reply.job.source.id], w.connections[reply.job.source.id], reply.job).attempts
    else []
  }

  /** The state after `reply`. */
  function Advance<S>(drivers: map<string, Driver<S>>, w: World<S>, request: ToolCall, reply: Reply): World<S> {
    if Executes(drivers, w, reply) then
      var id := reply.job.source.id;
      var outcome := JobOutcome(drivers[id], w.connections[id], reply.job);
      World(w.trace + EventOf(request.meta, reply, outcome.attempts),
            w.connections[id := ConnectionAfter(w.connections[id], outcome)])
    else
      World(w.trace + EventOf(request.meta, reply, []), w.connections)
  }

  /** One request. */
  function Step<S>(config: Config, drivers: map<string, Driver<S>>, w: World<S>, request: ToolCall): World<S> {
    Advance(drivers, w, request, Handle(config, request.meta, request.call))
  }

  function After<S>(config: Config, drivers: map<string, Driver<S>>, w: World<S>, requests: seq<ToolCall>): World<S>
    decreases |requests|
  {
    if requests == [] then w
    else After(config, drivers, Step(config, drivers, w, requests[0]), requests[1..])
  }

  /** A caller can present only hashes that the server has disclosed to it. */
  predicate PresentsDisclosed(trace: seq<Event>, meta: Meta) {
    meta.confirm && meta.previewHash != "" ==>
      exists j :: 0 <= j < |trace| && trace[j].Disclosed? && trace[j].artifact.previewHash == meta.previewHash
  }

  predicate HonestRun<S>(config: Config, drivers: map<string, Driver<S>>, w: World<S>, requests: seq<ToolCall>)
    decreases |requests|
  {
    requests != [] ==>
      && PresentsDisclosed(w.trace, requests[0].meta)
      && HonestRun(config, drivers, Step(config, drivers, w, requests[0]), requests[1..])
  }

  // ---------- executions follow previews ----------

  function Bound(job: Job): Envelope {
    EnvelopeOf(IntentOf(job))
  }

  predicate RequiresConfirmation(mode: Mode, job: Job) {
    Bound(job).risk == HighRisk || mode == StrictMode
  }

  /** A disclosed artifact shows the fields that its hash binds. */
  ghost predicate ShowsBound(hash: Hash, artifact: Artifact, job: Job) {
    && artifact.sql == Bound(job).sql
    && artifact.risk == Bound(job).risk
    && artifact.atomic == Bound(job).atomic
    && artifact.previewHash == hash(EnvelopeText(Bound(job)))
  }

  ghost predicate PreviewedBefore(trace: seq<Event>, k: nat)
    requires k < |trace|
  {
    exists j :: 0 <= j < k && trace[j].Disclosed? && Bound(trace[j].job) == Bound(trace[k].job)
  }

  predicate NeedsPreview(mode: Mode, event: Event) {
    event.Started? && (event.confirmed || RequiresConfirmation(mode, event.job))
  }

  /** Each disclosure shows what it binds; each execution that is high-risk, in strict mode
      or sent as a confirmation comes after a disclosure with the same source, tool, trimmed
      statements, parameters, risk and atomicity. */
  ghost predicate EveryExecutionPreviewed(config: Config, trace: seq<Event>) {
    && (forall j :: 0 <= j < |trace| && trace[j].Disclosed? ==>
          ShowsBound(config.hash, trace[j].artifact, trace[j].job))
    && (forall k :: 0 <= k < |trace| && NeedsPreview(config.mode, trace[k]) ==> PreviewedBefore(trace, k))
  }

  /** The confirmation carries the hash of this very job. */
  predicate Confirms(config: Config, meta: Meta, job: Job) {
    meta.previewHash != "" && meta.previewHash == config.hash(EnvelopeText(Bound(job)))
  }

  lemma {:induction false} AuthorizeFacts(config: Config, meta: Meta, job: Job)
    ensures var reply := AuthorizeJob(config, meta, job);
            && (reply.ConfirmationRequired? || reply.Mismatch? ==>
                  reply.job == job && ShowsBound(config.hash, reply.artifact, job))
            && (reply.Accepted? ==>
                  && reply.job == job && config.mode != UnknownMode && BuildPreview(config.hash, IntentOf(job)).Success?
                  && (RequiresConfirmation(config.mode, job) ==> meta.confirm)
                  && (meta.confirm ==> Confirms(config, meta, job)))
  {
  }

  lemma {:induction false} HandleFacts(config: Config, meta: Meta, call: Call)
    ensures var reply := Handle(config, meta, call);
            && (reply.ConfirmationRequired? || reply.Mismatch? ==> ShowsBound(config.hash, reply.artifact, reply.job))
            && (reply.Accepted? ==>
                  && JobFor(config, meta.sourceID, call) == Success(reply.job)
                  && (RequiresConfirmation(config.mode, reply.job) ==> meta.confirm)
                  && (meta.confirm ==> Confirms(config, meta, reply.job)))
  {
    if JobFor(config, meta.sourceID, call).Success? {
      AuthorizeFacts(config, meta, JobFor(config, meta.sourceID, call).value);
    }
  }

  lemma {:induction false} PreviewStays(trace: seq<Event>, more: seq<Event>, k: nat)
    requires k < |trace| && PreviewedBefore(trace, k)
    ensures PreviewedBefore(trace + more, k)
  {
    var j :| 0 <= j < k && trace[j].Disclosed? && Bound(trace[j].job) == Bound(trace[k].job);
    assert (trace + more)[j] == trace[j];
  }

  lemma {:induction false} PresentedHashWasPreviewed(config: Config, trace: seq<Event>, meta: Meta, job: Job,
                                                     attempts: seq<DriverCall>)
    requires IsSoundHash(config.hash) && EveryExecutionPreviewed(config, trace)
    requires PresentsDisclosed(trace, meta) && meta.confirm
    requires Confirms(config, meta, job)
    ensures PreviewedBefore(trace + [Started(job, true, attempts)], |trace|)
  {
    var j :| 0 <= j < |trace| && trace[j].Disclosed? && trace[j].artifact.previewHash == meta.previewHash;
    assert ShowsBound(config.hash, trace[j].artifact, trace[j].job);
    EnvelopeInjective(Bound(trace[j].job), Bound(job));
    assert (trace + [Started(job, true, attempts)])[j] == trace[j];
  }

  lemma {:induction false} EventKeepsPreviews(config: Config, trace: seq<Event>, event: Event)
    requires EveryExecutionPreviewed(config, trace)
    requires event.Disclosed? ==> ShowsBound(config.hash, event.artifact, event.job)
    requires NeedsPreview(config.mode, event) ==> PreviewedBefore(trace + [event], |trace|)
    ensures EveryExecutionPreviewed(config, trace + [event])
  {
    var next := trace + [event];
    forall k | 0 <= k < |next| && NeedsPreview(config.mode, next[k])
      ensures PreviewedBefore(next, k)
    {
      if k < |trace| {
        assert next[k] == trace[k] && NeedsPreview(config.mode, trace[k]);
        PreviewStays(trace, [event], k);
      }
    }
  }

  lemma {:induction false} ReplyKeepsPreviews(config: Config, trace: seq<Event>, meta: Meta, reply: Reply,
                                              attempts: seq<DriverCall>)
    requires IsSoundHash(config.hash)
    requires EveryExecutionPreviewed(config, trace) && PresentsDisclosed(trace, meta)
    requires reply.ConfirmationRequired? || reply.Mismatch? ==> ShowsBound(config.hash, reply.artifact, reply.job)
    requires reply.Accepted? ==>
               && (RequiresConfirmation(config.mode, reply.job) ==> meta.confirm)
               && (meta.confirm ==> Confirms(config, meta, reply.job))
    ensures EveryExecutionPreviewed(config, trace + EventOf(meta, reply, attempts))
  {
    match reply
    case Rejected(_) =>
      assert trace + [] == trace;
    case ConfirmationRequired(artifact, job) => EventKeepsPreviews(config, trace, Disclosed(artifact, job));
    case Mismatch(artifact, job) => EventKeepsPreviews(config, trace, Disclosed(artifact, job));
    case Accepted(job) =>
      if meta.confirm { PresentedHashWasPreviewed(config, trace, meta, job, attempts); }
      EventKeepsPreviews(config, trace, Started(job, meta.confirm, attempts));
  }

  lemma {:induction false} StepKeepsPreviews<S>(config: Config, drivers: map<string, Driver<S>>, w: World<S>,
                                                request: ToolCall)
    requires IsSoundHash(config.hash)
    requires EveryExecutionPreviewed(config, w.trace) && PresentsDisclosed(w.trace, request.meta)
    ensures EveryExecutionPreviewed(config, Step(config, drivers, w, request).trace)
  {
    var reply := Handle(config, request.meta, request.call);
    HandleFacts(config, request.meta, request.call);
    ReplyKeepsPreviews(config, w.trace, request.meta, reply, SentBy(drivers, w, reply));
  }

  /** Over every run: no execution that needs confirmation without its preview before it. */
  lemma {:induction false} RunsArePreviewed<S>(config: Config, drivers: map<string, Driver<S>>, w: World<S>,
                                               requests: seq<ToolCall>)
    requires IsSoundHash(config.hash)
    requires EveryExecutionPreviewed(config, w.trace) && HonestRun(config, drivers, w, requests)
    ensures EveryExecutionPreviewed(config, After(config, drivers, w, requests).trace)
    decreases |requests|
  {
    if requests == [] {
    } else {
      StepKeepsPreviews(config, drivers, w, requests[0]);
      RunsArePreviewed(config, drivers, Step(config, drivers, w, requests[0]), requests[1..]);
    }
  }

  /** From a server that has shown and done nothing. */
  lemma {:induction false} FreshRunsArePreviewed<S>(config: Config, drivers: map<string, Driver<S>>,
                                                    connections: map<string, Connection<S>>,
                                                    requests: seq<ToolCall>)
    requires IsSoundHash(config.hash) && HonestRun(config, drivers, World([], connections), requests)
    ensures EveryExecutionPreviewed(config, After(config, drivers, World([], connections), requests).trace)
  {
    RunsArePreviewed(config, drivers, World([], connections), requests);
  }

  // ---------- nothing changes without an execution ----------

  lemma {:induction false} StepChangesByExecution<S>(config: Config, drivers: map<string, Driver<S>>, w: World<S>,
                                                     request: ToolCall, id: string)
    requires id in w.connections
    ensures var next, n := Step(config, drivers, w, request), |w.trace|;
            && next.connections.Keys == w.connections.Keys
            && w.trace <= next.trace
            && (next.connections[id] != w.connections[id] ==>
                  |next.trace| == n + 1 && next.trace[n].Started? && next.trace[n].job.source.id == id)
  {
    var next := Step(config, drivers, w, request);
    if next.connections[id] != w.connections[id] {
      assert next.trace[|w.trace|].Started?;
    }
  }

  /** A source's state, or what was sent to it, differs after a run only if the run started
      work on it. */
  lemma {:induction false} RunsChangeByExecution<S>(config: Config, drivers: map<string, Driver<S>>, w: World<S>,
                                                    requests: seq<ToolCall>, id: string)
    requires id in w.connections
    ensures var last := After(config, drivers, w, requests);
            && last.connections.Keys == w.connections.Keys
            && w.trace <= last.trace
            && (last.connections[id] != w.connections[id] ==>
                  exists k :: |w.trace| <= k < |last.trace| &&
                              last.trace[k].Started? && last.trace[k].job.source.id == id)
    decreases |requests|
  {
    if requests == [] {
    } else {
      var next := Step(config, drivers, w, requests[0]);
      var last := After(config, drivers, next, requests[1..]);
      StepChangesByExecution(config, drivers, w, requests[0], id);
      RunsChangeByExecution(config, drivers, next, requests[1..], id);
      if next.connections[id] != w.connections[id] {
        assert last.trace[|w.trace|] == next.trace[|w.trace|];
      }
    }
  }

  /** Step `n` of an honest run starts in the state after the first `n` requests. */
  lemma {:induction false} RunReaches<S>(config: Config, drivers: map<string, Driver<S>>, w: World<S>,
                                         requests: seq<ToolCall>, n: nat)
    requires HonestRun(config, drivers, w, requests) && n < |requests|
    ensures var before := After(config, drivers, w, requests[..n]);
            && HonestRun(config, drivers, w, requests[..n])
            && PresentsDisclosed(before.trace, requests[n].meta)
            && After(config, drivers, w, requests[..n + 1]) == Step(config, drivers, before, requests[n])
    decreases n
  {
    if n == 0 {
      assert requests[..1][1..] == [];
    } else {
      var next := Step(config, drivers, w, requests[0]);
      RunReaches(config, drivers, next, requests[1..], n - 1);
      assert requests[..n][1..] == requests[1..][..n - 1];
      assert requests[..n + 1][1..] == requests[1..][..n];
    }
  }

  /** At every step of every honest run: when a source's state changes, or anything is sent
      to it, the step started work on that source; and if that work is high-risk, in strict
      mode or sent as a confirmation, a preview with the same bound fields came before. */
  lemma {:induction false} ChangesArePreviewed<S>(config: Config, drivers: map<string, Driver<S>>,
                                                  connections: map<string, Connection<S>>,
                                                  requests: seq<ToolCall>, n: nat, id: string)
    requires IsSoundHash(config.hash) && HonestRun(config, drivers, World([], connections), requests)
    requires n < |requests| && id in connections
    ensures var before := After(config, drivers, World([], connections), requests[..n]);
            var next := After(config, drivers, World([], connections), requests[..n + 1]);
            var k := |before.trace|;
            && id in before.connections && id in next.connections
            && (next.connections[id] != before.connections[id] ==>
                  && |next.trace| == k + 1 && next.trace[k].Started? && next.trace[k].job.source.id == id
                  && (NeedsPreview(config.mode, next.trace[k]) ==> PreviewedBefore(next.trace, k)))
  {
    var w := World([], connections);
    var before := After(config, drivers, w, requests[..n]);
    RunReaches(config, drivers, w, requests, n);
    RunsChangeByExecution(config, drivers, w, requests[..n], id);
    FreshRunsArePreviewed(config, drivers, connections, requests[..n]);
    StepChangesByExecution(config, drivers, before, requests[n], id);
    StepKeepsPreviews(config, drivers, before, requests[n]);
  }

  // ---------- typed calls and quick mode ----------

  /** The parsers' contract with the builders: schema text is DDL or refused. */
  ghost predicate SchemaTextIsDDL(config: Config) {
    forall engine, text :: LeadsWithSchemaKeyword(text) && config.classify(engine, text).Some? ==>
      config.classify(engine, text).value.kind == DDL
  }

  /** The plan of a typed call consists of exactly the built statements, in order. */
  lemma {:induction false} TypedPlanIsBuilt(config: Config, source: Source, request: Request)
    requires PlanForRequest(config, source, request).Success?
    ensures var plan, built := PlanForRequest(config, source, request).value, Build(DialectOf(source.engine), request);
            && built.Success? && |plan.statements| == |built.value|
            && (forall i :: 0 <= i < |plan.statements| ==>
                  plan.statements[i].sql == built.value[i] &&
                  config.classify(source.engine, built.value[i]) == Some(plan.statements[i].facts))
            && IsPlanOf(plan, plan.statements)
  {
    BuildJoinSplit(DialectOf(source.engine), request);
    ClassifyAllSound(AnalyzerOf(config, source).value, Build(DialectOf(source.engine), request).value);
  }

  /** The plan of a job, by the kind of call it comes from. */
  lemma {:induction false} JobPlan(config: Config, sourceID: string, call: Call)
    requires JobFor(config, sourceID, call).Success?
    ensures var job := JobFor(config, sourceID, call).value;
            var plan, base := job.plan, PlanFor(config, job.source, call);
            && base.Success? && plan.statements == base.value.statements && plan.readOnly == base.value.readOnly
            && IsPlanOf(base.value, plan.statements)
            && (call.Query? ==> plan.readOnly && |plan.statements| == 1)
            && (!call.Query? ==> !plan.readOnly)
            && plan.risk == (if call.Migrate? || (call.ExecuteSQL? && |plan.statements| > 1) then HighRisk
                             else base.value.risk)
  {
  }

  lemma {:induction false} ToolNames(call: Call)
    ensures ToolOf(call) == "query" <==> call.Query?
    ensures ToolOf(call) == "execute_sql" <==> call.ExecuteSQL?
  {
    assert ToolOf(call) != "" && (ToolOf(call)[0] == 'q' <==> call.Query?);
    assert ToolOf(call)[0] == 'e' <==> call.ExecuteSQL?;
  }

  lemma {:induction false} ReadJobs(config: Config, sourceID: string, call: Call)
    requires JobFor(config, sourceID, call).Success?
    ensures var job := JobFor(config, sourceID, call).value;
            && job.tool == ToolOf(call)
            && (job.tool == "query" <==> call.Query?) && (job.tool == "execute_sql" <==> call.ExecuteSQL?)
            && (IsRead(job) <==> call.Query?)
  {
    JobPlan(config, sourceID, call);
    ToolNames(call);
  }

  lemma {:induction false} TypedJobIsHighRisk(config: Config, sourceID: string, call: Call)
    requires SchemaTextIsDDL(config) && (call.Typed? || call.CopyTableStructure?)
    requires JobFor(config, sourceID, call).Success?
    ensures Bound(JobFor(config, sourceID, call).value).risk == HighRisk
  {
    var job := JobFor(config, sourceID, call).value;
    JobPlan(config, sourceID, call);
    TypedPlanIsBuilt(config, job.source, RequestOf(call));
    BuildJoinSplit(DialectOf(job.source.engine), RequestOf(call));
    BuildLeadsWithSchemaKeyword(DialectOf(job.source.engine), RequestOf(call));
    assert IsDangerous(job.plan.statements[0].facts);
  }

  /** Typed operations never run unconfirmed, in any mode. */
  lemma {:induction false} TypedCallsAreConfirmed(config: Config, meta: Meta, call: Call)
    requires SchemaTextIsDDL(config) && (call.Typed? || call.CopyTableStructure?)
    ensures Handle(config, meta, call).Accepted? ==> meta.confirm
  {
    HandleFacts(config, meta, call);
    if Handle(config, meta, call).Accepted? {
      TypedJobIsHighRisk(config, meta.sourceID, call);
    }
  }

  lemma {:induction false} LowRiskIsMild(config: Config, sourceID: string, call: Call)
    requires SchemaTextIsDDL(config) && JobFor(config, sourceID, call).Success?
    requires Bound(JobFor(config, sourceID, call).value).risk == LowRisk
    ensures var job := JobFor(config, sourceID, call).value;
            && (call.Query? || call.ExecuteSQL?)
            && |job.plan.statements| == 1
            && var facts := job.plan.statements[0].facts;
            && !IsDangerous(facts)
            && (call.Query? <==> facts.kind == ReadOnly)
            && (call.ExecuteSQL? && IsValidPlan(job.plan) ==> facts.kind == Write)
  {
    var job := JobFor(config, sourceID, call).value;
    JobPlan(config, sourceID, call);
    if call.Typed? || call.CopyTableStructure? {
      TypedJobIsHighRisk(config, sourceID, call);
    } else {
      assert job.plan.risk == LowRisk;
      assert |job.plan.statements| == 1;
    }
  }

  /** In quick mode, what runs unconfirmed is one statement: a read through `query`, or
      through `execute_sql` a statement that is neither a read nor DDL (so a write, when the
      executor takes it) and that has the WHERE clause its kind requires. `migrate` and
      typed calls never do. */
  lemma {:induction false} QuickUnconfirmedIsMild(config: Config, meta: Meta, call: Call)
    requires SchemaTextIsDDL(config) && config.mode == QuickMode && !meta.confirm
    requires Handle(config, meta, call).Accepted?
    ensures var job := Handle(config, meta, call).job;
            && (call.Query? || call.ExecuteSQL?)
            && |job.plan.statements| == 1
            && var facts := job.plan.statements[0].facts;
            && !IsDangerous(facts)
            && (call.Query? <==> facts.kind == ReadOnly)
            && (call.ExecuteSQL? && IsValidPlan(job.plan) ==> facts.kind == Write)
  {
    HandleFacts(config, meta, call);
    LowRiskIsMild(config, meta.sourceID, call);
  }

  // ---------- confirming a preview ----------

  /** The same configuration up to how sources are displayed. */
  ghost predicate SameButNames(config: Config, other: Config) {
    && config.sources.Keys == other.sources.Keys
    && (forall id <- config.sources :: config.sources[id].(displayName := "") == other.sources[id].(displayName := ""))
    && config.mode == other.mode && config.classify == other.classify && config.hash == other.hash
  }

  lemma {:induction false} PlanIgnoresNames(config: Config, other: Config, a: Source, b: Source, call: Call)
    requires config.classify == other.classify && a.engine == b.engine
    ensures PlanFor(config, a, call) == PlanFor(other, b, call)
  {
  }

  lemma {:induction false} JobIgnoresNames(config: Config, other: Config, sourceID: string, call: Call)
    requires SameButNames(config, other)
    ensures JobFor(config, sourceID, call).Success? <==> JobFor(other, sourceID, call).Success?
    ensures JobFor(config, sourceID, call).Success? ==>
              IntentOf(JobFor(config, sourceID, call).value) == IntentOf(JobFor(other, sourceID, call).value)
  {
    if FindSource(config, sourceID).Success? {
      var a, b := config.sources[sourceID], other.sources[sourceID];
      assert a.(displayName := "").engine == b.(displayName := "").engine && a.engine == b.engine;
      assert a.id == a.(displayName := "").id == b.(displayName := "").id == b.id;
      assert a.atomicBatches == a.(displayName := "").atomicBatches;
      assert b.atomicBatches == b.(displayName := "").atomicBatches;
      PlanIgnoresNames(config, other, a, b, call);
    }
  }

  lemma {:induction false} SameIntentIsAccepted(config: Config, meta: Meta, job: Job, other: Config, requestID: string,
                                               again: Job)
    requires IsSoundHash(config.hash) && config.mode == other.mode && config.hash == other.hash
    requires IntentOf(job) == IntentOf(again)
    requires var first := AuthorizeJob(config, meta, job); first.ConfirmationRequired? || first.Mismatch?
    ensures var artifact := AuthorizeJob(config, meta, job).artifact;
            AuthorizeJob(other, Meta(meta.sourceID, true, artifact.previewHash, requestID), again) == Accepted(again)
  {
  }

  /** Repeating a previewed call with the disclosed hash is authorised: whatever the request
      ID, and even if sources were renamed for display in between. `RefusedExactly` says when
      the executor then takes it. */
  lemma {:induction false} RepeatIsAuthorised(config: Config, other: Config, meta: Meta, requestID: string, call: Call)
    requires IsSoundHash(config.hash) && SameButNames(config, other)
    requires var first := Handle(config, meta, call); first.ConfirmationRequired? || first.Mismatch?
    ensures var first := Handle(config, meta, call);
            var second := Handle(other, Meta(meta.sourceID, true, first.artifact.previewHash, requestID), call);
            second.Accepted? && IntentOf(second.job) == IntentOf(first.job)
  {
    JobIgnoresNames(config, other, meta.sourceID, call);
    var job, again := JobFor(config, meta.sourceID, call).value, JobFor(other, meta.sourceID, call).value;
    SameIntentIsAccepted(config, meta, job, other, requestID, again);
  }

  /** A changed call is not accepted with that hash: what differs is shown as a new preview. */
  lemma {:induction false} ChangedCallMismatches(config: Config, meta: Meta, previewed: Job, call: Call)
    requires IsSoundHash(config.hash) && config.mode != UnknownMode
    requires meta.confirm && meta.previewHash == config.hash(EnvelopeText(Bound(previewed)))
    requires JobFor(config, meta.sourceID, call).Success?
    requires Bound(JobFor(config, meta.sourceID, call).value) != Bound(previewed)
    ensures !Handle(config, meta, call).Accepted?
  {
    var job := JobFor(config, meta.sourceID, call).value;
    AuthorizeFacts(config, meta, job);
    if Handle(config, meta, call).Accepted? {
      EnvelopeInjective(Bound(job), Bound(previewed));
    }
  }

  // ---------- what the executor takes ----------

  /** A statement that is neither a write nor DDL. */
  predicate IsMixed(plan: Plan) {
    exists i :: 0 <= i < |plan.statements| &&
                plan.statements[i].facts.kind != Write && plan.statements[i].facts.kind != DDL
  }

  /** Parameters for several statements. */
  predicate IsOverloaded(job: Job) {
    |job.plan.statements| > 1 && ParameterList(job.parameters) != []
  }

  /** Turned away before any driver call. */
  function Refusal<S>(connection: Connection<S>, error: ExecuteError): Outcome<S> {
    Outcome(connection.durable, None, connection.calls, ExecuteResult([], false), Some(error), [])
  }

  lemma {:induction false} PreviewedStatements(hash: Hash, job: Job)
    requires BuildPreview(hash, IntentOf(job)).Success?
    ensures IsValidPlan(job.plan) <==> !IsMixed(job.plan)
  {
    var shown := CanonicalSQL(job.plan);
    forall i | 0 <= i < |job.plan.statements|
      ensures TrimSpace(job.plan.statements[i].facts.normalizedSQL) != ""
    {
      assert shown[i] in shown;
    }
  }

  lemma {:induction false} ValidPlanIsTried<S>(driver: Driver<S>, clock: nat, s: S, atomicBatches: bool, plan: Plan,
                                               args: Parameters)
    requires IsValidPlan(plan) && !(|plan.statements| > 1 && ParameterList(args) != [])
    ensures PlanOutcome(driver, clock, s, true, atomicBatches, plan, args).clock > clock
  {
    RunLength(driver, clock, s, plan.statements, 0, args);
  }

  /** What a preview accepts and what the executor takes differ: work that passed the preview
      on a connected source is refused without a driver call if and only if some statement is
      neither a write nor DDL, or there are parameters for several statements. */
  lemma {:induction false} RefusedExactly<S>(hash: Hash, driver: Driver<S>, connection: Connection<S>, job: Job)
    requires BuildPreview(hash, IntentOf(job)).Success? && job.source.connected && !IsRead(job)
    ensures var outcome := JobOutcome(driver, connection, job);
            && (outcome.clock == connection.calls <==> IsMixed(job.plan) || IsOverloaded(job))
            && (IsMixed(job.plan) ==> outcome == Refusal(connection, InvalidPlan))
            && (!IsMixed(job.plan) && IsOverloaded(job) ==> outcome == Refusal(connection, AmbiguousBatchArgs))
  {
    PreviewedStatements(hash, job);
    if !IsMixed(job.plan) && !IsOverloaded(job) {
      ValidPlanIsTried(driver, connection.calls, connection.durable, job.source.atomicBatches, job.plan,
                       job.parameters);
    }
  }

  /** The same for every accepted call that is not a query. */
  lemma {:induction false} AcceptedRefusedExactly<S>(config: Config, meta: Meta, call: Call, driver: Driver<S>,
                                                     connection: Connection<S>)
    requires Handle(config, meta, call).Accepted? && !call.Query?
    requires Handle(config, meta, call).job.source.connected
    ensures var job := Handle(config, meta, call).job;
            JobOutcome(driver, connection, job).clock == connection.calls <==> IsMixed(job.plan) || IsOverloaded(job)
  {
    HandleFacts(config, meta, call);
    ReadJobs(config, meta.sourceID, call);
    var job := Handle(config, meta, call).job;
    AuthorizeFacts(config, meta, job);
    RefusedExactly(config.hash, driver, connection, job);
  }

  /** The confirmation of a previewed call. */
  function Confirmed(meta: Meta, artifact: Artifact): Meta {
    Meta(meta.sourceID, true, artifact.previewHash, meta.requestID)
  }

  /** A batch of `execute_sql` or `migrate` is previewed, and its confirmation is accepted. */
  lemma {:induction false} BatchIsConfirmable(config: Config, meta: Meta, call: Call)
    requires IsSoundHash(config.hash) && config.mode != UnknownMode && !meta.confirm
    requires (call.ExecuteSQL? || call.Migrate?) && JobFor(config, meta.sourceID, call).Success?
    requires var job := JobFor(config, meta.sourceID, call).value;
             |job.plan.statements| > 1 && BuildPreview(config.hash, IntentOf(job)).Success?
    ensures var job, first := JobFor(config, meta.sourceID, call).value, Handle(config, meta, call);
            && first.ConfirmationRequired? && first.job == job
            && Handle(config, Confirmed(meta, first.artifact), call) == Accepted(job)
  {
    var job := JobFor(config, meta.sourceID, call).value;
    JobPlan(config, meta.sourceID, call);
    assert Bound(job).risk == HighRisk;
    SameIntentIsAccepted(config, meta, job, config, meta.requestID, job);
  }

  /** A batch with a read in it, like `SELECT 1; INSERT INTO t VALUES (1)`: it is previewed and
      its confirmation accepted, and then nothing is sent. */
  lemma {:induction false} MixedBatchNeverRuns<S>(config: Config, meta: Meta, call: Call, driver: Driver<S>,
                                                  connection: Connection<S>)
    requires IsSoundHash(config.hash) && config.mode != UnknownMode && !meta.confirm
    requires (call.ExecuteSQL? || call.Migrate?) && JobFor(config, meta.sourceID, call).Success?
    requires var job := JobFor(config, meta.sourceID, call).value;
             |job.plan.statements| > 1 && BuildPreview(config.hash, IntentOf(job)).Success? && IsMixed(job.plan)
    ensures var first := Handle(config, meta, call);
            && first.ConfirmationRequired?
            && var second := Handle(config, Confirmed(meta, first.artifact), call);
            second.Accepted? && JobOutcome(driver, connection, second.job) == Refusal(connection, InvalidPlan)
  {
    BatchIsConfirmable(config, meta, call);
    PreviewedStatements(config.hash, JobFor(config, meta.sourceID, call).value);
  }

  /** A batch of writes with parameters: the same, with another reason. */
  lemma {:induction false} ParameterBatchNeverRuns<S>(config: Config, meta: Meta, call: Call, driver: Driver<S>,
                                                      connection: Connection<S>)
    requires IsSoundHash(config.hash) && config.mode != UnknownMode && !meta.confirm
    requires (call.ExecuteSQL? || call.Migrate?) && JobFor(config, meta.sourceID, call).Success?
    requires var job := JobFor(config, meta.sourceID, call).value;
             BuildPreview(config.hash, IntentOf(job)).Success? && !IsMixed(job.plan) && IsOverloaded(job)
    ensures var first := Handle(config, meta, call);
            && first.ConfirmationRequired?
            && var second := Handle(config, Confirmed(meta, first.artifact), call);
            second.Accepted? && JobOutcome(driver, connection, second.job) == Refusal(connection, AmbiguousBatchArgs)
  {
    BatchIsConfirmable(config, meta, call);
    PreviewedStatements(config.hash, JobFor(config, meta.sourceID, call).value);
  }

  // ---------- what runs is what was shown ----------

  lemma {:induction false} SequentialAttempts<S>(driver: Driver<S>, connection: Connection<S>,
                                                 statements: seq<Statement>, args: Parameters)
    ensures var outcome := SequentialOutcome(driver, connection.calls, connection.durable, statements, args);
            && |outcome.attempts| <= |statements|
            && outcome.attempts == Attempts(statements, |outcome.attempts|, args)
            && (outcome.error == None ==> |outcome.attempts| == |statements|)
            && !outcome.result.atomic
  {
    RunLength(driver, connection.calls, connection.durable, statements, 0, args);
  }

  lemma {:induction false} AtomicAttempts<S>(driver: Driver<S>, connection: Connection<S>,
                                             statements: seq<Statement>, args: Parameters)
    ensures var outcome := AtomicOutcome(driver, connection.calls, connection.durable, statements, args);
            && |outcome.attempts| <= |statements|
            && outcome.attempts == Attempts(statements, |outcome.attempts|, args)
            && (outcome.error == None ==> |outcome.attempts| == |statements|)
            && outcome.result.atomic
  {
    RunLength(driver, connection.calls + 1, connection.durable, statements, 0, args);
  }

  lemma {:induction false} OutcomeAttempts<S>(driver: Driver<S>, connection: Connection<S>, job: Job)
    ensures var outcome := JobOutcome(driver, connection, job);
            && |outcome.attempts| <= |job.plan.statements|
            && outcome.attempts == Attempts(job.plan.statements, |outcome.attempts|, job.parameters)
            && (outcome.error == None ==> |outcome.attempts| == |job.plan.statements|)
            && (outcome.attempts != [] ==> |job.plan.statements| == 1 || ParameterList(job.parameters) == [])
            && (outcome.error == None && !IsRead(job) ==> outcome.result.atomic == Bound(job).atomic)
  {
    SequentialAttempts(driver, connection, job.plan.statements, job.parameters);
    AtomicAttempts(driver, connection, job.plan.statements, job.parameters);
  }

  /** Statements sent are the first of those shown, in order and up to surrounding white
      space; parameters go with the first one only. */
  predicate AreShown(attempts: seq<DriverCall>, sql: seq<string>, parameters: seq<Value>) {
    && |attempts| <= |sql|
    && forall i :: 0 <= i < |attempts| ==>
         TrimSpace(attempts[i].0) == sql[i] && attempts[i].1 == (if i == 0 then parameters else [])
  }

  /** An execution agrees with what its hash bound: the statements tried are the previewed
      ones, parameters are sent only in one-statement plans, and completed work has tried all
      and, when it executes a plan, has the previewed atomicity. */
  lemma {:induction false} ExecutionAgreesWithPreview<S>(driver: Driver<S>, connection: Connection<S>, job: Job)
    ensures var outcome, shown := JobOutcome(driver, connection, job), Bound(job);
            && AreShown(outcome.attempts, shown.sql, shown.parameters)
            && (outcome.attempts != [] ==> |shown.sql| == 1 || shown.parameters == [])
            && (outcome.error == None ==> |outcome.attempts| == |shown.sql|)
            && (outcome.error == None && !IsRead(job) ==> outcome.result.atomic == shown.atomic)
  {
    OutcomeAttempts(driver, connection, job);
    var outcome := JobOutcome(driver, connection, job);
    assert forall i :: 0 <= i < |outcome.attempts| ==>
             outcome.attempts[i] == Attempt(job.plan.statements, i, job.parameters);
  }

  // ---------- everything sent was shown ----------

  function SentIn(event: Event, id: string): seq<DriverCall> {
    if event.Started? && event.job.source.id == id then event.attempts else []
  }

  /** All statements sent to a source, in order. */
  function SentTo(trace: seq<Event>, id: string): seq<DriverCall> {
    if trace == [] then []
    else SentTo(trace[..|trace| - 1], id) + SentIn(trace[|trace| - 1], id)
  }

  predicate SendsBound(event: Event)
    requires event.Started?
  {
    AreShown(event.attempts, Bound(event.job).sql, Bound(event.job).parameters)
  }

  /** Each source was sent exactly what its started work records, and each started work
      sent what its job binds. */
  ghost predicate IsRecorded<S>(w: World<S>) {
    && (forall id <- w.connections :: w.connections[id].attempts == SentTo(w.trace, id))
    && (forall k :: 0 <= k < |w.trace| && w.trace[k].Started? ==> SendsBound(w.trace[k]))
  }

  lemma {:induction false} SentToSnoc(trace: seq<Event>, event: Event, id: string)
    ensures SentTo(trace + [event], id) == SentTo(trace, id) + SentIn(event, id)
  {
    assert (trace + [event])[..|trace|] == trace;
  }

  lemma {:induction false} IdleKeepsRecord<S>(w: World<S>, event: Event)
    requires IsRecorded(w) && (event.Started? ==> event.attempts == [])
    ensures IsRecorded(World(w.trace + [event], w.connections))
  {
    forall id | id in w.connections
      ensures w.connections[id].attempts == SentTo(w.trace + [event], id)
    {
      SentToSnoc(w.trace, event, id);
    }
  }

  lemma {:induction false} WorkKeepsRecord<S>(w: World<S>, event: Event, connection: Connection<S>)
    requires IsRecorded(w) && event.Started? && SendsBound(event) && event.job.source.id in w.connections
    requires connection.attempts == w.connections[event.job.source.id].attempts + event.attempts
    ensures IsRecorded(World(w.trace + [event], w.connections[event.job.source.id := connection]))
  {
    var next := World(w.trace + [event], w.connections[event.job.source.id := connection]);
    forall id | id in next.connections
      ensures next.connections[id].attempts == SentTo(next.trace, id)
    {
      SentToSnoc(w.trace, event, id);
    }
  }

  lemma {:induction false} StepKeepsRecord<S>(config: Config, drivers: map<string, Driver<S>>, w: World<S>,
                                              request: ToolCall)
    requires IsRecorded(w)
    ensures IsRecorded(Step(config, drivers, w, request))
  {
    var reply := Handle(config, request.meta, request.call);
    var events := EventOf(request.meta, reply, SentBy(drivers, w, reply));
    if reply.Rejected? {
      assert w.trace + [] == w.trace;
    } else if Executes(drivers, w, reply) {
      var id := reply.job.source.id;
      ExecutionAgreesWithPreview(drivers[id], w.connections[id], reply.job);
      var outcome := JobOutcome(drivers[id], w.connections[id], reply.job);
      WorkKeepsRecord(w, events[0], ConnectionAfter(w.connections[id], outcome));
    } else {
      IdleKeepsRecord(w, events[0]);
    }
  }

  lemma {:induction false} RunsKeepRecord<S>(config: Config, drivers: map<string, Driver<S>>, w: World<S>,
                                             requests: seq<ToolCall>)
    requires IsRecorded(w)
    ensures IsRecorded(After(config, drivers, w, requests))
    decreases |requests|
  {
    if requests == [] {
    } else {
      StepKeepsRecord(config, drivers, w, requests[0]);
      RunsKeepRecord(config, drivers, Step(config, drivers, w, requests[0]), requests[1..]);
    }
  }

  /** The started work that a sent statement belongs to. */
  lemma {:induction false} SentByWork(trace: seq<Event>, id: string, a: nat) returns (k: nat, i: nat)
    requires a < |SentTo(trace, id)|
    ensures k < |trace| && trace[k].Started? && trace[k].job.source.id == id
    ensures i < |trace[k].attempts| && trace[k].attempts[i] == SentTo(trace, id)[a]
  {
    var n := |trace| - 1;
    var earlier := SentTo(trace[..n], id);
    if a < |earlier| {
      k, i := SentByWork(trace[..n], id, a);
    } else {
      k, i := n, a - |earlier|;
    }
  }

  /** A disclosure of a statement, as the `i`-th of its artifact. */
  predicate Showed(event: Event, sent: DriverCall, i: nat) {
    && event.Disclosed?
    && i < |event.artifact.sql| && event.artifact.sql[i] == TrimSpace(sent.0)
    && sent.1 == (if i == 0 then ParameterList(event.job.parameters) else [])
  }

  /** Every statement that ever reached a source's driver, read or write, in any honest run of a server that
      starts with nothing sent: it is statement `i` of work started on that source, and if that
      work is high-risk, in strict mode or sent as a confirmation, an artifact disclosed before
      showed the statement at place `i`, for a job with those parameters. */
  lemma {:induction false} SentStatementsWereShown<S>(config: Config, drivers: map<string, Driver<S>>,
                                                      connections: map<string, Connection<S>>,
                                                      requests: seq<ToolCall>, id: string, a: nat)
    returns (k: nat, i: nat)
    requires IsSoundHash(config.hash) && HonestRun(config, drivers, World([], connections), requests)
    requires forall id <- connections :: connections[id].attempts == []
    requires var last := After(config, drivers, World([], connections), requests);
             id in last.connections && a < |last.connections[id].attempts|
    ensures var last := After(config, drivers, World([], connections), requests);
            var sent := last.connections[id].attempts[a];
            && k < |last.trace| && last.trace[k].Started? && last.trace[k].job.source.id == id
            && i < |last.trace[k].attempts| && last.trace[k].attempts[i] == sent && SendsBound(last.trace[k])
            && (NeedsPreview(config.mode, last.trace[k]) ==> exists j :: 0 <= j < k && Showed(last.trace[j], sent, i))
  {
    var w := World([], connections);
    var last := After(config, drivers, w, requests);
    RunsKeepRecord(config, drivers, w, requests);
    FreshRunsArePreviewed(config, drivers, connections, requests);
    k, i := SentByWork(last.trace, id, a);
    assert SendsBound(last.trace[k]);
    if NeedsPreview(config.mode, last.trace[k]) {
      assert PreviewedBefore(last.trace, k);
      var j :| 0 <= j < k && last.trace[j].Disclosed? && Bound(last.trace[j].job) == Bound(last.trace[k].job);
      assert Showed(last.trace[j], last.connections[id].attempts[a], i);
    }
  }

  // ---------- runs in quick mode ----------

  /** One read through `query`, or one statement through `execute_sql` that has the WHERE
      clause its kind requires and, if it is sent, is a write other than DDL. */
  predicate IsMild(event: Event)
    requires event.Started?
  {
    var job := event.job;
    && |job.plan.statements| == 1
    && (job.tool == "query" || job.tool == "execute_sql")
    && !IsDangerous(job.plan.statements[0].facts)
    && (job.tool == "query" <==> job.plan.statements[0].facts.kind == ReadOnly)
    && (job.tool == "execute_sql" && event.attempts != [] ==> job.plan.statements[0].facts.kind == Write)
  }

  ghost predicate UnconfirmedIsMild(trace: seq<Event>) {
    forall k :: 0 <= k < |trace| && trace[k].Started? && !trace[k].confirmed ==> IsMild(trace[k])
  }

  lemma {:induction false} SentIsValid<S>(drivers: map<string, Driver<S>>, w: World<S>, reply: Reply)
    requires SentBy(drivers, w, reply) != [] && !IsRead(reply.job)
    ensures IsValidPlan(reply.job.plan)
  {
  }

  lemma {:induction false} QuickJobIsMild(config: Config, meta: Meta, call: Call, attempts: seq<DriverCall>)
    requires SchemaTextIsDDL(config) && config.mode == QuickMode && !meta.confirm
    requires Handle(config, meta, call).Accepted?
    requires var job := Handle(config, meta, call).job; !IsRead(job) && attempts != [] ==> IsValidPlan(job.plan)
    ensures IsMild(Started(Handle(config, meta, call).job, false, attempts))
  {
    HandleFacts(config, meta, call);
    ReadJobs(config, meta.sourceID, call);
    LowRiskIsMild(config, meta.sourceID, call);
  }

  lemma {:induction false} ReplyKeepsMild(trace: seq<Event>, meta: Meta, reply: Reply, attempts: seq<DriverCall>)
    requires UnconfirmedIsMild(trace)
    requires reply.Accepted? && !meta.confirm ==> IsMild(Started(reply.job, false, attempts))
    ensures UnconfirmedIsMild(trace + EventOf(meta, reply, attempts))
  {
  }

  lemma {:induction false} QuickStepIsMild<S>(config: Config, drivers: map<string, Driver<S>>, w: World<S>,
                                              request: ToolCall)
    requires SchemaTextIsDDL(config) && config.mode == QuickMode && UnconfirmedIsMild(w.trace)
    ensures UnconfirmedIsMild(Step(config, drivers, w, request).trace)
  {
    var reply := Handle(config, request.meta, request.call);
    var attempts := SentBy(drivers, w, reply);
    if reply.Accepted? && !request.meta.confirm {
      if !IsRead(reply.job) && attempts != [] {
        SentIsValid(drivers, w, reply);
      }
      QuickJobIsMild(config, request.meta, request.call, attempts);
    }
    ReplyKeepsMild(w.trace, request.meta, reply, attempts);
  }

  /** Over every run in quick mode: unconfirmed work is mild. */
  lemma {:induction false} QuickRunsAreMild<S>(config: Config, drivers: map<string, Driver<S>>, w: World<S>,
                                               requests: seq<ToolCall>)
    requires SchemaTextIsDDL(config) && config.mode == QuickMode && UnconfirmedIsMild(w.trace)
    ensures UnconfirmedIsMild(After(config, drivers, w, requests).trace)
    decreases |requests|
  {
    if requests == [] {
    } else {
      QuickStepIsMild(config, drivers, w, requests[0]);
      QuickRunsAreMild(config, drivers, Step(config, drivers, w, requests[0]), requests[1..]);
    }
  }

  /** Every statement that ever reached a source, in any honest run in quick mode: either it
      was shown before, or it is the one statement of mild work. */
  lemma {:induction false} QuickSentStatements<S>(config: Config, drivers: map<string, Driver<S>>,
                                                  connections: map<string, Connection<S>>,
                                                  requests: seq<ToolCall>, id: string, a: nat)
    returns (k: nat, i: nat)
    requires IsSoundHash(config.hash) && SchemaTextIsDDL(config) && config.mode == QuickMode
    requires HonestRun(config, drivers, World([], connections), requests)
    requires forall id <- connections :: connections[id].attempts == []
    requires var last := After(config, drivers, World([], connections), requests);
             id in last.connections && a < |last.connections[id].attempts|
    ensures var last := After(config, drivers, World([], connections), requests);
            var sent := last.connections[id].attempts[a];
            && k < |last.trace| && last.trace[k].Started? && last.trace[k].job.source.id == id
            && i < |last.trace[k].attempts| && last.trace[k].attempts[i] == sent && SendsBound(last.trace[k])
            && ((exists j :: 0 <= j < k && Showed(last.trace[j], sent, i)) ||
                (!last.trace[k].confirmed && IsMild(last.trace[k]) && i == 0))
  {
    k, i := SentStatementsWereShown(config, drivers, connections, requests, id, a);
    QuickRunsAreMild(config, drivers, World([], connections), requests);
  }
}
