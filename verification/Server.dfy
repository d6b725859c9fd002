/** The server as it runs: handlers that decide on a request and, when it is accepted,
    execute its plan on the database of its source. It takes the steps of `ServiceTheory`. */
module Server {
  import opened Text
  import opened Execution
  import opened Service
  import opened ServiceTheory

  class Server<S> {
    const config: Config
    const databases: map<string, Database<S>>
    ghost var trace: seq<Event>

    constructor (config: Config, databases: map<string, Database<S>>)
      ensures this.config == config && this.databases == databases && trace == []
    {
      this.config := config;
      this.databases := databases;
      trace := [];
    }

    ghost predicate Valid()
      reads this, databases.Values
    {
      && (forall id <- databases :: databases[id].transaction == None)
      && (forall a, b :: a in databases && b in databases && a != b ==> databases[a] != databases[b])
    }

    ghost function Drivers(): map<string, Driver<S>> {
      map id <- databases :: databases[id].driver
    }

    ghost function ConnectionOf(id: string): Connection<S>
      requires id in databases
      reads databases.Values
    {
      Connection(databases[id].durable, databases[id].calls, databases[id].attempts)
    }

    ghost function Connections(): map<string, Connection<S>>
      reads databases.Values
    {
      map id <- databases :: ConnectionOf(id)
    }

    ghost function State(): World<S>
      reads this, databases.Values
    {
      World(trace, Connections())
    }

    /** What executing a job on its source's database does. */
    ghost function OutcomeOf(job: Job): Outcome<S>
      requires job.source.id in databases
      reads databases.Values
    {
      JobOutcome(databases[job.source.id].driver, ConnectionOf(job.source.id), job)
    }

    /** Executes accepted work on its source's database and leaves the others alone. */
    method Execute(job: Job) returns (result: ExecuteResult, error: Option<ExecuteError>)
      requires Valid() && job.source.id in databases
      modifies databases.Values
      ensures Valid()
      ensures var outcome := old(OutcomeOf(job));
              && result == outcome.result && error == outcome.error
              && Connections() ==
                 old(Connections())[job.source.id := ConnectionAfter(old(ConnectionOf(job.source.id)), outcome)]
    {
      var database := databases[job.source.id];
      ghost var before, outcome := ConnectionOf(job.source.id), OutcomeOf(job);
      assert forall id <- databases :: id != job.source.id ==> databases[id] != database;
      if IsRead(job) {
        result := ExecuteResult([], false);
        error := database.Query(job.source.connected, job.plan.statements[0].facts.normalizedSQL, job.parameters);
      } else {
        result, error := database.ExecutePlan(job.source.connected, job.source.atomicBatches, job.plan, job.parameters);
      }
      assert ConnectionOf(job.source.id) == ConnectionAfter(before, outcome);
      assert forall id <- databases :: id != job.source.id ==> ConnectionOf(id) == old(ConnectionOf(id));
    }

    /** The step of the protocol for accepted work, from the state before it. */
    lemma {:induction false} AdvanceExecutes(drivers: map<string, Driver<S>>, w: World<S>, request: ToolCall,
                                             reply: Reply)
      requires Executes(drivers, w, reply)
      ensures var id := reply.job.source.id;
              var outcome := JobOutcome(drivers[id], w.connections[id], reply.job);
              Advance(drivers, w, request, reply) ==
              World(w.trace + EventOf(request.meta, reply, outcome.attempts),
                    w.connections[id := ConnectionAfter(w.connections[id], outcome)])
    {
    }

    /** What a caller gets of an execution: its result, unless it is a read or failed. */
    function Answered(job: Job, result: ExecuteResult, error: Option<ExecuteError>): Option<ExecuteResult> {
      if error == None && !IsRead(job) then Some(result) else None
    }

    /** Records a reply and executes it when it was accepted. */
    method Perform(request: ToolCall, reply: Reply) returns (result: Option<ExecuteResult>, error: Option<ExecuteError>)
      requires Valid()
      modifies this, databases.Values
      ensures Valid()
      ensures State() == Advance(Drivers(), old(State()), request, reply)
      ensures if reply.Accepted? && reply.job.source.id in databases then
                var outcome := old(OutcomeOf(reply.job));
                error == outcome.error && result == Answered(reply.job, outcome.result, outcome.error)
              else result == None && error == None
    {
      result, error := None, None;
      if reply.Accepted? && reply.job.source.id in databases {
        ghost var outcome := OutcomeOf(reply.job);
        AdvanceExecutes(Drivers(), State(), request, reply);
        var executed;
        executed, error := Execute(reply.job);
        result := Answered(reply.job, executed, error);
        trace := trace + EventOf(request.meta, reply, outcome.attempts);
      } else {
        trace := trace + EventOf(request.meta, reply, []);
      }
    }

    /** One tool call: the state takes the step of the protocol. On an error the caller gets
        no result, so not even those of the statements that succeeded. */
    method Serve(meta: Meta, call: Call)
      returns (reply: Reply, result: Option<ExecuteResult>, error: Option<ExecuteError>)
      requires Valid()
      modifies this, databases.Values
      ensures Valid()
      ensures reply == Handle(config, meta, call)
      ensures State() == Step(config, Drivers(), old(State()), ToolCall(meta, call))
      ensures if reply.Accepted? && reply.job.source.id in databases then
                var outcome := old(OutcomeOf(reply.job));
                error == outcome.error &&
                result == (if outcome.error == None && !call.Query? then Some(outcome.result) else None)
              else result == None && error == None
    {
      reply := HandleCall(config, meta, call);
      if reply.Accepted? {
        HandleFacts(config, meta, call);
        ReadJobs(config, meta.sourceID, call);
      }
      result, error := Perform(ToolCall(meta, call), reply);
    }
  }
}
