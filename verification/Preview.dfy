/** internal/execution/preview.go and policy.go: the confirmation artifact of an intent,
    and the decision it takes part in. The hash is a parameter. */
module Preview {
  import opened Text
  import opened Json
  import opened JsonReader
  import opened SqlPlan

  datatype Mode = QuickMode | StrictMode | UnknownMode

  datatype Intent = Intent(sourceID: string, tool: string, parameters: Parameters, atomic: bool, plan: Plan)

  datatype Confirmation = Confirmation(confirm: bool, previewHash: string)

  /** The artifact shown to the caller. */
  datatype Artifact = Artifact(sql: seq<string>, risk: Risk, atomic: bool, previewHash: string)

  datatype PreviewError = NoStatements | EmptyStatement | MissingSource | MissingTool | InvalidMode

  datatype DecisionState = ExecuteNow | PreviewRequired | PreviewMismatch

  type Hash = string -> string

  /** Everything the hash binds. */
  datatype Envelope = Envelope(
    sourceID: string,
    tool: string,
    sql: seq<string>,
    parameters: seq<Value>,
    risk: Risk,
    atomic: bool)

  // ---------- the encoded envelope ----------

  function RiskText(risk: Risk): string {
    if risk == LowRisk then "low" else "high"
  }

  function Strings(texts: seq<string>): seq<Value> {
    seq(|texts|, i requires 0 <= i < |texts| => Str(texts[i]))
  }

  function AtomicText(e: Envelope): string {
    "\"atomic\":" + (Encode(Bool(e.atomic)) + "}")
  }

  function FlagsText(e: Envelope): string {
    "\"risk\":" + (Encode(Str(RiskText(e.risk))) + ("," + AtomicText(e)))
  }

  function ParametersText(e: Envelope): string {
    "\"parameters\":" + (Encode(Arr(e.parameters)) + ("," + FlagsText(e)))
  }

  function ListsText(e: Envelope): string {
    "\"sql\":" + (Encode(Arr(Strings(e.sql))) + ("," + ParametersText(e)))
  }

  function ToolText(e: Envelope): string {
    "\"tool\":" + (Encode(Str(e.tool)) + ("," + ListsText(e)))
  }

  /** The encoded struct, its fields in their order. */
  function EnvelopeText(e: Envelope): string {
    "{" + ("\"source_id\":" + (Encode(Str(e.sourceID)) + ("," + ToolText(e))))
  }

  predicate IsNameCharacter(c: char) {
    'a' <= c <= 'z' || c == '_'
  }

  /** A name without escapes stands for itself in quotes. */
  lemma {:induction false} PlainName(s: string)
    requires forall i :: 0 <= i < |s| ==> IsNameCharacter(s[i])
    ensures Characters(s) == s + "\""
  {
    if s == "" {
    } else {
      PlainName(s[1..]);
      assert IsNameCharacter(s[0]) && Escape(s[0]) == [s[0]];
    }
  }

  /** `prefix` is how the field `name` begins. */
  predicate IsPrefix(name: string, prefix: string) {
    |prefix| == |name| + 3 && prefix == "\"" + name + "\":" && forall i :: 0 <= i < |name| ==> IsNameCharacter(name[i])
  }

  lemma {:induction false} PrefixText(name: string, prefix: string, x: string)
    requires IsPrefix(name, prefix)
    ensures Literal(name) + (":" + x) == prefix + x
  {
    PlainName(name);
    assert Literal(name) + ":" == prefix;
    ConcatAssoc(Literal(name), ":", x);
  }

  lemma {:induction false} ReadNamed(name: string, prefix: string, value: Value, rest: string)
    requires IsPrefix(name, prefix) && rest != "" && NoDigit(rest)
    ensures var s := prefix + (Encode(value) + rest);
            && (rest[0] == '}' ==> ReadFields(s) == Some(([(name, value)], rest[1..])))
            && (rest[0] == ',' && ReadFields(rest[1..]).Some? ==>
                  var (fields, x) := ReadFields(rest[1..]).value;
                  ReadFields(s) == Some(([(name, value)] + fields, x)))
  {
    var text := Encode(value) + rest;
    PrefixText(name, prefix, text);
    ValueIsRead(value, rest);
    ReadField(name, text, value, rest);
  }

  lemma {:induction false} OpeningBrace(x: string)
    ensures "{" + x != "" && ("{" + x)[0] == '{' && ("{" + x)[1..] == x
  {
  }

  lemma {:induction false} AfterComma(x: string)
    ensures ("," + x)[0] == ',' && ("," + x)[1..] == x && NoDigit("," + x)
  {
  }

  /** The last field. */
  lemma {:induction false} ReadLast(name: string, prefix: string, value: Value)
    requires IsPrefix(name, prefix)
    ensures ReadFields(prefix + (Encode(value) + "}")) == Some(([(name, value)], ""))
  {
    ReadNamed(name, prefix, value, "}");
  }

  /** A field before others. */
  lemma {:induction false} ReadNext(name: string, prefix: string, value: Value, rest: string,
                                    fields: seq<(string, Value)>)
    requires IsPrefix(name, prefix) && ReadFields(rest) == Some((fields, ""))
    ensures ReadFields(prefix + (Encode(value) + ("," + rest))) == Some(([(name, value)] + fields, ""))
  {
    AfterComma(rest);
    ReadNamed(name, prefix, value, "," + rest);
  }

  function AtomicFields(e: Envelope): seq<(string, Value)> {
    [("atomic", Bool(e.atomic))]
  }

  function FlagFields(e: Envelope): seq<(string, Value)> {
    [("risk", Str(RiskText(e.risk)))] + AtomicFields(e)
  }

  function ParameterFields(e: Envelope): seq<(string, Value)> {
    [("parameters", Arr(e.parameters))] + FlagFields(e)
  }

  function ListFields(e: Envelope): seq<(string, Value)> {
    [("sql", Arr(Strings(e.sql)))] + ParameterFields(e)
  }

  function ToolFields(e: Envelope): seq<(string, Value)> {
    [("tool", Str(e.tool))] + ListFields(e)
  }

  lemma {:induction false} ReadFlags(e: Envelope)
    ensures ReadFields(FlagsText(e)) == Some((FlagFields(e), ""))
  {
    ReadLast("atomic", "\"atomic\":", Bool(e.atomic));
    ReadNext("risk", "\"risk\":", Str(RiskText(e.risk)), AtomicText(e), AtomicFields(e));
  }

  lemma {:induction false} ParametersPrefix()
    ensures IsPrefix("parameters", "\"parameters\":")
  {
  }

  lemma {:induction false} SourcePrefix()
    ensures IsPrefix("source_id", "\"source_id\":")
  {
  }

  lemma {:induction false} ReadParameters(e: Envelope)
    ensures ReadFields(ParametersText(e)) == Some((ParameterFields(e), ""))
  {
    ReadFlags(e);
    ParametersPrefix();
    ReadNext("parameters", "\"parameters\":", Arr(e.parameters), FlagsText(e), FlagFields(e));
  }

  lemma {:induction false} ReadLists(e: Envelope)
    ensures ReadFields(ListsText(e)) == Some((ListFields(e), ""))
  {
    ReadParameters(e);
    ReadNext("sql", "\"sql\":", Arr(Strings(e.sql)), ParametersText(e), ParameterFields(e));
  }

  lemma {:induction false} ReadTool(e: Envelope)
    ensures ReadFields(ToolText(e)) == Some((ToolFields(e), ""))
  {
    ReadLists(e);
    ReadNext("tool", "\"tool\":", Str(e.tool), ListsText(e), ListFields(e));
  }

  lemma {:induction false} ReadSource(e: Envelope)
    ensures ReadFields("\"source_id\":" + (Encode(Str(e.sourceID)) + ("," + ToolText(e)))) ==
            Some(([("source_id", Str(e.sourceID))] + ToolFields(e), ""))
  {
    ReadTool(e);
    SourcePrefix();
    ReadNext("source_id", "\"source_id\":", Str(e.sourceID), ToolText(e), ToolFields(e));
  }

  lemma {:induction false} ReadEnvelope(e: Envelope)
    ensures EnvelopeText(e) != "" && EnvelopeText(e)[0] == '{'
    ensures ReadFields(EnvelopeText(e)[1..]) == Some(([("source_id", Str(e.sourceID))] + ToolFields(e), ""))
  {
    var text := "\"source_id\":" + (Encode(Str(e.sourceID)) + ("," + ToolText(e)));
    ReadSource(e);
    OpeningBrace(text);
  }

  /** The hashed text, read as JSON: six fields in this order, each showing what it is named for. */
  lemma {:induction false} EnvelopeIsRead(e: Envelope)
    ensures EnvelopeText(e) != "" && ReadFields(EnvelopeText(e)[1..]).Some?
    ensures var fields := ReadFields(EnvelopeText(e)[1..]).value.0;
            && |fields| == 6
            && fields[0] == ("source_id", Str(e.sourceID))
            && fields[1] == ("tool", Str(e.tool))
            && fields[2].0 == "sql" && fields[2].1.Arr? && |fields[2].1.items| == |e.sql|
            && (forall i :: 0 <= i < |e.sql| ==> fields[2].1.items[i] == Str(e.sql[i]))
            && fields[3] == ("parameters", Arr(e.parameters))
            && fields[4] == ("risk", Str(match e.risk case LowRisk => "low" case HighRisk => "high"))
            && fields[5] == ("atomic", Bool(e.atomic))
  {
    ReadEnvelope(e);
  }

  /** Equal bytes force equal source, tool, statement list, parameters, risk and atomicity. */
  lemma {:induction false} EnvelopeInjective(a: Envelope, b: Envelope)
    requires EnvelopeText(a) == EnvelopeText(b)
    ensures a == b
  {
    EnvelopeIsRead(a);
    EnvelopeIsRead(b);
    assert a.sql == b.sql;
    assert |RiskText(LowRisk)| != |RiskText(HighRisk)|;
  }

  // ---------- previews ----------

  /** `strings.TrimSpace` of every normalized statement. */
  function CanonicalSQL(plan: Plan): seq<string> {
    seq(|plan.statements|, i requires 0 <= i < |plan.statements| => TrimSpace(plan.statements[i].facts.normalizedSQL))
  }

  function CanonicalPlanSQL(plan: Plan): Result<seq<string>, PreviewError> {
    if plan.statements == [] then Failure(NoStatements)
    else if "" in CanonicalSQL(plan) then Failure(EmptyStatement)
    else Success(CanonicalSQL(plan))
  }

  method CollectCanonicalSQL(plan: Plan) returns (r: Result<seq<string>, PreviewError>)
    ensures r == CanonicalPlanSQL(plan)
  {
    if |plan.statements| == 0 {
      return Failure(NoStatements);
    }
    var canonical := seq(|plan.statements|, _ => "");
    for i := 0 to |plan.statements|
      invariant |canonical| == |plan.statements|
      invariant forall k :: 0 <= k < i ==> canonical[k] == CanonicalSQL(plan)[k] && canonical[k] != ""
    {
      var normalized := TrimSpace(plan.statements[i].facts.normalizedSQL);
      if normalized == "" {
        assert CanonicalSQL(plan)[i] == "";
        return Failure(EmptyStatement);
      }
      canonical := canonical[i := normalized];
    }
    assert canonical == CanonicalSQL(plan);
    return Success(canonical);
  }

  function EnvelopeOf(intent: Intent): Envelope {
    Envelope(intent.sourceID, intent.tool, CanonicalSQL(intent.plan), ParameterList(intent.parameters),
             RiskForAtomicBatches(intent.plan, intent.atomic), intent.atomic)
  }

  function BuildPreview(hash: Hash, intent: Intent): Result<Artifact, PreviewError> {
    var sql :- CanonicalPlanSQL(intent.plan);
    if TrimSpace(intent.sourceID) == "" then Failure(MissingSource)
    else if TrimSpace(intent.tool) == "" then Failure(MissingTool)
    else
      var e := EnvelopeOf(intent);
      Success(Artifact(sql, e.risk, intent.atomic, hash(EnvelopeText(e))))
  }

  function DecidePreview(mode: Mode, artifact: Artifact, confirmation: Confirmation): DecisionState {
    var requiresConfirmation := artifact.risk == HighRisk || (mode == StrictMode && |artifact.sql| > 0);
    if confirmation.confirm then
      if confirmation.previewHash == "" || confirmation.previewHash != artifact.previewHash then PreviewMismatch
      else ExecuteNow
    else if requiresConfirmation then PreviewRequired
    else ExecuteNow
  }

  function Authorize(hash: Hash, mode: Mode, intent: Intent, confirmation: Confirmation)
    : Result<(DecisionState, Artifact), PreviewError>
  {
    if mode == UnknownMode then Failure(InvalidMode)
    else
      var artifact :- BuildPreview(hash, intent);
      Success((DecidePreview(mode, artifact, confirmation), artifact))
  }

  /** The hash as the protocol relies on it: no collisions, and never the empty text. */
  ghost predicate IsSoundHash(hash: Hash) {
    && (forall x, y :: hash(x) == hash(y) ==> x == y)
    && (forall x :: hash(x) != "")
  }

  /** Two intents get the same hash exactly when every bound field is the same: parameter
      lists up to nil or empty, statements up to surrounding white space. */
  lemma {:induction false} HashBindsIntent(hash: Hash, a: Intent, b: Intent)
    requires IsSoundHash(hash)
    ensures BuildPreview(hash, a).Success? && BuildPreview(hash, b).Success? ==>
              (BuildPreview(hash, a).value.previewHash == BuildPreview(hash, b).value.previewHash <==>
                 && a.sourceID == b.sourceID && a.tool == b.tool && a.atomic == b.atomic
                 && CanonicalSQL(a.plan) == CanonicalSQL(b.plan)
                 && ParameterList(a.parameters) == ParameterList(b.parameters)
                 && RiskForAtomicBatches(a.plan, a.atomic) == RiskForAtomicBatches(b.plan, b.atomic))
  {
    if BuildPreview(hash, a).Success? && BuildPreview(hash, b).Success? &&
       BuildPreview(hash, a).value.previewHash == BuildPreview(hash, b).value.previewHash {
      EnvelopeInjective(EnvelopeOf(a), EnvelopeOf(b));
    }
  }
}
