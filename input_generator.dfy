/**
 * ChallengeInputOperations (crud.py): the per-(challenge, squad) input is
 * fetched if it exists and otherwise generated once by the challenge's
 * generator script and stored. Running the script and parsing its output as
 * JSON are given as oracles: the model does not interpret Python.
 */
module InputGenerator {
  import opened Wrappers
  import opened Text
  import opened ChallengeModel

  /**
   * What json.loads made of the script's stripped output: an object, whose
   * members are given as the str() rendering of each value, or any other JSON value.
   */
  datatype JsonValue = JsonObject(members: map<string, string>) | JsonOther

  /** Runs a script and gives its captured standard output, or None when the script raised. */
  type ScriptRunner = string -> Option<string>
  /** json.loads: None stands for JSONDecodeError. */
  type JsonParser = string -> Option<JsonValue>

  /** The ScriptExecutionError cases of _execute_script. */
  datatype ScriptError = ScriptRaised | NotJson | NotAnObject | MissingKeys

  /** Why get_or_create_input failed; both are re-raised as DatabaseOperationError after a rollback. */
  datatype InputError = NoScript | GenerationFailed(cause: ScriptError)

  type InputKey = (ChallengeId, SquadId)

  /** The stripped standard output satisfies the generator contract. */
  predicate OutputHonoursContract(out: string, parse: JsonParser) {
    var j := parse(Strip(out));
    j.Some? && j.value.JsonObject? && "input" in j.value.members && "result" in j.value.members
  }

  /**
   * _execute_script: the script must print one JSON object holding both
   * "input" and "result"; any other outcome is a ScriptExecutionError.
   */
  function ExecuteScript(script: string, run: ScriptRunner, parse: JsonParser): (r: Result<(string, string), ScriptError>)
    ensures r.Ok? <==> run(script).Some? && OutputHonoursContract(run(script).value, parse)
    ensures r.Ok? ==> var m := parse(Strip(run(script).value)).value.members;
      r.value == (m["input"], m["result"])
    ensures r == Err(ScriptRaised) <==> run(script).None?
    ensures r == Err(NotJson) <==> run(script).Some? && parse(Strip(run(script).value)).None?
  {
    match run(script)
    case None => Err(ScriptRaised)
    case Some(out) =>
      match parse(Strip(out))
      case None => Err(NotJson)
      case Some(JsonOther) => Err(NotAnObject)
      case Some(JsonObject(m)) =>
        if "input" !in m || "result" !in m then Err(MissingKeys)
        else Ok((m["input"], m["result"]))
  }

  /**
   * _execute_script as a sequence of steps: run, strip the captured output,
   * parse it, then check that it is an object holding both keys.
   */
  method RunScript(script: string, run: ScriptRunner, parse: JsonParser)
    returns (r: Result<(string, string), ScriptError>)
    ensures r == ExecuteScript(script, run, parse)
  {
    var out := run(script);
    if out.None? {
      return Err(ScriptRaised);
    }
    var parsed := parse(Strip(out.value));
    if parsed.None? {
      return Err(NotJson);
    }
    if !parsed.value.JsonObject? {
      return Err(NotAnObject);
    }
    var members := parsed.value.members;
    if "input" !in members || "result" !in members {
      return Err(MissingKeys);
    }
    r := Ok((members["input"], members["result"]));
  }

  /** `if not script`: None and the empty string both count as missing. */
  predicate HasScript(script: Option<string>) {
    script.Some? && script.value != ""
  }

  /** Whether this call executes the generator: no stored row and a script to run. */
  predicate RunsGenerator(inputs: map<InputKey, ChallengeInput>, key: InputKey, script: Option<string>) {
    key !in inputs && HasScript(script)
  }

  /**
   * get_or_create_input on the table of inputs: the answer and the new table.
   * A stored row is returned unchanged; otherwise the script's pair is stored
   * with the creation time `now`; every failure leaves the table as it was.
   */
  function GetOrCreate(inputs: map<InputKey, ChallengeInput>, key: InputKey, script: Option<string>,
                       run: ScriptRunner, parse: JsonParser, now: int)
    : (r: (Result<(string, string), InputError>, map<InputKey, ChallengeInput>))
    ensures key in inputs ==> r == (Ok((inputs[key].inputData, inputs[key].resultData)), inputs)
    ensures key !in inputs && !HasScript(script) ==> r == (Err(NoScript), inputs)
    ensures r.0.Err? ==> r.1 == inputs
    ensures r.0.Ok? ==> key in r.1 && r.0.value == (r.1[key].inputData, r.1[key].resultData)
    ensures r.1.Keys == inputs.Keys || (r.0.Ok? && r.1.Keys == inputs.Keys + {key})
    ensures forall k :: k in inputs ==> k in r.1 && r.1[k] == inputs[k]
    ensures RunsGenerator(inputs, key, script) ==>
      (r.0.Ok? <==> ExecuteScript(script.value, run, parse).Ok?)
  {
    if key in inputs then
      (Ok((inputs[key].inputData, inputs[key].resultData)), inputs)
    else if !HasScript(script) then
      (Err(NoScript), inputs)
    else
      match ExecuteScript(script.value, run, parse)
      case Err(e) => (Err(GenerationFailed(e)), inputs)
      case Ok(pair) => (Ok(pair), inputs[key := ChallengeInput(pair.0, pair.1, now)])
  }

  /**
   * Idempotence: after a successful call, any later call for the same pair,
   * with any script, runner, parser or clock, returns the same pair, leaves
   * the table alone and does not run a generator.
   */
  lemma GetOrCreateIdempotent(inputs: map<InputKey, ChallengeInput>, key: InputKey,
                              script: Option<string>, run: ScriptRunner, parse: JsonParser, now: int,
                              script2: Option<string>, run2: ScriptRunner, parse2: JsonParser, later: int)
    requires GetOrCreate(inputs, key, script, run, parse, now).0.Ok?
    ensures var (r1, t1) := GetOrCreate(inputs, key, script, run, parse, now);
      && !RunsGenerator(t1, key, script2)
      && GetOrCreate(t1, key, script2, run2, parse2, later) == (r1, t1)
  {
  }

  /** A stored input is frozen: no call, for any pair, ever changes it (the scoring origin stays fixed). */
  lemma StoredInputFrozen(inputs: map<InputKey, ChallengeInput>, key: InputKey, other: InputKey,
                          script: Option<string>, run: ScriptRunner, parse: JsonParser, now: int)
    requires other in inputs
    ensures GetOrCreate(inputs, key, script, run, parse, now).1[other] == inputs[other]
  {
  }

  /** A fresh pair stores exactly the script's output, stamped with the creation time. */
  lemma GeneratedRowIsScriptOutput(inputs: map<InputKey, ChallengeInput>, key: InputKey,
                                   script: Option<string>, run: ScriptRunner, parse: JsonParser, now: int)
    requires RunsGenerator(inputs, key, script)
    requires ExecuteScript(script.value, run, parse).Ok?
    ensures var (r, t) := GetOrCreate(inputs, key, script, run, parse, now);
      var pair := ExecuteScript(script.value, run, parse).value;
      r == Ok(pair) && t == inputs[key := ChallengeInput(pair.0, pair.1, now)]
  {
  }
}
