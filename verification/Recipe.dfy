/** The credential-recipe interpreter: steps with gotos, extraction, and the minted value. */
module Recipe {
  import opened Common
  import opened Json
  import Text

  datatype StepKind = Oauth2Token | JwtSign | HttpExchange | HttpProbe

  datatype StatusAction = Goto(target: string) | Reauth | RetryLater

  /** One extraction of a step; at most one of the forms is read, in the order listed. */
  datatype Rule = Rule(
    relativeSeconds: Option<string>, epochSeconds: Option<string>, epochMillis: Option<string>,
    jwtExp: Option<string>, fixedWindow: bool, jwtClaim: Option<(string, string)>, pointer: Option<string>,
    optional: bool, mustEqualField: Option<string>)

  datatype Step = Step(
    id: string, kind: StepKind, required: seq<string>, onStatus: map<string, StatusAction>,
    extract: seq<(string, Rule)>)

  datatype Candidate = Output(name: string) | Field(field: string, validity: nat)

  datatype Request = Request(
    step: string, verb: string, url: string, headers: map<string, string>, body: Option<string>)

  datatype Response = Response(status: nat, body: Value)

  datatype Outcome =
    | UseStored
    | Configuration(field: Option<string>)
    | ReauthRequired(step: string, status: nat)
    | Transient(at: Option<string>, code: Option<nat>)

  /** What the interpreter asks of others: rendering and signing from the outputs so far, the
      responder, which may depend on every request made, and the readers of JSON and of tokens. */
  datatype World = World(
    render: (Step, map<string, Value>) -> Result<Request, Outcome>,
    sign: (Step, map<string, Value>) -> Result<string, Outcome>,
    respond: seq<Request> -> Option<Response>,
    pointer: (Value, string) -> Option<Value>,
    jwtPayload: string -> Option<Value>,
    text: Value -> string)

  datatype Recipe = Recipe(
    steps: seq<Step>, present: seq<Candidate>, useStored: bool,
    defaultSeconds: Option<nat>, fixedValidity: Option<nat>, minTtl: Option<nat>, maxTtl: Option<nat>)

  /** A recipe with everything that does not change while it runs. */
  datatype Job = Job(recipe: Recipe, fields: map<string, string>, now: int, world: World)

  /** What a run has produced: outputs keyed `step.name`, and the expiry each step's clock gave. */
  datatype Memory = Memory(outputs: map<string, Value>, clocks: map<string, int>)

  const I64_MAX: int := 0x7FFF_FFFF_FFFF_FFFF
  const I64_MIN: int := -0x8000_0000_0000_0000

  function Saturate(n: int): int {
    if n > I64_MAX then I64_MAX else if n < I64_MIN then I64_MIN else n
  }

  function AsI64(v: Value): Option<int> {
    if v.Int? && I64_MIN <= v.i <= I64_MAX then Some(v.i) else None
  }

  // ----- one status

  datatype Transition = Success | Jump(target: string) | NeedsReauth | TryLater

  predicate IsSuccess(status: nat) {
    200 <= status < 300
  }

  function Class(status: nat): Option<string> {
    if 400 <= status < 500 then Some("4xx") else if 500 <= status < 600 then Some("5xx") else None
  }

  function Lookup(m: map<string, StatusAction>, key: Option<string>): Option<StatusAction> {
    if key.Some? && key.value in m then Some(m[key.value]) else None
  }

  /** `transition`. */
  function TransitionOf(step: Step, status: nat): Transition {
    var exact := Lookup(step.onStatus, Some(Text.Decimal(status)));
    var declared := if exact.Some? then exact
                    else if IsSuccess(status) then None
                    else Lookup(step.onStatus, Class(status));
    match declared
    case Some(Goto(target)) => Jump(target)
    case Some(Reauth) => NeedsReauth
    case Some(RetryLater) => TryLater
    case None => if IsSuccess(status) then Success else if Class(status) == Some("4xx") then NeedsReauth else TryLater
  }

  function ActionOf(action: StatusAction): Transition {
    match action
    case Goto(target) => Jump(target)
    case Reauth => NeedsReauth
    case RetryLater => TryLater
  }

  /** The status's own entry decides; without one a 2xx passes, a 4xx or 5xx takes the entry of its
      class, and what is left asks for new credentials at 4xx and for a later try elsewhere. */
  lemma TransitionExact(step: Step, status: nat)
    ensures var own, declared := Text.Decimal(status), step.onStatus;
            && (own in declared ==> TransitionOf(step, status) == ActionOf(declared[own]))
            && (own !in declared && 200 <= status <= 299 ==> TransitionOf(step, status) == Success)
            && (own !in declared && 400 <= status <= 499 ==>
                  TransitionOf(step, status) == if "4xx" in declared then ActionOf(declared["4xx"]) else NeedsReauth)
            && (own !in declared && 500 <= status <= 599 ==>
                  TransitionOf(step, status) == if "5xx" in declared then ActionOf(declared["5xx"]) else TryLater)
            && (own !in declared && (status <= 199 || 300 <= status <= 399 || 600 <= status) ==>
                  TransitionOf(step, status) == TryLater)
  {
  }

  // ----- extraction

  /** What a clock form reads: no clock, or an expiry that may be missing. */
  datatype Clock = NoClock | Expiry(at: Option<int>)

  function IntegerAt(job: Job, body: Value, pointer: string): Option<int> {
    match job.world.pointer(body, pointer) case None => None case Some(v) => AsI64(v)
  }

  function After(job: Job, seconds: Option<int>): Option<int> {
    match seconds case None => None case Some(n) => Some(Saturate(job.now + n))
  }

  function JwtAt(job: Job, body: Value, pointer: string): Option<Value> {
    match job.world.pointer(body, pointer)
    case Some(Str(token)) => job.world.jwtPayload(token)
    case _ => None
  }

  function JwtExpiry(job: Job, body: Value, pointer: string): Option<int> {
    match JwtAt(job, body, pointer)
    case None => None
    case Some(payload) => match Get(payload, "exp") case None => None case Some(v) => AsI64(v)
  }

  /** `clock`. */
  function ClockOf(job: Job, rule: Rule, body: Value): Clock {
    if rule.relativeSeconds.Some? then Expiry(After(job, IntegerAt(job, body, rule.relativeSeconds.value)))
    else if rule.epochSeconds.Some? then Expiry(IntegerAt(job, body, rule.epochSeconds.value))
    else if rule.epochMillis.Some? then
      Expiry(match IntegerAt(job, body, rule.epochMillis.value) case None => None case Some(ms) => Some(ms / 1000))
    else if rule.jwtExp.Some? then Expiry(JwtExpiry(job, body, rule.jwtExp.value))
    else if rule.fixedWindow then
      Expiry(match job.recipe.fixedValidity case None => None case Some(n) => Some(Saturate(job.now + n)))
    else NoClock
  }

  function NonNull(v: Option<Value>): Option<Value> {
    if v == Some(Null) then None else v
  }

  /** The value a rule that is no clock reads. */
  function Plain(job: Job, rule: Rule, body: Value): Option<Value> {
    if rule.jwtClaim.Some? then
      match JwtAt(job, body, rule.jwtClaim.value.0)
      case None => None
      case Some(payload) => NonNull(job.world.pointer(payload, rule.jwtClaim.value.1))
    else if rule.pointer.Some? then NonNull(job.world.pointer(body, rule.pointer.value))
    else None
  }

  /** What one rule yields: nothing, a value, or a value that is also the step's clock. */
  datatype Yield = Nothing | Found(value: Value) | Clocked(expiry: int)

  function YieldOf(job: Job, step: Step, rule: Rule, response: Response): Result<Yield, Outcome> {
    var late := Transient(Some(step.id), Some(response.status));
    match ClockOf(job, rule, response.body)
    case Expiry(Some(at)) => Ok(Clocked(at))
    case Expiry(None) =>
      (match job.recipe.defaultSeconds
       case Some(seconds) => Ok(Clocked(Saturate(job.now + seconds)))
       case None => Err(late))
    case NoClock =>
      match Plain(job, rule, response.body)
      case Some(v) => Ok(Found(v))
      case None => if rule.optional then Ok(Nothing) else Err(late)
  }

  predicate Disagrees(job: Job, rule: Rule, value: Value) {
    && rule.mustEqualField.Some? && rule.mustEqualField.value in job.fields
    && job.world.text(value) != job.fields[rule.mustEqualField.value]
  }

  function ValueOf(y: Yield): Value {
    match y case Nothing => Null case Found(v) => v case Clocked(at) => Int(at)
  }

  function OutputName(step: Step, name: string): string {
    step.id + "." + name
  }

  /** One rule's effect. */
  function ExtractOne(job: Job, step: Step, response: Response, m: Memory, name: string, rule: Rule)
    : Result<Memory, Outcome>
  {
    match YieldOf(job, step, rule, response)
    case Err(e) => Err(e)
    case Ok(y) =>
      if y.Nothing? then Ok(m)
      else if Disagrees(job, rule, ValueOf(y)) then Err(ReauthRequired(step.id, response.status))
      else Ok(Memory(m.outputs[OutputName(step, name) := ValueOf(y)],
                     if y.Clocked? then m.clocks[step.id := y.expiry] else m.clocks))
  }

  /** The first `n` rules' effect. */
  function Extracted(job: Job, step: Step, response: Response, m: Memory, n: nat): Result<Memory, Outcome>
    requires n <= |step.extract|
  {
    if n == 0 then Ok(m)
    else match Extracted(job, step, response, m, n - 1)
      case Err(e) => Err(e)
      case Ok(m') => ExtractOne(job, step, response, m', step.extract[n - 1].0, step.extract[n - 1].1)
  }

  // ----- one step

  /** How an executed step ended: it passed to the next, jumped, or stopped the run. */
  datatype Ending = Passed | Jumped(status: nat, target: string) | Stopped(outcome: Outcome)

  /** One executed step: its position, the request it made, and how it ended. */
  datatype Entry = Entry(position: nat, request: Option<Request>, ending: Ending)

  datatype Turn = Turn(memory: Memory, entry: Entry)

  predicate HasId(steps: seq<Step>, target: string) {
    exists i :: 0 <= i < |steps| && steps[i].id == target
  }

  /** `position(|candidate| candidate.id == target)`. */
  function FirstWith(steps: seq<Step>, target: string): (p: nat)
    requires HasId(steps, target)
    ensures p < |steps| && steps[p].id == target && forall i :: 0 <= i < p ==> steps[i].id != target
  {
    if steps[0].id == target then 0
    else
      assert HasId(steps[1..], target) by {
        var i :| 0 <= i < |steps| && steps[i].id == target;
        assert steps[1..][i - 1].id == target;
      }
      1 + FirstWith(steps[1..], target)
  }

  function MissingField(job: Job, required: seq<string>): Option<string> {
    if required == [] then None
    else if required[0] !in job.fields then Some(required[0])
    else MissingField(job, required[1..])
  }

  /** What an answered exchange does. */
  function Answered(job: Job, m: Memory, position: nat, request: Request, response: Response): Turn
    requires position < |job.recipe.steps|
  {
    var step := job.recipe.steps[position];
    var done := (ending: Ending) => Entry(position, Some(request), ending);
    match TransitionOf(step, response.status)
    case Success =>
      (if step.kind.HttpProbe? then Turn(m, done(Passed))
       else match Extracted(job, step, response, m, |step.extract|)
         case Err(e) => Turn(m, done(Stopped(e)))
         case Ok(m') => Turn(m', done(Passed)))
    case Jump(target) =>
      if HasId(job.recipe.steps, target) && FirstWith(job.recipe.steps, target) > position
      then Turn(m, done(Jumped(response.status, target)))
      else Turn(m, done(Stopped(Configuration(None))))
    case NeedsReauth => Turn(m, done(Stopped(ReauthRequired(step.id, response.status))))
    case TryLater => Turn(m, done(Stopped(Transient(Some(step.id), Some(response.status)))))
  }

  /** The step at `position`, after `requests`. */
  function Execute(job: Job, m: Memory, requests: seq<Request>, position: nat): Turn
    requires position < |job.recipe.steps|
  {
    var step := job.recipe.steps[position];
    var quiet := (ending: Ending) => Entry(position, None, ending);
    match MissingField(job, step.required)
    case Some(missing) =>
      Turn(m, quiet(Stopped(if job.recipe.useStored then UseStored else Configuration(Some(missing)))))
    case None =>
      if step.kind.JwtSign? then
        match job.world.sign(step, m.outputs)
        case Err(e) => Turn(m, quiet(Stopped(e)))
        case Ok(jwt) => Turn(m.(outputs := m.outputs[OutputName(step, "jwt") := Str(jwt)]), quiet(Passed))
      else
        match job.world.render(step, m.outputs)
        case Err(e) => Turn(m, quiet(Stopped(e)))
        case Ok(request) =>
          match job.world.respond(requests + [request])
          case None => Turn(m, Entry(position, Some(request), Stopped(Transient(Some(step.id), None))))
          case Some(response) => Answered(job, m, position, request, response)
  }

  // ----- a run

  predicate IsTarget(steps: seq<Step>, id: string) {
    exists i :: 0 <= i < |steps| && Goto(id) in steps[i].onStatus.Values
  }

  /** A run so far: what it made and the steps it executed. */
  datatype Trail = Trail(memory: Memory, requests: seq<Request>, log: seq<Entry>)

  function SentBy(e: Entry): seq<Request> {
    if e.request.Some? then [e.request.value] else []
  }

  function Extend(t: Trail, turn: Turn): Trail {
    Trail(turn.memory, t.requests + SentBy(turn.entry), t.log + [turn.entry])
  }

  predicate FallsOut(job: Job, position: nat, byGoto: bool) {
    || position >= |job.recipe.steps|
    || (!byGoto && position > 0 && IsTarget(job.recipe.steps, job.recipe.steps[position].id))
  }

  /** `steps` from a position on. */
  function RunFrom(job: Job, t: Trail, position: nat, byGoto: bool): Trail
    decreases |job.recipe.steps| - position
  {
    if FallsOut(job, position, byGoto) then t
    else
      var turn := Execute(job, t.memory, t.requests, position);
      var t' := Extend(t, turn);
      match turn.entry.ending
      case Stopped(_) => t'
      case Passed => RunFrom(job, t', position + 1, false)
      case Jumped(_, target) =>
        if HasId(job.recipe.steps, target) && FirstWith(job.recipe.steps, target) > position
        then RunFrom(job, t', FirstWith(job.recipe.steps, target), true) else t'
  }

  function Run(job: Job): Trail {
    RunFrom(job, Trail(Memory(map[], map[]), [], []), 0, false)
  }

  function Sent(log: seq<Entry>): seq<Request> {
    if log == [] then [] else Sent(log[..|log| - 1]) + SentBy(log[|log| - 1])
  }

  /** Entry `b` may directly follow entry `a`. */
  ghost predicate Follows(job: Job, a: Entry, b: Entry)
    requires a.position < |job.recipe.steps| && b.position < |job.recipe.steps|
  {
    var steps := job.recipe.steps;
    && a.position < b.position
    && match a.ending
       case Stopped(_) => false
       case Passed => b.position == a.position + 1 && !IsTarget(steps, steps[b.position].id)
       case Jumped(status, target) =>
         && TransitionOf(steps[a.position], status) == Jump(target) && steps[b.position].id == target
         && forall i :: 0 <= i < b.position ==> steps[i].id != target
  }

  /** A log starts at the first step, and every later entry follows the one before it. */
  ghost predicate Legal(job: Job, log: seq<Entry>) {
    && (forall k :: 0 <= k < |log| ==> log[k].position < |job.recipe.steps|)
    && (log != [] ==> log[0].position == 0)
    && (forall k :: 0 < k < |log| ==> Follows(job, log[k - 1], log[k]))
  }

  /** Nothing can follow: the run stopped, fell off the end, or fell through to a goto target. */
  ghost predicate Maximal(job: Job, log: seq<Entry>) {
    if log == [] then job.recipe.steps == []
    else
      var last := log[|log| - 1];
      || last.ending.Stopped?
      || (last.ending.Passed?
          && (|| last.position + 1 >= |job.recipe.steps|
              || IsTarget(job.recipe.steps, job.recipe.steps[last.position + 1].id)))
  }

  /** The state the loop is in before it looks at `position`. */
  ghost predicate Arrives(job: Job, log: seq<Entry>, position: nat, byGoto: bool) {
    if log == [] then position == 0 && !byGoto
    else
      var last := log[|log| - 1];
      if byGoto then
        && last.ending.Jumped? && last.position < position < |job.recipe.steps| && last.position < |job.recipe.steps|
        && TransitionOf(job.recipe.steps[last.position], last.ending.status) == Jump(last.ending.target)
        && HasId(job.recipe.steps, last.ending.target)
        && FirstWith(job.recipe.steps, last.ending.target) == position
      else last.ending.Passed? && position == last.position + 1
  }

  lemma ExecuteEntry(job: Job, m: Memory, requests: seq<Request>, position: nat)
    requires position < |job.recipe.steps|
    ensures var e := Execute(job, m, requests, position).entry;
            && e.position == position
            && (e.ending.Jumped? ==>
                  && TransitionOf(job.recipe.steps[position], e.ending.status) == Jump(e.ending.target)
                  && HasId(job.recipe.steps, e.ending.target)
                  && FirstWith(job.recipe.steps, e.ending.target) > position)
  {
    hide TransitionOf, Extracted, MissingField, HasId, FirstWith;
  }

  lemma LegalSnoc(job: Job, log: seq<Entry>, e: Entry, byGoto: bool)
    requires Legal(job, log) && Arrives(job, log, e.position, byGoto) && !FallsOut(job, e.position, byGoto)
    ensures Legal(job, log + [e])
  {
    hide TransitionOf, IsTarget;
    var grown := log + [e];
    assert forall k :: 0 <= k < |log| ==> grown[k] == log[k];
    if log != [] {
      assert Follows(job, grown[|log| - 1], grown[|log|]);
    }
  }

  /** Every run from an arrival extends the log legally and ends where nothing can follow. */
  lemma {:induction false} RunLegal(job: Job, t: Trail, position: nat, byGoto: bool)
    requires Legal(job, t.log) && Arrives(job, t.log, position, byGoto) && t.requests == Sent(t.log)
    ensures var r := RunFrom(job, t, position, byGoto);
            Legal(job, r.log) && Maximal(job, r.log) && r.requests == Sent(r.log)
    decreases |job.recipe.steps| - position
  {
    hide Execute, TransitionOf, IsTarget, Legal, HasId;
    if !FallsOut(job, position, byGoto) {
      var turn := Execute(job, t.memory, t.requests, position);
      var t' := Extend(t, turn);
      ExecuteEntry(job, t.memory, t.requests, position);
      LegalSnoc(job, t.log, turn.entry, byGoto);
      assert t'.log[..|t'.log| - 1] == t.log;
      match turn.entry.ending {
        case Stopped(_) =>
        case Passed => RunLegal(job, t', position + 1, false);
        case Jumped(_, target) => RunLegal(job, t', FirstWith(job.recipe.steps, target), true);
      }
    }
  }

  /** Every run executes a legal, maximal chain of steps, and its requests are theirs in order. */
  lemma RunExact(job: Job)
    ensures Legal(job, Run(job).log) && Maximal(job, Run(job).log) && Run(job).requests == Sent(Run(job).log)
  {
    RunLegal(job, Trail(Memory(map[], map[]), [], []), 0, false);
  }

  lemma {:induction false} Increasing(job: Job, log: seq<Entry>, i: nat, j: nat)
    requires Legal(job, log) && i < j < |log|
    ensures log[i].position < log[j].position
  {
    assert Follows(job, log[j - 1], log[j]);
    hide Follows;
    if i < j - 1 {
      Increasing(job, log, i, j - 1);
    }
  }

  lemma {:induction false} SentBound(log: seq<Entry>)
    ensures |Sent(log)| <= |log|
  {
    if log != [] {
      SentBound(log[..|log| - 1]);
    }
  }

  lemma {:induction false} PositionBound(job: Job, log: seq<Entry>, k: nat)
    requires Legal(job, log) && k < |log|
    ensures k <= log[k].position
  {
    if k > 0 {
      Increasing(job, log, k - 1, k);
      PositionBound(job, log, k - 1);
    }
  }

  /** Executed positions strictly increase, so a run makes at most one request per step; a goto
      target other than the first step runs only directly after a step whose status named it. */
  lemma RunPositions(job: Job)
    ensures var log := Run(job).log;
            && (forall i, j :: 0 <= i < j < |log| ==> log[i].position < log[j].position)
            && |Run(job).requests| <= |log| <= |job.recipe.steps|
            && (forall k :: 0 <= k < |log| ==> log[k].position < |job.recipe.steps|)
            && forall k :: 0 < k < |log| && IsTarget(job.recipe.steps, job.recipe.steps[log[k].position].id) ==>
                 && log[k - 1].ending.Jumped?
                 && log[k - 1].ending.target == job.recipe.steps[log[k].position].id
                 && TransitionOf(job.recipe.steps[log[k - 1].position], log[k - 1].ending.status)
                    == Jump(job.recipe.steps[log[k].position].id)
  {
    hide Run, TransitionOf, IsTarget, Sent;
    RunExact(job);
    var log := Run(job).log;
    forall i, j | 0 <= i < j < |log|
      ensures log[i].position < log[j].position
    {
      Increasing(job, log, i, j);
    }
    SentBound(log);
    if log != [] {
      PositionBound(job, log, |log| - 1);
    }
    forall k | 0 < k < |log|
      ensures Follows(job, log[k - 1], log[k])
    {
    }
  }

  // ----- what a step extracts

  /** The rule reads something or may read nothing, and does not contradict a stored field. */
  predicate RuleFits(job: Job, step: Step, rule: Rule, response: Response) {
    var y := YieldOf(job, step, rule, response);
    y.Ok? && (y.value.Nothing? || !Disagrees(job, rule, ValueOf(y.value)))
  }

  predicate Produces(job: Job, step: Step, rule: Rule, response: Response) {
    var y := YieldOf(job, step, rule, response);
    y.Ok? && !y.value.Nothing?
  }

  lemma ExtractOneExact(job: Job, step: Step, response: Response, m: Memory, name: string, rule: Rule)
    ensures ExtractOne(job, step, response, m, name, rule).Ok? <==> RuleFits(job, step, rule, response)
    ensures RuleFits(job, step, rule, response) ==>
              ExtractOne(job, step, response, m, name, rule).value.outputs
              == if Produces(job, step, rule, response)
                 then m.outputs[OutputName(step, name) := ValueOf(YieldOf(job, step, rule, response).value)]
                 else m.outputs
  {
    hide YieldOf, Disagrees, OutputName;
  }

  /** Each of the first `n` rules that reads a value left it under its own name, and every other
      output is as before. */
  ghost predicate Leaves(job: Job, step: Step, response: Response, before: map<string, Value>,
                         outputs: map<string, Value>, n: nat)
    requires n <= |step.extract|
  {
    && (forall i :: 0 <= i < n && Produces(job, step, step.extract[i].1, response) ==>
          && OutputName(step, step.extract[i].0) in outputs
          && outputs[OutputName(step, step.extract[i].0)]
             == ValueOf(YieldOf(job, step, step.extract[i].1, response).value))
    && (forall key :: (forall i :: 0 <= i < n && Produces(job, step, step.extract[i].1, response) ==>
                         key != OutputName(step, step.extract[i].0)) ==>
          (key in outputs <==> key in before) && (key in outputs ==> outputs[key] == before[key]))
  }

  lemma LeavesNone(job: Job, step: Step, response: Response, outputs: map<string, Value>)
    ensures Leaves(job, step, response, outputs, outputs, 0)
  {
    hide YieldOf, OutputName, Produces;
  }

  lemma LeavesNext(job: Job, step: Step, response: Response, before: map<string, Value>,
                   outputs: map<string, Value>, n: nat)
    requires n < |step.extract| && Leaves(job, step, response, before, outputs, n)
    requires forall i :: 0 <= i < n ==> step.extract[i].0 != step.extract[n].0
    ensures var name, rule := step.extract[n].0, step.extract[n].1;
            Leaves(job, step, response, before,
                   if Produces(job, step, rule, response)
                   then outputs[OutputName(step, name) := ValueOf(YieldOf(job, step, rule, response).value)]
                   else outputs, n + 1)
  {
    hide YieldOf, OutputName, ValueOf;
    forall i | 0 <= i < n
      ensures OutputName(step, step.extract[i].0) != OutputName(step, step.extract[n].0)
    {
      NamesDiffer(step, step.extract[i].0, step.extract[n].0);
    }
  }

  lemma {:induction false} ExtractFits(job: Job, step: Step, response: Response, m: Memory, n: nat)
    requires n <= |step.extract|
    ensures Extracted(job, step, response, m, n).Ok?
       <==> forall i :: 0 <= i < n ==> RuleFits(job, step, step.extract[i].1, response)
  {
    hide RuleFits, ExtractOne;
    if n > 0 {
      ExtractFits(job, step, response, m, n - 1);
      if Extracted(job, step, response, m, n - 1).Ok? {
        var m' := Extracted(job, step, response, m, n - 1).value;
        ExtractOneExact(job, step, response, m', step.extract[n - 1].0, step.extract[n - 1].1);
      }
    }
  }

  predicate DistinctNames(step: Step) {
    forall i, j :: 0 <= i < j < |step.extract| ==> step.extract[i].0 != step.extract[j].0
  }

  lemma {:induction false} ExtractLeaves(job: Job, step: Step, response: Response, m: Memory, n: nat)
    requires n <= |step.extract| && DistinctNames(step) && Extracted(job, step, response, m, n).Ok?
    ensures Leaves(job, step, response, m.outputs, Extracted(job, step, response, m, n).value.outputs, n)
  {
    hide RuleFits, ExtractOne, OutputName, YieldOf, ValueOf, Produces, Leaves;
    if n == 0 {
      LeavesNone(job, step, response, m.outputs);
    } else {
      ExtractLeaves(job, step, response, m, n - 1);
      var m' := Extracted(job, step, response, m, n - 1).value;
      ExtractOneExact(job, step, response, m', step.extract[n - 1].0, step.extract[n - 1].1);
      LeavesNext(job, step, response, m.outputs, m'.outputs, n - 1);
    }
  }

  /** Extraction succeeds exactly when every rule fits; then each rule that reads a value leaves it
      under its own name, and every other output stays as it was. */
  lemma ExtractExact(job: Job, step: Step, response: Response, m: Memory, n: nat)
    requires n <= |step.extract| && DistinctNames(step)
    ensures Extracted(job, step, response, m, n).Ok?
       <==> forall i :: 0 <= i < n ==> RuleFits(job, step, step.extract[i].1, response)
    ensures Extracted(job, step, response, m, n).Ok? ==>
              Leaves(job, step, response, m.outputs, Extracted(job, step, response, m, n).value.outputs, n)
  {
    hide Extracted, RuleFits, Leaves;
    ExtractFits(job, step, response, m, n);
    if Extracted(job, step, response, m, n).Ok? {
      ExtractLeaves(job, step, response, m, n);
    }
  }

  predicate Clocks(job: Job, step: Step, rule: Rule, response: Response) {
    var y := YieldOf(job, step, rule, response);
    y.Ok? && y.value.Clocked?
  }

  lemma ExtractOneClocks(job: Job, step: Step, response: Response, m: Memory, name: string, rule: Rule)
    requires ExtractOne(job, step, response, m, name, rule).Ok?
    ensures ExtractOne(job, step, response, m, name, rule).value.clocks
         == if Clocks(job, step, rule, response)
            then m.clocks[step.id := YieldOf(job, step, rule, response).value.expiry] else m.clocks
  {
    hide YieldOf, Disagrees, OutputName;
  }

  /** The position of the last of the first `n` rules that reads a clock. */
  ghost predicate LastClock(job: Job, step: Step, response: Response, n: nat, i: nat)
    requires n <= |step.extract|
  {
    && i < n && Clocks(job, step, step.extract[i].1, response)
    && forall j :: i < j < n ==> !Clocks(job, step, step.extract[j].1, response)
  }

  /** The step's clock ends with the expiry of its last rule that reads one; without such a rule no
      clock changes, and the clocks of other steps never do. */
  lemma {:induction false} ExtractClocks(job: Job, step: Step, response: Response, m: Memory, n: nat)
    requires n <= |step.extract| && Extracted(job, step, response, m, n).Ok?
    ensures (forall i :: 0 <= i < n ==> !Clocks(job, step, step.extract[i].1, response)) ==>
              Extracted(job, step, response, m, n).value.clocks == m.clocks
    ensures forall i: nat :: LastClock(job, step, response, n, i) ==>
              Extracted(job, step, response, m, n).value.clocks
              == m.clocks[step.id := YieldOf(job, step, step.extract[i].1, response).value.expiry]
  {
    if n > 0 {
      ExtractClocks(job, step, response, m, n - 1);
      var before := Extracted(job, step, response, m, n - 1).value;
      ExtractOneClocks(job, step, response, before, step.extract[n - 1].0, step.extract[n - 1].1);
      hide YieldOf, ExtractOne;
      forall i: nat | LastClock(job, step, response, n, i)
        ensures Extracted(job, step, response, m, n).value.clocks
             == m.clocks[step.id := YieldOf(job, step, step.extract[i].1, response).value.expiry]
      {
        if i < n - 1 {
          assert LastClock(job, step, response, n - 1, i);
        } else {
          ClockOver(job, step, response, m, n - 1, YieldOf(job, step, step.extract[i].1, response).value.expiry);
        }
      }
    }
  }

  /** Whatever earlier rules read, only the step's own clock may differ. */
  lemma {:induction false} ClockOver(job: Job, step: Step, response: Response, m: Memory, n: nat, expiry: int)
    requires n <= |step.extract| && Extracted(job, step, response, m, n).Ok?
    ensures Extracted(job, step, response, m, n).value.clocks[step.id := expiry] == m.clocks[step.id := expiry]
  {
    hide YieldOf, Disagrees, OutputName;
    if n > 0 {
      ClockOver(job, step, response, m, n - 1, expiry);
      var before := Extracted(job, step, response, m, n - 1).value;
      ExtractOneClocks(job, step, response, before, step.extract[n - 1].0, step.extract[n - 1].1);
      hide ExtractOne;
      assert Extracted(job, step, response, m, n).value.clocks[step.id := expiry] == before.clocks[step.id := expiry];
    }
  }

  lemma NamesDiffer(step: Step, a: string, b: string)
    requires a != b
    ensures OutputName(step, a) != OutputName(step, b)
  {
    assert OutputName(step, a)[|step.id| + 1..] == a;
    assert OutputName(step, b)[|step.id| + 1..] == b;
  }

  // ----- where outputs come from

  /** Rule `i` of the step reads `value` for the output `key` from a response. */
  predicate ReadBy(job: Job, step: Step, response: Response, i: nat, key: string, value: Value) {
    && i < |step.extract| && key == OutputName(step, step.extract[i].0)
    && Produces(job, step, step.extract[i].1, response)
    && value == ValueOf(YieldOf(job, step, step.extract[i].1, response).value)
  }

  /** The step signs `value` for the output `key`, from the outputs before it. */
  predicate SignedBy(job: Job, step: Step, outputs: map<string, Value>, key: string, value: Value) {
    key == OutputName(step, "jwt") && value.Str? && job.world.sign(step, outputs) == Ok(value.s)
  }

  /** What a passed step makes of its outputs: a signed token, or what one of its rules read from the
      response to the last of the requests made. */
  ghost predicate Makes(job: Job, step: Step, requests: seq<Request>, key: string, value: Value) {
    if step.kind.JwtSign? then exists outputs :: SignedBy(job, step, outputs, key, value)
    else job.world.respond(requests).Some?
         && exists i: nat :: ReadBy(job, step, job.world.respond(requests).value, i, key, value)
  }

  /** What a passed step makes of its clock: the expiry its last clock rule read. */
  ghost predicate Times(job: Job, step: Step, requests: seq<Request>, at: int) {
    && job.world.respond(requests).Some?
    && exists i: nat :: TimedBy(job, step, job.world.respond(requests).value, i, at)
  }

  ghost predicate TimedBy(job: Job, step: Step, response: Response, i: nat, at: int) {
    && LastClock(job, step, response, |step.extract|, i)
    && at == YieldOf(job, step, step.extract[i].1, response).value.expiry
  }

  /** Entry `k` is a step that passed, and it made the output. */
  ghost predicate MadeAt(job: Job, log: seq<Entry>, k: nat, key: string, value: Value) {
    && k < |log| && log[k].ending.Passed? && log[k].position < |job.recipe.steps|
    && Makes(job, job.recipe.steps[log[k].position], Sent(log[..k + 1]), key, value)
  }

  /** Entry `k` is a step that passed, and it set the clock of its id. */
  ghost predicate TimedAt(job: Job, log: seq<Entry>, k: nat, id: string, at: int) {
    && k < |log| && log[k].ending.Passed? && log[k].position < |job.recipe.steps|
    && job.recipe.steps[log[k].position].id == id
    && Times(job, job.recipe.steps[log[k].position], Sent(log[..k + 1]), at)
  }

  ghost predicate Made(job: Job, log: seq<Entry>, key: string, value: Value) {
    exists k: nat :: MadeAt(job, log, k, key, value)
  }

  ghost predicate Timed(job: Job, log: seq<Entry>, id: string, at: int) {
    exists k: nat :: TimedAt(job, log, k, id, at)
  }

  /** Every output was made, and every clock set, by a step of the log that passed. */
  ghost predicate AllMade(job: Job, t: Trail) {
    && t.requests == Sent(t.log)
    && (forall key :: key in t.memory.outputs ==> Made(job, t.log, key, t.memory.outputs[key]))
    && (forall id :: id in t.memory.clocks ==> Timed(job, t.log, id, t.memory.clocks[id]))
  }

  lemma ExtractOneMade(job: Job, step: Step, response: Response, m: Memory, i: nat, key: string)
    requires i < |step.extract|
    requires ExtractOne(job, step, response, m, step.extract[i].0, step.extract[i].1).Ok?
    ensures var outputs := ExtractOne(job, step, response, m, step.extract[i].0, step.extract[i].1).value.outputs;
            key in outputs ==>
              (key in m.outputs && outputs[key] == m.outputs[key]) || ReadBy(job, step, response, i, key, outputs[key])
  {
    hide YieldOf, Disagrees, OutputName;
  }

  lemma {:induction false} ExtractedMade(job: Job, step: Step, response: Response, m: Memory, n: nat, key: string)
    requires n <= |step.extract| && Extracted(job, step, response, m, n).Ok?
    requires key in Extracted(job, step, response, m, n).value.outputs
    ensures var value := Extracted(job, step, response, m, n).value.outputs[key];
            || (key in m.outputs && value == m.outputs[key])
            || exists i: nat :: ReadBy(job, step, response, i, key, value)
  {
    hide ReadBy;
    if n > 0 {
      var before := Extracted(job, step, response, m, n - 1).value;
      ExtractOneMade(job, step, response, before, n - 1, key);
      hide ExtractOne;
      if key in before.outputs {
        ExtractedMade(job, step, response, m, n - 1, key);
      }
    }
  }

  lemma {:induction false} LastClockOr(job: Job, step: Step, response: Response, n: nat) returns (i: nat)
    requires n <= |step.extract|
    ensures || LastClock(job, step, response, n, i)
            || forall j :: 0 <= j < n ==> !Clocks(job, step, step.extract[j].1, response)
  {
    hide Clocks;
    i := 0;
    if n > 0 {
      if Clocks(job, step, step.extract[n - 1].1, response) {
        i := n - 1;
      } else {
        i := LastClockOr(job, step, response, n - 1);
      }
    }
  }

  lemma ExtractedTimed(job: Job, step: Step, response: Response, m: Memory, id: string)
    requires Extracted(job, step, response, m, |step.extract|).Ok?
    requires id in Extracted(job, step, response, m, |step.extract|).value.clocks
    ensures var at := Extracted(job, step, response, m, |step.extract|).value.clocks[id];
            || (id in m.clocks && at == m.clocks[id])
            || (id == step.id && exists i: nat :: TimedBy(job, step, response, i, at))
  {
    hide Extracted, Clocks, YieldOf;
    ExtractClocks(job, step, response, m, |step.extract|);
    var i := LastClockOr(job, step, response, |step.extract|);
    if LastClock(job, step, response, |step.extract|, i) && id == step.id {
      assert TimedBy(job, step, response, i, Extracted(job, step, response, m, |step.extract|).value.clocks[id]);
    }
  }

  /** What an answered step leaves: what was there, or what it made. */
  lemma AnsweredMade(job: Job, m: Memory, requests: seq<Request>, position: nat, request: Request)
    requires position < |job.recipe.steps| && !job.recipe.steps[position].kind.JwtSign?
    requires job.world.respond(requests).Some?
    ensures var step := job.recipe.steps[position];
            var turn := Answered(job, m, position, request, job.world.respond(requests).value);
            && (forall key :: key in turn.memory.outputs ==>
                  || (key in m.outputs && turn.memory.outputs[key] == m.outputs[key])
                  || (turn.entry.ending.Passed? && Makes(job, step, requests, key, turn.memory.outputs[key])))
            && (forall id :: id in turn.memory.clocks ==>
                  || (id in m.clocks && turn.memory.clocks[id] == m.clocks[id])
                  || (turn.entry.ending.Passed? && id == step.id && Times(job, step, requests, turn.memory.clocks[id])))
  {
    hide TransitionOf, Extracted, HasId, FirstWith, ReadBy, TimedBy;
    var step, response := job.recipe.steps[position], job.world.respond(requests).value;
    var read := Extracted(job, step, response, m, |step.extract|);
    if read.Ok? {
      forall key | key in read.value.outputs
        ensures || (key in m.outputs && read.value.outputs[key] == m.outputs[key])
                || exists i: nat :: ReadBy(job, step, response, i, key, read.value.outputs[key])
      {
        ExtractedMade(job, step, response, m, |step.extract|, key);
      }
      forall id | id in read.value.clocks
        ensures || (id in m.clocks && read.value.clocks[id] == m.clocks[id])
                || (id == step.id && exists i: nat :: TimedBy(job, step, response, i, read.value.clocks[id]))
      {
        ExtractedTimed(job, step, response, m, id);
      }
    }
  }

  lemma ExecuteMade(job: Job, m: Memory, requests: seq<Request>, position: nat)
    requires position < |job.recipe.steps|
    ensures var step := job.recipe.steps[position];
            var turn := Execute(job, m, requests, position);
            && (forall key :: key in turn.memory.outputs ==>
                  || (key in m.outputs && turn.memory.outputs[key] == m.outputs[key])
                  || (turn.entry.ending.Passed?
                      && Makes(job, step, requests + SentBy(turn.entry), key, turn.memory.outputs[key])))
            && (forall id :: id in turn.memory.clocks ==>
                  || (id in m.clocks && turn.memory.clocks[id] == m.clocks[id])
                  || (turn.entry.ending.Passed? && id == step.id
                      && Times(job, step, requests + SentBy(turn.entry), turn.memory.clocks[id])))
  {
    hide MissingField, Answered, ReadBy, Times;
    var at := job.recipe.steps[position];
    if at.kind.JwtSign? {
      var jwt := job.world.sign(at, m.outputs);
      if jwt.Ok? {
        assert SignedBy(job, at, m.outputs, OutputName(at, "jwt"), Str(jwt.value));
      }
    } else if job.world.render(at, m.outputs).Ok? {
      var request := job.world.render(at, m.outputs).value;
      var all := requests + [request];
      if job.world.respond(all).Some? {
        AnsweredMade(job, m, all, position, request);
        AnsweredSends(job, m, position, request, job.world.respond(all).value);
      }
    }
  }

  lemma AnsweredSends(job: Job, m: Memory, position: nat, request: Request, response: Response)
    requires position < |job.recipe.steps|
    ensures Answered(job, m, position, request, response).entry.request == Some(request)
  {
    hide TransitionOf, Extracted, HasId, FirstWith;
  }

  lemma {:induction false} MadeGrows(job: Job, log: seq<Entry>, e: Entry)
    ensures forall key, value :: Made(job, log, key, value) ==> Made(job, log + [e], key, value)
    ensures forall id, at :: Timed(job, log, id, at) ==> Timed(job, log + [e], id, at)
  {
    hide Makes, Times;
    var grown := log + [e];
    assert forall k :: 0 <= k < |log| ==> grown[k] == log[k] && grown[..k + 1] == log[..k + 1];
    forall key, value | Made(job, log, key, value)
      ensures Made(job, grown, key, value)
    {
      var k: nat :| MadeAt(job, log, k, key, value);
      assert MadeAt(job, grown, k, key, value);
    }
    forall id, at | Timed(job, log, id, at)
      ensures Timed(job, grown, id, at)
    {
      var k: nat :| TimedAt(job, log, k, id, at);
      assert TimedAt(job, grown, k, id, at);
    }
  }

  lemma ExtendMade(job: Job, t: Trail, position: nat)
    requires position < |job.recipe.steps| && AllMade(job, t)
    ensures AllMade(job, Extend(t, Execute(job, t.memory, t.requests, position)))
  {
    var turn := Execute(job, t.memory, t.requests, position);
    var t', n := Extend(t, turn), |t.log|;
    ExecuteEntry(job, t.memory, t.requests, position);
    ExecuteMade(job, t.memory, t.requests, position);
    MadeGrows(job, t.log, turn.entry);
    hide Execute, HasId, FirstWith, TransitionOf, Makes, Times, Made, Timed;
    assert t'.log[n] == turn.entry && t'.log[..n + 1] == t'.log && t'.log[..|t'.log| - 1] == t.log;
    forall key | key in t'.memory.outputs
      ensures Made(job, t'.log, key, t'.memory.outputs[key])
    {
      if Makes(job, job.recipe.steps[position], t'.requests, key, t'.memory.outputs[key]) && turn.entry.ending.Passed? {
        MadeLast(job, t'.log, key, t'.memory.outputs[key]);
      }
    }
    forall id | id in t'.memory.clocks
      ensures Timed(job, t'.log, id, t'.memory.clocks[id])
    {
      if id == job.recipe.steps[position].id && turn.entry.ending.Passed?
         && Times(job, job.recipe.steps[position], t'.requests, t'.memory.clocks[id]) {
        TimedLast(job, t'.log, id, t'.memory.clocks[id]);
      }
    }
  }

  lemma MadeLast(job: Job, log: seq<Entry>, key: string, value: Value)
    requires log != [] && log[|log| - 1].ending.Passed? && log[|log| - 1].position < |job.recipe.steps|
    requires Makes(job, job.recipe.steps[log[|log| - 1].position], Sent(log), key, value)
    ensures Made(job, log, key, value)
  {
    hide Makes;
    assert log[..|log| - 1 + 1] == log;
    assert MadeAt(job, log, |log| - 1, key, value);
  }

  lemma TimedLast(job: Job, log: seq<Entry>, id: string, at: int)
    requires log != [] && log[|log| - 1].ending.Passed? && log[|log| - 1].position < |job.recipe.steps|
    requires id == job.recipe.steps[log[|log| - 1].position].id
    requires Times(job, job.recipe.steps[log[|log| - 1].position], Sent(log), at)
    ensures Timed(job, log, id, at)
  {
    hide Times;
    assert log[..|log| - 1 + 1] == log;
    assert TimedAt(job, log, |log| - 1, id, at);
  }

  /** Every output of a run is what a passed step signed or read, and every clock what one timed. */
  lemma {:induction false} RunMade(job: Job, t: Trail, position: nat, byGoto: bool)
    requires AllMade(job, t)
    ensures AllMade(job, RunFrom(job, t, position, byGoto))
    decreases |job.recipe.steps| - position
  {
    hide Execute, Extend, AllMade, HasId, FirstWith;
    if !FallsOut(job, position, byGoto) {
      ExtendMade(job, t, position);
      var turn := Execute(job, t.memory, t.requests, position);
      var t' := Extend(t, turn);
      match turn.entry.ending {
        case Stopped(_) =>
        case Passed => RunMade(job, t', position + 1, false);
        case Jumped(_, target) =>
          if HasId(job.recipe.steps, target) && FirstWith(job.recipe.steps, target) > position {
            RunMade(job, t', FirstWith(job.recipe.steps, target), true);
          }
      }
    }
  }

  // ----- the minted value

  function StepOf(output: string): string {
    match Text.SplitOnce(output, '.') case None => output case Some((step, _)) => step
  }

  /** What a candidate presents, and the expiry it has when there is one to give. */
  function Offer(job: Job, m: Memory, c: Candidate): Option<(string, Option<int>)> {
    match c
    case Output(name) =>
      if name in m.outputs && m.outputs[name].Str? && m.outputs[name].s != "" then
        var clock := StepOf(name);
        Some((m.outputs[name].s,
              if clock in m.clocks then Some(m.clocks[clock])
              else match job.recipe.defaultSeconds
                case None => None
                case Some(seconds) => Some(Saturate(job.now + seconds))))
      else None
    case Field(field, validity) =>
      if field in job.fields then Some((job.fields[field], Some(Saturate(job.now + validity)))) else None
  }

  function FirstOutput(candidates: seq<Candidate>): Option<string> {
    if candidates == [] then None
    else if candidates[0].Output? then Some(StepOf(candidates[0].name))
    else FirstOutput(candidates[1..])
  }

  /** The loop of `presented` from candidate `i` on. */
  function PresentedFrom(job: Job, m: Memory, i: nat): Result<(string, int), Outcome>
    requires i <= |job.recipe.present|
    decreases |job.recipe.present| - i
  {
    if i == |job.recipe.present| then Err(Transient(FirstOutput(job.recipe.present), None))
    else match Offer(job, m, job.recipe.present[i])
      case None => PresentedFrom(job, m, i + 1)
      case Some((value, Some(expiry))) => Ok((value, expiry))
      case Some((_, None)) =>
        Err(Transient(match job.recipe.present[i] case Output(name) => Some(StepOf(name)) case _ => None, None))
  }

  function Presented(job: Job, m: Memory): Result<(string, int), Outcome> {
    if job.recipe.present == [] then Err(Configuration(None)) else PresentedFrom(job, m, 0)
  }

  const HOST_MIN_TTL: nat := 60
  const HOST_MAX_TTL: nat := 24 * 60 * 60

  function Clamp(n: int, low: int, high: int): int {
    if n < low then low else if n > high then high else n
  }

  function Floor(recipe: Recipe): int {
    Max(if recipe.minTtl.Some? then recipe.minTtl.value else HOST_MIN_TTL, HOST_MIN_TTL)
  }

  function Ceiling(recipe: Recipe): int {
    var most := if recipe.maxTtl.Some? && recipe.maxTtl.value < HOST_MAX_TTL then recipe.maxTtl.value else HOST_MAX_TTL;
    Max(most, Floor(recipe))
  }

  function Ttl(job: Job, expiry: int): int {
    Clamp(Saturate(expiry - job.now), Floor(job.recipe), Ceiling(job.recipe))
  }

  datatype Minted = Minted(present: string, expiresAt: int)

  /** `mint`, once the fields are resolved and the recipe is chosen. */
  function Mint(job: Job): Result<Minted, Outcome> {
    var t := Run(job);
    if t.log != [] && t.log[|t.log| - 1].ending.Stopped? then Err(t.log[|t.log| - 1].ending.outcome)
    else match Presented(job, t.memory)
      case Err(e) => Err(e)
      case Ok((present, expiry)) => Ok(Minted(present, Saturate(job.now + Ttl(job, expiry))))
  }

  /** A minted value lives at least the host's minimum, and at most its maximum exactly when the
      recipe's own minimum does not exceed that maximum; a life within the bounds is kept. */
  lemma TtlExact(job: Job, expiry: int)
    ensures HOST_MIN_TTL <= Ttl(job, expiry)
    ensures Ttl(job, expiry) <= HOST_MAX_TTL
       <==> job.recipe.minTtl.None? || job.recipe.minTtl.value <= HOST_MAX_TTL
    ensures job.recipe.minTtl.Some? ==> job.recipe.minTtl.value <= Ttl(job, expiry)
    ensures job.recipe.maxTtl.Some? && Floor(job.recipe) <= job.recipe.maxTtl.value ==>
              Ttl(job, expiry) <= job.recipe.maxTtl.value
    ensures I64_MIN <= expiry - job.now <= I64_MAX && Floor(job.recipe) <= expiry - job.now <= Ceiling(job.recipe) ==>
              Ttl(job, expiry) == expiry - job.now
  {
  }

  /** The bounds the manifest check lets through: each within the host's range, and in order. */
  predicate ManifestBounds(recipe: Recipe) {
    && (recipe.minTtl.Some? ==> HOST_MIN_TTL <= recipe.minTtl.value <= HOST_MAX_TTL)
    && (recipe.maxTtl.Some? ==> HOST_MIN_TTL <= recipe.maxTtl.value <= HOST_MAX_TTL)
    && (recipe.minTtl.Some? && recipe.maxTtl.Some? ==> recipe.minTtl.value <= recipe.maxTtl.value)
  }

  /** With bounds the manifest check lets through, every minted value expires within the host's range
      and within the recipe's own bounds, the time saturating at its last second. */
  lemma MintedLife(job: Job)
    requires ManifestBounds(job.recipe) && Mint(job).Ok?
    ensures var at := Mint(job).value.expiresAt;
            && Saturate(job.now + HOST_MIN_TTL) <= at <= Saturate(job.now + HOST_MAX_TTL)
            && (job.recipe.minTtl.Some? ==> Saturate(job.now + job.recipe.minTtl.value) <= at)
            && (job.recipe.maxTtl.Some? ==> at <= Saturate(job.now + job.recipe.maxTtl.value))
  {
    hide Run, Presented;
    var expiry := Presented(job, Run(job).memory).value.1;
    TtlExact(job, expiry);
    hide Ttl;
  }

  /** A recipe whose own minimum is past the host's maximum widens the host's range. */
  lemma MinimumWidens(job: Job)
    requires job.recipe.minTtl == Some(100_000)
    ensures Ttl(job, job.now) == 100_000 > HOST_MAX_TTL
  {
  }

  lemma {:induction false} PresentedMeans(job: Job, m: Memory, i: nat) returns (j: nat)
    requires i <= |job.recipe.present| && PresentedFrom(job, m, i).Ok?
    ensures i <= j < |job.recipe.present| && (forall k :: i <= k < j ==> Offer(job, m, job.recipe.present[k]).None?)
    ensures var (value, expiry) := PresentedFrom(job, m, i).value;
            Offer(job, m, job.recipe.present[j]) == Some((value, Some(expiry)))
    decreases |job.recipe.present| - i
  {
    hide Offer;
    if Offer(job, m, job.recipe.present[i]).None? {
      j := PresentedMeans(job, m, i + 1);
    } else {
      j := i;
    }
  }

  lemma StepOfOwner(id: string, name: string)
    requires id + "." <= name
    ensures StepOf(name) == id <==> '.' !in id
  {
    assert name[|id|] == '.' && '.' in name;
    var (step, rest) := Text.SplitOnce(name, '.').value;
    assert name[|step|] == '.';
    assert forall i :: 0 <= i < |id| ==> name[i] == id[i];
    assert forall i :: 0 <= i < |step| ==> name[i] == step[i];
    if '.' !in id {
      assert |step| == |id|;
    }
  }

  /** The presented output was made by a step that passed, whose clock is the one read exactly when
      its id holds no dot; and the clock read, if there is one, was set by a step that passed. */
  ghost predicate Presents(job: Job, t: Trail, name: string, value: string) {
    && (exists k: nat :: PresentedBy(job, t.log, k, name, value))
    && (StepOf(name) in t.memory.clocks ==> Timed(job, t.log, StepOf(name), t.memory.clocks[StepOf(name)]))
  }

  ghost predicate PresentedBy(job: Job, log: seq<Entry>, k: nat, name: string, value: string) {
    && MadeAt(job, log, k, name, Str(value))
    && (StepOf(name) == job.recipe.steps[log[k].position].id <==> '.' !in job.recipe.steps[log[k].position].id)
  }

  lemma MadeIsPresented(job: Job, log: seq<Entry>, k: nat, name: string, value: string)
    requires MadeAt(job, log, k, name, Str(value))
    ensures PresentedBy(job, log, k, name, value)
  {
    hide YieldOf, Produces, StepOf, Sent;
    StepOfOwner(job.recipe.steps[log[k].position].id, name);
  }

  /** A minted value is the first candidate on offer after a run that nothing stopped. An output it
      presents is what a passed step signed or read, and its expiry comes from the clock of the step
      the output's name spells, or from the default. */
  lemma MintSound(job: Job) returns (j: nat)
    requires Mint(job).Ok?
    ensures j < |job.recipe.present|
    ensures var t := Run(job);
            && (forall k :: 0 <= k < |t.log| ==> !t.log[k].ending.Stopped?)
            && (forall k :: 0 <= k < j ==> Offer(job, t.memory, job.recipe.present[k]).None?)
            && Offer(job, t.memory, job.recipe.present[j]).Some?
            && Offer(job, t.memory, job.recipe.present[j]).value.1.Some?
            && Mint(job).value.present == Offer(job, t.memory, job.recipe.present[j]).value.0
            && Mint(job).value.expiresAt
               == Saturate(job.now + Ttl(job, Offer(job, t.memory, job.recipe.present[j]).value.1.value))
    ensures job.recipe.present[j].Output? ==>
              Presents(job, Run(job), job.recipe.present[j].name, Mint(job).value.present)
  {
    hide StepOf, Ttl, Saturate, RunFrom, MadeAt, Timed;
    var t := Run(job);
    j := PresentedMeans(job, t.memory, 0);
    NothingStops(job);
    RunMade(job, Trail(Memory(map[], map[]), [], []), 0, false);
    if job.recipe.present[j].Output? {
      var name := job.recipe.present[j].name;
      assert Made(job, t.log, name, t.memory.outputs[name]);
      var k: nat :| MadeAt(job, t.log, k, name, t.memory.outputs[name]);
      MadeIsPresented(job, t.log, k, name, Mint(job).value.present);
    }
  }

  lemma NothingStops(job: Job)
    requires Run(job).log != [] ==> !Run(job).log[|Run(job).log| - 1].ending.Stopped?
    ensures forall k :: 0 <= k < |Run(job).log| ==> !Run(job).log[k].ending.Stopped?
  {
    hide Run, TransitionOf, IsTarget;
    RunExact(job);
    var log := Run(job).log;
    forall k | 0 <= k < |log|
      ensures !log[k].ending.Stopped?
    {
      if k < |log| - 1 {
        assert Follows(job, log[k + 1 - 1], log[k + 1]);
      }
    }
  }

  // ----- the mutable run

  lemma {:induction false} ExtractedFails(job: Job, step: Step, response: Response, m: Memory, n: nat)
    requires n <= |step.extract| && Extracted(job, step, response, m, n).Err?
    ensures Extracted(job, step, response, m, |step.extract|) == Extracted(job, step, response, m, n)
    decreases |step.extract| - n
  {
    hide ExtractOne;
    if n < |step.extract| {
      ExtractedFails(job, step, response, m, n + 1);
    }
  }

  /** `Run`: the outputs and clocks a recipe fills in as its steps run. */
  class Runner {
    const job: Job
    var outputs: map<string, Value>
    var clocks: map<string, int>

    function Now(): Memory
      reads this
    {
      Memory(outputs, clocks)
    }

    constructor (job: Job)
      ensures this.job == job && Now() == Memory(map[], map[])
    {
      this.job := job;
      outputs, clocks := map[], map[];
    }

    method Extract(step: Step, response: Response) returns (stop: Option<Outcome>)
      modifies this
      ensures match Extracted(job, step, response, old(Now()), |step.extract|)
              case Err(e) => stop == Some(e)
              case Ok(m) => stop.None? && Now() == m
    {
      hide YieldOf, Disagrees, OutputName, ValueOf;
      for n := 0 to |step.extract|
        invariant Extracted(job, step, response, old(Now()), n) == Ok(Now())
      {
        var (name, rule) := step.extract[n];
        var read := YieldOf(job, step, rule, response);
        if read.Err? {
          ExtractedFails(job, step, response, old(Now()), n + 1);
          return Some(read.error);
        }
        if read.value.Nothing? {
          continue;
        }
        if Disagrees(job, rule, ValueOf(read.value)) {
          ExtractedFails(job, step, response, old(Now()), n + 1);
          return Some(ReauthRequired(step.id, response.status));
        }
        if read.value.Clocked? {
          clocks := clocks[step.id := read.value.expiry];
        }
        outputs := outputs[OutputName(step, name) := ValueOf(read.value)];
      }
      return None;
    }

    /** One turn of the loop: the step at `position`. */
    method ExecuteStep(position: nat, requests: seq<Request>) returns (entry: Entry)
      requires position < |job.recipe.steps|
      modifies this
      ensures var turn := Execute(job, old(Now()), requests, position);
              entry == turn.entry && (!entry.ending.Stopped? ==> Now() == turn.memory)
    {
      hide TransitionOf, MissingField, HasId, FirstWith, OutputName, Extracted;
      var step := job.recipe.steps[position];
      var missing := MissingField(job, step.required);
      if missing.Some? {
        return Entry(position, None, Stopped(if job.recipe.useStored then UseStored else Configuration(missing)));
      }
      if step.kind.JwtSign? {
        var jwt := job.world.sign(step, outputs);
        if jwt.Err? {
          return Entry(position, None, Stopped(jwt.error));
        }
        outputs := outputs[OutputName(step, "jwt") := Str(jwt.value)];
        return Entry(position, None, Passed);
      }
      var request := job.world.render(step, outputs);
      if request.Err? {
        return Entry(position, None, Stopped(request.error));
      }
      var response := job.world.respond(requests + [request.value]);
      if response.None? {
        return Entry(position, Some(request.value), Stopped(Transient(Some(step.id), None)));
      }
      entry := Entry(position, Some(request.value), Passed);
      match TransitionOf(step, response.value.status) {
        case Success =>
          if !step.kind.HttpProbe? {
            var stop := Extract(step, response.value);
            if stop.Some? {
              entry := entry.(ending := Stopped(stop.value));
            }
          }
        case Jump(target) =>
          if HasId(job.recipe.steps, target) && FirstWith(job.recipe.steps, target) > position {
            entry := entry.(ending := Jumped(response.value.status, target));
          } else {
            entry := entry.(ending := Stopped(Configuration(None)));
          }
        case NeedsReauth => entry := entry.(ending := Stopped(ReauthRequired(step.id, response.value.status)));
        case TryLater => entry := entry.(ending := Stopped(Transient(Some(step.id), Some(response.value.status))));
      }
    }

    /** `steps`: the loop over the steps, with its position and its way of entry. */
    method Steps() returns (requests: seq<Request>, log: seq<Entry>)
      requires Now() == Memory(map[], map[])
      modifies this
      ensures requests == Run(job).requests && log == Run(job).log
      ensures log == [] || !log[|log| - 1].ending.Stopped? ==> Now() == Run(job).memory
    {
      requests, log := [], [];
      var index: nat, byGoto := 0, false;
      hide Execute, IsTarget, HasId;
      ghost var start := Trail(Now(), [], []);
      while !FallsOut(job, index, byGoto)
        invariant log == [] || !log[|log| - 1].ending.Stopped?
        invariant RunFrom(job, start, 0, false) == RunFrom(job, Trail(Now(), requests, log), index, byGoto)
        decreases |job.recipe.steps| - index
      {
        ExecuteEntry(job, Now(), requests, index);
        ghost var before := Trail(Now(), requests, log);
        var entry := ExecuteStep(index, requests);
        requests := requests + SentBy(entry);
        log := log + [entry];
        match entry.ending {
          case Stopped(_) =>
            assert RunFrom(job, before, index, byGoto)
                == Extend(before, Execute(job, before.memory, before.requests, index));
            return;
          case Passed => index, byGoto := index + 1, false;
          case Jumped(_, target) => index, byGoto := FirstWith(job.recipe.steps, target), true;
        }
      }
    }
  }
}
