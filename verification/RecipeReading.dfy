/** What the rules of a recipe read from a response, and why a step stops a run. */
module RecipeReading {
  import opened Common
  import opened Json
  import opened Recipe
  import Text

  // ----- clocks

  /** `at` is `n` seconds from now, kept within the range of times. */
  predicate IsLater(job: Job, n: int, at: int) {
    var sum := job.now + n;
    at == if sum > I64_MAX then I64_MAX else if sum < I64_MIN then I64_MIN else sum
  }

  predicate IntegerIs(job: Job, body: Value, pointer: string, n: int) {
    job.world.pointer(body, pointer) == Some(Int(n)) && I64_MIN <= n <= I64_MAX
  }

  /** The token at a pointer carries `payload`. */
  predicate TokenIs(job: Job, body: Value, pointer: string, payload: Value) {
    var v := job.world.pointer(body, pointer);
    v.Some? && v.value.Str? && job.world.jwtPayload(v.value.s) == Some(payload)
  }

  predicate IsClock(rule: Rule) {
    || rule.relativeSeconds.Some? || rule.epochSeconds.Some? || rule.epochMillis.Some?
    || rule.jwtExp.Some? || rule.fixedWindow
  }

  predicate MillisAre(job: Job, body: Value, pointer: string, ms: int, at: int) {
    IntegerIs(job, body, pointer, ms) && at * 1000 <= ms < at * 1000 + 1000
  }

  predicate SecondsAre(job: Job, body: Value, pointer: string, n: int, at: int) {
    IntegerIs(job, body, pointer, n) && IsLater(job, n, at)
  }

  predicate ExpiryIs(job: Job, body: Value, pointer: string, payload: Value, at: int) {
    TokenIs(job, body, pointer, payload) && Get(payload, "exp") == Some(Int(at)) && I64_MIN <= at <= I64_MAX
  }

  /** The first clock form of the rule reads the time `at`. */
  ghost predicate ReadsTime(job: Job, rule: Rule, body: Value, at: int) {
    if rule.relativeSeconds.Some? then exists n :: SecondsAre(job, body, rule.relativeSeconds.value, n, at)
    else if rule.epochSeconds.Some? then IntegerIs(job, body, rule.epochSeconds.value, at)
    else if rule.epochMillis.Some? then exists ms :: MillisAre(job, body, rule.epochMillis.value, ms, at)
    else if rule.jwtExp.Some? then exists payload :: ExpiryIs(job, body, rule.jwtExp.value, payload, at)
    else rule.fixedWindow && job.recipe.fixedValidity.Some? && IsLater(job, job.recipe.fixedValidity.value, at)
  }

  lemma IntegerExact(job: Job, body: Value, pointer: string, n: int)
    ensures IntegerAt(job, body, pointer) == Some(n) <==> IntegerIs(job, body, pointer, n)
  {
  }

  lemma SecondsExact(job: Job, body: Value, pointer: string, at: int)
    ensures After(job, IntegerAt(job, body, pointer)) == Some(at)
       <==> exists n :: SecondsAre(job, body, pointer, n, at)
  {
    var read := IntegerAt(job, body, pointer);
    if read.Some? {
      IntegerExact(job, body, pointer, read.value);
      assert After(job, read) == Some(at) ==> SecondsAre(job, body, pointer, read.value, at);
    }
    if exists n :: SecondsAre(job, body, pointer, n, at) {
      var n :| SecondsAre(job, body, pointer, n, at);
      IntegerExact(job, body, pointer, n);
    }
  }

  function Thousandth(ms: Option<int>): Option<int> {
    match ms case None => None case Some(n) => Some(n / 1000)
  }

  lemma MillisExact(job: Job, body: Value, pointer: string, at: int)
    ensures Thousandth(IntegerAt(job, body, pointer)) == Some(at)
       <==> exists ms :: MillisAre(job, body, pointer, ms, at)
  {
    var read := IntegerAt(job, body, pointer);
    if read.Some? {
      IntegerExact(job, body, pointer, read.value);
      assert read.value / 1000 == at ==> MillisAre(job, body, pointer, read.value, at);
    }
    if exists ms :: MillisAre(job, body, pointer, ms, at) {
      var ms :| MillisAre(job, body, pointer, ms, at);
      IntegerExact(job, body, pointer, ms);
    }
  }

  lemma TokenExact(job: Job, body: Value, pointer: string, payload: Value)
    ensures JwtAt(job, body, pointer) == Some(payload) <==> TokenIs(job, body, pointer, payload)
  {
  }

  lemma ExpiryExact(job: Job, body: Value, pointer: string, at: int)
    ensures JwtExpiry(job, body, pointer) == Some(at)
       <==> exists payload :: ExpiryIs(job, body, pointer, payload, at)
  {
    hide JwtAt, TokenIs;
    var read := JwtAt(job, body, pointer);
    if read.Some? {
      TokenExact(job, body, pointer, read.value);
      assert JwtExpiry(job, body, pointer) == Some(at) ==> ExpiryIs(job, body, pointer, read.value, at);
    }
    if exists payload :: ExpiryIs(job, body, pointer, payload, at) {
      var payload :| ExpiryIs(job, body, pointer, payload, at);
      TokenExact(job, body, pointer, payload);
    }
  }

  /** A rule is a clock exactly when it has a clock form, and its expiry is the time that form reads. */
  lemma ClockExact(job: Job, rule: Rule, body: Value, at: int)
    ensures ClockOf(job, rule, body) == NoClock <==> !IsClock(rule)
    ensures ClockOf(job, rule, body) == Expiry(Some(at)) <==> IsClock(rule) && ReadsTime(job, rule, body, at)
  {
    if rule.relativeSeconds.Some? {
      SecondsExact(job, body, rule.relativeSeconds.value, at);
    } else if rule.epochSeconds.Some? {
      IntegerExact(job, body, rule.epochSeconds.value, at);
    } else if rule.epochMillis.Some? {
      MillisExact(job, body, rule.epochMillis.value, at);
    } else if rule.jwtExp.Some? {
      ExpiryExact(job, body, rule.jwtExp.value, at);
    }
    hide IntegerAt, JwtExpiry, SecondsAre, MillisAre, ExpiryIs, IntegerIs;
  }

  // ----- values

  /** The claim form, or else the pointer form, of the rule reads `v`. */
  ghost predicate ReadsValue(job: Job, rule: Rule, body: Value, v: Value) {
    if rule.jwtClaim.Some? then exists payload :: ClaimIs(job, body, rule.jwtClaim.value, payload, v)
    else rule.pointer.Some? && v != Null && job.world.pointer(body, rule.pointer.value) == Some(v)
  }

  predicate ClaimIs(job: Job, body: Value, claim: (string, string), payload: Value, v: Value) {
    TokenIs(job, body, claim.0, payload) && v != Null && job.world.pointer(payload, claim.1) == Some(v)
  }

  lemma PlainExact(job: Job, rule: Rule, body: Value, v: Value)
    ensures Plain(job, rule, body) == Some(v) <==> ReadsValue(job, rule, body, v)
  {
    hide JwtAt, TokenIs;
    if rule.jwtClaim.Some? {
      var claim := rule.jwtClaim.value;
      var read := JwtAt(job, body, claim.0);
      if read.Some? {
        TokenExact(job, body, claim.0, read.value);
        assert Plain(job, rule, body) == Some(v) ==> ClaimIs(job, body, claim, read.value, v);
      }
      if exists payload :: ClaimIs(job, body, claim, payload, v) {
        var payload :| ClaimIs(job, body, claim, payload, v);
        TokenExact(job, body, claim.0, payload);
      }
    }
  }

  ghost predicate NoTime(job: Job, rule: Rule, body: Value) {
    forall at :: !ReadsTime(job, rule, body, at)
  }

  ghost predicate NoValue(job: Job, rule: Rule, body: Value) {
    forall v :: !ReadsValue(job, rule, body, v)
  }

  /** What a rule may yield: the time of its clock or the default one, the value it reads, nothing
      when it is optional, and otherwise a transient failure. */
  ghost predicate Yields(job: Job, step: Step, rule: Rule, response: Response, r: Result<Yield, Outcome>) {
    var body, fallback := response.body, job.recipe.defaultSeconds;
    match r
    case Ok(Clocked(at)) =>
      && IsClock(rule)
      && (ReadsTime(job, rule, body, at)
          || (NoTime(job, rule, body) && fallback.Some? && IsLater(job, fallback.value, at)))
    case Ok(Found(v)) => !IsClock(rule) && ReadsValue(job, rule, body, v)
    case Ok(Nothing) => !IsClock(rule) && NoValue(job, rule, body) && rule.optional
    case Err(e) =>
      && e == Transient(Some(step.id), Some(response.status))
      && if IsClock(rule) then NoTime(job, rule, body) && fallback.None?
         else NoValue(job, rule, body) && !rule.optional
  }

  lemma ClockedExact(job: Job, step: Step, rule: Rule, response: Response)
    requires IsClock(rule)
    ensures Yields(job, step, rule, response, YieldOf(job, step, rule, response))
  {
    hide ClockOf, ReadsTime, IsClock;
    var clock := ClockOf(job, rule, response.body);
    forall at
      ensures clock == Expiry(Some(at)) <==> ReadsTime(job, rule, response.body, at)
    {
      ClockExact(job, rule, response.body, at);
    }
    ClockExact(job, rule, response.body, 0);
  }

  lemma PlainYields(job: Job, step: Step, rule: Rule, response: Response)
    requires !IsClock(rule)
    ensures Yields(job, step, rule, response, YieldOf(job, step, rule, response))
  {
    hide ClockOf, ReadsValue, IsClock, Plain;
    ClockExact(job, rule, response.body, 0);
    forall v
      ensures Plain(job, rule, response.body) == Some(v) <==> ReadsValue(job, rule, response.body, v)
    {
      PlainExact(job, rule, response.body, v);
    }
  }

  /** A rule yields what its forms read, as `Yields` says. */
  lemma YieldMeans(job: Job, step: Step, rule: Rule, response: Response)
    ensures Yields(job, step, rule, response, YieldOf(job, step, rule, response))
  {
    hide Yields, YieldOf;
    if IsClock(rule) {
      ClockedExact(job, step, rule, response);
    } else {
      PlainYields(job, step, rule, response);
    }
  }

  /** A rule with a field to equal fits exactly when the text of its value is that field's, or the
      field is not stored. */
  lemma FitsExact(job: Job, step: Step, rule: Rule, response: Response)
    requires YieldOf(job, step, rule, response).Ok? && rule.mustEqualField.Some?
    ensures var y, field := YieldOf(job, step, rule, response).value, rule.mustEqualField.value;
            RuleFits(job, step, rule, response)
            <==> || y.Nothing? || field !in job.fields
                 || job.world.text(if y.Found? then y.value else Int(y.expiry)) == job.fields[field]
  {
    hide YieldOf;
  }

  // ----- why a step stops

  ghost predicate FirstMissing(job: Job, required: seq<string>, i: nat) {
    && i < |required| && required[i] !in job.fields
    && forall k :: 0 <= k < i ==> required[k] in job.fields
  }

  lemma {:induction false} MissingExact(job: Job, required: seq<string>)
    ensures MissingField(job, required).None? <==> forall i :: 0 <= i < |required| ==> required[i] in job.fields
    ensures MissingField(job, required).Some? ==>
              exists i: nat :: FirstMissing(job, required, i) && required[i] == MissingField(job, required).value
  {
    if required != [] {
      var rest := required[1..];
      MissingExact(job, rest);
      assert forall i :: 0 <= i < |rest| ==> rest[i] == required[i + 1];
      assert forall i :: 1 <= i < |required| ==> required[i] == rest[i - 1];
      if required[0] !in job.fields {
        assert FirstMissing(job, required, 0);
      } else if MissingField(job, rest).Some? {
        var i: nat :| FirstMissing(job, rest, i) && rest[i] == MissingField(job, rest).value;
        assert FirstMissing(job, required, i + 1);
      }
    }
  }

  /** Rule `i` is the first that does not fit, and `o` says why: nothing to read, or a value that
      contradicts a stored field. */
  ghost predicate FirstUnfit(job: Job, step: Step, response: Response, n: nat, i: nat, o: Outcome)
    requires n <= |step.extract|
  {
    && i < n && !RuleFits(job, step, step.extract[i].1, response)
    && (forall k :: 0 <= k < i ==> RuleFits(job, step, step.extract[k].1, response))
    && o == if YieldOf(job, step, step.extract[i].1, response).Err?
            then Transient(Some(step.id), Some(response.status)) else ReauthRequired(step.id, response.status)
  }

  lemma OneFails(job: Job, step: Step, response: Response, m: Memory, name: string, rule: Rule)
    requires !RuleFits(job, step, rule, response)
    ensures ExtractOne(job, step, response, m, name, rule)
         == Err(if YieldOf(job, step, rule, response).Err?
                then Transient(Some(step.id), Some(response.status)) else ReauthRequired(step.id, response.status))
  {
    YieldMeans(job, step, rule, response);
    hide YieldOf, Disagrees, ReadsTime, ReadsValue, NoTime, NoValue, IsClock;
  }

  lemma {:induction false} ExtractFails(job: Job, step: Step, response: Response, m: Memory, n: nat)
    requires n <= |step.extract|
    ensures Extracted(job, step, response, m, n).Ok?
       <==> forall i :: 0 <= i < n ==> RuleFits(job, step, step.extract[i].1, response)
    ensures Extracted(job, step, response, m, n).Err? ==>
              exists i: nat :: FirstUnfit(job, step, response, n, i, Extracted(job, step, response, m, n).error)
  {
    hide RuleFits, ExtractOne, YieldOf;
    if n > 0 {
      ExtractFails(job, step, response, m, n - 1);
      var before := Extracted(job, step, response, m, n - 1);
      var name, rule := step.extract[n - 1].0, step.extract[n - 1].1;
      if before.Err? {
        var i: nat :| FirstUnfit(job, step, response, n - 1, i, before.error);
        assert FirstUnfit(job, step, response, n, i, before.error);
      } else {
        ExtractOneExact(job, step, response, before.value, name, rule);
        if !RuleFits(job, step, rule, response) {
          OneFails(job, step, response, before.value, name, rule);
          assert FirstUnfit(job, step, response, n, n - 1, Extracted(job, step, response, m, n).error);
        }
      }
    }
  }

  /** Why an answered step stops the run. */
  ghost predicate AnswerStops(job: Job, position: nat, response: Response, o: Outcome)
    requires position < |job.recipe.steps|
  {
    var step := job.recipe.steps[position];
    match TransitionOf(step, response.status)
    case NeedsReauth => o == ReauthRequired(step.id, response.status)
    case TryLater => o == Transient(Some(step.id), Some(response.status))
    case Success =>
      !step.kind.HttpProbe? && exists i: nat :: FirstUnfit(job, step, response, |step.extract|, i, o)
    case Jump(target) =>
      o == Configuration(None) && forall p :: position < p < |job.recipe.steps| && job.recipe.steps[p].id == target ==>
        exists q :: 0 <= q <= position && job.recipe.steps[q].id == target
  }

  lemma JumpStops(steps: seq<Step>, position: nat, target: string)
    requires position < |steps|
    ensures !(HasId(steps, target) && FirstWith(steps, target) > position)
       <==> forall p :: position < p < |steps| && steps[p].id == target ==>
              exists q :: 0 <= q <= position && steps[q].id == target
  {
    hide FirstWith;
    if HasId(steps, target) && FirstWith(steps, target) > position {
      var p := FirstWith(steps, target);
      assert steps[p].id == target;
    }
  }

  lemma AnsweredStops(job: Job, m: Memory, position: nat, request: Request, response: Response)
    requires position < |job.recipe.steps|
    ensures var ending := Answered(job, m, position, request, response).entry.ending;
            if ending.Stopped? then AnswerStops(job, position, response, ending.outcome)
            else forall o :: !AnswerStops(job, position, response, o)
  {
    hide TransitionOf, Extracted, HasId, FirstWith, FirstUnfit, RuleFits, YieldOf;
    var step := job.recipe.steps[position];
    ExtractFails(job, step, response, m, |step.extract|);
    if Extracted(job, step, response, m, |step.extract|).Ok? {
      NoUnfit(job, step, response);
    }
    if TransitionOf(step, response.status).Jump? {
      JumpStops(job.recipe.steps, position, TransitionOf(step, response.status).target);
    }
  }

  lemma NoUnfit(job: Job, step: Step, response: Response)
    requires forall i :: 0 <= i < |step.extract| ==> RuleFits(job, step, step.extract[i].1, response)
    ensures forall i: nat, o :: !FirstUnfit(job, step, response, |step.extract|, i, o)
  {
    hide RuleFits, YieldOf;
  }

  /** Why a step stops the run: a required field that is not stored, a request that cannot be signed
      or written, no response, or what the response says. */
  ghost predicate StepStops(job: Job, m: Memory, requests: seq<Request>, position: nat, o: Outcome)
    requires position < |job.recipe.steps|
  {
    var step := job.recipe.steps[position];
    if exists i: nat :: FirstMissing(job, step.required, i) then
      if job.recipe.useStored then o == UseStored
      else exists i: nat :: FirstMissing(job, step.required, i) && o == Configuration(Some(step.required[i]))
    else if step.kind.JwtSign? then job.world.sign(step, m.outputs) == Err(o)
    else
      var request := job.world.render(step, m.outputs);
      if request.Err? then o == request.error
      else
        var response := job.world.respond(requests + [request.value]);
        if response.None? then o == Transient(Some(step.id), None)
        else AnswerStops(job, position, response.value, o)
  }

  lemma MissingIs(job: Job, required: seq<string>)
    ensures MissingField(job, required).Some? <==> exists i: nat :: FirstMissing(job, required, i)
    ensures forall i: nat :: FirstMissing(job, required, i) ==> MissingField(job, required) == Some(required[i])
  {
    hide MissingField;
    MissingExact(job, required);
  }

  /** A step stops the run exactly when one of these reasons holds, with that reason's outcome. */
  lemma StopExact(job: Job, m: Memory, requests: seq<Request>, position: nat)
    requires position < |job.recipe.steps|
    ensures var ending := Execute(job, m, requests, position).entry.ending;
            if ending.Stopped? then StepStops(job, m, requests, position, ending.outcome)
            else forall o :: !StepStops(job, m, requests, position, o)
  {
    hide MissingField, FirstMissing, Answered, AnswerStops;
    var step := job.recipe.steps[position];
    MissingIs(job, step.required);
    if MissingField(job, step.required).None? && !step.kind.JwtSign? {
      var request := job.world.render(step, m.outputs);
      if request.Ok? {
        var response := job.world.respond(requests + [request.value]);
        if response.Some? {
          AnsweredStops(job, m, position, request.value, response.value);
        }
      }
    }
  }

  // ----- what a candidate presents

  /** `id` is the part of an output's name before its first dot. */
  predicate Spells(name: string, id: string) {
    '.' !in id && (id == name || id + "." <= name)
  }

  lemma SpellsExact(name: string, id: string)
    ensures StepOf(name) == id <==> Spells(name, id)
  {
    if id + "." <= name {
      StepOfOwner(id, name);
    }
    if Text.SplitOnce(name, '.').Some? {
      var (step, rest) := Text.SplitOnce(name, '.').value;
      assert name == (step + ".") + rest;
      assert name[|step|] == '.';
    }
  }

  predicate ExpiresBy(job: Job, clocks: map<string, int>, id: string, expiry: Option<int>) {
    if id in clocks then expiry == Some(clocks[id])
    else if job.recipe.defaultSeconds.None? then expiry.None?
    else expiry.Some? && IsLater(job, job.recipe.defaultSeconds.value, expiry.value)
  }

  /** The candidate presents `value`: a text output that is not empty, with the clock of the step its
      name spells or the default one, or a stored field with its own validity. */
  ghost predicate Offers(job: Job, m: Memory, c: Candidate, value: string, expiry: Option<int>) {
    match c
    case Output(name) =>
      && name in m.outputs && m.outputs[name] == Str(value) && value != ""
      && exists id :: Spells(name, id) && ExpiresBy(job, m.clocks, id, expiry)
    case Field(field, validity) =>
      && field in job.fields && value == job.fields[field]
      && expiry.Some? && IsLater(job, validity, expiry.value)
  }

  lemma OfferExact(job: Job, m: Memory, c: Candidate, value: string, expiry: Option<int>)
    ensures Offer(job, m, c) == Some((value, expiry)) <==> Offers(job, m, c, value, expiry)
  {
    hide StepOf, Spells;
    if c.Output? {
      SpellsExact(c.name, StepOf(c.name));
      if Offers(job, m, c, value, expiry) {
        var id :| Spells(c.name, id) && ExpiresBy(job, m.clocks, id, expiry);
        SpellsExact(c.name, id);
      }
    }
  }
}
