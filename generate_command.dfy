/**
 * `codematic:inci:generate`: find the ingredient by name, guard against
 * overwriting generated content, generate the four content fields one after
 * another, merge the general fields, write whatever was generated as one
 * partial update and print a summary of it.
 */
module GenerateCommand {
  import opened Wrappers
  import opened PhpString
  import opened Json
  import opened InciCatalog
  import opened Console
  import opened OpenAI
  import opened AddCommand

  // ---------------------------------------------------------------------------
  // hasGeneratedContent
  // ---------------------------------------------------------------------------

  /** A non-empty description, a non-empty safety text or any rating; main functions do not count. */
  predicate HasGeneratedContent(r: Inci) {
    Truthy(r.description) || Truthy(r.safetyInformation) || r.rating.Some?
  }

  /** The guard ignores the main functions, and a rating of 0 still counts as content. */
  lemma HasGeneratedContentFields(r: Inci, m: Option<Bytes>)
    ensures HasGeneratedContent(r.(mainFunctions := m)) == HasGeneratedContent(r)
    ensures r.rating == Some(0) ==> HasGeneratedContent(r)
    ensures !Truthy(r.description) && !Truthy(r.safetyInformation) && r.rating.None? ==> !HasGeneratedContent(r)
  {
  }

  /** A record fresh from Add has no generated content, so generating for it never asks to overwrite. */
  lemma NewRecordHasNoContent(name: Bytes, slug: Bytes, active: bool)
    ensures !HasGeneratedContent(NewRecord(name, slug, active))
  {
  }

  // ---------------------------------------------------------------------------
  // The generation steps
  // ---------------------------------------------------------------------------

  /** `$generationSteps`, in order. */
  const Steps: seq<StepField> := [Description, MainFunctions, SafetyInformation, Rating]

  /** The fields `$generationSteps` names. */
  predicate IsStep(f: Field) {
    f == Description || f == MainFunctions || f == SafetyInformation || f == Rating
  }

  /** A field with a generator. */
  type StepField = f: Field | IsStep(f) witness Description

  lemma StepsAreSteps(f: Field)
    ensures f in Steps <==> IsStep(f)
  {
  }

  /** The template each step's generator resolves. */
  function StepTemplate(f: StepField): Template {
    match f
    case Description => DescriptionPrompt
    case MainFunctions => MainFunctionsPrompt
    case SafetyInformation => SafetyPrompt
    case Rating => RatingPrompt
  }

  /**
   * The value a step puts into the update, given its template call's answer:
   * the text itself, or for the rating the number extracted from it.
   */
  function StepValue(f: Field, answer: Option<Bytes>): Option<Value> {
    if answer.None? then None
    else if f == Rating then
      var rating := ExtractRating(answer.value);
      if rating.Some? then Some(JInt(rating.value)) else None
    else Some(JString(answer.value))
  }

  /**
   * A step yields a value of its field's type, a rating in 1..3, exactly when
   * its call answered (and, for the rating, the answer holds a number in
   * 1..3); a text step keeps the answer as it came, an empty one included.
   */
  lemma StepValueFacts(f: StepField, answer: Option<Bytes>)
    ensures var v := StepValue(f, answer);
      && (v.Some? ==> Fits(f, v.value))
      && (f != Rating ==> (v.Some? <==> answer.Some?) && (v.Some? ==> v.value == JString(answer.value)))
      && (f == Rating ==> (v.Some? <==> answer.Some? && ExtractRating(answer.value).Some?))
      && (f == Rating && v.Some? ==> v.value == JInt(ExtractRating(answer.value).value) && 1 <= v.value.i <= 3)
  {
  }

  /** What a run of steps comes to: the value of each step, the requests sent and the sleeps asked for. */
  datatype StepsRun = StepsRun(results: seq<Option<Value>>, sent: seq<Payload>, sleeps: seq<nat>)

  /**
   * What the generation depends on in the service: the endpoint's answers, the
   * model, the prompt each step's template resolves to, the general-fields
   * prompt and the JSON decoder.
   */
  datatype Env = Env(oracle: nat -> AttemptOutcome, model: Bytes, prompts: StepField -> Option<Bytes>,
                     generalPrompt: Option<Bytes>, jsonDecode: Bytes -> Option<Value>)

  /** The service's environment: every part of it is fixed when the service is made. */
  function EnvOf(svc: OpenAIService): Env {
    Env(svc.http.oracle, svc.model, f => svc.PromptFor(StepTemplate(f)), svc.PromptFor(GeneralFieldsPrompt), svc.jsonDecode)
  }

  /** One run after another. */
  function Join(a: StepsRun, b: StepsRun): StepsRun {
    StepsRun(a.results + b.results, a.sent + b.sent, a.sleeps + b.sleeps)
  }

  /** The step for `f` when its first POST is POST number `pos`. */
  function StepRun(env: Env, name: Bytes, f: StepField, pos: nat): StepsRun {
    var tr := CallTrace(env.oracle, env.prompts(f), pos);
    StepsRun([StepValue(f, tr.result)], CallRequests(env.prompts(f), env.model, name, tr.posts), tr.sleeps)
  }

  /**
   * The steps `steps`, in order, when the first of them makes POST number
   * `pos`: each step calls its template and the next one starts with the POST
   * after the last one it made.
   */
  function RunSteps(env: Env, name: Bytes, pos: nat, steps: seq<StepField>): StepsRun
    decreases |steps|
  {
    if steps == [] then StepsRun([], [], [])
    else
      var step := StepRun(env, name, steps[0], pos);
      Join(step, RunSteps(env, name, pos + |step.sent|, steps[1..]))
  }

  /**
   * A run gives one result per step and sends at most `MaxRetries` requests
   * per step; a step whose template resolves no prompt yields nothing.
   */
  lemma {:induction false} RunStepsBounds(env: Env, name: Bytes, pos: nat, steps: seq<StepField>)
    ensures var run := RunSteps(env, name, pos, steps);
      && |run.results| == |steps|
      && |run.sent| <= MaxRetries * |steps|
      && forall j :: 0 <= j < |steps| && run.results[j].Some? ==> env.prompts(steps[j]).Some?
    decreases |steps|
  {
    if steps != [] {
      var step := StepRun(env, name, steps[0], pos);
      var rest := RunSteps(env, name, pos + |step.sent|, steps[1..]);
      CallBounds(env.oracle, env.prompts(steps[0]), env.model, name, pos);
      RunStepsBounds(env, name, pos + |step.sent|, steps[1..]);
      var run := RunSteps(env, name, pos, steps);
      assert run.results == step.results + rest.results;
      forall j | 0 <= j < |steps| && run.results[j].Some?
        ensures env.prompts(steps[j]).Some?
      {
        if j > 0 {
          assert run.results[j] == rest.results[j - 1] && steps[j] == steps[1..][j - 1];
        }
      }
    }
  }

  /**
   * When the steps before `k` did `done` and the rest, from POST `pos` on, make
   * up the run `total`, step `k` moves the split one step on: the next step
   * starts at POST `next`, right after this one's last.
   */
  lemma RunGoesOn(env: Env, name: Bytes, steps: seq<StepField>, k: nat, pos: nat, done: StepsRun, total: StepsRun,
                  step: StepsRun, next: nat)
    requires k < |steps|
    requires total == Join(done, RunSteps(env, name, pos, steps[k..]))
    requires step == StepRun(env, name, steps[k], pos) && next == pos + |step.sent|
    ensures total == Join(Join(done, step), RunSteps(env, name, next, steps[k + 1..]))
  {
    RunStepsFrom(env, name, pos, steps, k);
    JoinAssoc(done, step, RunSteps(env, name, next, steps[k + 1..]));
  }

  /** The run of the steps from `k` on is step `k` followed by the run of the steps after it. */
  lemma RunStepsFrom(env: Env, name: Bytes, pos: nat, steps: seq<StepField>, k: nat)
    requires k < |steps|
    ensures var step := StepRun(env, name, steps[k], pos);
      RunSteps(env, name, pos, steps[k..]) == Join(step, RunSteps(env, name, pos + |step.sent|, steps[k + 1..]))
  {
    assert steps[k..][1..] == steps[k + 1..];
  }

  /** A run followed by one more step. */
  lemma AssembleSnoc(results: seq<Option<Value>>, v: Option<Value>)
    requires |results| < |Steps|
    ensures Assemble(results + [v]) == if v.Some? then Assemble(results)[Steps[|results|] := v.value] else Assemble(results)
  {
    assert (results + [v])[..|results|] == results;
  }

  lemma JoinAssoc(a: StepsRun, b: StepsRun, c: StepsRun)
    ensures Join(a, Join(b, c)) == Join(Join(a, b), c)
  {
    AppendAssoc(a.results, b.results, c.results);
    AppendAssoc(a.sent, b.sent, c.sent);
    AppendAssoc(a.sleeps, b.sleeps, c.sleeps);
  }

  lemma JoinNothing(a: StepsRun)
    ensures Join(a, StepsRun([], [], [])) == a
  {
    AppendNothing(a.results);
    AppendNothing(a.sent);
    AppendNothing(a.sleeps);
  }

  lemma NothingJoin(a: StepsRun)
    ensures Join(StepsRun([], [], []), a) == a
  {
    assert [] + a.results == a.results && [] + a.sent == a.sent && [] + a.sleeps == a.sleeps;
  }

  lemma AppendAssoc<T>(a: seq<T>, b: seq<T>, c: seq<T>)
    ensures a + (b + c) == a + b + c
  {
  }

  lemma AppendNothing<T>(a: seq<T>)
    ensures a + [] == a
  {
  }

  /** One step: the generator's answer as the value the update would carry. */
  method GenerateField(svc: OpenAIService, f: StepField, name: Bytes) returns (v: Option<Value>)
    modifies svc, svc.http
    ensures var step := StepRun(EnvOf(svc), name, f, old(|svc.http.sent|));
      && step.results == [v]
      && svc.http.sent == old(svc.http.sent) + step.sent
      && svc.sleeps == old(svc.sleeps) + step.sleeps
    ensures v.Some? ==> Fits(f, v.value)
    ensures f == Rating && v.Some? ==> 1 <= v.value.i <= 3
  {
    match f
    case Description =>
      var text := svc.GenerateDescription(name);
      v := if text.Some? then Some(JString(text.value)) else None;
    case MainFunctions =>
      var text := svc.GenerateMainFunctions(name);
      v := if text.Some? then Some(JString(text.value)) else None;
    case SafetyInformation =>
      var text := svc.GenerateSafetyInformation(name);
      v := if text.Some? then Some(JString(text.value)) else None;
    case Rating =>
      var rating := svc.GenerateRating(name);
      v := if rating.Some? then Some(JInt(rating.value)) else None;
  }

  /**
   * The update the first `|results|` steps assemble: each step that produced a
   * value sets its field, a step that produced nothing is skipped.
   */
  function Assemble(results: seq<Option<Value>>): map<Field, Value>
    requires |results| <= |Steps|
  {
    if results == [] then map[]
    else
      var k := |results| - 1;
      var m := Assemble(results[..k]);
      if results[k].Some? then m[Steps[k] := results[k].value] else m
  }

  /** The assembled update holds exactly the fields of the steps that produced a value, with those values. */
  lemma {:induction false} AssembleFacts(results: seq<Option<Value>>)
    requires |results| <= |Steps|
    ensures forall f :: f in Assemble(results) ==> f in Steps[..|results|]
    ensures forall j :: 0 <= j < |results| ==> (Steps[j] in Assemble(results) <==> results[j].Some?)
    ensures forall j :: 0 <= j < |results| && results[j].Some? ==> Assemble(results)[Steps[j]] == results[j].value
  {
    if results != [] {
      var k := |results| - 1;
      var prefix := results[..k];
      AssembleFacts(prefix);
      assert Steps[..k + 1] == Steps[..k] + [Steps[k]];
      forall j | 0 <= j < k ensures Steps[j] != Steps[k] {
      }
      forall j | 0 <= j < k ensures results[j] == prefix[j] {
      }
    }
  }

  /**
   * Step `i` of a run of `steps` that began with the requests `sent0` and the
   * sleeps `slept0`, when `done` is what the steps before it did: it does what
   * `RunSteps` says comes next.
   */
  method TakeStep(svc: OpenAIService, name: Bytes, steps: seq<StepField>, i: nat,
                  ghost done: StepsRun, ghost env: Env, ghost sent0: seq<Payload>, ghost slept0: seq<nat>)
    returns (content: Option<Value>, ghost done': StepsRun)
    requires i < |steps| && env == EnvOf(svc)
    requires svc.http.sent == sent0 + done.sent && svc.sleeps == slept0 + done.sleeps
    requires RunSteps(env, name, |sent0|, steps) == Join(done, RunSteps(env, name, |sent0 + done.sent|, steps[i..]))
    modifies svc, svc.http
    ensures done'.results == done.results + [content]
    ensures svc.http.sent == sent0 + done'.sent && svc.sleeps == slept0 + done'.sleeps
    ensures RunSteps(env, name, |sent0|, steps) == Join(done', RunSteps(env, name, |sent0 + done'.sent|, steps[i + 1..]))
  {
    ghost var pos := |svc.http.sent|;
    ghost var step := StepRun(env, name, steps[i], pos);
    content := GenerateField(svc, steps[i], name);
    done' := Join(done, step);
    AppendAssoc(sent0, done.sent, step.sent);
    AppendAssoc(slept0, done.sleeps, step.sleeps);
    RunGoesOn(env, name, steps, i, pos, done, RunSteps(env, name, |sent0|, steps), step, |sent0 + done'.sent|);
  }

  /**
   * The loop over `$generationSteps`: the steps' results, requests and sleeps
   * are those `RunSteps` gives from the next POST on, and the update is
   * assembled from the results.
   */
  method GenerateContent(svc: OpenAIService, name: Bytes) returns (updates: map<Field, Value>, ghost results: seq<Option<Value>>)
    modifies svc, svc.http
    ensures var run := RunSteps(EnvOf(svc), name, old(|svc.http.sent|), Steps);
      && results == run.results
      && svc.http.sent == old(svc.http.sent) + run.sent
      && svc.sleeps == old(svc.sleeps) + run.sleeps
    ensures |results| == |Steps| && updates == Assemble(results)
  {
    var steps := Steps;
    ghost var sent0 := svc.http.sent;
    ghost var slept0 := svc.sleeps;
    ghost var done := StepsRun([], [], []);
    NothingJoin(RunSteps(EnvOf(svc), name, |sent0|, steps));
    assert steps[0..] == steps && sent0 + done.sent == sent0;
    updates := map[];
    results := [];
    for i := 0 to |Steps|
      invariant |results| == i && updates == Assemble(results)
      invariant results == done.results
      invariant svc.http.sent == sent0 + done.sent
      invariant svc.sleeps == slept0 + done.sleeps
      invariant RunSteps(EnvOf(svc), name, |sent0|, steps) == Join(done, RunSteps(EnvOf(svc), name, |sent0 + done.sent|, steps[i..]))
    {
      var content;
      content, done := TakeStep(svc, name, steps, i, done, EnvOf(svc), sent0, slept0);
      AssembleSnoc(results, content);
      results := results + [content];
      if content.Some? {
        updates := updates[Steps[i] := content.value];
      }
    }
    assert steps[|steps|..] == [];
    JoinNothing(done);
  }

  // ---------------------------------------------------------------------------
  // The general-field mapping
  // ---------------------------------------------------------------------------

  /** `$fieldMapping`: the JSON key each general field is read from. */
  function JsonKey(f: Field): Option<Bytes> {
    match f
    case AlternativeNames => Some("alternative_names")
    case CasNumber => Some("cas_number")
    case PolishName => Some("polish_name")
    case Resources => Some("resources")
    case Natural => Some("natural")
    case _ => None
  }

  /** The mapping's entries, in order. */
  function MappedField(j: nat): (f: Field)
    requires j < 5
    ensures JsonKey(f).Some?
  {
    [AlternativeNames, CasNumber, PolishName, Resources, Natural][j]
  }

  function MappedIndex(f: Field): (j: nat)
    requires JsonKey(f).Some?
    ensures j < 5 && MappedField(j) == f
  {
    match f
    case AlternativeNames => 0
    case CasNumber => 1
    case PolishName => 2
    case Resources => 3
    case Natural => 4
  }

  /** The generated fields and the general fields are disjoint, and together they are every updatable field. */
  lemma StepsAndMappingPartition(f: Field)
    ensures f in Steps <==> JsonKey(f).None?
  {
  }

  /** `isset($generalFields[$key])`: present and not null. */
  predicate Isset(general: map<Bytes, Value>, key: Bytes) {
    key in general && general[key] != JNull
  }

  /** The general field `f` is taken from the answer. */
  predicate Copied(general: map<Bytes, Value>, f: Field) {
    JsonKey(f).Some? && Isset(general, JsonKey(f).value)
  }

  /**
   * The loop over `$fieldMapping`: each general field whose key is set in the
   * answer is copied under the field's name; other keys are ignored.
   */
  method CopyGeneralFields(updates: map<Field, Value>, general: map<Bytes, Value>) returns (out: map<Field, Value>)
    ensures forall f :: f in out <==> f in updates || Copied(general, f)
    ensures forall f :: f in out ==> out[f] == if Copied(general, f) then general[JsonKey(f).value] else updates[f]
  {
    out := updates;
    var j := 0;
    while j < 5
      invariant 0 <= j <= 5
      invariant forall f :: f in out <==> f in updates || (Copied(general, f) && MappedIndex(f) < j)
      invariant forall f :: f in out ==>
                  out[f] == if Copied(general, f) && MappedIndex(f) < j then general[JsonKey(f).value] else updates[f]
    {
      var f := MappedField(j);
      var key := JsonKey(f).value;
      if key in general && general[key] != JNull {
        out := out[f := general[key]];
      }
      j := j + 1;
    }
  }

  /**
   * The general fields join the generated ones only when the answer decoded to
   * a non-empty array; the generated fields are never overridden.
   */
  method MergeGeneral(generated: map<Field, Value>, general: Option<map<Bytes, Value>>) returns (updates: map<Field, Value>)
    requires forall f :: f in generated ==> f in Steps
    ensures forall f :: f in Steps ==> (f in updates <==> f in generated) && (f in updates ==> updates[f] == generated[f])
    ensures forall f :: JsonKey(f).Some? ==>
      && (f in updates <==> general.Some? && general.value != map[] && Copied(general.value, f))
      && (f in updates ==> updates[f] == general.value[JsonKey(f).value])
  {
    updates := generated;
    if general.Some? && general.value != map[] {
      updates := CopyGeneralFields(generated, general.value);
    }
    forall f | JsonKey(f).Some? ensures f !in generated {
      StepsAndMappingPartition(f);
    }
    forall f | f in Steps ensures !Copied(general.GetOr(map[]), f) {
      StepsAndMappingPartition(f);
    }
  }

  // ---------------------------------------------------------------------------
  // showGenerationSummary
  // ---------------------------------------------------------------------------

  /** The fields of `$fieldLabels`, in the order the summary lists them. */
  const FieldOrder: seq<Field> :=
    [Description, MainFunctions, SafetyInformation, Rating, AlternativeNames, CasNumber, PolishName, Resources, Natural]

  /** The position of a field in the summary order. */
  function Rank(f: Field): nat {
    match f
    case Description => 0
    case MainFunctions => 1
    case SafetyInformation => 2
    case Rating => 3
    case AlternativeNames => 4
    case CasNumber => 5
    case PolishName => 6
    case Resources => 7
    case Natural => 8
  }

  /** The summary order lists every field once, by increasing rank. */
  lemma FieldOrderRanked()
    ensures forall i :: 0 <= i < |FieldOrder| ==> Rank(FieldOrder[i]) == i
    ensures forall f :: Rank(f) < |FieldOrder| && FieldOrder[Rank(f)] == f
  {
  }

  function Label(f: Field): Bytes {
    match f
    case Description => "Description"
    case MainFunctions => "Main Functions"
    case SafetyInformation => "Safety Information"
    case Rating => "Rating"
    case AlternativeNames => "Alternative Names"
    case CasNumber => "CAS Number"
    case PolishName => "Polish Name"
    case Resources => "Resources"
    case Natural => "Natural"
  }

  /** A summary cell: booleans as Yes/No, strings over 100 bytes cut to 100 bytes and "...". */
  function SummaryValue(v: Value): Bytes {
    match v
    case JBool(b) => YesNo(b)
    case JString(s) => if |s| > 100 then s[..100] + "..." else s
    case JInt(i) => IntText(i)
    // A written update holds only strings, integers and booleans.
    case _ => []
  }

  /** A cell is the string itself up to 100 bytes, otherwise its first 100 bytes and "..." — 103 bytes. */
  lemma SummaryValueTruncates(s: Bytes)
    ensures var cell := SummaryValue(JString(s));
      && |cell| <= 103
      && (|s| <= 100 ==> cell == s)
      && (|s| > 100 ==> |cell| == 103 && cell[..100] == s[..100] && cell[100..] == "...")
  {
    if |s| > 100 {
      var cell := s[..100] + "...";
      assert cell[..100] == s[..100];
      assert cell[100..] == "...";
    }
  }

  function SummaryRow(updates: map<Field, Value>, f: Field): Row
    requires f in updates
  {
    Row(Label(f), SummaryValue(updates[f]))
  }

  /** The rows for the fields of `fields` that the update sets, in the order of `fields`. */
  function SummaryOf(updates: map<Field, Value>, fields: seq<Field>): seq<Row> {
    if fields == [] then []
    else (if fields[0] in updates then [SummaryRow(updates, fields[0])] else []) + SummaryOf(updates, fields[1..])
  }

  /** The fields of `fields` that the update sets, in the order of `fields`. */
  function Present(updates: map<Field, Value>, fields: seq<Field>): seq<Field> {
    if fields == [] then []
    else (if fields[0] in updates then [fields[0]] else []) + Present(updates, fields[1..])
  }

  /** Fields listed in strictly increasing rank (so each at most once). */
  ghost predicate Ranked(fields: seq<Field>) {
    forall i, j :: 0 <= i < j < |fields| ==> Rank(fields[i]) < Rank(fields[j])
  }

  /** The present fields are exactly the listed fields the update sets. */
  lemma {:induction false} PresentMembers(updates: map<Field, Value>, fields: seq<Field>)
    ensures forall f :: f in Present(updates, fields) <==> f in updates && f in fields
    decreases |fields|
  {
    if fields != [] {
      var rest := fields[1..];
      PresentMembers(updates, rest);
      var head := if fields[0] in updates then [fields[0]] else [];
      assert Present(updates, fields) == head + Present(updates, rest);
      forall g ensures g in Present(updates, fields) <==> g in updates && g in fields {
        assert g in fields <==> g == fields[0] || g in rest;
      }
    }
  }

  /** Filtering a ranked list keeps it ranked. */
  lemma {:induction false} PresentRanked(updates: map<Field, Value>, fields: seq<Field>)
    requires Ranked(fields)
    ensures Ranked(Present(updates, fields))
    decreases |fields|
  {
    if fields != [] {
      var rest := fields[1..];
      assert Ranked(rest) by {
        forall i, j | 0 <= i < j < |rest| ensures Rank(rest[i]) < Rank(rest[j]) {
          assert rest[i] == fields[i + 1] && rest[j] == fields[j + 1];
        }
      }
      PresentRanked(updates, rest);
      PresentMembers(updates, rest);
      var ps := Present(updates, fields);
      var tail := Present(updates, rest);
      var head := if fields[0] in updates then [fields[0]] else [];
      assert ps == head + tail;
      forall a, b | 0 <= a < b < |ps| ensures Rank(ps[a]) < Rank(ps[b]) {
        assert ps[b] == tail[b - |head|];
        if a < |head| {
          assert tail[b - |head|] in rest;
          var j :| 0 <= j < |rest| && rest[j] == tail[b - |head|];
          assert fields[j + 1] == ps[b];
        } else {
          assert ps[a] == tail[a - |head|];
        }
      }
    }
  }

  /** The summary has one row per present field, with that field's label and cell. */
  lemma {:induction false} SummaryOfPresent(updates: map<Field, Value>, fields: seq<Field>)
    ensures |SummaryOf(updates, fields)| == |Present(updates, fields)|
    ensures forall a :: 0 <= a < |Present(updates, fields)| ==>
      Present(updates, fields)[a] in updates &&
      SummaryOf(updates, fields)[a] == SummaryRow(updates, Present(updates, fields)[a])
    decreases |fields|
  {
    if fields != [] {
      var f := fields[0];
      var rest := fields[1..];
      SummaryOfPresent(updates, rest);
      var ps := Present(updates, fields);
      var rows := SummaryOf(updates, fields);
      var tail := Present(updates, rest);
      if f in updates {
        assert ps == [f] + tail;
        assert rows == [SummaryRow(updates, f)] + SummaryOf(updates, rest);
        forall a | 0 <= a < |ps| ensures ps[a] in updates && rows[a] == SummaryRow(updates, ps[a]) {
          if a > 0 {
            assert ps[a] == tail[a - 1];
          }
        }
      } else {
        assert ps == tail;
        assert rows == SummaryOf(updates, rest);
      }
    }
  }

  /**
   * `showGenerationSummary`: the summary lists every field of the update and no
   * other, each once and in the order of `$fieldLabels`, and row `a` carries
   * the label and cell of the `a`-th of those fields.
   */
  lemma Summary(updates: map<Field, Value>)
    ensures var fs := Present(updates, FieldOrder);
      && (forall f :: f in fs <==> f in updates)
      && Ranked(fs)
      && |SummaryOf(updates, FieldOrder)| == |fs| == |updates|
      && forall a :: 0 <= a < |fs| ==> SummaryOf(updates, FieldOrder)[a] == SummaryRow(updates, fs[a])
  {
    FieldOrderRanked();
    PresentMembers(updates, FieldOrder);
    PresentRanked(updates, FieldOrder);
    SummaryOfPresent(updates, FieldOrder);
    var fs := Present(updates, FieldOrder);
    forall f | f in updates ensures f in FieldOrder {
      assert FieldOrder[Rank(f)] == f;
    }
    RankedDistinct(fs, updates.Keys);
  }

  /** A ranked list holding exactly the elements of `keys` has one entry per key. */
  lemma {:induction false} RankedDistinct(fs: seq<Field>, keys: set<Field>)
    requires Ranked(fs)
    requires forall f :: f in fs <==> f in keys
    ensures |fs| == |keys|
    decreases |fs|
  {
    if fs != [] {
      var rest := fs[1..];
      assert fs[0] !in rest by {
        forall j | 0 <= j < |rest| ensures rest[j] != fs[0] {
          assert rest[j] == fs[j + 1];
        }
      }
      assert Ranked(rest) by {
        forall i, j | 0 <= i < j < |rest| ensures Rank(rest[i]) < Rank(rest[j]) {
          assert rest[i] == fs[i + 1] && rest[j] == fs[j + 1];
        }
      }
      forall f ensures f in rest <==> f in keys - {fs[0]} {
        assert f in fs <==> f == fs[0] || f in rest;
      }
      RankedDistinct(rest, keys - {fs[0]});
    } else {
      forall f ensures f !in keys {
      }
      assert keys == {};
    }
  }

  /** The summary from field `k` on: that field's row, when updated, then the rest. */
  lemma SummaryOfStep(updates: map<Field, Value>, fields: seq<Field>, k: nat)
    requires k < |fields|
    ensures SummaryOf(updates, fields[k..])
         == (if fields[k] in updates then [SummaryRow(updates, fields[k])] else []) + SummaryOf(updates, fields[k + 1..])
  {
    assert fields[k..][1..] == fields[k + 1..];
  }

  method GenerationSummary(updates: map<Field, Value>) returns (rows: seq<Row>)
    ensures rows == SummaryOf(updates, FieldOrder)
  {
    var fields := FieldOrder;
    rows := [];
    var k := 0;
    while k < |fields|
      invariant 0 <= k <= |fields|
      invariant rows + SummaryOf(updates, fields[k..]) == SummaryOf(updates, fields)
    {
      var f := fields[k];
      SummaryOfStep(updates, fields, k);
      if f in updates {
        rows := rows + [SummaryRow(updates, f)];
      }
      k := k + 1;
    }
    assert fields[k..] == [];
  }

  // ---------------------------------------------------------------------------
  // The catalog invariant
  // ---------------------------------------------------------------------------

  /** A content update never touches name or slug, so it keeps the catalog consistent. */
  lemma UpdatePreservesConsistent(records: map<Id, Inci>, id: Id, updates: map<Field, Value>)
    requires Consistent(records) && id in records
    requires ApplyUpdates(records[id], updates).Some?
    ensures Consistent(records[id := ApplyUpdates(records[id], updates).value])
  {
    ReplaceKeepsConsistent(records, id, ApplyUpdates(records[id], updates).value);
  }

  // ---------------------------------------------------------------------------
  // execute
  // ---------------------------------------------------------------------------

  /** What the generation does: each step's result, the general fields, the requests sent and the sleeps asked for. */
  datatype Generation = Generation(
    results: seq<Option<Value>>, general: Option<map<Bytes, Value>>, sent: seq<Payload>, sleeps: seq<nat>)

  /**
   * The generation when its first POST is POST number `pos`: the steps in
   * order (`Steps` in `execute`), then the general-fields call from the POST
   * after the steps' last, its answer decoded as a JSON array.
   */
  function Generate(env: Env, name: Bytes, pos: nat, steps: seq<StepField>): Generation {
    var run := RunSteps(env, name, pos, steps);
    var tr := CallTrace(env.oracle, env.generalPrompt, pos + |run.sent|);
    var general := if tr.result.Some? then DecodeGeneralFields(env.jsonDecode(tr.result.value)) else None;
    Generation(run.results, general, run.sent + CallRequests(env.generalPrompt, env.model, name, tr.posts), run.sleeps + tr.sleeps)
  }

  /** The generation is the steps' run followed by the general-fields call from POST `mid` on. */
  lemma GenerateParts(env: Env, name: Bytes, pos: nat, steps: seq<StepField>, run: StepsRun, mid: nat, tr: Trace)
    requires run == RunSteps(env, name, pos, steps) && mid == pos + |run.sent|
    requires tr == CallTrace(env.oracle, env.generalPrompt, mid)
    ensures var g := Generate(env, name, pos, steps);
      && g.results == run.results
      && g.general == (if tr.result.Some? then DecodeGeneralFields(env.jsonDecode(tr.result.value)) else None)
      && g.sent == run.sent + CallRequests(env.generalPrompt, env.model, name, tr.posts)
      && g.sleeps == run.sleeps + tr.sleeps
  {
  }

  /** The generation proper: the steps, then the general-fields call. */
  method GenerateAll(svc: OpenAIService, name: Bytes)
    returns (generated: map<Field, Value>, ghost results: seq<Option<Value>>, general: Option<map<Bytes, Value>>)
    modifies svc, svc.http
    ensures var g := Generate(EnvOf(svc), name, old(|svc.http.sent|), Steps);
      && results == g.results && general == g.general
      && svc.http.sent == old(svc.http.sent) + g.sent && svc.sleeps == old(svc.sleeps) + g.sleeps
    ensures |results| == |Steps| && generated == Assemble(results)
  {
    ghost var sent0 := svc.http.sent;
    ghost var slept0 := svc.sleeps;
    generated, results := GenerateContent(svc, name);
    ghost var run := RunSteps(EnvOf(svc), name, |sent0|, Steps);
    ghost var mid := |svc.http.sent|;
    assert mid == |sent0| + |run.sent|;
    ghost var tr := svc.TemplateTrace(GeneralFieldsPrompt, mid);
    general := svc.GenerateGeneralFields(name);
    GenerateParts(EnvOf(svc), name, |sent0|, Steps, run, mid, tr);
    AppendAssoc(sent0, run.sent, svc.TemplateRequests(GeneralFieldsPrompt, name, tr.posts));
    AppendAssoc(slept0, run.sleeps, tr.sleeps);
  }

  /**
   * The part of `execute` after the ingredient was chosen: run every step and
   * the general-fields call, merge their answers, write the update when it
   * holds a field and show the summary when the write succeeded.
   */
  method Regenerate(repo: Repository, svc: OpenAIService, id: Id, name: Bytes)
    returns (status: Status, summary: seq<Row>,
             ghost results: seq<Option<Value>>, general: Option<map<Bytes, Value>>,
             updates: map<Field, Value>)
    requires id in repo.records && repo.records[id].name == Some(name)
    modifies repo, svc, svc.http
    // The four steps run in order, then the general-fields call ...
    ensures var g := Generate(EnvOf(svc), name, old(|svc.http.sent|), Steps);
      && results == g.results && general == g.general
      && svc.http.sent == old(svc.http.sent) + g.sent && svc.sleeps == old(svc.sleeps) + g.sleeps
    // ... each step joins the update exactly when it produced a value ...
    ensures |results| == 4
      && (forall j :: 0 <= j < 4 ==> (Steps[j] in updates <==> results[j].Some?))
      && (forall j :: 0 <= j < 4 && results[j].Some? ==> updates[Steps[j]] == results[j].value)
    // ... each general field joins when the answer is a non-empty array that sets its key ...
    ensures forall f :: JsonKey(f).Some? ==>
      && (f in updates <==> general.Some? && general.value != map[] && Copied(general.value, f))
      && (f in updates ==> updates[f] == general.value[JsonKey(f).value])
    // ... and the update is written exactly when it holds a field.
    ensures updates == map[] ==>
      status == Failure && repo.records == old(repo.records) && repo.writes == old(repo.writes) && summary == []
    ensures updates != map[] ==>
      var before := old(repo.records)[id];
      && repo.writes == old(repo.writes) + [Updated(id, updates)]
      && (ApplyUpdates(before, updates).Some? ==>
            status == Success
            && repo.records == old(repo.records)[id := ApplyUpdates(before, updates).value]
            && summary == SummaryOf(updates, FieldOrder))
      && (ApplyUpdates(before, updates).None? ==>
            status == Failure && repo.records == old(repo.records) && summary == [])
    ensures Consistent(old(repo.records)) ==> Consistent(repo.records)
  {
    summary := [];
    var generated;
    generated, results, general := GenerateAll(svc, name);
    AssembleFacts(results);
    updates := MergeGeneral(generated, general);
    if updates == map[] {
      return Failure, summary, results, general, updates;
    }
    var ok := repo.Update(id, updates);
    if !ok {
      return Failure, summary, results, general, updates;
    }
    if Consistent(old(repo.records)) {
      UpdatePreservesConsistent(old(repo.records), id, updates);
    }
    summary := GenerationSummary(updates);
    status := Success;
  }

  /**
   * `execute`. `confirmOverwrite` is the user's answer to the overwrite
   * question. The ghost results say which record was chosen, what each step
   * and the general-fields call returned, and the update assembled from them.
   */
  method Execute(repo: Repository, svc: OpenAIService, rawName: Bytes, force: bool, confirmOverwrite: bool)
    returns (status: Status, summary: seq<Row>,
             ghost target: Option<Id>, ghost declined: bool,
             ghost results: seq<Option<Value>>, general: Option<map<Bytes, Value>>,
             updates: map<Field, Value>)
    modifies repo, svc, svc.http
    ensures var name := Trim(rawName);
      && (target.Some? <==> !IsEmpty(name) && NameTaken(old(repo.records), name))
      && (target.Some? ==> target.value in old(repo.records) && old(repo.records)[target.value].name == Some(name))
    ensures declined <==>
      target.Some? && !force && HasGeneratedContent(old(repo.records)[target.value]) && !confirmOverwrite
    // No ingredient, or the user declined: nothing is generated or written.
    ensures target.None? || declined ==>
      && status == (if declined then Success else Failure)
      && repo.records == old(repo.records) && repo.writes == old(repo.writes)
      && svc.http.sent == old(svc.http.sent) && svc.sleeps == old(svc.sleeps) && summary == []
    // Otherwise the four steps run in order, then the general-fields call ...
    ensures target.Some? && !declined ==>
      var g := Generate(EnvOf(svc), Trim(rawName), old(|svc.http.sent|), Steps);
      && results == g.results && general == g.general
      && svc.http.sent == old(svc.http.sent) + g.sent && svc.sleeps == old(svc.sleeps) + g.sleeps
    // ... each step joins the update exactly when it produced a value ...
    ensures target.Some? && !declined ==>
      && |results| == 4
      && (forall j :: 0 <= j < 4 ==> (Steps[j] in updates <==> results[j].Some?))
      && (forall j :: 0 <= j < 4 && results[j].Some? ==> updates[Steps[j]] == results[j].value)
    // ... each general field joins when the answer is a non-empty array that sets its key ...
    ensures target.Some? && !declined ==>
      forall f :: JsonKey(f).Some? ==>
        && (f in updates <==> general.Some? && general.value != map[] && Copied(general.value, f))
        && (f in updates ==> updates[f] == general.value[JsonKey(f).value])
    // ... and the update is written exactly when it holds a field.
    ensures target.Some? && !declined && updates == map[] ==>
      status == Failure && repo.records == old(repo.records) && repo.writes == old(repo.writes) && summary == []
    ensures target.Some? && !declined && updates != map[] ==>
      var before := old(repo.records)[target.value];
      && repo.writes == old(repo.writes) + [Updated(target.value, updates)]
      && (ApplyUpdates(before, updates).Some? ==>
            status == Success
            && repo.records == old(repo.records)[target.value := ApplyUpdates(before, updates).value]
            && summary == SummaryOf(updates, FieldOrder))
      && (ApplyUpdates(before, updates).None? ==>
            status == Failure && repo.records == old(repo.records) && summary == [])
    ensures Consistent(old(repo.records)) ==> Consistent(repo.records)
  {
    summary := [];
    target := None;
    declined := false;
    results := [];
    general := None;
    updates := map[];
    var name := Trim(rawName);
    if IsEmpty(name) {
      return Failure, summary, target, declined, results, general, updates;
    }
    var found := FindByName(repo.records, name);
    if found.None? {
      return Failure, summary, target, declined, results, general, updates;
    }
    var id := found.value;
    target := found;
    if !force && HasGeneratedContent(repo.records[id]) && !confirmOverwrite {
      declined := true;
      return Success, summary, target, declined, results, general, updates;
    }
    status, summary, results, general, updates := Regenerate(repo, svc, id, name);
  }
}
