/**
 * `OpenAIService`: prompt resolution, `{INGREDIENT_NAME}` substitution, the
 * request payload, the bounded retry loop, rating extraction and the decoding of
 * the general-fields answer.
 *
 * The HTTP endpoint is an oracle: the outcome of the n-th request a client
 * sends. JSON decoding, the system configuration and the prompt files are
 * values the service is built with.
 */
module OpenAI {
  import opened Wrappers
  import opened PhpString
  import opened Json

  const ApiUrl: Bytes := "https://api.openai.com/v1/chat/completions"
  /** `makeApiCall`'s default `$maxRetries`, the one every caller uses. */
  const MaxRetries: nat := 3
  const TokenLimit: nat := 2000
  /** The temperature 0.7, in tenths. */
  const TemperatureTenths: nat := 7
  const Placeholder: Bytes := "{INGREDIENT_NAME}"
  const ConfigPrefix: Bytes := "CodematicInci.config."

  // ---------------------------------------------------------------------------
  // Prompt templates
  // ---------------------------------------------------------------------------

  datatype Template = DescriptionPrompt | SafetyPrompt | MainFunctionsPrompt | RatingPrompt | GeneralFieldsPrompt

  /** The template name, which is also the prompt file's base name. */
  function TemplateName(t: Template): Bytes {
    match t
    case DescriptionPrompt => "description"
    case SafetyPrompt => "safety"
    case MainFunctionsPrompt => "main_functions"
    case RatingPrompt => "rating"
    case GeneralFieldsPrompt => "general_fields"
  }

  /** `$configKeyMap[$templateName]` */
  function ConfigKey(t: Template): Bytes {
    match t
    case DescriptionPrompt => "CodematicInci.config.descriptionPrompt"
    case SafetyPrompt => "CodematicInci.config.safetyPrompt"
    case MainFunctionsPrompt => "CodematicInci.config.mainFunctionsPrompt"
    case RatingPrompt => "CodematicInci.config.ratingPrompt"
    case GeneralFieldsPrompt => "CodematicInci.config.generalFieldsPrompt"
  }

  /** The bundled prompt file, relative to the plugin root. */
  function PromptPath(t: Template): Bytes {
    "prompts/" + TemplateName(t) + ".txt"
  }

  /** The byte that tells the templates apart, right after the key prefix and the directory. */
  function Initial(t: Template): Byte {
    match t
    case DescriptionPrompt => 'd'
    case SafetyPrompt => 's'
    case MainFunctionsPrompt => 'm'
    case RatingPrompt => 'r'
    case GeneralFieldsPrompt => 'g'
  }

  lemma KeyShape(t: Template)
    ensures |ConfigPrefix| < |ConfigKey(t)| && ConfigKey(t)[..|ConfigPrefix|] == ConfigPrefix
    ensures ConfigKey(t)[|ConfigPrefix|] == Initial(t)
  {
    match t
    case DescriptionPrompt =>
    case SafetyPrompt =>
    case MainFunctionsPrompt =>
    case RatingPrompt =>
    case GeneralFieldsPrompt =>
  }

  lemma PathShape(t: Template)
    ensures |PromptPath(t)| > 8 && PromptPath(t)[8] == Initial(t)
  {
    match t
    case DescriptionPrompt =>
    case SafetyPrompt =>
    case MainFunctionsPrompt =>
    case RatingPrompt =>
    case GeneralFieldsPrompt =>
  }


  /**
   * Every template has a config key and every key starts with the plugin's
   * prefix, so the guard before the config lookup always passes; and no two
   * templates share a key or a file.
   */
  lemma ConfigKeysWellFormed(t: Template, u: Template)
    ensures |ConfigPrefix| <= |ConfigKey(t)| && ConfigKey(t)[..|ConfigPrefix|] == ConfigPrefix
    ensures t != u ==> ConfigKey(t) != ConfigKey(u) && PromptPath(t) != PromptPath(u)
  {
    KeyShape(t);
    KeyShape(u);
    PathShape(t);
    PathShape(u);
  }

  /**
   * The prompt: the config value when it is truthy, otherwise the file's
   * contents when the file exists and they are truthy, otherwise nothing.
   */
  function ResolvePrompt(configValue: Option<Bytes>, fileValue: Option<Bytes>): (p: Option<Bytes>)
    ensures p.Some? <==> Truthy(configValue) || Truthy(fileValue)
    ensures Truthy(configValue) ==> p == configValue
    ensures !Truthy(configValue) ==> p == (if Truthy(fileValue) then fileValue else None)
  {
    if Truthy(configValue) then configValue
    else if Truthy(fileValue) then fileValue
    else None
  }

  /** The prompt actually sent: every placeholder replaced by the ingredient name. */
  function FillPrompt(template: Bytes, ingredientName: Bytes): Bytes {
    ReplaceAll(template, Placeholder, ingredientName)
  }

  /** A template without the placeholder is sent unchanged. */
  lemma FillPromptWithoutPlaceholder(template: Bytes, ingredientName: Bytes)
    requires !Contains(template, Placeholder)
    ensures FillPrompt(template, ingredientName) == template
  {
    ReplaceAllAbsent(template, Placeholder, ingredientName);
  }

  /**
   * One pass, left to right: a placeholder between two texts free of '{' is
   * replaced by the name, and text the name brings in is not searched again.
   */
  lemma FillPromptAround(before: Bytes, after: Bytes, ingredientName: Bytes)
    requires '{' !in before && '{' !in after
    ensures FillPrompt(before + Placeholder + after, ingredientName) == before + ingredientName + after
  {
    assert Placeholder[0] == '{';
    ReplaceAllFirst(before, Placeholder, ingredientName, after);
    ReplaceAllNoLead(after, Placeholder, ingredientName);
  }

  // ---------------------------------------------------------------------------
  // The request payload
  // ---------------------------------------------------------------------------

  datatype Message = Message(role: Bytes, content: Bytes)

  /** The JSON body of a chat-completions request. */
  datatype Payload = Payload(
    model: Bytes,
    messages: seq<Message>,
    maxCompletionTokens: Option<nat>,
    maxTokens: Option<nat>,
    temperatureTenths: Option<nat>)

  /** Models that take `max_completion_tokens` and no custom temperature. */
  predicate IsReasoningModel(model: Bytes) {
    Contains(model, "gpt-5") || Contains(model, "o1") || Contains(model, "o3")
  }

  /** The payload `makeApiCall` sends: one user message, and the token limit under the name the model expects. */
  function BuildPayload(prompt: Bytes, model: Bytes): (p: Payload)
    ensures p.model == model && p.messages == [Message("user", prompt)]
    ensures IsReasoningModel(model) ==>
              p.maxCompletionTokens == Some(TokenLimit) && p.maxTokens.None? && p.temperatureTenths.None?
    ensures !IsReasoningModel(model) ==>
              p.maxCompletionTokens.None? && p.maxTokens == Some(TokenLimit) && p.temperatureTenths == Some(TemperatureTenths)
  {
    var base := Payload(model, [Message("user", prompt)], None, None, None);
    if IsReasoningModel(model) then base.(maxCompletionTokens := Some(TokenLimit))
    else base.(maxTokens := Some(TokenLimit), temperatureTenths := Some(TemperatureTenths))
  }

  /** The token limit is sent under exactly one of its two names. */
  lemma PayloadHasOneTokenLimit(prompt: Bytes, model: Bytes)
    ensures var p := BuildPayload(prompt, model);
            p.maxCompletionTokens.Some? != p.maxTokens.Some?
            && (p.temperatureTenths.Some? <==> p.maxTokens.Some?)
  {
  }

  /** "gpt-4o" is not a reasoning model, so it gets `max_tokens` and a temperature. */
  lemma ClassicModelExample()
    ensures !IsReasoningModel("gpt-4o")
  {
    assert "gpt-5"[4] == '5' && "o1"[1] == '1' && "o3"[1] == '3';
    ContainsNeedsByte("gpt-4o", "gpt-5", '5');
    ContainsNeedsByte("gpt-4o", "o1", '1');
    ContainsNeedsByte("gpt-4o", "o3", '3');
  }

  /** "gpt-5-mini" is a reasoning model. */
  lemma Gpt5ModelExample()
    ensures IsReasoningModel("gpt-5-mini")
  {
    assert "gpt-5-mini"[..5] == "gpt-5";
  }

  /** "o3-mini" is a reasoning model. */
  lemma O3ModelExample()
    ensures IsReasoningModel("o3-mini")
  {
    assert "o3-mini"[..2] == "o3";
  }


  // ---------------------------------------------------------------------------
  // The retry loop, as a specification
  // ---------------------------------------------------------------------------

  /**
   * What one POST comes to: a response whose body decodes with
   * `choices[0].message.content` set, a response without it, or a Guzzle
   * exception.
   */
  datatype AttemptOutcome = Answered(content: Bytes) | Malformed | TransportError

  /** The result of the loop, the number of POSTs it made and the sleeps it asked for, in seconds. */
  datatype Trace = Trace(result: Option<Bytes>, posts: nat, sleeps: seq<nat>)

  /**
   * The loop from 0-based attempt `k` on, when the i-th attempt meets
   * `outcomes[i]`; there are `|outcomes|` attempts in all.
   */
  function Retry(outcomes: seq<AttemptOutcome>, k: nat): Trace
    decreases |outcomes| - k
  {
    if k >= |outcomes| then Trace(None, 0, [])
    else match outcomes[k]
      case Answered(content) => Trace(Some(Trim(content)), 1, [])
      case Malformed =>
        var rest := Retry(outcomes, k + 1);
        Trace(rest.result, rest.posts + 1, rest.sleeps)
      case TransportError =>
        if k + 1 == |outcomes| then Trace(None, 1, [])
        else
          var rest := Retry(outcomes, k + 1);
          Trace(rest.result, rest.posts + 1, [2 * (k + 1)] + rest.sleeps)
  }

  /** A trace that `done` sleeps and `posts` POSTs lead into. */
  function Resume(done: seq<nat>, posts: nat, t: Trace): Trace {
    Trace(t.result, posts + t.posts, done + t.sleeps)
  }

  /** No answer among attempts `k` to `j - 1`. */
  predicate NoAnswerIn(outcomes: seq<AttemptOutcome>, k: nat, j: nat)
    requires j <= |outcomes|
  {
    forall i :: k <= i < j ==> !outcomes[i].Answered?
  }

  /** Attempt `j` met an answer whose trimmed content is `text`. */
  predicate AnsweredAt(outcomes: seq<AttemptOutcome>, j: int, text: Bytes) {
    0 <= j < |outcomes| && outcomes[j].Answered? && text == Trim(outcomes[j].content)
  }

  /** An attempt without an answer, other than a last transport error, hands over to the next. */
  lemma RetryPasses(outcomes: seq<AttemptOutcome>, k: nat)
    requires k < |outcomes| && !outcomes[k].Answered?
    requires !(outcomes[k].TransportError? && k + 1 == |outcomes|)
    ensures Retry(outcomes, k).result == Retry(outcomes, k + 1).result
    ensures Retry(outcomes, k).posts == Retry(outcomes, k + 1).posts + 1
  {
  }

  /** The loop makes at most one POST per remaining attempt, and all of them when nothing answers. */
  lemma {:induction false} RetryPosts(outcomes: seq<AttemptOutcome>, k: nat)
    requires k <= |outcomes|
    ensures k + Retry(outcomes, k).posts <= |outcomes|
    ensures Retry(outcomes, k).result.None? <==> NoAnswerIn(outcomes, k, |outcomes|)
    ensures Retry(outcomes, k).result.None? ==> k + Retry(outcomes, k).posts == |outcomes|
    decreases |outcomes| - k
  {
    if k < |outcomes| {
      if outcomes[k].Answered? {
        assert Retry(outcomes, k).result.Some?;
      } else if outcomes[k].TransportError? && k + 1 == |outcomes| {
        assert Retry(outcomes, k) == Trace(None, 1, []);
      } else {
        RetryPosts(outcomes, k + 1);
        RetryPasses(outcomes, k);
      }
    }
  }

  /** An answer is the first one among the attempts made, and the last attempt made. */
  lemma {:induction false} RetryAnswer(outcomes: seq<AttemptOutcome>, k: nat)
    requires k <= |outcomes|
    ensures var t := Retry(outcomes, k);
      t.result.Some? ==> t.posts > 0 && AnsweredAt(outcomes, k + t.posts - 1, t.result.value)
                         && NoAnswerIn(outcomes, k, k + t.posts - 1)
    decreases |outcomes| - k
  {
    if k < |outcomes| {
      var t := Retry(outcomes, k);
      if outcomes[k].Answered? {
        assert t == Trace(Some(Trim(outcomes[k].content)), 1, []);
      } else if outcomes[k].TransportError? && k + 1 == |outcomes| {
        assert t.result.None?;
      } else {
        RetryPosts(outcomes, k + 1);
        RetryAnswer(outcomes, k + 1);
        RetryPasses(outcomes, k);
      }
    }
  }

  /**
   * The loop stops at the first answer and returns its trimmed content, having
   * made one POST per attempt up to it; with no answer it makes every attempt
   * and returns null.
   */
  lemma RetryResult(outcomes: seq<AttemptOutcome>, k: nat)
    requires k <= |outcomes|
    ensures var t := Retry(outcomes, k);
      && k + t.posts <= |outcomes|
      && (t.result.None? <==> NoAnswerIn(outcomes, k, |outcomes|))
      && (t.result.None? ==> k + t.posts == |outcomes|)
      && (t.result.Some? ==> t.posts > 0 && AnsweredAt(outcomes, k + t.posts - 1, t.result.value)
                              && NoAnswerIn(outcomes, k, k + t.posts - 1))
  {
    RetryPosts(outcomes, k);
    RetryAnswer(outcomes, k);
  }


  /** The sleep requested after attempt `i` (0-based), if any: 2 × its 1-based number after a transport error that is not the last attempt. */
  predicate SleepsAfter(outcomes: seq<AttemptOutcome>, i: nat)
    requires i < |outcomes|
  {
    outcomes[i].TransportError? && i + 1 < |outcomes|
  }

  /** Attempt `i` is one of those the loop made from `k` on and was followed by a sleep of `s` seconds. */
  predicate SleptFor(outcomes: seq<AttemptOutcome>, k: nat, posts: nat, i: int, s: int) {
    0 <= k <= i < k + posts && i < |outcomes| && SleepsAfter(outcomes, i) && s == 2 * (i + 1)
  }

  /**
   * The backoff is linear: the sleeps are exactly 2 × (i + 1) for each attempt
   * `i` that made a POST, failed in transport and was not the last, in
   * increasing order; there are fewer sleeps than attempts. A malformed answer
   * costs an attempt but no sleep.
   */
  lemma {:induction false} RetrySleeps(outcomes: seq<AttemptOutcome>, k: nat)
    requires k <= |outcomes|
    ensures var t := Retry(outcomes, k);
      && (forall s :: s in t.sleeps <==> exists i :: SleptFor(outcomes, k, t.posts, i, s))
      && (forall a, b :: 0 <= a < b < |t.sleeps| ==> t.sleeps[a] < t.sleeps[b])
      && (forall a :: 0 <= a < |t.sleeps| ==> 2 * (k + 1) <= t.sleeps[a])
      && (t.sleeps == [] || k + |t.sleeps| < |outcomes|)
    decreases |outcomes| - k
  {
    if k < |outcomes| {
      var t := Retry(outcomes, k);
      if outcomes[k].Answered? {
        assert t == Trace(Some(Trim(outcomes[k].content)), 1, []);
        forall s, i ensures !SleptFor(outcomes, k, t.posts, i, s) {
        }
      } else if outcomes[k].TransportError? && k + 1 == |outcomes| {
        assert t == Trace(None, 1, []);
      } else if outcomes[k].Malformed? {
        RetrySleeps(outcomes, k + 1);
        var rest := Retry(outcomes, k + 1);
        assert t == Trace(rest.result, rest.posts + 1, rest.sleeps);
        forall s ensures s in t.sleeps <==> exists i :: SleptFor(outcomes, k, t.posts, i, s) {
          if s in t.sleeps {
            var i :| SleptFor(outcomes, k + 1, rest.posts, i, s);
            assert SleptFor(outcomes, k, t.posts, i, s);
          }
          if exists i :: SleptFor(outcomes, k, t.posts, i, s) {
            var i :| SleptFor(outcomes, k, t.posts, i, s);
            assert SleptFor(outcomes, k + 1, rest.posts, i, s);
          }
        }
      } else {
        RetrySleeps(outcomes, k + 1);
        var rest := Retry(outcomes, k + 1);
        assert t == Trace(rest.result, rest.posts + 1, [2 * (k + 1)] + rest.sleeps);
        forall s ensures s in t.sleeps <==> exists i :: SleptFor(outcomes, k, t.posts, i, s) {
          if s in t.sleeps {
            if s == 2 * (k + 1) {
              assert SleptFor(outcomes, k, t.posts, k, s);
            } else {
              assert s in rest.sleeps;
              var i :| SleptFor(outcomes, k + 1, rest.posts, i, s);
              assert SleptFor(outcomes, k, t.posts, i, s);
            }
          }
          if exists i :: SleptFor(outcomes, k, t.posts, i, s) {
            var i :| SleptFor(outcomes, k, t.posts, i, s);
            if i > k {
              assert SleptFor(outcomes, k + 1, rest.posts, i, s);
            }
          }
        }
        forall a, b | 0 <= a < b < |t.sleeps| ensures t.sleeps[a] < t.sleeps[b] {
          assert t.sleeps[b] == rest.sleeps[b - 1];
          if a > 0 {
            assert t.sleeps[a] == rest.sleeps[a - 1];
          }
        }
      }
    }
  }

  /** With the three attempts every caller uses: at most three POSTs and sleeps of 2 and then 4 seconds at most. */
  lemma RetryDefaultSchedule(outcomes: seq<AttemptOutcome>)
    requires |outcomes| == MaxRetries
    ensures var t := Retry(outcomes, 0);
      t.posts <= 3 && |t.sleeps| <= 2 && (forall s :: s in t.sleeps ==> s == 2 || s == 4)
  {
    RetryResult(outcomes, 0);
    RetrySleeps(outcomes, 0);
    var t := Retry(outcomes, 0);
    forall s | s in t.sleeps ensures s == 2 || s == 4 {
      var i :| SleptFor(outcomes, 0, t.posts, i, s);
    }
  }

  /** Three transport errors in a row: three POSTs, sleeps of 2 and 4 seconds, and null. */
  lemma RetryAllTransportErrors()
    ensures Retry([TransportError, TransportError, TransportError], 0) == Trace(None, 3, [2, 4])
  {
  }

  // ---------------------------------------------------------------------------
  // Rating extraction
  // ---------------------------------------------------------------------------

  /** The maximal run of digits `s` starts with. */
  function LeadingDigits(s: Bytes): (d: Bytes)
    ensures |d| <= |s| && d == s[..|d|] && AllDigits(d)
    ensures |d| < |s| ==> !IsDigit(s[|d|])
    decreases |s|
  {
    if s != [] && IsDigit(s[0]) then
      var rest := LeadingDigits(s[1..]);
      assert [s[0]] + rest == s[..|rest| + 1];
      [s[0]] + rest
    else []
  }

  /** The text `(\d+)` matches first: the leftmost maximal run of digits. */
  function FirstDigitRun(s: Bytes): (run: Option<Bytes>)
    ensures run.Some? ==> |run.value| > 0 && AllDigits(run.value)
    ensures run.None? <==> forall i :: 0 <= i < |s| ==> !IsDigit(s[i])
    decreases |s|
  {
    if s == [] then None
    else if IsDigit(s[0]) then Some(LeadingDigits(s))
    else
      var run := FirstDigitRun(s[1..]);
      assert forall i :: 1 <= i < |s| ==> s[i] == s[1..][i - 1];
      run
  }

  /**
   * `generateRating` after the template call: the first run of digits of the
   * trimmed answer, read as a decimal number, kept only in 1..3.
   */
  function ExtractRating(answer: Bytes): (rating: Option<int>)
    ensures rating.Some? ==> 1 <= rating.value <= 3
  {
    match FirstDigitRun(Trim(answer))
    case None => None
    case Some(run) =>
      var n := DigitsValue(run);
      if 1 <= n <= 3 then Some(n) else None
  }

  /** Text without digits in front of a run does not change which run is first. */
  lemma {:induction false} FirstDigitRunSkips(before: Bytes, s: Bytes)
    requires forall i :: 0 <= i < |before| ==> !IsDigit(before[i])
    ensures FirstDigitRun(before + s) == FirstDigitRun(s)
    decreases |before|
  {
    if before != [] {
      assert (before + s)[1..] == before[1..] + s;
      FirstDigitRunSkips(before[1..], s);
    } else {
      assert before + s == s;
    }
  }

  /** Text without digits after a string does not change its first run. */
  lemma {:induction false} FirstDigitRunIgnoresTail(s: Bytes, after: Bytes)
    requires forall i :: 0 <= i < |after| ==> !IsDigit(after[i])
    ensures FirstDigitRun(s + after) == FirstDigitRun(s)
    decreases |s|
  {
    if s == [] {
      assert s + after == after;
    } else if IsDigit(s[0]) {
      LeadingDigitsIgnoresTail(s, after);
    } else {
      assert (s + after)[1..] == s[1..] + after;
      FirstDigitRunIgnoresTail(s[1..], after);
    }
  }

  lemma {:induction false} LeadingDigitsIgnoresTail(s: Bytes, after: Bytes)
    requires forall i :: 0 <= i < |after| ==> !IsDigit(after[i])
    ensures LeadingDigits(s + after) == LeadingDigits(s)
    decreases |s|
  {
    if s == [] {
      assert s + after == after;
    } else if IsDigit(s[0]) {
      assert (s + after)[1..] == s[1..] + after;
      LeadingDigitsIgnoresTail(s[1..], after);
    }
  }

  /** A run of digits followed by a non-digit is the leading run. */
  lemma {:induction false} LeadingDigitsOf(d: Bytes, after: Bytes)
    requires AllDigits(d)
    requires after == [] || !IsDigit(after[0])
    ensures LeadingDigits(d + after) == d
    decreases |d|
  {
    if d == [] {
      assert d + after == after;
    } else {
      assert (d + after)[1..] == d[1..] + after;
      LeadingDigitsOf(d[1..], after);
    }
  }

  /** A string whose ends are whitespace, split into the two ends and what lies between. */
  lemma SplitBetweenWhitespace(s: Bytes, i: int, j: int)
    requires 0 <= i <= j <= |s|
    requires forall k :: 0 <= k < i ==> s[k] in Whitespace
    requires forall k :: j <= k < |s| ==> s[k] in Whitespace
    ensures s == s[..i] + (s[i..j] + s[j..])
    ensures forall k :: 0 <= k < |s[..i]| ==> !IsDigit(s[..i][k])
    ensures forall k :: 0 <= k < |s[j..]| ==> !IsDigit(s[j..][k])
  {
    forall k | 0 <= k < i ensures !IsDigit(s[..i][k]) {
      assert s[k] in Whitespace;
    }
    forall k | 0 <= k < |s| - j ensures !IsDigit(s[j..][k]) {
      assert s[j + k] in Whitespace;
    }
  }

  /** Cutting whitespace off both ends of a string keeps its first run of digits. */
  lemma FirstDigitRunBetween(s: Bytes, i: int, j: int)
    requires 0 <= i <= j <= |s|
    requires forall k :: 0 <= k < i ==> s[k] in Whitespace
    requires forall k :: j <= k < |s| ==> s[k] in Whitespace
    ensures FirstDigitRun(s[i..j]) == FirstDigitRun(s)
  {
    SplitBetweenWhitespace(s, i, j);
    FirstDigitRunSkips(s[..i], s[i..j] + s[j..]);
    FirstDigitRunIgnoresTail(s[i..j], s[j..]);
  }

  /** Trimming whitespace never changes the first run of digits. */
  lemma FirstDigitRunOfTrim(s: Bytes)
    ensures FirstDigitRun(Trim(s)) == FirstDigitRun(s)
  {
    var r := Trim(s);
    var i, j := TrimBytesSlice(s, Whitespace);
    FirstDigitRunBetween(s, i, j);
  }

  /**
   * The rating is read from the first number in the answer: text without digits,
   * then the decimal numeral of `n`, then anything not starting with a digit
   * gives `n` when it is 1, 2 or 3 and null otherwise — so "10" is not read as 1.
   */
  lemma RatingOfFirstNumber(before: Bytes, n: nat, after: Bytes)
    requires forall i :: 0 <= i < |before| ==> !IsDigit(before[i])
    requires after == [] || !IsDigit(after[0])
    ensures ExtractRating(before + NatText(n) + after) == if 1 <= n <= 3 then Some(n) else None
  {
    var d := NatText(n);
    var tail := d + after;
    ConcatAssoc(before, d, after);
    FirstDigitRunOfTrim(before + tail);
    FirstDigitRunSkips(before, tail);
    assert tail[0] == d[0];
    LeadingDigitsOf(d, after);
    assert FirstDigitRun(tail) == Some(d);
    NatTextValue(n);
  }

  lemma ConcatAssoc(a: Bytes, b: Bytes, c: Bytes)
    ensures a + b + c == a + (b + c)
  {
  }

  /** An answer without any digit gives no rating. */
  lemma RatingWithoutDigits(answer: Bytes)
    requires forall i :: 0 <= i < |answer| ==> !IsDigit(answer[i])
    ensures ExtractRating(answer) == None
  {
    FirstDigitRunOfTrim(answer);
  }

  // ---------------------------------------------------------------------------
  // General fields
  // ---------------------------------------------------------------------------

  /**
   * `generateGeneralFields` after the template call: the decoded array, or null
   * when the answer is not valid JSON or decodes to null.
   */
  function DecodeGeneralFields(decoded: Option<Value>): (fields: Option<map<Bytes, Value>>)
    ensures fields.Some? <==> decoded.Some? && decoded.value.JArray?
    ensures fields.Some? ==> fields.value == decoded.value.entries
  {
    match decoded
    case Some(JArray(entries)) => Some(entries)
    case _ => None
  }

  // ---------------------------------------------------------------------------
  // The HTTP client and the service
  // ---------------------------------------------------------------------------

  /** The HTTP client: every POST is logged, and the n-th one meets `oracle(n)`. */
  class HttpClient {
    const oracle: nat -> AttemptOutcome
    var sent: seq<Payload>

    constructor(oracle: nat -> AttemptOutcome)
      ensures this.oracle == oracle && sent == []
    {
      this.oracle := oracle;
      sent := [];
    }

    /** `post(API_URL, ['json' => $payload, ...])` */
    method Post(payload: Payload) returns (outcome: AttemptOutcome)
      modifies this
      ensures sent == old(sent) + [payload]
      ensures outcome == oracle(|old(sent)|)
    {
      outcome := oracle(|sent|);
      sent := sent + [payload];
    }
  }

  /** One attempt without an answer, other than a last transport error, and the loop goes on. */
  lemma RetryStep(outcomes: seq<AttemptOutcome>, k: nat)
    requires k < |outcomes| && !outcomes[k].Answered?
    requires !(outcomes[k].TransportError? && k + 1 == |outcomes|)
    ensures Retry(outcomes, k)
         == Resume(if outcomes[k].TransportError? then [2 * (k + 1)] else [], 1, Retry(outcomes, k + 1))
  {
  }

  /** Resuming twice is resuming once with both prefixes. */
  lemma ResumeResume(done: seq<nat>, posts: nat, done': seq<nat>, posts': nat, t: Trace)
    ensures Resume(done, posts, Resume(done', posts', t)) == Resume(done + done', posts + posts', t)
  {
    assert done + (done' + t.sleeps) == done + done' + t.sleeps;
  }

  /** An answer at attempt `k` ends the loop with that answer, trimmed. */
  lemma ResumeAnswered(done: seq<nat>, k: nat, outcomes: seq<AttemptOutcome>)
    requires k < |outcomes| && outcomes[k].Answered?
    ensures Resume(done, k, Retry(outcomes, k)) == Trace(Some(Trim(outcomes[k].content)), k + 1, done)
  {
    assert done + [] == done;
  }

  /**
   * An attempt without an answer, other than a last transport error, leaves the
   * loop going on to the next attempt, with one more sleep after a transport error.
   */
  lemma RetryGoesOn(outcomes: seq<AttemptOutcome>, k: nat, slept: seq<nat>) returns (slept': seq<nat>)
    requires k < |outcomes| && !outcomes[k].Answered?
    requires !(outcomes[k].TransportError? && k + 1 == |outcomes|)
    requires Retry(outcomes, 0) == Resume(slept, k, Retry(outcomes, k))
    ensures slept' == slept + if outcomes[k].TransportError? then [2 * (k + 1)] else []
    ensures Retry(outcomes, 0) == Resume(slept', k + 1, Retry(outcomes, k + 1))
  {
    var pause: seq<nat> := if outcomes[k].TransportError? then [2 * (k + 1)] else [];
    RetryStep(outcomes, k);
    ResumeResume(slept, k, pause, 1, Retry(outcomes, k + 1));
    slept' := slept + pause;
  }

  /** A transport error on the last attempt ends the loop without an answer. */
  lemma ResumeLast(slept: seq<nat>, outcomes: seq<AttemptOutcome>)
    requires |outcomes| > 0 && outcomes[|outcomes| - 1].TransportError?
    requires Retry(outcomes, 0) == Resume(slept, |outcomes| - 1, Retry(outcomes, |outcomes| - 1))
    ensures Retry(outcomes, 0) == Trace(None, |outcomes|, slept)
  {
    assert Retry(outcomes, |outcomes| - 1) == Trace(None, 1, []);
    assert slept + [] == slept;
  }

  /** With every attempt made the loop ends without an answer. */
  lemma ResumeExhausted(slept: seq<nat>, outcomes: seq<AttemptOutcome>)
    requires Retry(outcomes, 0) == Resume(slept, |outcomes|, Retry(outcomes, |outcomes|))
    ensures Retry(outcomes, 0) == Trace(None, |outcomes|, slept)
  {
    assert slept + [] == slept;
  }

  /** The outcome of one of the next POSTs. */
  lemma OutcomesAt(oracle: nat -> AttemptOutcome, start: nat, n: nat, i: nat)
    requires i < n
    ensures |Outcomes(oracle, start, n)| == n && Outcomes(oracle, start, n)[i] == oracle(start + i)
  {
  }

  /** `n` copies of the payload. */
  function Repeat(p: Payload, n: nat): (ps: seq<Payload>)
    ensures |ps| == n && forall i :: 0 <= i < n ==> ps[i] == p
  {
    seq(n, _ => p)
  }

  lemma RepeatOneMore(p: Payload, n: nat)
    ensures Repeat(p, n) + [p] == Repeat(p, n + 1)
  {
  }

  /** The outcomes of POSTs number `start` to `start + n - 1`. */
  function Outcomes(oracle: nat -> AttemptOutcome, start: nat, n: nat): seq<AttemptOutcome> {
    seq(n, i requires 0 <= i < n => oracle(start + i))
  }

  /**
   * A template call whose prompt resolved to `prompt` and whose first POST
   * would be POST number `pos`: nothing at all without a prompt, otherwise the
   * retry loop over the outcomes the endpoint has in store from there on.
   */
  function CallTrace(oracle: nat -> AttemptOutcome, prompt: Option<Bytes>, pos: nat): Trace {
    if prompt.None? then Trace(None, 0, [])
    else Retry(Outcomes(oracle, pos, MaxRetries), 0)
  }

  /** The requests such a call sends in `posts` attempts: the payload of the filled prompt each time. */
  function CallRequests(prompt: Option<Bytes>, model: Bytes, ingredientName: Bytes, posts: nat): seq<Payload> {
    if prompt.None? then []
    else Repeat(BuildPayload(FillPrompt(prompt.value, ingredientName), model), posts)
  }

  /**
   * A template call sends one request per POST it makes, at most
   * `MaxRetries`, and none when no prompt resolved.
   */
  lemma CallBounds(oracle: nat -> AttemptOutcome, prompt: Option<Bytes>, model: Bytes, ingredientName: Bytes, pos: nat)
    ensures var tr := CallTrace(oracle, prompt, pos);
      && |CallRequests(prompt, model, ingredientName, tr.posts)| == tr.posts <= MaxRetries
      && (prompt.None? ==> tr.posts == 0 && tr.result.None? && tr.sleeps == [])
  {
    if prompt.Some? {
      RetryResult(Outcomes(oracle, pos, MaxRetries), 0);
    }
  }

  class OpenAIService {
    const model: Bytes
    /** The system configuration in effect for the request, by key. */
    const config: map<Bytes, Bytes>
    /** The plugin's bundled prompt files, by path. */
    const promptFiles: map<Bytes, Bytes>
    /** `json_decode($text, true)`: `None` when the text is not valid JSON. */
    const jsonDecode: Bytes -> Option<Value>
    const http: HttpClient
    /** Every `sleep` the service asked for, in seconds. */
    ghost var sleeps: seq<nat>

    constructor(model: Bytes, config: map<Bytes, Bytes>, promptFiles: map<Bytes, Bytes>,
                jsonDecode: Bytes -> Option<Value>, http: HttpClient)
      ensures this.model == model && this.config == config && this.promptFiles == promptFiles
      ensures this.jsonDecode == jsonDecode && this.http == http && sleeps == []
    {
      this.model := model;
      this.config := config;
      this.promptFiles := promptFiles;
      this.jsonDecode := jsonDecode;
      this.http := http;
      sleeps := [];
    }

    /** The next `n` outcomes the endpoint has in store for this client. */
    function Upcoming(n: nat): seq<AttemptOutcome>
      reads http
    {
      Outcomes(http.oracle, |http.sent|, n)
    }

    /** The prompt for a template, before substitution. */
    function PromptFor(t: Template): Option<Bytes> {
      var configValue := if ConfigKey(t) in config then Some(config[ConfigKey(t)]) else None;
      var fileValue := if PromptPath(t) in promptFiles then Some(promptFiles[PromptPath(t)]) else None;
      ResolvePrompt(configValue, fileValue)
    }

    /** What a call of template `t` comes to when its first POST would be POST number `pos`. */
    function TemplateTrace(t: Template, pos: nat): Trace {
      CallTrace(http.oracle, PromptFor(t), pos)
    }

    /** The requests that call sends in `posts` attempts. */
    function TemplateRequests(t: Template, ingredientName: Bytes, posts: nat): seq<Payload> {
      CallRequests(PromptFor(t), model, ingredientName, posts)
    }

    /**
     * `makeApiCall`: at most `maxRetries` POSTs of the same payload, stopping at
     * the first answer; its result, POSTs and sleeps are those `Retry` gives
     * for the outcomes the endpoint has in store.
     */
    method MakeApiCall(prompt: Bytes, maxRetries: nat) returns (result: Option<Bytes>)
      modifies this, http
      ensures var t := Retry(old(Upcoming(maxRetries)), 0);
        && result == t.result
        && http.sent == old(http.sent) + Repeat(BuildPayload(prompt, model), t.posts)
        && sleeps == old(sleeps) + t.sleeps
    {
      var payload := BuildPayload(prompt, model);
      ghost var sent0 := http.sent;
      ghost var outcomes := Outcomes(http.oracle, |sent0|, maxRetries);
      ghost var slept: seq<nat> := [];
      var attempt := 1;
      while attempt <= maxRetries
        invariant 1 <= attempt <= maxRetries + 1
        invariant http.sent == sent0 + Repeat(payload, attempt - 1)
        invariant sleeps == old(sleeps) + slept
        invariant Retry(outcomes, 0) == Resume(slept, attempt - 1, Retry(outcomes, attempt - 1))
        decreases maxRetries + 1 - attempt
      {
        var outcome := http.Post(payload);
        OutcomesAt(http.oracle, |sent0|, maxRetries, attempt - 1);
        RepeatOneMore(payload, attempt - 1);
        if outcome.Answered? {
          ResumeAnswered(slept, attempt - 1, outcomes);
          return Some(Trim(outcome.content));
        }
        if outcome.TransportError? && attempt == maxRetries {
          ResumeLast(slept, outcomes);
          return None;
        }
        slept := RetryGoesOn(outcomes, attempt - 1, slept);
        if outcome.TransportError? {
          sleeps := sleeps + [attempt * 2];
        }
        attempt := attempt + 1;
      }
      ResumeExhausted(slept, outcomes);
      result := None;
    }

    /**
     * `generateFromTemplate`: null, with no request, when no prompt resolves;
     * otherwise the API call with every placeholder replaced by the name.
     */
    method GenerateFromTemplate(t: Template, ingredientName: Bytes) returns (result: Option<Bytes>)
      modifies this, http
      ensures PromptFor(t).None? ==>
                result.None? && http.sent == old(http.sent) && sleeps == old(sleeps)
      ensures PromptFor(t).Some? ==>
                var tr := Retry(old(Upcoming(MaxRetries)), 0);
                && result == tr.result
                && http.sent == old(http.sent) + Repeat(BuildPayload(FillPrompt(PromptFor(t).value, ingredientName), model), tr.posts)
                && sleeps == old(sleeps) + tr.sleeps
      ensures var tr := TemplateTrace(t, old(|http.sent|));
        && result == tr.result
        && http.sent == old(http.sent) + TemplateRequests(t, ingredientName, tr.posts)
        && sleeps == old(sleeps) + tr.sleeps
    {
      var prompt := PromptFor(t);
      if prompt.None? {
        return None;
      }
      result := MakeApiCall(FillPrompt(prompt.value, ingredientName), MaxRetries);
    }

    /** `generateDescription` */
    method GenerateDescription(ingredientName: Bytes) returns (result: Option<Bytes>)
      modifies this, http
      ensures PromptFor(DescriptionPrompt).None? ==> result.None? && http.sent == old(http.sent)
      ensures var tr := TemplateTrace(DescriptionPrompt, old(|http.sent|));
        && result == tr.result
        && http.sent == old(http.sent) + TemplateRequests(DescriptionPrompt, ingredientName, tr.posts)
        && sleeps == old(sleeps) + tr.sleeps
    {
      result := GenerateFromTemplate(DescriptionPrompt, ingredientName);
    }

    /** `generateMainFunctions` */
    method GenerateMainFunctions(ingredientName: Bytes) returns (result: Option<Bytes>)
      modifies this, http
      ensures PromptFor(MainFunctionsPrompt).None? ==> result.None? && http.sent == old(http.sent)
      ensures var tr := TemplateTrace(MainFunctionsPrompt, old(|http.sent|));
        && result == tr.result
        && http.sent == old(http.sent) + TemplateRequests(MainFunctionsPrompt, ingredientName, tr.posts)
        && sleeps == old(sleeps) + tr.sleeps
    {
      result := GenerateFromTemplate(MainFunctionsPrompt, ingredientName);
    }

    /** `generateSafetyInformation` */
    method GenerateSafetyInformation(ingredientName: Bytes) returns (result: Option<Bytes>)
      modifies this, http
      ensures PromptFor(SafetyPrompt).None? ==> result.None? && http.sent == old(http.sent)
      ensures var tr := TemplateTrace(SafetyPrompt, old(|http.sent|));
        && result == tr.result
        && http.sent == old(http.sent) + TemplateRequests(SafetyPrompt, ingredientName, tr.posts)
        && sleeps == old(sleeps) + tr.sleeps
    {
      result := GenerateFromTemplate(SafetyPrompt, ingredientName);
    }

    /** `generateRating`: null when the template call gives null, otherwise the extracted rating. */
    method GenerateRating(ingredientName: Bytes) returns (rating: Option<int>)
      modifies this, http
      ensures rating.Some? ==> 1 <= rating.value <= 3
      ensures PromptFor(RatingPrompt).None? ==> rating.None? && http.sent == old(http.sent)
      ensures var tr := TemplateTrace(RatingPrompt, old(|http.sent|));
        && rating == (if tr.result.Some? then ExtractRating(tr.result.value) else None)
        && http.sent == old(http.sent) + TemplateRequests(RatingPrompt, ingredientName, tr.posts)
        && sleeps == old(sleeps) + tr.sleeps
    {
      var answer := GenerateFromTemplate(RatingPrompt, ingredientName);
      if answer.None? {
        return None;
      }
      rating := ExtractRating(answer.value);
    }

    /**
     * `generateGeneralFields`: the same prompt resolution and call as the
     * `general_fields` template, then the answer decoded as a JSON array.
     */
    method GenerateGeneralFields(ingredientName: Bytes) returns (fields: Option<map<Bytes, Value>>)
      modifies this, http
      ensures PromptFor(GeneralFieldsPrompt).None? ==> fields.None? && http.sent == old(http.sent)
      ensures var tr := TemplateTrace(GeneralFieldsPrompt, old(|http.sent|));
        && fields == (if tr.result.Some? then DecodeGeneralFields(jsonDecode(tr.result.value)) else None)
        && http.sent == old(http.sent) + TemplateRequests(GeneralFieldsPrompt, ingredientName, tr.posts)
        && sleeps == old(sleeps) + tr.sleeps
    {
      var answer := GenerateFromTemplate(GeneralFieldsPrompt, ingredientName);
      if answer.None? {
        return None;
      }
      fields := DecodeGeneralFields(jsonDecode(answer.value));
    }
  }
}
