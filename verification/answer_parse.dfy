/**
 * How `get_ai_insights_and_chart_data` (backend/insight_module.py) reads
 * the two model replies: the greedy `\{.*\}` block (with `re.DOTALL`), the
 * planner's `data_parameters`, and the answer's `insight` and `chart`
 * fields with their defaults. The model calls and `json.loads` are inputs:
 * `loads` returns `None` when the text is not valid JSON.
 */
module AnswerParse {

  import opened Wrappers
  import opened Text
  import opened Json

  function FirstIndexOf(s: string, c: char): (r: Option<nat>)
    ensures r.Some? ==> r.value < |s| && s[r.value] == c && c !in s[..r.value]
    ensures r.Some? ==> forall k :: 0 <= k < r.value ==> s[k] != c
    ensures r.None? <==> c !in s
    ensures r.None? ==> forall k :: 0 <= k < |s| ==> s[k] != c
  {
    if |s| == 0 then None
    else if s[0] == c then Some(0)
    else
      match FirstIndexOf(s[1..], c)
      case None => None
      case Some(k) =>
        assert s[..k + 1] == [s[0]] + s[1..][..k];
        Some(k + 1)
  }

  function LastIndexOf(s: string, c: char): (r: Option<nat>)
    ensures r.Some? ==> r.value < |s| && s[r.value] == c && c !in s[r.value + 1..]
    ensures r.Some? ==> forall k :: r.value < k < |s| ==> s[k] != c
    ensures r.None? <==> c !in s
    ensures r.None? ==> forall k :: 0 <= k < |s| ==> s[k] != c
    decreases |s|
  {
    if |s| == 0 then None
    else if s[|s| - 1] == c then Some(|s| - 1)
    else
      match LastIndexOf(s[..|s| - 1], c)
      case None =>
        assert s == s[..|s| - 1] + [s[|s| - 1]];
        None
      case Some(k) =>
        assert s[k + 1..] == s[..|s| - 1][k + 1..] + [s[|s| - 1]];
        Some(k)
  }

  /**
   * `re.search(r'\{.*\}', s, re.DOTALL)`: the leftmost `{` that has a `}`
   * somewhere after it, through the last `}` of the text.
   */
  function JsonBlock(s: string): (r: Option<string>)
    ensures r.Some? <==> exists i, j :: 0 <= i < j < |s| && s[i] == '{' && s[j] == '}'
    ensures r.Some? ==> |r.value| >= 2 && r.value[0] == '{' && r.value[|r.value| - 1] == '}'
  {
    match (FirstIndexOf(s, '{'), LastIndexOf(s, '}'))
    case (Some(i), Some(j)) =>
      if i < j then Some(s[i..j + 1])
      else None
    case (_, _) => None
  }

  /** The block is exactly the braces-delimited middle when the text around it has no stray braces. */
  lemma JsonBlockOfWrapped(before: string, body: string, after: string)
    requires '{' !in before && '}' !in after
    ensures JsonBlock(before + "{" + body + "}" + after) == Some("{" + body + "}")
  {
    var block := "{" + body + "}";
    var s := before + block + after;
    assert s == before + "{" + body + "}" + after;
    var i := |before|;
    var j := |before| + |block| - 1;
    assert s[..i] == before;
    assert s[i..j + 1] == block;
    assert s[j + 1..] == after;
    assert s[i] == block[0] == '{';
    assert s[j] == block[|block| - 1] == '}';
    FirstIndexOfAt(s, '{', i);
    LastIndexOfAt(s, '}', j);
  }

  lemma FirstIndexOfAt(s: string, c: char, i: nat)
    requires i < |s| && s[i] == c && c !in s[..i]
    ensures FirstIndexOf(s, c) == Some(i)
  {
    assert s[i] in s;
    assert forall k :: 0 <= k < i ==> s[k] != c by {
      forall k | 0 <= k < i ensures s[k] != c {
        assert s[..i][k] == s[k];
      }
    }
  }

  lemma LastIndexOfAt(s: string, c: char, j: nat)
    requires j < |s| && s[j] == c && c !in s[j + 1..]
    ensures LastIndexOf(s, c) == Some(j)
  {
    assert s[j] in s;
    assert forall k :: j < k < |s| ==> s[k] != c by {
      forall k | j < k < |s| ensures s[k] != c {
        assert s[j + 1..][k - j - 1] == s[k];
      }
    }
  }

  /** A reply with no `{` at all has no block. */
  lemma NoBraceNoBlock(s: string)
    requires '{' !in s
    ensures JsonBlock(s) == None
  {
  }

  // ---------------------------------------------------------------------------
  // The answer reply
  // ---------------------------------------------------------------------------

  const NoInsight: string := "No insight provided."

  /** `{"type": "none"}` */
  function NoChart(): Value {
    Obj(map["type" := Str("none")])
  }

  /** The two fields returned to the client, or the generic "unexpected error" path. */
  datatype Answer =
    | Answer(fullAnswer: Value, chart: Value)
    | AnswerFailed   // "An unexpected error occurred: ..." with the exception's own text

  /**
   * The answer reply: without a block the whole (stripped) reply is the
   * answer and there is no chart; with a block that parses to an object,
   * `insight` and `chart` are read with their defaults; a block that does
   * not parse, or parses to something without `.get`, raises.
   */
  function ParseAnswer(reply: string, loads: string -> Option<Value>): (r: Answer)
    ensures JsonBlock(Strip(reply)).None? ==> r == Answer(Str(Strip(reply)), NoChart())
    ensures r.AnswerFailed? <==>
      JsonBlock(Strip(reply)).Some? && !(loads(JsonBlock(Strip(reply)).value).Some?
                                         && loads(JsonBlock(Strip(reply)).value).value.Obj?)
    ensures r.Answer? && JsonBlock(Strip(reply)).Some? ==>
      var m := loads(JsonBlock(Strip(reply)).value).value.fields;
      ("insight" in m ==> r.fullAnswer == m["insight"]) && ("insight" !in m ==> r.fullAnswer == Str(NoInsight))
      && ("chart" in m ==> r.chart == m["chart"]) && ("chart" !in m ==> r.chart == NoChart())
  {
    var text := Strip(reply);
    match JsonBlock(text)
    case None => Answer(Str(text), NoChart())
    case Some(block) =>
      match loads(block)
      case Some(Obj(m)) => Answer(PyGetOr(m, "insight", Str(NoInsight)), PyGetOr(m, "chart", NoChart()))
      case _ => AnswerFailed
  }

  /** A parsed object without `insight` or `chart` gets both defaults. */
  lemma AnswerDefaults(before: string, body: string, after: string, loads: string -> Option<Value>)
    requires '{' !in before && '}' !in after
    requires var t := before + "{" + body + "}" + after; Strip(t) == t
    requires loads("{" + body + "}") == Some(Obj(map[]))
    ensures ParseAnswer(before + "{" + body + "}" + after, loads) == Answer(Str(NoInsight), NoChart())
  {
    JsonBlockOfWrapped(before, body, after);
  }

  /** Speech is in Nepali when the question mentions the language, in English otherwise. */
  function SpeechLanguage(question: string): (r: string)
    ensures r == "ne" || r == "en"
    ensures r == "ne" <==> Contains(Lower(question), "नेपाली") || Contains(Lower(question), "nepali")
  {
    if Contains(Lower(question), "नेपाली") || Contains(Lower(question), "nepali") then "ne" else "en"
  }

  // ---------------------------------------------------------------------------
  // The planner reply
  // ---------------------------------------------------------------------------

  const NoDatabaseMessage: string :=
    "User sales data not found. Please ensure you have added sales data for this phone number."
  const NoPlanMessage: string := "AI could not plan data retrieval. Please rephrase."

  /** What the planning step leads to. */
  datatype PlanStep =
    | Stop(message: string)       // returned as `full_answer` with chart type "none"
    | StopUnexpected              // "An unexpected error occurred: ..." with the exception's own text
    | NoParams                    // proceed with the "no_params" status
    | Fetch(params: Value)        // proceed with `fetch_specific_data_for_llm_analysis(params)`

  /** Python's `s[:n]`. */
  function Prefix(s: string, n: nat): (r: string)
    ensures |r| == if |s| < n then |s| else n
    ensures r == s[..|r|]
  {
    if |s| <= n then s else s[..n]
  }

  /**
   * The planner reply: a missing database stops first; no block stops with
   * the rephrase message; a block that is not JSON stops with the first
   * 200 characters of the reply; a falsy `data_parameters` (missing means
   * `{}`) proceeds without data.
   */
  function PlanFromReply(dbExists: bool, reply: string, loads: string -> Option<Value>): (r: PlanStep)
    ensures !dbExists ==> r == Stop(NoDatabaseMessage)
    ensures dbExists && JsonBlock(Strip(reply)).None? ==> r == Stop(NoPlanMessage)
    ensures r.Fetch? ==> PyTruthy(r.params)
    ensures r.NoParams? || r.Fetch? ==>
      dbExists && JsonBlock(Strip(reply)).Some? && loads(JsonBlock(Strip(reply)).value).Some?
      && loads(JsonBlock(Strip(reply)).value).value.Obj?
    // a block `json.loads` rejects: stop with the reply's first 200 characters
    ensures dbExists && JsonBlock(Strip(reply)).Some? && loads(JsonBlock(Strip(reply)).value).None? ==>
      r == Stop("AI response parsing error. Raw LLM response: " + Prefix(Strip(reply), 200) + "...")
    // a parsed value that is not an object: its `.get` raises
    ensures (dbExists && JsonBlock(Strip(reply)).Some? && loads(JsonBlock(Strip(reply)).value).Some?
             && !loads(JsonBlock(Strip(reply)).value).value.Obj?) ==> r == StopUnexpected
    // a parsed object: fetch with `data_parameters` when it is truthy, otherwise proceed without data
    ensures (dbExists && JsonBlock(Strip(reply)).Some? && loads(JsonBlock(Strip(reply)).value).Some?
             && loads(JsonBlock(Strip(reply)).value).value.Obj?) ==>
      r == (if PyTruthy(PyGetOr(loads(JsonBlock(Strip(reply)).value).value.fields, "data_parameters", Obj(map[])))
            then Fetch(PyGetOr(loads(JsonBlock(Strip(reply)).value).value.fields, "data_parameters", Obj(map[])))
            else NoParams)
  {
    if !dbExists then Stop(NoDatabaseMessage)
    else
      var text := Strip(reply);
      match JsonBlock(text)
      case None => Stop(NoPlanMessage)
      case Some(block) =>
        match loads(block)
        case None => Stop("AI response parsing error. Raw LLM response: " + Prefix(text, 200) + "...")
        case Some(Obj(m)) =>
          var dp := PyGetOr(m, "data_parameters", Obj(map[]));
          if PyTruthy(dp) then Fetch(dp) else NoParams
        case Some(_) => StopUnexpected
  }

  /** A planner object without `data_parameters` proceeds without data. */
  lemma MissingParametersMeansNoParams(reply: string, loads: string -> Option<Value>)
    requires JsonBlock(Strip(reply)).Some?
    requires var v := loads(JsonBlock(Strip(reply)).value);
      v.Some? && v.value.Obj? && "data_parameters" !in v.value.fields
    ensures PlanFromReply(true, reply, loads) == NoParams
  {
  }

  /** A stripped reply wrapping an object whose `data_parameters` is truthy fetches with exactly those parameters. */
  lemma WrappedPlanFetches(before: string, body: string, after: string, loads: string -> Option<Value>, dp: Value)
    requires '{' !in before && '}' !in after
    requires var t := before + "{" + body + "}" + after; Strip(t) == t
    requires loads("{" + body + "}").Some? && loads("{" + body + "}").value.Obj?
    requires loads("{" + body + "}").value.fields.Keys == {"data_parameters"}
    requires loads("{" + body + "}").value.fields["data_parameters"] == dp && PyTruthy(dp)
    ensures PlanFromReply(true, before + "{" + body + "}" + after, loads) == Fetch(dp)
  {
    JsonBlockOfWrapped(before, body, after);
  }

  /** The status handed to the answer prompt once the plan is known. */
  datatype DataStatus = NoParamsStatus | NoDataFound | Records(rows: nat)

  /** `fetched` is `None` when the fetch returned `None`, else the number of rows. */
  function SpecificDataStatus(step: PlanStep, fetched: Option<nat>): (r: DataStatus)
    requires step.NoParams? || step.Fetch?
    ensures r.Records? <==> step.Fetch? && fetched.Some? && fetched.value > 0
    ensures r == NoParamsStatus <==> step.NoParams?
  {
    if step.NoParams? then NoParamsStatus
    else if fetched.None? || fetched.value == 0 then NoDataFound
    else Records(fetched.value)
  }
}
