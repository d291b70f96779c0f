/**
 * Post-processing of the generative model's output: code-fence stripping,
 * the structural check of the overall analysis, and the two analyzers
 * (address and overall score) built on them. `JSON.parse` is a parameter.
 */
module ModelOutput {
  import opened Js
  import opened Places

  const JsonFence: string := "```json"
  const Fence: string := "```"

  /**
   * `s.replace(/pat/g, "")` for a literal pattern: occurrences are found from
   * left to right, without overlap, and each is deleted.
   */
  function RemoveAll(s: string, pat: string): string
    requires |pat| > 0
    decreases |s|
  {
    if |s| < |pat| then s
    else if s[..|pat|] == pat then RemoveAll(s[|pat|..], pat)
    else [s[0]] + RemoveAll(s[1..], pat)
  }

  /** The characters `String.prototype.trim` removes: ECMAScript WhiteSpace and LineTerminator. */
  predicate IsJsWhitespace(c: char)
  {
    || c == '\t' || c == '\n' || c == '\U{0B}' || c == '\U{0C}' || c == '\r' || c == ' '
    || c == '\U{A0}' || c == '\U{1680}' || ('\U{2000}' <= c <= '\U{200A}')
    || c == '\U{2028}' || c == '\U{2029}' || c == '\U{202F}' || c == '\U{205F}'
    || c == '\U{3000}' || c == '\U{FEFF}'
  }

  predicate AllWhitespace(s: string)
  {
    forall i :: 0 <= i < |s| ==> IsJsWhitespace(s[i])
  }

  /** Removes leading whitespace: the result is the suffix of `s` after its longest all-whitespace prefix. */
  function TrimStart(s: string): (r: string)
    ensures |r| <= |s| && r == s[|s| - |r|..]
    ensures AllWhitespace(s[..|s| - |r|])
    ensures r == [] || !IsJsWhitespace(r[0])
  {
    if s == [] then []
    else if IsJsWhitespace(s[0]) then
      var r := TrimStart(s[1..]);
      assert s[1..][..|s| - 1 - |r|] == s[1..|s| - |r|];
      r
    else s
  }

  /** Removes trailing whitespace: the result is the prefix of `s` before its longest all-whitespace suffix. */
  function TrimEnd(s: string): (r: string)
    ensures |r| <= |s| && r == s[..|r|]
    ensures AllWhitespace(s[|r|..])
    ensures r == [] || !IsJsWhitespace(r[|r| - 1])
  {
    if s == [] then []
    else if IsJsWhitespace(s[|s| - 1]) then
      var r := TrimEnd(s[..|s| - 1]);
      assert s[..|s| - 1][|r|..] + [s[|s| - 1]] == s[|r|..];
      r
    else s
  }

  /** `String.prototype.trim` */
  function Trim(s: string): string
  {
    TrimEnd(TrimStart(s))
  }

  /** The fence stripping of `parseModelResponse`: remove every "```json", then every "```", then trim. */
  function StripFences(generated: string): string
  {
    Trim(RemoveAll(RemoveAll(generated, JsonFence), Fence))
  }

  /** Three backticks start at position `i` of `s`. */
  predicate TicksAt(s: string, i: int)
  {
    0 <= i && i + 3 <= |s| && s[i] == '`' && s[i + 1] == '`' && s[i + 2] == '`'
  }

  /** `s` contains no "```". */
  predicate NoFence(s: string)
  {
    forall i :: 0 <= i < |s| ==> !TicksAt(s, i)
  }

  /** Trimming yields a piece of the input with whitespace removed from both ends only. */
  lemma TrimIsInfix(s: string)
    ensures exists i, j ::
      0 <= i <= j <= |s| && Trim(s) == s[i..j] && AllWhitespace(s[..i]) && AllWhitespace(s[j..])
  {
    var t := TrimStart(s);
    var r := TrimEnd(t);
    var i := |s| - |t|;
    var j := i + |r|;
    assert r == s[i..j];
    assert s[j..] == t[|r|..];
  }

  lemma NoFenceInfix(s: string, i: int, j: int)
    requires NoFence(s) && 0 <= i <= j <= |s|
    ensures NoFence(s[i..j])
  {
    forall k | 0 <= k < j - i ensures !TicksAt(s[i..j], k) {
      if TicksAt(s[i..j], k) {
        assert TicksAt(s, i + k);
      }
    }
  }

  /** When the output of removing "```" starts with a backtick, so did the input. */
  lemma {:induction false} RemoveKeepsFirstTick(t: string)
    requires |RemoveAll(t, Fence)| > 0 && RemoveAll(t, Fence)[0] == '`'
    ensures |t| > 0 && t[0] == '`'
  {
    if |t| >= 3 && t[..3] == Fence {
      assert t[0] == t[..3][0];
    }
  }

  /** When the output of removing "```" starts with two backticks, so did the input. */
  lemma {:induction false} RemoveKeepsTwoTicks(t: string)
    ensures var r := RemoveAll(t, Fence);
      (|r| >= 2 && r[0] == '`' && r[1] == '`') ==> (|t| >= 2 && t[0] == '`' && t[1] == '`')
  {
    if |t| < 3 {
    } else if t[..3] == Fence {
      assert t[0] == t[..3][0] && t[1] == t[..3][1];
    } else {
      var rest := RemoveAll(t[1..], Fence);
      assert RemoveAll(t, Fence) == [t[0]] + rest;
      if |rest| > 0 && rest[0] == '`' {
        RemoveKeepsFirstTick(t[1..]);
      }
    }
  }

  /** After every "```" has been removed, no "```" is left: a deletion never joins backticks into a new fence. */
  lemma {:induction false} RemoveAllFences(s: string)
    ensures NoFence(RemoveAll(s, Fence))
    decreases |s|
  {
    var r := RemoveAll(s, Fence);
    if |s| < 3 {
      assert r == s;
    } else if s[..3] == Fence {
      RemoveAllFences(s[3..]);
    } else {
      var rest := RemoveAll(s[1..], Fence);
      RemoveAllFences(s[1..]);
      RemoveKeepsTwoTicks(s[1..]);
      assert r == [s[0]] + rest;
      assert s[..3] == [s[0], s[1], s[2]];
      forall i | 0 <= i < |r| ensures !TicksAt(r, i) {
        if i >= 1 {
          assert TicksAt(r, i) ==> TicksAt(rest, i - 1);
        }
      }
    }
  }

  /**
   * What the fence stripping promises: no "```" is left anywhere and there is
   * no leading or trailing whitespace.
   */
  lemma StripFencesClean(generated: string)
    ensures NoFence(StripFences(generated))
    ensures var r := StripFences(generated);
      r == [] || (!IsJsWhitespace(r[0]) && !IsJsWhitespace(r[|r| - 1]))
  {
    var s := RemoveAll(RemoveAll(generated, JsonFence), Fence);
    RemoveAllFences(RemoveAll(generated, JsonFence));
    TrimIsInfix(s);
    var i, j :| 0 <= i <= j <= |s| && Trim(s) == s[i..j];
    NoFenceInfix(s, i, j);
    var t := TrimStart(s);
    var r := TrimEnd(t);
    if r != [] {
      assert r[0] == t[0];
    }
  }

  /** Text with no backtick passes through the removal of a pattern that starts with one. */
  lemma {:induction false} RemoveAllSkipsPlainText(x: string, y: string, pat: string)
    requires |pat| > 0 && pat[0] == '`'
    requires forall k :: 0 <= k < |x| ==> x[k] != '`'
    ensures RemoveAll(x + y, pat) == x + RemoveAll(y, pat)
    decreases |x|
  {
    if x != [] {
      var s := x + y;
      assert s[1..] == x[1..] + y;
      RemoveAllSkipsPlainText(x[1..], y, pat);
      if |s| < |pat| {
        assert RemoveAll(s, pat) == s;
        assert RemoveAll(y, pat) == y;
      } else {
        assert s[..|pat|][0] == x[0];
        assert s[..|pat|] != pat;
        assert RemoveAll(s, pat) == [x[0]] + RemoveAll(x[1..] + y, pat);
        assert [x[0]] + (x[1..] + RemoveAll(y, pat)) == x + RemoveAll(y, pat);
      }
    } else {
      assert x + y == y;
    }
  }

  /** Leading whitespace does not change the trimmed text. */
  lemma TrimLeadingWhitespace(w: char, p: string)
    requires IsJsWhitespace(w)
    ensures Trim([w] + p) == Trim(p)
  {
    assert ([w] + p)[1..] == p;
  }

  /** Trailing whitespace does not change the trimmed text. */
  lemma {:induction false} TrimTrailingWhitespace(p: string, w: char)
    requires IsJsWhitespace(w)
    ensures Trim(p + [w]) == Trim(p)
    decreases |p|
  {
    if p == [] {
      assert TrimStart([w]) == TrimStart([w][1..]);
    } else if IsJsWhitespace(p[0]) {
      assert (p + [w])[1..] == p[1..] + [w];
      TrimTrailingWhitespace(p[1..], w);
    } else {
      assert TrimStart(p + [w]) == p + [w];
      assert (p + [w])[..|p|] == p;
    }
  }

  /**
   * A payload without backticks wrapped in a JSON code fence, as the model is
   * asked to answer, comes out as the trimmed payload.
   */
  lemma StripFencedPayload(p: string)
    requires forall k :: 0 <= k < |p| ==> p[k] != '`'
    ensures StripFences(JsonFence + "\n" + p + "\n" + Fence) == Trim(p)
  {
    var body := "\n" + p + "\n";
    assert forall k :: 0 <= k < |body| ==> body[k] != '`';
    var s := JsonFence + body + Fence;
    assert JsonFence + "\n" + p + "\n" + Fence == s;
    assert s[..|JsonFence|] == JsonFence;
    assert s[|JsonFence|..] == body + Fence;
    RemoveAllSkipsPlainText(body, Fence, JsonFence);
    assert RemoveAll(Fence, JsonFence) == Fence;
    assert RemoveAll(s, JsonFence) == body + Fence;
    RemoveAllSkipsPlainText(body, Fence, Fence);
    assert Fence[..3] == Fence && Fence[3..] == [];
    assert RemoveAll(Fence, Fence) == [];
    assert body + [] == body;
    assert body == ['\n'] + (p + ['\n']);
    TrimLeadingWhitespace('\n', p + ['\n']);
    TrimTrailingWhitespace(p, '\n');
  }

  // ---------------------------------------------------------------------
  // The overall analysis

  /** `consultingMessage || null` */
  function OrNull(v: Option<Json>): Json
  {
    if Present(v) then v.value else JNull
  }

  /** The JSON form of a feedback list or null. */
  function FeedbackJson(f: Option<seq<Json>>): Json
  {
    if f.Some? then JArr(f.value) else JNull
  }

  /**
   * The structural check of `parseModelResponse`: the parsed value must have a
   * numeric `score` and a `feedback` that is an array or null. `score` and
   * `feedback` are copied, a falsy `consultingMessage` becomes null. There is
   * no range check on the score. (A null parsed value makes the property read
   * throw; every other non-object has no such properties.)
   */
  function ValidateOverall(v: Json): (r: Option<OverallAnalysis>)
    ensures r.Some? <==>
      && v.JObj? && "score" in v.fields && v.fields["score"].JNum?
      && "feedback" in v.fields && (v.fields["feedback"].JArr? || v.fields["feedback"].JNull?)
    ensures r.Some? ==>
      && Get(v, "score") == Some(JNum(r.value.score))
      && Get(v, "feedback") == Some(FeedbackJson(r.value.feedback))
      && (r.value.consultingMessage == JNull || Truthy(r.value.consultingMessage))
      && (Present(Get(v, "consultingMessage")) ==> Get(v, "consultingMessage") == Some(r.value.consultingMessage))
      && (!Present(Get(v, "consultingMessage")) ==> r.value.consultingMessage == JNull)
  {
    match v
    case JObj(fields) =>
      var score := Get(v, "score");
      var feedback := Get(v, "feedback");
      if score.Some? && score.value.JNum? && feedback.Some? && (feedback.value.JArr? || feedback.value.JNull?) then
        Some(OverallAnalysis(
          score.value.n,
          if feedback.value.JArr? then Some(feedback.value.items) else None,
          OrNull(Get(v, "consultingMessage"))))
      else None
    case _ => None
  }

  /** A value the validation can return: the consulting message is null or truthy. */
  predicate Normalized(o: OverallAnalysis)
  {
    o.consultingMessage == JNull || Truthy(o.consultingMessage)
  }

  /** `JSON.stringify` of an overall analysis, as a JSON value. */
  function OverallToJson(o: OverallAnalysis): Json
  {
    JObj(map["score" := JNum(o.score), "feedback" := FeedbackJson(o.feedback), "consultingMessage" := o.consultingMessage])
  }

  /** Validation accepts the JSON form of every analysis it can produce and returns it unchanged. */
  lemma ValidateOverallRoundTrip(o: OverallAnalysis)
    requires Normalized(o)
    ensures ValidateOverall(OverallToJson(o)) == Some(o)
  {
    var v := OverallToJson(o);
    assert Get(v, "consultingMessage") == Some(o.consultingMessage);
  }

  /** What validation returns it accepts again, unchanged: validation is idempotent. */
  lemma ValidateOverallIdempotent(v: Json)
    requires ValidateOverall(v).Some?
    ensures ValidateOverall(OverallToJson(ValidateOverall(v).value)) == ValidateOverall(v)
  {
    ValidateOverallRoundTrip(ValidateOverall(v).value);
  }

  // ---------------------------------------------------------------------
  // The analyzers

  /** What the generative endpoint answered, as the analyzers see it. */
  datatype ModelReply =
    | Generated(text: string)  // text of the first part of the first candidate
    | NoCandidate              // no candidate in the response
    | HttpFailure(status: int, body: string)

  /** Why an analyzer call failed. */
  datatype AiFailure =
    | ApiFailure(status: int, body: string)
    | ContentNotFound
    | ResponseParseFailure  // the fixed "could not parse the model's answer" error

  /** `extractGeneratedContent`, after the HTTP check: the candidate text, trimmed. */
  function ExtractGeneratedContent(reply: ModelReply): (r: Result<string, AiFailure>)
    ensures r.Ok? <==> reply.Generated?
    ensures r.Ok? ==> r.value == Trim(reply.text)
  {
    match reply
    case Generated(text) => Ok(Trim(text))
    case NoCandidate => Err(ContentNotFound)
    case HttpFailure(status, body) => Err(ApiFailure(status, body))
  }

  /** `parseModelResponse` of the score calculator: strip fences, parse, validate. */
  function ParseOverallResponse(generated: string, parse: string -> Option<Json>): (r: Result<OverallAnalysis, AiFailure>)
    ensures r.Ok? <==> parse(StripFences(generated)).Some? && ValidateOverall(parse(StripFences(generated)).value).Some?
    ensures r.Ok? ==> r.value == ValidateOverall(parse(StripFences(generated)).value).value
    ensures r.Err? ==> r.error == ResponseParseFailure
  {
    match parse(StripFences(generated))
    case None => Err(ResponseParseFailure)
    case Some(v) =>
      match ValidateOverall(v)
      case None => Err(ResponseParseFailure)
      case Some(o) => Ok(o)
  }

  /** `parseModelResponse` of the address analyzer: strip fences and parse; the parsed value is not validated. */
  function ParseAddressResponse(generated: string, parse: string -> Option<Json>): (r: Result<Json, AiFailure>)
    ensures r.Ok? <==> parse(StripFences(generated)).Some?
    ensures r.Ok? ==> Some(r.value) == parse(StripFences(generated))
    ensures r.Err? ==> r.error == ResponseParseFailure
  {
    match parse(StripFences(generated))
    case None => Err(ResponseParseFailure)
    case Some(v) => Ok(v)
  }

  /** Why the analysis of one lead failed. */
  datatype AnalysisError =
    | MissingResult  // the details body has no `result`: reading its address throws a TypeError
    | EmptyAddress
    | AddressAnalysisFailed(cause: AiFailure)
    | ScoreCalculationFailed(cause: AiFailure)

  /** The oracles the analyzers call: the two model endpoints and `JSON.parse`. */
  datatype Analyzers = Analyzers(
    addressModel: string -> ModelReply,
    scoreModel: DetailsResponse -> ModelReply,
    parse: string -> Option<Json>)

  /** `analyzeAddress`: a falsy address is refused before any call; otherwise ask the model and parse its answer. */
  function AnalyzeAddress(address: Option<string>, a: Analyzers): (r: Result<Json, AnalysisError>)
    ensures !StringTruthy(address) ==> r == Err(EmptyAddress)
    ensures r.Ok? ==>
      && StringTruthy(address) && a.addressModel(address.value).Generated?
      && Some(r.value) == a.parse(StripFences(Trim(a.addressModel(address.value).text)))
    ensures
      && StringTruthy(address) && a.addressModel(address.value).Generated?
      && a.parse(StripFences(Trim(a.addressModel(address.value).text))).Some?
      ==> r.Ok?
  {
    if !StringTruthy(address) then Err(EmptyAddress)
    else
      match ExtractGeneratedContent(a.addressModel(address.value))
      case Err(e) => Err(AddressAnalysisFailed(e))
      case Ok(text) =>
        match ParseAddressResponse(text, a.parse)
        case Err(e) => Err(AddressAnalysisFailed(e))
        case Ok(v) => Ok(v)
  }

  /** `calculate`: ask the model about the place and parse and validate its answer. */
  function CalculateScore(place: DetailsResponse, a: Analyzers): (r: Result<OverallAnalysis, AnalysisError>)
    ensures r.Ok? <==> a.scoreModel(place).Generated? && ParseOverallResponse(Trim(a.scoreModel(place).text), a.parse).Ok?
    ensures r.Ok? ==> r.value == ParseOverallResponse(Trim(a.scoreModel(place).text), a.parse).value
    ensures r.Ok? ==> Normalized(r.value)
  {
    match ExtractGeneratedContent(a.scoreModel(place))
    case Err(e) => Err(ScoreCalculationFailed(e))
    case Ok(text) =>
      match ParseOverallResponse(text, a.parse)
      case Err(e) => Err(ScoreCalculationFailed(e))
      case Ok(o) => Ok(o)
  }
}
