/** The parse-and-validate tail of the sentiment classifier: the completion
    text is turned into a strictly checked `{label, confidence, language,
    rationale}` record. The completion call itself, `JSON.parse` and
    JavaScript's string-to-number conversion are supplied by the caller. */
module Paralon {
  import opened Wrappers
  import opened Json

  datatype Label = Positive | Neutral | Negative {
    function Name(): string {
      match this
      case Positive => "positive"
      case Neutral => "neutral"
      case Negative => "negative"
    }
  }

  type Probability = r: real | 0.0 <= r <= 1.0

  /** The validated record; `polarity` is the response's `label` field
      (`label` is a reserved word in Dafny). */
  datatype Sentiment = Sentiment(polarity: Label, confidence: Probability, language: string, rationale: string)

  /** What `classifySentiment` returns: the validated record and the parsed value as is. */
  datatype Classified = Classified(result: Sentiment, rawJson: Json)

  datatype ClassifyError = InvalidJson | SalvagedJsonInvalid | ConfidenceNotConvertible | InvalidLabel {
    function Message(): string {
      match this
      case InvalidJson => "LLM did not return valid JSON"
      case SalvagedJsonInvalid => "Unexpected token in JSON"
      case ConfidenceNotConvertible => "Cannot convert object to primitive value"
      case InvalidLabel => "LLM returned invalid label"
    }
  }

  /** `clamp01`: NaN is 0, everything else is pulled into [0, 1]. */
  function Clamp01(n: Number): (r: Probability)
    ensures n.NaN? ==> r == 0.0
    ensures n.Finite? && 0.0 <= n.r <= 1.0 ==> r == n.r
    ensures n.NegInfinity? || (n.Finite? && n.r < 0.0) ==> r == 0.0
    ensures n.PosInfinity? || (n.Finite? && n.r > 1.0) ==> r == 1.0
  {
    match n
    case NaN => 0.0
    case PosInfinity => 1.0
    case NegInfinity => 0.0
    case Finite(x) => if x < 0.0 then 0.0 else if x > 1.0 then 1.0 else x
  }

  function Abs(x: real): real {
    if x < 0.0 then -x else x
  }

  /** For a finite input, the clamped value is the point of [0, 1] nearest to it. */
  lemma Clamp01IsNearest(x: real, y: real)
    requires 0.0 <= y <= 1.0
    ensures Abs(Clamp01(Finite(x)) - x) <= Abs(y - x)
  {
  }

  /** Clamping a probability again changes nothing. */
  lemma Clamp01Idempotent(n: Number)
    ensures Clamp01(Finite(Clamp01(n))) == Clamp01(n)
  {
  }

  /** Whether JavaScript can turn the value into a primitive. A parsed
      object holds no functions, so one with an own `toString` key hides
      `Object.prototype.toString` behind a value that cannot be called,
      and the conversion throws a TypeError; an array converts through its
      elements' texts (`join`), so it throws when one of them does. */
  predicate Convertible(v: Json)
    decreases v
  {
    match v
    case JObject(fields) => "toString" !in fields
    case JArray(es) => forall i | 0 <= i < |es| :: Convertible(es[i])
    case _ => true
  }

  /** `Number(v)` for a JSON value, `None` where it throws. Strings go
      through `stringToNumber`; an object without its own `toString` reads
      as the text `[object Object]`, which is NaN; an array converts through
      its joined text, so only an empty or one-element array can yield a
      number (two or more elements join with a comma). */
  function ToNumber(v: Option<Json>, stringToNumber: string -> Number): (r: Option<Number>)
    ensures r.Some? <==> v.None? || Convertible(v.value)
    ensures v.None? ==> r == Some(NaN)
    ensures v == Some(JNull) ==> r == Some(Finite(0.0))
    ensures v == Some(JBool(false)) ==> r == Some(Finite(0.0))
    ensures v == Some(JBool(true)) ==> r == Some(Finite(1.0))
    ensures v.Some? && v.value.JNumber? ==> r == Some(v.value.n)
    ensures v.Some? && v.value.JString? ==> r == Some(stringToNumber(v.value.s))
    ensures v.Some? && v.value.JObject? && "toString" !in v.value.fields ==> r == Some(NaN)
    ensures v.Some? && v.value.JArray? ==> r == ArrayToNumber(v.value.elems, stringToNumber)
  {
    match v
    case None => Some(NaN)
    case Some(JNull) => Some(Finite(0.0))
    case Some(JBool(b)) => Some(Finite(if b then 1.0 else 0.0))
    case Some(JNumber(n)) => Some(n)
    case Some(JString(s)) => Some(stringToNumber(s))
    case Some(JArray(es)) => ArrayToNumber(es, stringToNumber)
    case Some(JObject(fields)) => if "toString" in fields then None else Some(NaN)
  }

  function ArrayToNumber(es: seq<Json>, stringToNumber: string -> Number): (r: Option<Number>)
    ensures r.Some? <==> Convertible(JArray(es))
    ensures |es| == 0 ==> r == Some(Finite(0.0))
    ensures |es| > 1 && Convertible(JArray(es)) ==> r == Some(NaN)
    ensures |es| == 1 ==> r == ElementToNumber(es[0], stringToNumber)
    decreases JArray(es), 0
  {
    if exists i | 0 <= i < |es| :: !Convertible(es[i]) then None
    else if |es| == 0 then Some(Finite(0.0))
    else if |es| > 1 then Some(NaN)
    else ElementToNumber(es[0], stringToNumber)
  }

  /** `Number` of a one-element array, read through its only element's
      text: `null` joins as the empty text (0), a boolean as `true` or
      `false` (NaN), a number as its own digits, a plain object as
      `[object Object]` (NaN). */
  function ElementToNumber(e: Json, stringToNumber: string -> Number): (r: Option<Number>)
    ensures r.Some? <==> Convertible(e)
    ensures e.JNull? ==> r == Some(Finite(0.0))
    ensures e.JBool? ==> r == Some(NaN)
    ensures e.JNumber? ==> r == Some(e.n)
    ensures e.JString? ==> r == Some(stringToNumber(e.s))
    ensures e.JObject? && "toString" !in e.fields ==> r == Some(NaN)
    decreases e, 1
  {
    match e
    case JNull => Some(Finite(0.0))
    case JBool(_) => Some(NaN)
    case JNumber(n) => Some(n)
    case JString(s) => Some(stringToNumber(s))
    case JArray(inner) => ArrayToNumber(inner, stringToNumber)
    case JObject(fields) => if "toString" in fields then None else Some(NaN)
  }

  function FirstIndexOf(s: string, c: char): (r: Option<nat>)
    ensures r.Some? ==> r.value < |s| && s[r.value] == c && forall k :: 0 <= k < r.value ==> s[k] != c
    ensures r.None? ==> forall k :: 0 <= k < |s| ==> s[k] != c
  {
    if |s| == 0 then None
    else if s[0] == c then Some(0)
    else
      match FirstIndexOf(s[1..], c)
      case None => None
      case Some(k) => Some(k + 1)
  }

  function LastIndexOf(s: string, c: char): (r: Option<nat>)
    ensures r.Some? ==> r.value < |s| && s[r.value] == c && forall k :: r.value < k < |s| ==> s[k] != c
    ensures r.None? ==> forall k :: 0 <= k < |s| ==> s[k] != c
  {
    if |s| == 0 then None
    else if s[|s| - 1] == c then Some(|s| - 1)
    else LastIndexOf(s[..|s| - 1], c)
  }

  /** `content.match(/\{[\s\S]*\}/)`: from the first `{` to the last `}`
      after it, greedy rather than balanced. */
  function Salvage(content: string): (r: Option<string>)
    ensures r.Some? <==> exists i, j :: 0 <= i < j < |content| && content[i] == '{' && content[j] == '}'
    ensures r.Some? ==> exists i, j :: (0 <= i < j < |content| && r.value == content[i..j + 1]
      && content[i] == '{' && content[j] == '}'
      && (forall k :: 0 <= k < i ==> content[k] != '{')
      && (forall k :: j < k < |content| ==> content[k] != '}'))
  {
    var open := FirstIndexOf(content, '{');
    var close := LastIndexOf(content, '}');
    if open.Some? && close.Some? && open.value < close.value then
      Some(content[open.value..close.value + 1])
    else
      None
  }

  /** Parse the whole content; failing that, parse the salvaged substring. */
  function ParseContent(content: string, parse: string -> Option<Json>): (r: Result<Json, ClassifyError>)
    ensures parse(content).Some? ==> r == Ok(parse(content).value)
    ensures parse(content).None? && Salvage(content).None? ==> r == Err(InvalidJson)
    ensures parse(content).None? && Salvage(content).Some? ==>
      r == (match parse(Salvage(content).value)
            case Some(v) => Ok(v)
            case None => Err(SalvagedJsonInvalid))
  {
    match parse(content)
    case Some(v) => Ok(v)
    case None =>
      match Salvage(content)
      case None => Err(InvalidJson)
      case Some(sub) =>
        match parse(sub)
        case Some(v) => Ok(v)
        case None => Err(SalvagedJsonInvalid)
  }

  /** The label, accepted only as one of the three exact names. */
  function LabelOf(v: Option<Json>): (r: Option<Label>)
    ensures r.Some? <==> v.Some? && v.value.JString? && v.value.s in {"positive", "neutral", "negative"}
    ensures r.Some? ==> v == Some(JString(r.value.Name()))
  {
    if v == Some(JString("positive")) then Some(Positive)
    else if v == Some(JString("neutral")) then Some(Neutral)
    else if v == Some(JString("negative")) then Some(Negative)
    else None
  }

  lemma LabelRoundTrip(l: Label)
    ensures LabelOf(Some(JString(l.Name()))) == Some(l)
  {
  }

  function LanguageOf(v: Option<Json>): string {
    if NonEmptyString(v) then v.value.s else "unknown"
  }

  function RationaleOf(v: Option<Json>): string {
    if v.Some? && v.value.JString? then v.value.s else ""
  }

  /** The validation tail of `classifySentiment`, for the completion's
      message content (`None` when the response carried none). The success
      clause follows the field reads; `ClassifyRoundTrip` below is its
      independent partner, starting from the record. */
  function ClassifySentiment(content: Option<string>, parse: string -> Option<Json>, stringToNumber: string -> Number)
    : (r: Result<Classified, ClassifyError>)
    ensures ParseContent(content.GetOr(""), parse).Err? ==> r == Err(ParseContent(content.GetOr(""), parse).error)
    ensures ParseContent(content.GetOr(""), parse).Ok? ==>
      var raw := ParseContent(content.GetOr(""), parse).value;
      ToNumber(Member(Some(raw), "confidence"), stringToNumber).None? ==> r == Err(ConfidenceNotConvertible)
    ensures ParseContent(content.GetOr(""), parse).Ok? ==>
      var raw := ParseContent(content.GetOr(""), parse).value;
      ToNumber(Member(Some(raw), "confidence"), stringToNumber).Some? ==>
      && (r.Err? <==> LabelOf(Member(Some(raw), "label")).None?)
      && (r.Err? ==> r.error == InvalidLabel)
      && (r.Ok? ==>
        && r.value.rawJson == raw
        && Member(Some(raw), "label") == Some(JString(r.value.result.polarity.Name()))
        && r.value.result.confidence == Clamp01(ToNumber(Member(Some(raw), "confidence"), stringToNumber).value)
        && (NonEmptyString(Member(Some(raw), "language")) ==>
              Member(Some(raw), "language") == Some(JString(r.value.result.language)))
        && (!NonEmptyString(Member(Some(raw), "language")) ==> r.value.result.language == "unknown")
        && (Member(Some(raw), "rationale").Some? && Member(Some(raw), "rationale").value.JString? ==>
              Member(Some(raw), "rationale") == Some(JString(r.value.result.rationale)))
        && (!(Member(Some(raw), "rationale").Some? && Member(Some(raw), "rationale").value.JString?) ==>
              r.value.result.rationale == ""))
  {
    var raw :- ParseContent(content.GetOr(""), parse);
    var obj := Some(raw);
    var polarity := LabelOf(Member(obj, "label"));
    match ToNumber(Member(obj, "confidence"), stringToNumber)
    case None => Err(ConfidenceNotConvertible)
    case Some(number) =>
      var confidence := Clamp01(number);
      var language := LanguageOf(Member(obj, "language"));
      var rationale := RationaleOf(Member(obj, "rationale"));
      if polarity.None? then Err(InvalidLabel)
      else Ok(Classified(Sentiment(polarity.value, confidence, language, rationale), raw))
  }

  /** The whole of `classifySentiment` for a post text: `complete` stands
      for the chat completion request and yields the first choice's message
      content, or the text of the error the request threw. */
  function ClassifyText(
    text: string,
    complete: string -> Result<Option<string>, string>,
    parse: string -> Option<Json>,
    stringToNumber: string -> Number)
    : (r: Result<Classified, string>)
    ensures complete(text).Err? ==> r == Err(complete(text).error)
    ensures complete(text).Ok? ==>
      var v := ClassifySentiment(complete(text).value, parse, stringToNumber);
      (r.Ok? <==> v.Ok?) && (v.Ok? ==> r.value == v.value) && (v.Err? ==> r.error == v.error.Message())
  {
    var content :- complete(text);
    match ClassifySentiment(content, parse, stringToNumber)
    case Ok(c) => Ok(c)
    case Err(e) => Err(e.Message())
  }

  /** Missing content is read as `''`, which no JSON parser accepts and
      which holds no braces: it always ends in the invalid-JSON error. */
  lemma MissingContentIsInvalidJson(parse: string -> Option<Json>, stringToNumber: string -> Number)
    requires parse("") == None
    ensures ClassifySentiment(None, parse, stringToNumber) == Err(InvalidJson)
  {
  }

  /** A confidence that is absent, or not a number at all, becomes 0. */
  lemma NonNumericConfidenceIsZero(content: Option<string>, parse: string -> Option<Json>, stringToNumber: string -> Number)
    requires ClassifySentiment(content, parse, stringToNumber).Ok?
    requires var raw := ClassifySentiment(content, parse, stringToNumber).value.rawJson;
      ToNumber(Member(Some(raw), "confidence"), stringToNumber) == Some(NaN)
    ensures ClassifySentiment(content, parse, stringToNumber).value.result.confidence == 0.0
  {
  }

  /** A confidence that JavaScript cannot convert to a primitive (an object
      with its own `toString` key, bare or inside an array) makes the
      classifier throw, even before the label is looked at. */
  lemma {:induction false} UnconvertibleConfidenceThrows(
    content: Option<string>, parse: string -> Option<Json>, stringToNumber: string -> Number, conf: map<string, Json>)
    requires ParseContent(content.GetOr(""), parse).Ok?
    requires var raw := ParseContent(content.GetOr(""), parse).value;
      Member(Some(raw), "confidence") == Some(JObject(conf)) || Member(Some(raw), "confidence") == Some(JArray([JObject(conf)]))
    requires "toString" in conf
    ensures ClassifySentiment(content, parse, stringToNumber) == Err(ConfidenceNotConvertible)
  {
    var raw := ParseContent(content.GetOr(""), parse).value;
    if Member(Some(raw), "confidence") == Some(JArray([JObject(conf)])) {
      assert !Convertible(JArray([JObject(conf)])) by {
        assert [JObject(conf)][0] == JObject(conf);
      }
    }
  }

  /** The JSON object a well-behaved model answers with for `s`. */
  function ToJson(s: Sentiment): Json {
    JObject(map[
      "label" := JString(s.polarity.Name()),
      "confidence" := JNumber(Finite(s.confidence)),
      "language" := JString(s.language),
      "rationale" := JString(s.rationale)])
  }

  /** A response that parses to the object of `s` classifies as exactly `s`. */
  lemma ClassifyRoundTrip(text: string, s: Sentiment, parse: string -> Option<Json>, stringToNumber: string -> Number)
    requires parse(text) == Some(ToJson(s))
    requires s.language != ""
    ensures ClassifySentiment(Some(text), parse, stringToNumber) == Ok(Classified(s, ToJson(s)))
  {
    var raw := ToJson(s);
    assert Member(Some(raw), "label") == Some(JString(s.polarity.Name()));
    LabelRoundTrip(s.polarity);
    assert Member(Some(raw), "confidence") == Some(JNumber(Finite(s.confidence)));
    assert Member(Some(raw), "language") == Some(JString(s.language));
    assert Member(Some(raw), "rationale") == Some(JString(s.rationale));
  }

  /** End to end: when the completion answers with the object of `s`, the
      whole call returns exactly `s` and that object. */
  lemma ClassifyTextRoundTrip(
    text: string, answer: string, s: Sentiment,
    complete: string -> Result<Option<string>, string>,
    parse: string -> Option<Json>, stringToNumber: string -> Number)
    requires complete(text) == Ok(Some(answer))
    requires parse(answer) == Some(ToJson(s))
    requires s.language != ""
    ensures ClassifyText(text, complete, parse, stringToNumber) == Ok(Classified(s, ToJson(s)))
  {
    ClassifyRoundTrip(answer, s, parse, stringToNumber);
  }
}
