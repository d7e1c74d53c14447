/** Reduction of a scraped CoinMarketCap community post (a loosely nested
    JSON item) to a fully validated record, and extraction of a post id from
    a pasted link. */
module CmcPost {
  import opened Wrappers
  import opened Json
  import opened JsText

  /** The post's own bullish marker: present-true, present-false or absent. */
  datatype Bullish = BullishTrue | BullishFalse | BullishAbsent

  datatype Post = Post(
    stableId: string,
    url: string,
    ownerHandle: string,
    textContent: string,
    postTimeMs: int,
    bullish: Bullish)

  /** Every required text field of a normalized post is non-empty. */
  predicate WellFormed(p: Post) {
    |p.stableId| > 0 && |p.url| > 0 && |p.ownerHandle| > 0 && |p.textContent| > 0
  }

  /** The required fields, in the order the normalizer checks them. */
  datatype Field = StableIdField | UrlField | OwnerHandleField | TextContentField | PostTimeField {
    function Name(): string {
      match this
      case StableIdField => "stableId"
      case UrlField => "url"
      case OwnerHandleField => "owner.handle"
      case TextContentField => "textContent"
      case PostTimeField => "postTime"
    }

    function Rank(): nat {
      match this
      case StableIdField => 0
      case UrlField => 1
      case OwnerHandleField => 2
      case TextContentField => 3
      case PostTimeField => 4
    }
  }

  /** What the normalizer throws: reading a property of a null item, a
      missing required field, or a postTime string `BigInt` rejects. */
  datatype NormalizeError = ItemIsNull | Missing(field: Field) | PostTimeSyntax(text: string) {
    function Message(): string {
      match this
      case ItemIsNull => "Cannot read properties of null (reading 'stableId')"
      case Missing(f) => "Missing " + f.Name()
      case PostTimeSyntax(t) => "Cannot convert " + t + " to a BigInt"
    }
  }

  const StableIdPrefix: string := "cmc-community:post:"

  /** `mustString`: a non-empty string, or the error naming the field. */
  function MustString(v: Option<Json>, field: Field): (r: Result<string, NormalizeError>)
    ensures r.Ok? <==> NonEmptyString(v)
    ensures r.Ok? ==> v == Some(JString(r.value))
    ensures r.Err? ==> r.error == Missing(field)
  {
    if NonEmptyString(v) then Ok(v.value.s) else Err(Missing(field))
  }

  // The fallback chains, each an ordered list of nesting locations.

  function RawId(item: Json): Option<Json> {
    FirstPresent([At(item, ["raw", "id"]), At(item, ["raw", "raw", "gravityId"]), At(item, ["raw", "raw", "raw", "gravityId"])])
  }

  function UrlValue(item: Json): Option<Json> {
    FirstPresent([At(item, ["source", "url"]), At(item, ["raw", "url"]), At(item, ["raw", "raw", "url"])])
  }

  function OwnerHandleValue(item: Json): Option<Json> {
    At(item, ["raw", "raw", "owner", "handle"])
  }

  function TextValue(item: Json): Option<Json> {
    FirstPresent([At(item, ["raw", "raw", "textContent"]), At(item, ["text"])])
  }

  function PostTimeValue(item: Json): Option<Json> {
    At(item, ["raw", "raw", "postTime"])
  }

  function BullishValue(item: Json): Option<Json> {
    FirstPresent([At(item, ["raw", "raw", "raw", "bullish"]), At(item, ["raw", "raw", "bullish"])])
  }

  /** Keep the flag only when it is a boolean. */
  function ToBullish(v: Option<Json>): Bullish {
    if v.Some? && v.value.JBool? then (if v.value.b then BullishTrue else BullishFalse) else BullishAbsent
  }

  function StableIdOf(item: Json): Result<string, NormalizeError> {
    var own := Member(Some(item), "stableId");
    if NonEmptyString(own) then Ok(own.value.s)
    else
      var id := RawId(item);
      if NonEmptyString(id) then Ok(StableIdPrefix + id.value.s)
      else MustString(None, StableIdField)
  }

  // ---------------------------------------------------------------------
  // BigInt(string)

  function DigitValue(c: char): (v: nat)
    ensures v <= 36
  {
    if '0' <= c <= '9' then c as int - '0' as int
    else if 'a' <= c <= 'f' then c as int - 'a' as int + 10
    else if 'A' <= c <= 'F' then c as int - 'A' as int + 10
    else 36
  }

  predicate IsDigitIn(c: char, base: nat) {
    DigitValue(c) < base
  }

  predicate AllDigitsIn(s: string, base: nat) {
    forall k :: 0 <= k < |s| ==> IsDigitIn(s[k], base)
  }

  /** The value of a non-empty run of digits in `base`; `None` when the run
      is empty or holds anything else. */
  function DigitsValue(s: string, base: nat): (r: Option<nat>)
    requires 2 <= base <= 16
    ensures r.Some? <==> |s| > 0 && AllDigitsIn(s, base)
    decreases |s|
  {
    if |s| == 0 then None
    else
      var d := DigitValue(s[|s| - 1]);
      var init := s[..|s| - 1];
      if d >= base then None
      else if |s| == 1 then Some(d)
      else
        match DigitsValue(init, base)
        case None =>
          assert !AllDigitsIn(init, base);
          None
        case Some(v) =>
          assert AllDigitsIn(s, base) by {
            assert s == init + [s[|s| - 1]];
          }
          Some(Shift(v, base, d))
  }

  function Shift(v: nat, base: nat, d: nat): nat {
    v * base + d
  }

  /** ECMAScript StringToBigInt: surrounding whitespace is ignored, an
      all-blank string is 0, a sign is allowed only before decimal digits,
      and `0x`, `0o`, `0b` select hexadecimal, octal and binary. */
  function JsBigInt(text: string): Option<int> {
    BigIntLiteral(Trim(text))
  }

  /** StringToBigInt on text already stripped of surrounding whitespace. */
  function BigIntLiteral(t: string): Option<int> {
    if t == [] then Some(0)
    else if |t| >= 2 && t[0] == '0' && (t[1] == 'x' || t[1] == 'X') then Widen(DigitsValue(t[2..], 16))
    else if |t| >= 2 && t[0] == '0' && (t[1] == 'o' || t[1] == 'O') then Widen(DigitsValue(t[2..], 8))
    else if |t| >= 2 && t[0] == '0' && (t[1] == 'b' || t[1] == 'B') then Widen(DigitsValue(t[2..], 2))
    else if t[0] == '-' then Negated(DigitsValue(t[1..], 10))
    else if t[0] == '+' then Widen(DigitsValue(t[1..], 10))
    else Widen(DigitsValue(t, 10))
  }

  function Negated(v: Option<nat>): Option<int> {
    match v
    case None => None
    case Some(n) => Some(-(n as int))
  }

  function Widen(v: Option<nat>): Option<int> {
    match v
    case None => None
    case Some(n) => Some(n)
  }

  // ---------------------------------------------------------------------
  // normalizeCmcPost

  /** Field `f` is present in the shape the normalizer accepts. */
  predicate Resolves(item: Json, f: Field) {
    match f
    case StableIdField => NonEmptyString(Member(Some(item), "stableId")) || NonEmptyString(RawId(item))
    case UrlField => NonEmptyString(UrlValue(item))
    case OwnerHandleField => NonEmptyString(OwnerHandleValue(item))
    case TextContentField => NonEmptyString(TextValue(item))
    case PostTimeField => NonEmptyString(PostTimeValue(item))
  }

  /** `normalizeCmcPost`. It checks stableId, url, owner.handle, textContent
      and postTime in that order and fails on the first one missing; the
      lemmas below state what each outcome means. */
  function NormalizeCmcPost(item: Json): (r: Result<Post, NormalizeError>)
    ensures r == Err(ItemIsNull) <==> item.JNull?
    ensures r.Ok? ==> WellFormed(r.value)
  {
    if item.JNull? then Err(ItemIsNull)
    else
      var stableId :- StableIdOf(item);
      var url :- MustString(UrlValue(item), UrlField);
      var ownerHandle :- MustString(OwnerHandleValue(item), OwnerHandleField);
      var textContent :- MustString(TextValue(item), TextContentField);
      var postTimeText :- MustString(PostTimeValue(item), PostTimeField);
      match JsBigInt(postTimeText)
      case None => Err(PostTimeSyntax(postTimeText))
      case Some(ms) => Ok(Post(stableId, url, ownerHandle, textContent, ms, ToBullish(BullishValue(item))))
  }

  /** The id rule: the item's own non-empty `stableId`, else the prefixed raw id. */
  lemma StableIdRule(item: Json)
    ensures StableIdOf(item).Ok? <==> Resolves(item, StableIdField)
    ensures StableIdOf(item).Err? ==> StableIdOf(item).error == Missing(StableIdField)
    ensures NonEmptyString(Member(Some(item), "stableId")) ==>
      StableIdOf(item) == Ok(Member(Some(item), "stableId").value.s)
    ensures !NonEmptyString(Member(Some(item), "stableId")) && NonEmptyString(RawId(item)) ==>
      StableIdOf(item) == Ok(StableIdPrefix + RawId(item).value.s)
  {
  }

  /** A normalized post holds exactly the values the fallback chains select.
      `NormalizeRoundTrip` below is the independent partner: it starts from
      the post rather than from the item. */
  lemma NormalizeSuccess(item: Json)
    requires NormalizeCmcPost(item).Ok?
    ensures var p := NormalizeCmcPost(item).value;
      && !item.JNull?
      && (forall f :: Resolves(item, f))
      && StableIdOf(item) == Ok(p.stableId)
      && UrlValue(item) == Some(JString(p.url))
      && OwnerHandleValue(item) == Some(JString(p.ownerHandle))
      && TextValue(item) == Some(JString(p.textContent))
      && PostTimeValue(item).Some? && PostTimeValue(item).value.JString?
      && JsBigInt(PostTimeValue(item).value.s) == Some(p.postTimeMs)
      && p.bullish == ToBullish(BullishValue(item))
  {
    StableIdRule(item);
  }

  /** A missing-field error names the first field, in checking order, that
      does not resolve. */
  lemma NormalizeMissing(item: Json)
    requires NormalizeCmcPost(item).Err? && NormalizeCmcPost(item).error.Missing?
    ensures var f := NormalizeCmcPost(item).error.field;
      && !item.JNull?
      && !Resolves(item, f)
      && forall g: Field :: g.Rank() < f.Rank() ==> Resolves(item, g)
  {
    StableIdRule(item);
  }

  /** A postTime error comes only once every field resolves, and carries the
      text `BigInt` rejects. */
  lemma NormalizePostTimeSyntax(item: Json)
    requires NormalizeCmcPost(item).Err? && NormalizeCmcPost(item).error.PostTimeSyntax?
    ensures var t := NormalizeCmcPost(item).error.text;
      && (forall f :: Resolves(item, f))
      && PostTimeValue(item) == Some(JString(t))
      && JsBigInt(t).None?
  {
    StableIdRule(item);
  }

  /** An item on which every field resolves fails at most on postTime syntax. */
  lemma NormalizeResolved(item: Json)
    requires !item.JNull? && forall f :: Resolves(item, f)
    ensures NormalizeCmcPost(item).Ok? || NormalizeCmcPost(item).error.PostTimeSyntax?
  {
    StableIdRule(item);
    assert Resolves(item, UrlField) && Resolves(item, OwnerHandleField);
    assert Resolves(item, TextContentField) && Resolves(item, PostTimeField);
  }

  // ---------------------------------------------------------------------
  // Properties of the field rules

  /** A non-string `raw.id` stops the id chain: `gravityId` is not consulted. */
  lemma NonStringRawIdStopsChain(item: Json)
    requires !item.JNull? && !NonEmptyString(Member(Some(item), "stableId"))
    requires At(item, ["raw", "id"]).Some? && !At(item, ["raw", "id"]).value.JNull?
    requires !At(item, ["raw", "id"]).value.JString?
    ensures NormalizeCmcPost(item) == Err(Missing(StableIdField))
  {
  }

  /** An empty `source.url` is not nullish, so it is chosen and rejected. */
  lemma EmptySourceUrlIsMissing(item: Json)
    requires !item.JNull? && Resolves(item, StableIdField)
    requires At(item, ["source", "url"]) == Some(JString(""))
    ensures NormalizeCmcPost(item) == Err(Missing(UrlField))
  {
  }

  /** A numeric postTime is not a string: it is reported as missing. */
  lemma NumericPostTimeIsMissing(item: Json, n: Number)
    requires !item.JNull?
    requires Resolves(item, StableIdField) && Resolves(item, UrlField)
    requires Resolves(item, OwnerHandleField) && Resolves(item, TextContentField)
    requires PostTimeValue(item) == Some(JNumber(n))
    ensures NormalizeCmcPost(item) == Err(Missing(PostTimeField))
  {
  }

  /** A non-boolean bullish value at the deeper location hides a boolean at
      the shallower one: the flag is absent. */
  lemma NonBooleanBullishIsAbsent(item: Json)
    requires NormalizeCmcPost(item).Ok?
    requires At(item, ["raw", "raw", "raw", "bullish"]).Some?
    requires !At(item, ["raw", "raw", "raw", "bullish"]).value.JNull?
    requires !At(item, ["raw", "raw", "raw", "bullish"]).value.JBool?
    ensures NormalizeCmcPost(item).value.bullish == BullishAbsent
  {
  }

  /** `BigInt` reads a blank string as 0, so a postTime of spaces passes as 0. */
  lemma BlankPostTimeIsZero(text: string)
    requires AllWhitespace(text)
    ensures JsBigInt(text) == Some(0)
  {
  }

  // ---------------------------------------------------------------------
  // Decimal rendering, the inverse of BigInt on canonical decimal text

  function DecimalDigit(d: nat): char
    requires d < 10
  {
    "0123456789"[d]
  }

  function NatToDecimal(n: nat): (s: string)
    ensures |s| > 0 && AllDigits(s)
    ensures n > 0 ==> s[0] != '0'
  {
    if n < 10 then [DecimalDigit(n)] else NatToDecimal(n / 10) + [DecimalDigit(n % 10)]
  }

  function IntToDecimal(n: int): string {
    if n < 0 then "-" + NatToDecimal(-n) else NatToDecimal(n)
  }

  lemma {:induction false} DecimalRoundTrip(n: nat)
    ensures DigitsValue(NatToDecimal(n), 10) == Some(n)
  {
    if n >= 10 {
      var s := NatToDecimal(n);
      DecimalRoundTrip(n / 10);
      assert s[..|s| - 1] == NatToDecimal(n / 10);
      assert DigitValue(s[|s| - 1]) == n % 10;
    } else {
      assert DigitValue(DecimalDigit(n)) == n;
    }
  }

  /** Decimal text has no whitespace at its ends, so `BigInt` trims nothing. */
  lemma DecimalIsTrimmed(s: string)
    requires |s| > 0 && AllDigits(s)
    ensures Trim(s) == s && Trim("-" + s) == "-" + s
  {
    assert !IsWhitespace(s[0]) && !IsWhitespace(s[|s| - 1]);
    TrimOfTrimmed(s);
    TrimOfTrimmed("-" + s);
  }

  lemma PlainDecimalLiteral(digits: string)
    requires |digits| > 0 && AllDigits(digits) && (|digits| >= 2 ==> digits[0] != '0')
    ensures BigIntLiteral(digits) == Widen(DigitsValue(digits, 10))
  {
  }

  lemma NegativeDecimalLiteral(digits: string)
    requires |digits| > 0 && AllDigits(digits)
    ensures BigIntLiteral("-" + digits) == Negated(DigitsValue(digits, 10))
  {
    var s := "-" + digits;
    assert s[0] == '-' && s[1..] == digits;
  }

  lemma {:induction false} NatBigIntRoundTrip(n: int)
    requires n >= 0
    ensures JsBigInt(IntToDecimal(n)) == Some(n)
  {
    var s := NatToDecimal(n);
    assert IntToDecimal(n) == s;
    DecimalRoundTrip(n);
    DecimalIsTrimmed(s);
    PlainDecimalLiteral(s);
  }

  /** `BigInt` reads a minus sign and decimal digits as the negated value. */
  lemma NegatedDecimal(digits: string, m: nat)
    requires |digits| > 0 && AllDigits(digits) && DigitsValue(digits, 10) == Some(m)
    ensures JsBigInt("-" + digits) == Some(-(m as int))
  {
    DecimalIsTrimmed(digits);
    NegativeDecimalLiteral(digits);
  }

  lemma {:induction false} NegBigIntRoundTrip(n: int)
    requires n < 0
    ensures JsBigInt(IntToDecimal(n)) == Some(n)
  {
    var m: nat := -n;
    var digits := NatToDecimal(m);
    assert IntToDecimal(n) == "-" + digits;
    DecimalRoundTrip(m);
    NegatedDecimal(digits, m);
  }

  /** BigInt parses back what IntToDecimal renders. */
  lemma {:induction false} BigIntRoundTrip(n: int)
    ensures JsBigInt(IntToDecimal(n)) == Some(n)
  {
    if n < 0 {
      NegBigIntRoundTrip(n);
    } else {
      NatBigIntRoundTrip(n);
    }
  }

  /** A canonical scraped item holding exactly the fields of `p`. */
  function ToItem(p: Post): Json {
    var post := map[
      "owner" := JObject(map["handle" := JString(p.ownerHandle)]),
      "textContent" := JString(p.textContent),
      "postTime" := JString(IntToDecimal(p.postTimeMs))];
    var inner := match p.bullish
      case BullishTrue => post["bullish" := JBool(true)]
      case BullishFalse => post["bullish" := JBool(false)]
      case BullishAbsent => post;
    JObject(map[
      "stableId" := JString(p.stableId),
      "source" := JObject(map["url" := JString(p.url)]),
      "raw" := JObject(map["raw" := JObject(inner)])])
  }

  /** Normalizing the canonical item of a well-formed post gives the post back. */
  lemma NormalizeRoundTrip(p: Post)
    requires WellFormed(p)
    ensures NormalizeCmcPost(ToItem(p)) == Ok(p)
  {
    var item := ToItem(p);
    BigIntRoundTrip(p.postTimeMs);
    ToItemStableId(p);
    ToItemUrl(p);
    ToItemInner(p);
    ToItemBullish(p);
    assert MustString(UrlValue(item), UrlField) == Ok(p.url);
    assert MustString(OwnerHandleValue(item), OwnerHandleField) == Ok(p.ownerHandle);
    assert MustString(TextValue(item), TextContentField) == Ok(p.textContent);
    assert MustString(PostTimeValue(item), PostTimeField) == Ok(IntToDecimal(p.postTimeMs));
  }

  lemma ToItemStableId(p: Post)
    requires WellFormed(p)
    ensures StableIdOf(ToItem(p)) == Ok(p.stableId)
  {
  }

  lemma ToItemUrl(p: Post)
    ensures UrlValue(ToItem(p)) == Some(JString(p.url))
  {
  }

  lemma ToItemInner(p: Post)
    ensures OwnerHandleValue(ToItem(p)) == Some(JString(p.ownerHandle))
    ensures TextValue(ToItem(p)) == Some(JString(p.textContent))
    ensures PostTimeValue(ToItem(p)) == Some(JString(IntToDecimal(p.postTimeMs)))
  {
  }

  lemma ToItemBullish(p: Post)
    ensures ToBullish(BullishValue(ToItem(p))) == p.bullish
  {
    var item := ToItem(p);
    assert At(item, ["raw", "raw", "raw", "bullish"]) == None;
    match p.bullish
    case BullishTrue =>
      assert At(item, ["raw", "raw", "bullish"]) == Some(JBool(true));
      assert [None, Some(JBool(true))][1..] == [Some(JBool(true))];
    case BullishFalse =>
      assert At(item, ["raw", "raw", "bullish"]) == Some(JBool(false));
      assert [None, Some(JBool(false))][1..] == [Some(JBool(false))];
    case BullishAbsent => assert At(item, ["raw", "raw", "bullish"]) == None;
  }

  // ---------------------------------------------------------------------
  // extractCmcPostIdOrUrl

  const PostPath: string := "coinmarketcap.com/community/post/"

  /** `/coinmarketcap\.com\/community\/post\/(\d+)/i` matches at `i`. */
  predicate MatchAt(t: string, i: int) {
    && 0 <= i
    && i + |PostPath| < |t|
    && Lower(t[i..i + |PostPath|]) == PostPath
    && IsDigit(t[i + |PostPath|])
  }

  predicate HasPostLink(t: string) {
    exists i | 0 <= i < |t| :: MatchAt(t, i)
  }

  /** The maximal run of digits starting at `j` (the greedy `\d+`). */
  function DigitRun(t: string, j: nat): (d: string)
    requires j <= |t|
    ensures AllDigits(d) && j + |d| <= |t| && d == t[j..j + |d|]
    ensures j + |d| < |t| ==> !IsDigit(t[j + |d|])
    ensures j < |t| && IsDigit(t[j]) ==> |d| > 0
    decreases |t| - j
  {
    if j < |t| && IsDigit(t[j]) then [t[j]] + DigitRun(t, j + 1) else []
  }

  /** The capture of the leftmost match at or after `from`. */
  function FindPostId(t: string, from: nat): (r: Option<string>)
    ensures r.Some? ==> exists i :: (from <= i < |t| && MatchAt(t, i) && r.value == DigitRun(t, i + |PostPath|)
      && forall j :: from <= j < i ==> !MatchAt(t, j))
    ensures r.None? ==> forall j :: from <= j < |t| ==> !MatchAt(t, j)
    decreases |t| - from
  {
    if from >= |t| then None
    else if MatchAt(t, from) then Some(DigitRun(t, from + |PostPath|))
    else FindPostId(t, from + 1)
  }

  /** `extractCmcPostIdOrUrl`: the post id of the first post link in the
      trimmed input, or the trimmed input itself. */
  function ExtractCmcPostIdOrUrl(input: string): (r: string)
    ensures HasPostLink(Trim(input)) ==>
      && |r| > 0 && AllDigits(r)
      && exists i :: 0 <= i < |Trim(input)| && MatchAt(Trim(input), i)
           && r == DigitRun(Trim(input), i + |PostPath|)
           && forall j :: 0 <= j < i ==> !MatchAt(Trim(input), j)
    ensures !HasPostLink(Trim(input)) ==> r == Trim(input)
  {
    var trimmed := Trim(input);
    match FindPostId(trimmed, 0)
    case Some(id) => id
    case None => trimmed
  }

  lemma DigitsHaveNoPostLink(d: string)
    requires AllDigits(d)
    ensures !HasPostLink(d)
  {
    forall i | 0 <= i < |d| ensures !MatchAt(d, i) {
      if i + |PostPath| < |d| {
        assert Lower(d[i..i + |PostPath|])[0] == LowerAscii(d[i]);
      }
    }
  }

  lemma DigitsAreTrimmed(d: string)
    requires |d| > 0 && AllDigits(d)
    ensures Trim(d) == d
  {
    assert !IsWhitespace(d[0]) && !IsWhitespace(d[|d| - 1]);
    TrimOfTrimmed(d);
  }

  /** Extracting from an extracted reference changes nothing. */
  lemma {:induction false} ExtractIdempotent(input: string)
    ensures ExtractCmcPostIdOrUrl(ExtractCmcPostIdOrUrl(input)) == ExtractCmcPostIdOrUrl(input)
  {
    var r := ExtractCmcPostIdOrUrl(input);
    if HasPostLink(Trim(input)) {
      DigitsAreTrimmed(r);
      DigitsHaveNoPostLink(r);
      assert !HasPostLink(Trim(r));
    } else {
      TrimIdempotent(input);
      assert !HasPostLink(Trim(r));
    }
  }
}
