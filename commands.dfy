/** The Discord bot's slash-command handlers: registration of a CoinMarketCap
    Community handle by a posted verification code, submission of posts for
    automatic or manual review, and the admin overrides. The database is the
    state of a `Bot`; the content fetch, the sentiment classifier, the clock
    and `Math.random` are inputs. */
module Commands {
  import opened Wrappers
  import opened Json
  import opened JsText
  import CmcPost
  import Paralon

  // ---------------------------------------------------------------- codes

  const Alphabet: string := "ABCDEFGHJKLMNPQRSTUVWXYZ23456789"
  const CodePrefix: string := "CMC-"
  const CodeSymbols: nat := 8

  /** One draw of `Math.floor(Math.random() * alphabet.length)`. */
  type SymbolIndex = i: int | 0 <= i < 32

  /** A registration code: the prefix, then eight alphabet symbols. */
  predicate IsCode(s: string) {
    && |s| == |CodePrefix| + CodeSymbols
    && s[..|CodePrefix|] == CodePrefix
    && forall i :: |CodePrefix| <= i < |s| ==> s[i] in Alphabet
  }

  /** The code `randomCode` builds from the draws `draw(first)` to
      `draw(first + 7)`. */
  function CodeFrom(draw: nat -> SymbolIndex, first: nat): string {
    CodePrefix + seq(CodeSymbols, i requires 0 <= i < CodeSymbols => Alphabet[draw(first + i)])
  }

  /** Whatever the draws, `randomCode` builds a well-formed code. */
  lemma CodeFromIsCode(draw: nat -> SymbolIndex, first: nat)
    ensures IsCode(CodeFrom(draw, first))
  {
    var code := CodeFrom(draw, first);
    assert code[..|CodePrefix|] == CodePrefix;
    forall i | |CodePrefix| <= i < |code|
      ensures code[i] in Alphabet
    {
      assert code[i] == Alphabet[draw(first + i - |CodePrefix|)];
    }
  }

  /** `randomCode`: appends one drawn symbol at a time to the prefix. */
  method RandomCode(draw: nat -> SymbolIndex, first: nat) returns (code: string)
    ensures code == CodeFrom(draw, first)
  {
    code := CodePrefix;
    for i := 0 to CodeSymbols
      invariant code == CodePrefix + seq(i, j requires 0 <= j < i => Alphabet[draw(first + j)])
    {
      code := code + [Alphabet[draw(first + i)]];
    }
  }

  /** The alphabet leaves out the look-alike symbols I, O, 0 and 1, and so
      does every code. */
  lemma CodeAvoidsLookalikes(code: string)
    requires IsCode(code)
    ensures forall i :: 0 <= i < |code| ==> code[i] !in "IO01"
  {
    forall i | 0 <= i < |code|
      ensures code[i] !in "IO01"
    {
      if i < |CodePrefix| {
        assert code[i] == CodePrefix[i] by { assert code[..|CodePrefix|][i] == code[i]; }
      } else {
        assert code[i] in Alphabet;
      }
    }
  }

  // ------------------------------------------------------- registrations

  const TwelveHoursMs: int := 12 * 60 * 60 * 1000
  const DayMs: int := 24 * 60 * 60 * 1000

  /** A `User` row, keyed by Discord user id. */
  datatype User = User(registeredHandle: Option<string>, registeredAt: Option<int>)

  /** `user?.registeredHandle` is truthy. */
  predicate Registered(u: User) {
    u.registeredHandle.Some? && u.registeredHandle.value != ""
  }

  /** A `PendingRegistration` row; `userId` is the owner's Discord user id. */
  datatype PendingRegistration = PendingRegistration(
    userId: string,
    requestedHandle: string,
    code: string,
    issuedAt: int,
    expiresAt: int,
    consumedAt: Option<int>)

  /** The filter `{ userId, consumedAt: null, expiresAt: { gt: now } }`. */
  predicate Active(row: PendingRegistration, userId: string, now: int) {
    row.userId == userId && row.consumedAt.None? && row.expiresAt > now
  }

  /** The `findFirst` of the active rows of a user ordered by `issuedAt`
      descending, among the row ids below `bound`; of two rows issued at the
      same instant the later created one is taken. */
  function LatestActive(rows: map<nat, PendingRegistration>, userId: string, now: int, bound: nat): (r: Option<nat>)
    ensures r.Some? ==> r.value < bound && r.value in rows && Active(rows[r.value], userId, now)
    ensures r.Some? ==> forall id | id in rows && id < bound && Active(rows[id], userId, now) ::
      rows[id].issuedAt <= rows[r.value].issuedAt
    ensures r.None? ==> forall id | id in rows && id < bound :: !Active(rows[id], userId, now)
  {
    if bound == 0 then None
    else
      var rest := LatestActive(rows, userId, now, bound - 1);
      var id := bound - 1;
      if id in rows && Active(rows[id], userId, now)
        && (rest.None? || rows[rest.value].issuedAt <= rows[id].issuedAt)
      then Some(id)
      else rest
  }

  /** `findUnique({ where: { code } })` finds a row. */
  predicate CodeTaken(rows: map<nat, PendingRegistration>, code: string) {
    exists id | id in rows :: rows[id].code == code
  }

  const CodeLookups: nat := 5

  /** The code of attempt `k` of the collision loop of `handleRegister`;
      attempt `k` uses the draws from `8 * k` on. */
  function AttemptCode(draw: nat -> SymbolIndex, k: nat): string {
    CodeFrom(draw, 8 * k)
  }

  /** Which of the attempts' codes are already in use. */
  function TakenAttempts(rows: map<nat, PendingRegistration>, draw: nat -> SymbolIndex): nat -> bool {
    (k: nat) => CodeTaken(rows, AttemptCode(draw, k))
  }

  /** Which attempt the collision loop settles on, counting from attempt
      `a`: the first free one among the first five, otherwise the sixth,
      which is not looked up. */
  function ChosenAttempt(taken: nat -> bool, a: nat): (r: nat)
    requires a <= CodeLookups
    ensures a <= r <= CodeLookups
    ensures forall b :: a <= b < r ==> taken(b)
    ensures r < CodeLookups ==> !taken(r)
    decreases CodeLookups - a
  {
    if a == CodeLookups || !taken(a) then a
    else ChosenAttempt(taken, a + 1)
  }

  /** The code the collision loop ends with. */
  function FinalCode(rows: map<nat, PendingRegistration>, draw: nat -> SymbolIndex): string {
    AttemptCode(draw, ChosenAttempt(TakenAttempts(rows, draw), 0))
  }

  /** How many uniqueness lookups the collision loop makes. */
  function LookupsMade(rows: map<nat, PendingRegistration>, draw: nat -> SymbolIndex): nat {
    var chosen := ChosenAttempt(TakenAttempts(rows, draw), 0);
    if chosen < CodeLookups then chosen + 1 else CodeLookups
  }

  /** The collision loop of `handleRegister`: up to five uniqueness
      lookups, each followed on a collision by a fresh code; the last code
      generated is the one returned, looked up or not. */
  method ChooseCode(rows: map<nat, PendingRegistration>, draw: nat -> SymbolIndex)
    returns (code: string, ghost lookups: nat)
    ensures code == FinalCode(rows, draw)
    ensures lookups == LookupsMade(rows, draw)
  {
    ghost var taken := TakenAttempts(rows, draw);
    code := RandomCode(draw, 0);
    var i := 0;
    lookups := 0;
    while i < CodeLookups
      invariant 0 <= i <= CodeLookups
      invariant lookups == i
      invariant code == AttemptCode(draw, i)
      invariant ChosenAttempt(taken, i) == ChosenAttempt(taken, 0)
    {
      lookups := lookups + 1;
      var collision := CodeTaken(rows, code);
      if !collision {
        assert !taken(i);
        break;
      }
      assert taken(i);
      code := RandomCode(draw, 8 * (i + 1));
      i := i + 1;
    }
  }

  /** The outcome of the checks `handleVerify` makes on the fetched post. */
  datatype ProofCheck = Passed | AuthorMismatch | NotAfterIssue | CodeNotFound

  /** The three verification checks, in order; the first that fails decides.
      The handle comparison is exact, the code search ignores ASCII case. */
  function CheckProof(post: CmcPost.Post, row: PendingRegistration): (r: ProofCheck)
    ensures r == AuthorMismatch <==> post.ownerHandle != row.requestedHandle
    ensures r == NotAfterIssue <==> post.ownerHandle == row.requestedHandle && post.postTimeMs <= row.issuedAt
    ensures r == CodeNotFound <==>
      && post.ownerHandle == row.requestedHandle && post.postTimeMs > row.issuedAt
      && !Contains(Lower(post.textContent), Lower(row.code))
    ensures r == Passed <==>
      && post.ownerHandle == row.requestedHandle && post.postTimeMs > row.issuedAt
      && Contains(Lower(post.textContent), Lower(row.code))
  {
    if post.ownerHandle != row.requestedHandle then AuthorMismatch
    else if post.postTimeMs <= row.issuedAt then NotAfterIssue
    else if !Contains(Lower(post.textContent), Lower(row.code)) then CodeNotFound
    else Passed
  }

  /** The code may appear in the post in any ASCII case. */
  lemma CodeFoundInAnyCase(post: CmcPost.Post, row: PendingRegistration, i: nat)
    requires post.ownerHandle == row.requestedHandle && post.postTimeMs > row.issuedAt
    requires i + |row.code| <= |post.textContent|
    requires Lower(post.textContent[i..i + |row.code|]) == Lower(row.code)
    ensures CheckProof(post, row) == Passed
  {
    var hay := Lower(post.textContent);
    assert hay[i..i + |row.code|] == Lower(post.textContent[i..i + |row.code|]);
    assert OccursAt(hay, Lower(row.code), i);
  }

  // --------------------------------------------------------- submissions

  /** `SubmissionStatus`. */
  datatype Status = PendingReview | Approved | Rejected {
    function Name(): string {
      match this
      case PendingReview => "PENDING_REVIEW"
      case Approved => "APPROVED"
      case Rejected => "REJECTED"
    }
  }

  /** A guild's configuration as far as submissions are concerned. */
  datatype GuildConfig = GuildConfig(maxPostAgeDays: int, sentimentMinConfidence: real)

  /** The row `ensureGuildConfig` creates, with the environment defaults. */
  const DefaultGuildConfig := GuildConfig(7, 0.65)

  /** A `Submission` row; the post columns are kept as the normalized post. */
  datatype Submission = Submission(
    id: nat,
    guildId: string,
    discordUserId: string,
    postIdOrUrl: string,
    post: CmcPost.Post,
    llmLabel: Paralon.Label,
    llmConfidence: Paralon.Probability,
    llmLanguage: string,
    llmRawJson: Json,
    status: Status,
    decisionReason: string,
    decidedAt: Option<int>,
    decidedBy: Option<string>)

  /** The age rule: a post is too old when more than `maxPostAgeDays` whole
      days have passed since it was made. */
  predicate TooOld(nowMs: int, postTimeMs: int, maxPostAgeDays: int) {
    nowMs - postTimeMs > maxPostAgeDays * DayMs
  }

  /** A post exactly at the limit, or one dated in the future, passes. */
  lemma AgeLimitIsInclusive(nowMs: int, postTimeMs: int, maxPostAgeDays: int)
    requires maxPostAgeDays >= 0
    requires nowMs - postTimeMs == maxPostAgeDays * DayMs || postTimeMs >= nowMs
    ensures !TooOld(nowMs, postTimeMs, maxPostAgeDays)
  {
  }

  /** Some submission, whatever its status, already holds this post. */
  predicate StableIdTaken(subs: map<nat, Submission>, stableId: string) {
    exists id | id in subs :: subs[id].post.stableId == stableId
  }

  /** The outcome of the checks `handleSubmit` makes before classifying. */
  datatype Screening = Admitted | HandleMismatch | TooOldPost | DuplicatePost

  /** The submission checks, in order; the first that fails decides. */
  function ScreenSubmission(
    post: CmcPost.Post, registeredHandle: string, maxPostAgeDays: int, nowMs: int, subs: map<nat, Submission>)
    : (r: Screening)
    ensures r == HandleMismatch <==> post.ownerHandle != registeredHandle
    ensures r == TooOldPost <==>
      post.ownerHandle == registeredHandle && TooOld(nowMs, post.postTimeMs, maxPostAgeDays)
    ensures r == DuplicatePost <==>
      && post.ownerHandle == registeredHandle && !TooOld(nowMs, post.postTimeMs, maxPostAgeDays)
      && StableIdTaken(subs, post.stableId)
    ensures r == Admitted <==>
      && post.ownerHandle == registeredHandle && !TooOld(nowMs, post.postTimeMs, maxPostAgeDays)
      && !StableIdTaken(subs, post.stableId)
  {
    if post.ownerHandle != registeredHandle then HandleMismatch
    else if TooOld(nowMs, post.postTimeMs, maxPostAgeDays) then TooOldPost
    else if StableIdTaken(subs, post.stableId) then DuplicatePost
    else Admitted
  }

  const MissingBullishReason: string := "Bullish flag missing; requires manual review."
  const FalseBullishReason: string := "Bullish flag is false."
  const AutoApprovedReason: string := "Auto-approved: bullish=true and positive sentiment."
  const AdminApprovedReason: string := "Approved by admin."
  const SystemDecider: string := "SYSTEM"

  /** The review reason for a bullish post whose sentiment did not carry it;
      `fixed2` renders the confidence with two decimals. */
  function ReviewReason(polarity: Paralon.Label, confidence: real, fixed2: real -> string): string {
    "Requires review: bullish=true but sentiment=" + polarity.Name() + " (conf=" + fixed2(confidence) + ")."
  }

  datatype Decision = Decision(status: Status, reason: string)

  /** The decision table of `handleSubmit`. */
  function Decide(bullish: CmcPost.Bullish, sentiment: Paralon.Sentiment, minConfidence: real, fixed2: real -> string)
    : (d: Decision)
    ensures d.reason != ""
    ensures d.status == Approved <==>
      bullish.BullishTrue? && sentiment.polarity == Paralon.Positive && sentiment.confidence >= minConfidence
    ensures d.status == Rejected <==> bullish.BullishFalse?
    ensures d.status == PendingReview <==>
      || bullish.BullishAbsent?
      || (bullish.BullishTrue? && !(sentiment.polarity == Paralon.Positive && sentiment.confidence >= minConfidence))
    ensures bullish.BullishAbsent? ==> d.reason == MissingBullishReason
    ensures bullish.BullishFalse? ==> d.reason == FalseBullishReason
    ensures d.status == Approved ==> d.reason == AutoApprovedReason
    ensures bullish.BullishTrue? && d.status == PendingReview ==>
      d.reason == ReviewReason(sentiment.polarity, sentiment.confidence, fixed2)
  {
    match bullish
    case BullishAbsent => Decision(PendingReview, MissingBullishReason)
    case BullishFalse => Decision(Rejected, FalseBullishReason)
    case BullishTrue =>
      if sentiment.polarity == Paralon.Positive && sentiment.confidence >= minConfidence
      then Decision(Approved, AutoApprovedReason)
      else Decision(PendingReview, ReviewReason(sentiment.polarity, sentiment.confidence, fixed2))
  }

  /** Lowering the guild's threshold never turns an approval into a review. */
  lemma ThresholdMonotone(
    bullish: CmcPost.Bullish, sentiment: Paralon.Sentiment, lower: real, higher: real, fixed2: real -> string)
    requires lower <= higher
    requires Decide(bullish, sentiment, higher, fixed2).status == Approved
    ensures Decide(bullish, sentiment, lower, fixed2).status == Approved
  {
  }

  /** The sentiment never overrides a missing or false bullish flag. */
  lemma SentimentOnlyMattersWhenBullish(
    bullish: CmcPost.Bullish, s1: Paralon.Sentiment, s2: Paralon.Sentiment, minConfidence: real, fixed2: real -> string)
    requires !bullish.BullishTrue?
    ensures Decide(bullish, s1, minConfidence, fixed2) == Decide(bullish, s2, minConfidence, fixed2)
  {
  }

  /** `decidedAt`: unset while the submission awaits review. */
  function DecidedAt(status: Status, now: int): (r: Option<int>)
    ensures r.None? <==> status == PendingReview
    ensures r.Some? ==> r.value == now
  {
    if status == PendingReview then None else Some(now)
  }

  /** `decidedByDiscordUserId` of an automatic decision. */
  function DecidedBy(status: Status): (r: Option<string>)
    ensures r.None? <==> status == PendingReview
    ensures r.Some? ==> r.value == SystemDecider
  {
    if status == PendingReview then None else Some(SystemDecider)
  }

  /** The bookkeeping every stored submission keeps: decided exactly when
      it no longer awaits review. */
  predicate DecisionRecorded(s: Submission) {
    && (s.decidedAt.None? <==> s.status == PendingReview)
    && (s.decidedBy.None? <==> s.status == PendingReview)
  }

  // --------------------------------------------------------------- admin

  /** The `status` option of `review list`: one of the three status names,
      compared exactly; anything else lists every status. */
  function ParseStatusFilter(s: Option<string>): (r: Option<Status>)
    ensures r.Some? <==> s.Some? && s.value in {"APPROVED", "REJECTED", "PENDING_REVIEW"}
    ensures r.Some? ==> r.value.Name() == s.value
  {
    if s == Some("APPROVED") then Some(Approved)
    else if s == Some("REJECTED") then Some(Rejected)
    else if s == Some("PENDING_REVIEW") then Some(PendingReview)
    else None
  }

  lemma StatusFilterRoundTrip(st: Status)
    ensures ParseStatusFilter(Some(st.Name())) == Some(st)
  {
  }

  const ReviewPageSize: nat := 10

  predicate Listed(s: Submission, guildId: string, filter: Option<Status>) {
    s.guildId == guildId && (filter.Some? ==> s.status == filter.value)
  }

  /** The ids `review list` shows: the newest `take` matching submissions
      among the ids below `bound` (ids are issued in creation order). */
  function NewestListed(subs: map<nat, Submission>, guildId: string, filter: Option<Status>, bound: nat, take: nat)
    : (r: seq<nat>)
    ensures |r| <= take
    ensures forall k :: 0 <= k < |r| ==> r[k] < bound && r[k] in subs && Listed(subs[r[k]], guildId, filter)
  {
    if bound == 0 || take == 0 then []
    else
      var id := bound - 1;
      if id in subs && Listed(subs[id], guildId, filter)
      then [id] + NewestListed(subs, guildId, filter, id, take - 1)
      else NewestListed(subs, guildId, filter, id, take)
  }

  predicate Descending(r: seq<nat>) {
    forall k, l :: 0 <= k < l < |r| ==> r[k] > r[l]
  }

  /** The list runs newest first. */
  lemma {:induction false} NewestListedIsOrdered(
    subs: map<nat, Submission>, guildId: string, filter: Option<Status>, bound: nat, take: nat)
    ensures Descending(NewestListed(subs, guildId, filter, bound, take))
  {
    if bound > 0 && take > 0 {
      var id := bound - 1;
      var r := NewestListed(subs, guildId, filter, bound, take);
      if id in subs && Listed(subs[id], guildId, filter) {
        var rest := NewestListed(subs, guildId, filter, id, take - 1);
        NewestListedIsOrdered(subs, guildId, filter, id, take - 1);
        assert Descending(rest);
        assert r == [id] + rest;
        forall k, l | 0 <= k < l < |r|
          ensures r[k] > r[l]
        {
          assert r[l] == rest[l - 1] && rest[l - 1] < id;
          if k > 0 {
            assert r[k] == rest[k - 1] && rest[k - 1] > rest[l - 1];
          } else {
            assert r[k] == id;
          }
        }
      } else {
        assert r == NewestListed(subs, guildId, filter, id, take);
        NewestListedIsOrdered(subs, guildId, filter, id, take);
      }
    }
  }

  /** A matching submission is left out only when the page is full and
      every one shown is newer. */
  lemma {:induction false} NewestListedIsComplete(
    subs: map<nat, Submission>, guildId: string, filter: Option<Status>, bound: nat, take: nat, j: nat)
    requires j in subs && j < bound && Listed(subs[j], guildId, filter)
    requires j !in NewestListed(subs, guildId, filter, bound, take)
    ensures var r := NewestListed(subs, guildId, filter, bound, take);
      |r| == take && (|r| > 0 ==> j < r[|r| - 1])
  {
    var id := bound - 1;
    if take > 0 {
      var r := NewestListed(subs, guildId, filter, bound, take);
      if id in subs && Listed(subs[id], guildId, filter) {
        var rest := NewestListed(subs, guildId, filter, id, take - 1);
        assert r == [id] + rest;
        assert j != id;
        assert j !in rest;
        NewestListedIsComplete(subs, guildId, filter, id, take - 1, j);
        if |rest| == 0 {
          assert r[|r| - 1] == id;
        } else {
          assert r[|r| - 1] == rest[|rest| - 1];
        }
      } else {
        NewestListedIsComplete(subs, guildId, filter, id, take, j);
      }
    }
  }

  /** The rows of the given ids, in that order. */
  function Rows(subs: map<nat, Submission>, ids: seq<nat>): (r: seq<Submission>)
    requires forall k :: 0 <= k < |ids| ==> ids[k] in subs
    ensures |r| == |ids| && forall k :: 0 <= k < |ids| ==> r[k] == subs[ids[k]]
  {
    seq(|ids|, k requires 0 <= k < |ids| => subs[ids[k]])
  }

  /** A moderator's decision: overwrites the status, the decision stamps
      and the reason, and nothing else. */
  function Overridden(s: Submission, status: Status, now: int, decider: string, reason: string): Submission {
    s.(status := status, decidedAt := Some(now), decidedBy := Some(decider), decisionReason := reason)
  }

  /** The pending rows that survive `reset-user` for `target`. */
  function WithoutUser(rows: map<nat, PendingRegistration>, target: string): (r: map<nat, PendingRegistration>)
    ensures forall id :: id in r <==> id in rows && rows[id].userId != target
    ensures forall id | id in r :: r[id] == rows[id]
  {
    map id | id in rows && rows[id].userId != target :: rows[id]
  }

  /** After a reset the user has no active code, so `register` starts over. */
  lemma ResetClearsActiveCode(rows: map<nat, PendingRegistration>, target: string, now: int, bound: nat)
    ensures LatestActive(WithoutUser(rows, target), target, now, bound).None?
  {
  }

  // ----------------------------------------------------------------- bot

  datatype RegisterOutcome =
    | RegAlreadyRegistered(handle: string)
    | RegActiveCode(id: nat, row: PendingRegistration)
    | RegStarted(id: nat, row: PendingRegistration)
    | RegCodeConflict(code: string)

  datatype VerifyOutcome =
    | VerNoUser
    | VerAlreadyRegistered(handle: string)
    | VerNoActiveCode
    | VerFetchFailed(message: string)
    | VerRejected(check: ProofCheck)
    | VerRegistered(handle: string)

  datatype SubmitOutcome =
    | SubNoGuild
    | SubNotRegistered
    | SubFetchFailed(message: string)
    | SubNormalizeFailed(error: CmcPost.NormalizeError)
    | SubScreenedOut(screening: Screening)
    | SubClassifyFailed(message: string)
    | SubCreated(id: nat, submission: Submission)

  datatype AdminCommand =
    | ResetUser(target: string)
    | ReviewList(status: Option<string>)
    | ReviewApprove(id: nat)
    | ReviewReject(id: nat, reason: string)

  datatype AdminOutcome =
    | AdmNoGuild
    | AdmNotAuthorized
    | AdmReset(target: string)
    | AdmListed(items: seq<Submission>)
    | AdmNotFound(id: nat)
    | AdmDecided(submission: Submission)

  /** `interaction.guildId` is truthy. */
  predicate HasGuild(guildId: Option<string>) {
    guildId.Some? && guildId.value != ""
  }

  function ConfigOr(configs: map<string, GuildConfig>, guildId: string): GuildConfig {
    if guildId in configs then configs[guildId] else DefaultGuildConfig
  }

  /** The post reference `handleSubmit` fetches. */
  function SubmitReference(urlInput: string): string {
    CmcPost.ExtractCmcPostIdOrUrl(Trim(urlInput))
  }

  /** The fetch and normalization inside the `try` of `handleVerify`: a
      failure of either is reported by its message. */
  function FetchPost(fetch: string -> Result<Json, string>, postIdOrUrl: string): Result<CmcPost.Post, string> {
    match fetch(postIdOrUrl)
    case Err(m) => Err(m)
    case Ok(item) =>
      match CmcPost.NormalizeCmcPost(item)
      case Err(e) => Err(e.Message())
      case Ok(p) => Ok(p)
  }

  /** A post that fetches and normalizes carries its required fields. */
  lemma FetchedPostWellFormed(fetch: string -> Result<Json, string>, postIdOrUrl: string)
    requires FetchPost(fetch, postIdOrUrl).Ok?
    ensures CmcPost.WellFormed(FetchPost(fetch, postIdOrUrl).value)
  {
  }

  /** Pending rows have ids below the counter, belong to a known user, carry
      a well-formed code unique among the rows and expire twelve hours after
      issue. */
  predicate PendingInvariant(rows: map<nat, PendingRegistration>, next: nat, users: map<string, User>) {
    && (forall id | id in rows ::
          && id < next
          && rows[id].userId in users
          && IsCode(rows[id].code)
          && rows[id].expiresAt == rows[id].issuedAt + TwelveHoursMs)
    && (forall a, b | a in rows && b in rows && a != b :: rows[a].code != rows[b].code)
  }

  /** Submissions have ids below the counter, stored in the row, record a
      decision exactly when decided, and hold pairwise different posts. */
  predicate SubmissionInvariant(subs: map<nat, Submission>, next: nat) {
    && (forall id | id in subs :: id < next && subs[id].id == id && DecisionRecorded(subs[id]))
    && (forall a, b | a in subs && b in subs && a != b :: subs[a].post.stableId != subs[b].post.stableId)
  }

  /** A registered handle is never empty and comes with its timestamp. */
  predicate UserInvariant(users: map<string, User>) {
    forall u | u in users ::
      && (users[u].registeredHandle.Some? <==> users[u].registeredAt.Some?)
      && (users[u].registeredHandle.Some? ==> users[u].registeredHandle.value != "")
  }

  lemma PendingInvariantMoreUsers(
    rows: map<nat, PendingRegistration>, next: nat, users: map<string, User>, users': map<string, User>)
    requires PendingInvariant(rows, next, users)
    requires users.Keys <= users'.Keys
    ensures PendingInvariant(rows, next, users')
  {
  }

  /** A fresh row with an unused code keeps the pending invariant. */
  lemma PendingInvariantInsert(
    rows: map<nat, PendingRegistration>, next: nat, users: map<string, User>, row: PendingRegistration)
    requires PendingInvariant(rows, next, users)
    requires row.userId in users && IsCode(row.code) && !CodeTaken(rows, row.code)
    requires row.expiresAt == row.issuedAt + TwelveHoursMs
    ensures PendingInvariant(rows[next := row], next + 1, users)
  {
    var rows' := rows[next := row];
    forall a, b | a in rows' && b in rows' && a != b
      ensures rows'[a].code != rows'[b].code
    {
      if a == next {
        assert b in rows && rows[b].code != row.code;
      } else if b == next {
        assert a in rows && rows[a].code != row.code;
      }
    }
  }

  lemma PendingInvariantConsume(
    rows: map<nat, PendingRegistration>, next: nat, users: map<string, User>, id: nat, at: int)
    requires PendingInvariant(rows, next, users) && id in rows
    ensures PendingInvariant(rows[id := rows[id].(consumedAt := Some(at))], next, users)
  {
    var rows' := rows[id := rows[id].(consumedAt := Some(at))];
    forall a, b | a in rows' && b in rows' && a != b
      ensures rows'[a].code != rows'[b].code
    {
      assert rows'[a].code == rows[a].code && rows'[b].code == rows[b].code;
    }
  }

  lemma PendingInvariantRemoveUser(
    rows: map<nat, PendingRegistration>, next: nat, users: map<string, User>, target: string, users': map<string, User>)
    requires PendingInvariant(rows, next, users)
    requires users.Keys <= users'.Keys
    ensures PendingInvariant(WithoutUser(rows, target), next, users')
  {
  }

  /** A fresh submission of a post not yet held keeps the invariant. */
  lemma SubmissionInvariantInsert(subs: map<nat, Submission>, next: nat, s: Submission)
    requires SubmissionInvariant(subs, next)
    requires s.id == next && DecisionRecorded(s) && !StableIdTaken(subs, s.post.stableId)
    ensures SubmissionInvariant(subs[next := s], next + 1)
  {
    var subs' := subs[next := s];
    forall a, b | a in subs' && b in subs' && a != b
      ensures subs'[a].post.stableId != subs'[b].post.stableId
    {
      if a == next {
        assert b in subs && subs[b].post.stableId != s.post.stableId;
      } else if b == next {
        assert a in subs && subs[a].post.stableId != s.post.stableId;
      }
    }
  }

  /** An override keeps the post and records a decision. */
  lemma SubmissionInvariantOverride(
    subs: map<nat, Submission>, next: nat, id: nat, status: Status, now: int, decider: string, reason: string)
    requires SubmissionInvariant(subs, next) && id in subs && status != PendingReview
    ensures SubmissionInvariant(subs[id := Overridden(subs[id], status, now, decider, reason)], next)
  {
    var subs' := subs[id := Overridden(subs[id], status, now, decider, reason)];
    forall a, b | a in subs' && b in subs' && a != b
      ensures subs'[a].post.stableId != subs'[b].post.stableId
    {
      assert subs'[a].post == subs[a].post && subs'[b].post == subs[b].post;
    }
  }

  /** At instant `t` no user holds two active pending rows: the code a
      user is asked to post is never ambiguous. */
  predicate OneActivePerUser(rows: map<nat, PendingRegistration>, t: int) {
    forall a, b | a in rows && b in rows && a != b && rows[a].userId == rows[b].userId ::
      !(Active(rows[a], rows[a].userId, t) && Active(rows[b], rows[b].userId, t))
  }

  /** Rows only leave the active set as time goes on. */
  lemma OneActiveLater(rows: map<nat, PendingRegistration>, t: int, t': int)
    requires t <= t' && OneActivePerUser(rows, t)
    ensures OneActivePerUser(rows, t')
  {
    forall a, b | a in rows && b in rows && a != b && rows[a].userId == rows[b].userId
      ensures !(Active(rows[a], rows[a].userId, t') && Active(rows[b], rows[b].userId, t'))
    {
      assert Active(rows[a], rows[a].userId, t') ==> Active(rows[a], rows[a].userId, t);
    }
  }

  /** A new row for a user with no active row keeps one active row per user. */
  lemma OneActiveInsert(
    rows: map<nat, PendingRegistration>, next: nat, users: map<string, User>, t: int, row: PendingRegistration)
    requires PendingInvariant(rows, next, users) && OneActivePerUser(rows, t)
    requires LatestActive(rows, row.userId, t, next).None?
    ensures OneActivePerUser(rows[next := row], t)
  {
    var rows' := rows[next := row];
    forall a, b | a in rows' && b in rows' && a != b && rows'[a].userId == rows'[b].userId
      ensures !(Active(rows'[a], rows'[a].userId, t) && Active(rows'[b], rows'[b].userId, t))
    {
      if a == next {
        assert b in rows && b < next && !Active(rows[b], row.userId, t);
      } else if b == next {
        assert a in rows && a < next && !Active(rows[a], row.userId, t);
      } else {
        assert rows'[a] == rows[a] && rows'[b] == rows[b];
      }
    }
  }

  /** Consuming a row never adds an active one. */
  lemma OneActiveConsume(rows: map<nat, PendingRegistration>, t: int, id: nat, at: int)
    requires OneActivePerUser(rows, t) && id in rows
    ensures OneActivePerUser(rows[id := rows[id].(consumedAt := Some(at))], t)
  {
    var rows' := rows[id := rows[id].(consumedAt := Some(at))];
    forall a, b | a in rows' && b in rows' && a != b && rows'[a].userId == rows'[b].userId
      ensures !(Active(rows'[a], rows'[a].userId, t) && Active(rows'[b], rows'[b].userId, t))
    {
      assert rows'[a].userId == rows[a].userId && rows'[b].userId == rows[b].userId;
      assert Active(rows'[a], rows'[a].userId, t) ==> Active(rows[a], rows[a].userId, t);
      assert Active(rows'[b], rows'[b].userId, t) ==> Active(rows[b], rows[b].userId, t);
    }
  }

  /** The bot's database: users keyed by Discord user id, pending
      registrations and submissions keyed by row ids issued in creation
      order, guild configurations keyed by guild id. */
  class Bot {
    var users: map<string, User>
    var pending: map<nat, PendingRegistration>
    var nextPendingId: nat
    var submissions: map<nat, Submission>
    var nextSubmissionId: nat
    var guildConfigs: map<string, GuildConfig>
    /** The latest instant a registration has seen; the clock never goes back. */
    ghost var clock: int

    /** What the handlers keep true of the database. */
    ghost predicate Valid()
      reads this
    {
      && PendingInvariant(pending, nextPendingId, users)
      && SubmissionInvariant(submissions, nextSubmissionId)
      && UserInvariant(users)
      && OneActivePerUser(pending, clock)
    }

    predicate IsRegistered(userId: string)
      reads this
    {
      userId in users && Registered(users[userId])
    }

    function ActiveId(userId: string, now: int): Option<nat>
      reads this
    {
      LatestActive(pending, userId, now, nextPendingId)
    }

    constructor(ghost start: int)
      ensures Valid() && clock == start
      ensures users == map[] && pending == map[] && submissions == map[] && guildConfigs == map[]
      ensures nextPendingId == 0 && nextSubmissionId == 0
    {
      users := map[];
      pending := map[];
      nextPendingId := 0;
      submissions := map[];
      nextSubmissionId := 0;
      guildConfigs := map[];
      clock := start;
    }

    /** `ensureGuildConfig`: the guild's row, created with the defaults when
        missing. */
    method EnsureGuildConfig(guildId: string) returns (config: GuildConfig)
      requires Valid()
      modifies this
      ensures clock == old(clock)
      ensures Valid()
      ensures config == ConfigOr(old(guildConfigs), guildId)
      ensures guildConfigs == old(guildConfigs)[guildId := config]
      ensures users == old(users) && pending == old(pending) && nextPendingId == old(nextPendingId)
      ensures submissions == old(submissions) && nextSubmissionId == old(nextSubmissionId)
    {
      if guildId in guildConfigs {
        config := guildConfigs[guildId];
        return;
      }
      config := DefaultGuildConfig;
      guildConfigs := guildConfigs[guildId := config];
    }

    /** `handleRegister`. `draw` supplies the `Math.random` symbol draws of
        this call; `lookups` counts the code uniqueness lookups. */
    method Register(userId: string, handleInput: string, now: int, draw: nat -> SymbolIndex)
      returns (outcome: RegisterOutcome, ghost lookups: nat)
      requires Valid() && clock <= now
      modifies this
      ensures Valid() && clock == now
      ensures OneActivePerUser(pending, now)
      ensures submissions == old(submissions) && nextSubmissionId == old(nextSubmissionId)
      ensures guildConfigs == old(guildConfigs)
      ensures outcome.RegAlreadyRegistered? <==> old(IsRegistered(userId))
      ensures outcome.RegAlreadyRegistered? ==>
        && outcome.handle == old(users)[userId].registeredHandle.value
        && users == old(users) && pending == old(pending) && nextPendingId == old(nextPendingId)
        && lookups == 0
      ensures !outcome.RegAlreadyRegistered? ==>
        users == (if userId in old(users) then old(users) else old(users)[userId := User(None, None)])
      ensures outcome.RegActiveCode? <==> !old(IsRegistered(userId)) && old(ActiveId(userId, now)).Some?
      ensures outcome.RegActiveCode? ==>
        && old(ActiveId(userId, now)) == Some(outcome.id) && outcome.row == old(pending)[outcome.id]
        && pending == old(pending) && nextPendingId == old(nextPendingId)
        && lookups == 0
      ensures outcome.RegStarted? || outcome.RegCodeConflict? ==>
        && !old(IsRegistered(userId)) && old(ActiveId(userId, now)).None?
        && lookups == LookupsMade(old(pending), draw)
      ensures outcome.RegStarted? ==>
        && outcome.id == old(nextPendingId) && nextPendingId == old(nextPendingId) + 1
        && pending == old(pending)[outcome.id := outcome.row]
      ensures outcome.RegStarted? ==>
        && outcome.row == PendingRegistration(
             userId, Trim(handleInput), FinalCode(old(pending), draw), now, now + TwelveHoursMs, None)
        && !CodeTaken(old(pending), outcome.row.code)
      ensures outcome.RegCodeConflict? ==> pending == old(pending) && nextPendingId == old(nextPendingId)
      ensures outcome.RegCodeConflict? ==>
        && ChosenAttempt(TakenAttempts(old(pending), draw), 0) == CodeLookups
        && outcome.code == FinalCode(old(pending), draw) && CodeTaken(old(pending), outcome.code)
    {
      var handle := Trim(handleInput);
      AdvanceClock(now);
      if userId in users && Registered(users[userId]) {
        return RegAlreadyRegistered(users[userId].registeredHandle.value), 0;
      }
      UpsertUser(userId);
      var expiresAt := now + TwelveHoursMs;
      var existing := LatestActive(pending, userId, now, nextPendingId);
      if existing.Some? {
        return RegActiveCode(existing.value, pending[existing.value]), 0;
      }

      outcome, lookups := IssueCode(userId, handle, now, draw);
    }

    /** Moves the clock forward to a later reading. */
    ghost method AdvanceClock(now: int)
      requires Valid() && clock <= now
      modifies this`clock
      ensures Valid() && clock == now
    {
      OneActiveLater(pending, clock, now);
      clock := now;
    }

    /** `prisma.user.upsert` with an empty update: creates the user's row
        when it is missing. */
    method UpsertUser(userId: string)
      requires Valid()
      modifies this`users
      ensures Valid()
      ensures users == if userId in old(users) then old(users) else old(users)[userId := User(None, None)]
    {
      if userId !in users {
        var users' := users[userId := User(None, None)];
        PendingInvariantMoreUsers(pending, nextPendingId, users, users');
        users := users';
      }
    }

    /** The tail of `handleRegister`: pick a code by the collision loop and
        insert the pending row, unless the code is already in use, in which
        case the unique index on `code` refuses the insert. */
    method IssueCode(userId: string, handle: string, now: int, draw: nat -> SymbolIndex)
      returns (outcome: RegisterOutcome, ghost lookups: nat)
      requires Valid() && userId in users
      requires clock <= now && ActiveId(userId, now).None?
      modifies this
      ensures Valid() && clock == now
      ensures users == old(users) && submissions == old(submissions) && nextSubmissionId == old(nextSubmissionId)
      ensures guildConfigs == old(guildConfigs)
      ensures outcome.RegStarted? || outcome.RegCodeConflict?
      ensures lookups == LookupsMade(old(pending), draw)
      ensures outcome.RegStarted? <==> !CodeTaken(old(pending), FinalCode(old(pending), draw))
      ensures outcome.RegStarted? ==>
        && outcome.id == old(nextPendingId) && nextPendingId == old(nextPendingId) + 1
        && pending == old(pending)[outcome.id := outcome.row]
        && outcome.row == PendingRegistration(
             userId, handle, FinalCode(old(pending), draw), now, now + TwelveHoursMs, None)
      ensures outcome.RegCodeConflict? ==>
        && pending == old(pending) && nextPendingId == old(nextPendingId)
        && ChosenAttempt(TakenAttempts(old(pending), draw), 0) == CodeLookups
        && outcome.code == FinalCode(old(pending), draw)
    {
      var code;
      code, lookups := ChooseCode(pending, draw);
      ghost var chosen := ChosenAttempt(TakenAttempts(pending, draw), 0);
      CodeFromIsCode(draw, 8 * chosen);
      OneActiveLater(pending, clock, now);
      clock := now;
      if CodeTaken(pending, code) {
        return RegCodeConflict(code), lookups;
      }
      var row := PendingRegistration(userId, handle, code, now, now + TwelveHoursMs, None);
      PendingInvariantInsert(pending, nextPendingId, users, row);
      OneActiveInsert(pending, nextPendingId, users, now, row);
      outcome := RegStarted(nextPendingId, row);
      pending := pending[nextPendingId := row];
      nextPendingId := nextPendingId + 1;
    }

    /** `handleVerify`. `registeredAt` and `consumedAt` are the two clock
        readings of the commit. */
    method Verify(
      userId: string, postInput: string, now: int, registeredAt: int, consumedAt: int,
      fetch: string -> Result<Json, string>)
      returns (outcome: VerifyOutcome)
      requires Valid()
      modifies this
      ensures clock == old(clock)
      ensures Valid()
      ensures submissions == old(submissions) && nextSubmissionId == old(nextSubmissionId)
      ensures guildConfigs == old(guildConfigs) && nextPendingId == old(nextPendingId)
      ensures !outcome.VerRegistered? ==> users == old(users) && pending == old(pending)
      ensures outcome.VerNoUser? <==> userId !in old(users)
      ensures outcome.VerAlreadyRegistered? <==> old(IsRegistered(userId))
      ensures outcome.VerAlreadyRegistered? ==> outcome.handle == old(users)[userId].registeredHandle.value
      ensures outcome.VerNoActiveCode? <==>
        userId in old(users) && !old(IsRegistered(userId)) && old(ActiveId(userId, now)).None?
      ensures outcome.VerFetchFailed? || outcome.VerRejected? || outcome.VerRegistered? ==>
        userId in old(users) && !old(IsRegistered(userId)) && old(ActiveId(userId, now)).Some?
      ensures outcome.VerFetchFailed? ==>
        FetchPost(fetch, CmcPost.ExtractCmcPostIdOrUrl(postInput)) == Err(outcome.message)
      ensures outcome.VerRejected? ==>
        var post := FetchPost(fetch, CmcPost.ExtractCmcPostIdOrUrl(postInput));
        && post.Ok? && outcome.check != Passed
        && outcome.check == CheckProof(post.value, old(pending)[old(ActiveId(userId, now)).value])
      ensures outcome.VerRegistered? ==>
        var id := old(ActiveId(userId, now)).value;
        var row := old(pending)[id];
        var post := FetchPost(fetch, CmcPost.ExtractCmcPostIdOrUrl(postInput));
        && post.Ok? && CheckProof(post.value, row) == Passed
        && outcome.handle == row.requestedHandle
        && users == old(users)[userId := User(Some(row.requestedHandle), Some(registeredAt))]
        && pending == old(pending)[id := row.(consumedAt := Some(consumedAt))]
    {
      var postIdOrUrl := CmcPost.ExtractCmcPostIdOrUrl(postInput);
      if userId !in users {
        return VerNoUser;
      }
      var user := users[userId];
      if Registered(user) {
        return VerAlreadyRegistered(user.registeredHandle.value);
      }
      var active := LatestActive(pending, userId, now, nextPendingId);
      if active.None? {
        return VerNoActiveCode;
      }
      var id := active.value;
      var row := pending[id];
      var post := FetchPost(fetch, postIdOrUrl);
      if post.Err? {
        return VerFetchFailed(post.error);
      }
      var check := CheckProof(post.value, row);
      if check != Passed {
        return VerRejected(check);
      }
      FetchedPostWellFormed(fetch, postIdOrUrl);
      CommitRegistration(userId, id, registeredAt, consumedAt);
      outcome := VerRegistered(row.requestedHandle);
    }

    /** The transaction that ends a verification: the user takes the
        requested handle and the pending row is consumed. */
    method CommitRegistration(userId: string, id: nat, registeredAt: int, consumedAt: int)
      requires Valid() && userId in users && id in pending && pending[id].requestedHandle != ""
      modifies this
      ensures clock == old(clock)
      ensures Valid()
      ensures users == old(users)[userId := User(Some(old(pending)[id].requestedHandle), Some(registeredAt))]
      ensures pending == old(pending)[id := old(pending)[id].(consumedAt := Some(consumedAt))]
      ensures nextPendingId == old(nextPendingId) && guildConfigs == old(guildConfigs)
      ensures submissions == old(submissions) && nextSubmissionId == old(nextSubmissionId)
    {
      var row := pending[id];
      PendingInvariantConsume(pending, nextPendingId, users, id, consumedAt);
      OneActiveConsume(pending, clock, id, consumedAt);
      pending := pending[id := row.(consumedAt := Some(consumedAt))];
      var users' := users[userId := User(Some(row.requestedHandle), Some(registeredAt))];
      PendingInvariantMoreUsers(pending, nextPendingId, users, users');
      users := users';
    }

    /** `handleSubmit`. `nowMs` is the age check's clock reading and
        `decidedAtMs` the decision stamp's; `complete`, `parse` and
        `stringToNumber` drive the sentiment classifier, `fixed2` renders the
        confidence in a review reason. `classifierCalled` records whether
        the classifier was asked. */
    method Submit(
      guildId: Option<string>, userId: string, urlInput: string, nowMs: int, decidedAtMs: int,
      fetch: string -> Result<Json, string>,
      complete: string -> Result<Option<string>, string>,
      parse: string -> Option<Json>,
      stringToNumber: string -> Number,
      fixed2: real -> string)
      returns (outcome: SubmitOutcome, ghost classifierCalled: bool)
      requires Valid()
      modifies this
      ensures clock == old(clock)
      ensures Valid()
      ensures users == old(users) && pending == old(pending) && nextPendingId == old(nextPendingId)
      ensures !HasGuild(guildId) ==> guildConfigs == old(guildConfigs)
      ensures HasGuild(guildId) ==>
        guildConfigs == old(guildConfigs)[guildId.value := ConfigOr(old(guildConfigs), guildId.value)]
      ensures !outcome.SubCreated? ==> submissions == old(submissions) && nextSubmissionId == old(nextSubmissionId)
      ensures classifierCalled <==> outcome.SubClassifyFailed? || outcome.SubCreated?
      ensures outcome.SubNoGuild? <==> !HasGuild(guildId)
      ensures outcome.SubNotRegistered? <==> HasGuild(guildId) && !old(IsRegistered(userId))
      ensures !outcome.SubNoGuild? && !outcome.SubNotRegistered? ==> HasGuild(guildId) && old(IsRegistered(userId))
      ensures outcome.SubFetchFailed? <==>
        HasGuild(guildId) && old(IsRegistered(userId)) && fetch(SubmitReference(urlInput)).Err?
      ensures outcome.SubFetchFailed? ==> outcome.message == fetch(SubmitReference(urlInput)).error
      ensures outcome.SubNormalizeFailed? ==>
        && fetch(SubmitReference(urlInput)).Ok?
        && CmcPost.NormalizeCmcPost(fetch(SubmitReference(urlInput)).value) == Err(outcome.error)
      ensures outcome.SubScreenedOut? || outcome.SubClassifyFailed? || outcome.SubCreated? ==>
        && fetch(SubmitReference(urlInput)).Ok?
        && CmcPost.NormalizeCmcPost(fetch(SubmitReference(urlInput)).value).Ok?
        && var post := CmcPost.NormalizeCmcPost(fetch(SubmitReference(urlInput)).value).value;
           var config := ConfigOr(old(guildConfigs), guildId.value);
           var screening := ScreenSubmission(
             post, old(users)[userId].registeredHandle.value, config.maxPostAgeDays, nowMs, old(submissions));
           && (outcome.SubScreenedOut? <==> screening != Admitted)
           && (outcome.SubScreenedOut? ==> outcome.screening == screening)
           && (outcome.SubClassifyFailed? ==>
                 Paralon.ClassifyText(post.textContent, complete, parse, stringToNumber) == Err(outcome.message))
           && (outcome.SubCreated? ==>
                 var llm := Paralon.ClassifyText(post.textContent, complete, parse, stringToNumber);
                 && llm.Ok?
                 && var d := Decide(post.bullish, llm.value.result, config.sentimentMinConfidence, fixed2);
                    && outcome.id == old(nextSubmissionId)
                    && submissions == old(submissions)[outcome.id := outcome.submission]
                    && nextSubmissionId == old(nextSubmissionId) + 1
                    && outcome.submission == Submission(
                         outcome.id, guildId.value, userId, SubmitReference(urlInput), post,
                         llm.value.result.polarity, llm.value.result.confidence, llm.value.result.language,
                         llm.value.rawJson, d.status, d.reason, DecidedAt(d.status, decidedAtMs),
                         DecidedBy(d.status)))
    {
      classifierCalled := false;
      if !HasGuild(guildId) {
        return SubNoGuild, false;
      }
      var config := EnsureGuildConfig(guildId.value);
      if !(userId in users && Registered(users[userId])) {
        return SubNotRegistered, false;
      }
      var registeredHandle := users[userId].registeredHandle.value;
      var url := Trim(urlInput);
      var postIdOrUrl := CmcPost.ExtractCmcPostIdOrUrl(url);

      var postItem := fetch(postIdOrUrl);
      if postItem.Err? {
        return SubFetchFailed(postItem.error), false;
      }
      var normalized := CmcPost.NormalizeCmcPost(postItem.value);
      if normalized.Err? {
        return SubNormalizeFailed(normalized.error), false;
      }
      var post := normalized.value;

      var screening := ScreenSubmission(post, registeredHandle, config.maxPostAgeDays, nowMs, submissions);
      if screening != Admitted {
        return SubScreenedOut(screening), false;
      }

      classifierCalled := true;
      var llm := Paralon.ClassifyText(post.textContent, complete, parse, stringToNumber);
      if llm.Err? {
        return SubClassifyFailed(llm.error), true;
      }

      var d := Decide(post.bullish, llm.value.result, config.sentimentMinConfidence, fixed2);
      var created := Submission(
        nextSubmissionId, guildId.value, userId, postIdOrUrl, post,
        llm.value.result.polarity, llm.value.result.confidence, llm.value.result.language,
        llm.value.rawJson, d.status, d.reason, DecidedAt(d.status, decidedAtMs), DecidedBy(d.status));
      InsertSubmission(created);
      outcome := SubCreated(created.id, created);
    }

    /** `prisma.submission.create` of a submission whose post is not yet held. */
    method InsertSubmission(s: Submission)
      requires Valid()
      requires s.id == nextSubmissionId && DecisionRecorded(s) && !StableIdTaken(submissions, s.post.stableId)
      modifies this
      ensures clock == old(clock)
      ensures Valid()
      ensures submissions == old(submissions)[s.id := s] && nextSubmissionId == old(nextSubmissionId) + 1
      ensures users == old(users) && pending == old(pending) && nextPendingId == old(nextPendingId)
      ensures guildConfigs == old(guildConfigs)
    {
      SubmissionInvariantInsert(submissions, nextSubmissionId, s);
      submissions := submissions[s.id := s];
      nextSubmissionId := nextSubmissionId + 1;
    }

    /** The moderated part of `handleAdmin`. `authorized` is the verdict of
        `isAdmin` for the caller. */
    method Admin(guildId: Option<string>, adminUserId: string, authorized: bool, command: AdminCommand, now: int)
      returns (outcome: AdminOutcome)
      requires Valid()
      modifies this
      ensures clock == old(clock)
      ensures Valid()
      ensures nextPendingId == old(nextPendingId) && nextSubmissionId == old(nextSubmissionId)
      ensures !HasGuild(guildId) ==> guildConfigs == old(guildConfigs)
      ensures HasGuild(guildId) ==>
        guildConfigs == old(guildConfigs)[guildId.value := ConfigOr(old(guildConfigs), guildId.value)]
      ensures outcome.AdmNoGuild? <==> !HasGuild(guildId)
      ensures outcome.AdmNotAuthorized? <==> HasGuild(guildId) && !authorized
      ensures !outcome.AdmReset? ==> users == old(users) && pending == old(pending)
      ensures !outcome.AdmDecided? ==> submissions == old(submissions)
      ensures HasGuild(guildId) && authorized && command.ResetUser? ==>
        && outcome == AdmReset(command.target)
        && users == (if command.target in old(users) then old(users)[command.target := User(None, None)] else old(users))
        && pending == WithoutUser(old(pending), command.target)
      ensures HasGuild(guildId) && authorized && command.ReviewList? ==>
        var ids := NewestListed(
          old(submissions), guildId.value, ParseStatusFilter(command.status), old(nextSubmissionId), ReviewPageSize);
        outcome == AdmListed(Rows(old(submissions), ids))
      ensures HasGuild(guildId) && authorized && (command.ReviewApprove? || command.ReviewReject?) ==>
        && (command.id !in old(submissions) ==> outcome == AdmNotFound(command.id))
        && (command.id in old(submissions) ==>
              var updated := Overridden(
                old(submissions)[command.id],
                if command.ReviewApprove? then Approved else Rejected,
                now, adminUserId,
                if command.ReviewApprove? then AdminApprovedReason else command.reason);
              && outcome == AdmDecided(updated)
              && submissions == old(submissions)[command.id := updated])
    {
      if !HasGuild(guildId) {
        return AdmNoGuild;
      }
      var config := EnsureGuildConfig(guildId.value);
      if !authorized {
        return AdmNotAuthorized;
      }
      match command
      case ResetUser(target) =>
        ResetRegistration(target);
        outcome := AdmReset(target);
      case ReviewList(statusText) =>
        var filter := ParseStatusFilter(statusText);
        var ids := NewestListed(submissions, guildId.value, filter, nextSubmissionId, ReviewPageSize);
        outcome := AdmListed(Rows(submissions, ids));
      case ReviewApprove(id) =>
        outcome := Override(id, Approved, now, adminUserId, AdminApprovedReason);
      case ReviewReject(id, reason) =>
        outcome := Override(id, Rejected, now, adminUserId, reason);
    }

    /** `reset-user`: clears the target's registration and deletes every
        pending row of theirs. */
    method ResetRegistration(target: string)
      requires Valid()
      modifies this
      ensures clock == old(clock)
      ensures Valid()
      ensures users == (if target in old(users) then old(users)[target := User(None, None)] else old(users))
      ensures pending == WithoutUser(old(pending), target)
      ensures nextPendingId == old(nextPendingId) && guildConfigs == old(guildConfigs)
      ensures submissions == old(submissions) && nextSubmissionId == old(nextSubmissionId)
    {
      var users' := if target in users then users[target := User(None, None)] else users;
      PendingInvariantRemoveUser(pending, nextPendingId, users, target, users');
      users := users';
      pending := WithoutUser(pending, target);
    }

    /** `review approve` and `review reject`: a missing id fails the update
        and changes nothing. */
    method Override(id: nat, status: Status, now: int, adminUserId: string, reason: string)
      returns (outcome: AdminOutcome)
      requires Valid() && status != PendingReview
      modifies this
      ensures clock == old(clock)
      ensures Valid()
      ensures id !in old(submissions) ==> outcome == AdmNotFound(id) && submissions == old(submissions)
      ensures id in old(submissions) ==>
        var updated := Overridden(old(submissions)[id], status, now, adminUserId, reason);
        outcome == AdmDecided(updated) && submissions == old(submissions)[id := updated]
      ensures users == old(users) && pending == old(pending) && nextPendingId == old(nextPendingId)
      ensures nextSubmissionId == old(nextSubmissionId) && guildConfigs == old(guildConfigs)
    {
      if id !in submissions {
        return AdmNotFound(id);
      }
      var updated := Overridden(submissions[id], status, now, adminUserId, reason);
      SubmissionInvariantOverride(submissions, nextSubmissionId, id, status, now, adminUserId, reason);
      submissions := submissions[id := updated];
      outcome := AdmDecided(updated);
    }
  }
}
