/** The content fetch adapter: start one run of the preconfigured scraping
    task for a post reference, then poll the run's dataset until an item
    arrives or the time budget is spent. The task call, the dataset reads
    and the clock are oracles passed in by the caller. */
module Apify {
  import opened Wrappers
  import opened Json

  const PollEveryMs: nat := 2000

  /** What the task call reports about the run it started. */
  datatype TaskRun = TaskRun(id: string, status: string, defaultDatasetId: Option<string>)

  /** The parameters of one `dataset(id).listItems(...)` call. */
  datatype ListRequest = ListRequest(datasetId: string, limit: nat, clean: bool)

  datatype FetchOutcome =
    | Fetched(runId: string, datasetId: string, item: Json)
    | NoDataset
    | TimedOut(timeoutMs: nat, runId: string)
    | TaskFailed(message: string)
    | PollFailed(message: string)

  function Num(n: int): Json {
    JNumber(Finite(n as real))
  }

  /** The task input: a fixed template whose one variable field is
      `platformRuns[0].input.postIdOrUrl`. */
  function TaskInput(postIdOrUrl: string): Json {
    JObject(map[
      "caseInsensitive" := JBool(true),
      "debug" := JObject(map["maxItemsPerDataset" := Num(1000)]),
      "dedupe" := JObject(map["enabled" := JBool(true), "maxSeenIdsPerPlatform" := Num(5000)]),
      "match" := JObject(map[
        "symbols" := JArray([JString("DGRAM")]),
        "caseInsensitive" := JBool(true),
        "useWordBoundaries" := JBool(false)]),
      "notify" := JObject(map["webhookUrl" := JString("")]),
      "platformRuns" := JArray([PlatformRun(postIdOrUrl)]),
      "symbols" := JArray([JString("DGRAM"), JString("Datagram Network")]),
      "useWordBoundaries" := JBool(false)])
  }

  function PlatformRun(postIdOrUrl: string): Json {
    JObject(map[
      "name" := JString("coinmarketcap-community"),
      "actorId" := JString("cmc/community-post"),
      "input" := JObject(map[
        "postIdOrUrl" := JString(postIdOrUrl),
        "includeComments" := JBool(true),
        "maxComments" := Num(50)])])
  }

  /** Reads `platformRuns[0].input.postIdOrUrl` from a task input. */
  function ReferenceOf(input: Json): Option<string> {
    if input.JObject? && "platformRuns" in input.fields
      && input.fields["platformRuns"].JArray? && |input.fields["platformRuns"].elems| > 0
    then
      match Member(Member(Some(input.fields["platformRuns"].elems[0]), "input"), "postIdOrUrl")
      case Some(JString(s)) => Some(s)
      case _ => None
    else None
  }

  /** Overwrites `platformRuns[0].input.postIdOrUrl`, leaving the rest alone. */
  function WithReference(input: Json, postIdOrUrl: string): Json {
    if input.JObject? && "platformRuns" in input.fields
      && input.fields["platformRuns"].JArray? && |input.fields["platformRuns"].elems| > 0
      && input.fields["platformRuns"].elems[0].JObject?
      && "input" in input.fields["platformRuns"].elems[0].fields
      && input.fields["platformRuns"].elems[0].fields["input"].JObject?
    then
      var runs := input.fields["platformRuns"].elems;
      var run := runs[0].fields;
      var inner := run["input"].fields;
      var run' := JObject(run["input" := JObject(inner["postIdOrUrl" := JString(postIdOrUrl)])]);
      JObject(input.fields["platformRuns" := JArray([run'] + runs[1..])])
    else input
  }

  /** The reference placed in the input is the one the task reads. */
  lemma TaskInputCarriesReference(postIdOrUrl: string)
    ensures ReferenceOf(TaskInput(postIdOrUrl)) == Some(postIdOrUrl)
  {
  }

  /** Two task inputs differ only in the reference field. */
  lemma TaskInputOnlyReferenceVaries(a: string, b: string)
    ensures WithReference(TaskInput(a), b) == TaskInput(b)
  {
    var runs := TaskInput(a).fields["platformRuns"].elems;
    assert runs == [PlatformRun(a)];
    assert runs[1..] == [];
    var inner := PlatformRun(a).fields["input"].fields;
    assert inner["postIdOrUrl" := JString(b)] == PlatformRun(b).fields["input"].fields;
    assert PlatformRun(a).fields["input" := JObject(inner["postIdOrUrl" := JString(b)])] == PlatformRun(b).fields;
    assert [PlatformRun(b)] + runs[1..] == [PlatformRun(b)];
  }

  /** Consecutive clock readings: `now(0)` is `startedAt`, `now(k + 1)` the
      reading at the top of iteration `k`. */
  predicate Advances(now: nat -> int, k: nat) {
    now(k) < now(k + 1)
  }

  function Elapsed(now: nat -> int, k: nat): int {
    now(k + 1) - now(0)
  }

  /** Iteration `k` found the budget not yet exceeded. */
  predicate InBudget(now: nat -> int, timeoutMs: nat, k: nat) {
    Elapsed(now, k) <= timeoutMs
  }

  /** The `k`-th poll answered, with no item. */
  predicate EmptyPoll(listItems: (ListRequest, nat) -> Result<seq<Json>, string>, request: ListRequest, k: nat) {
    listItems(request, k) == Ok([])
  }

  function ItemRequest(datasetId: string): ListRequest {
    ListRequest(datasetId, 1, true)
  }

  predicate HasDataset(run: TaskRun) {
    run.defaultDatasetId.Some? && run.defaultDatasetId.value != ""
  }

  /** The task call answered with a run that names its dataset. */
  predicate StartedWithDataset(started: Result<TaskRun, string>) {
    started.Ok? && HasDataset(started.value)
  }

  /** Polls 0 to `k` were all made within the budget, and polls 0 to
      `k - 1` answered with no item. */
  predicate ReachedPoll(
    now: nat -> int, timeoutMs: nat, listItems: (ListRequest, nat) -> Result<seq<Json>, string>, request: ListRequest, k: nat)
  {
    && (forall j :: 0 <= j <= k ==> InBudget(now, timeoutMs, j))
    && (forall j :: 0 <= j < k ==> EmptyPoll(listItems, request, j))
  }

  /** Poll `k` is the first that came back with an item. */
  predicate FirstItemAt(
    now: nat -> int, timeoutMs: nat, listItems: (ListRequest, nat) -> Result<seq<Json>, string>, request: ListRequest, k: nat)
  {
    && ReachedPoll(now, timeoutMs, listItems, request, k)
    && listItems(request, k).Ok? && |listItems(request, k).value| > 0
  }

  /** Poll `k` is the first that failed, after empty answers only. */
  predicate FailedPollAt(
    now: nat -> int, timeoutMs: nat, listItems: (ListRequest, nat) -> Result<seq<Json>, string>, request: ListRequest, k: nat)
  {
    ReachedPoll(now, timeoutMs, listItems, request, k) && listItems(request, k).Err?
  }

  /** Polls 0 to `k - 1` were made within the budget and came back empty,
      and the reading at the top of iteration `k` is past the budget. */
  predicate EmptyUntilTimeout(
    now: nat -> int, timeoutMs: nat, listItems: (ListRequest, nat) -> Result<seq<Json>, string>, request: ListRequest, k: nat)
  {
    && (forall j :: 0 <= j < k ==> InBudget(now, timeoutMs, j) && EmptyPoll(listItems, request, j))
    && !InBudget(now, timeoutMs, k)
  }

  /** `fetchCmcPostViaTask`. `callTask` and `listItems` answer with the
      awaited value or the error the awaited call rejects with, which then
      escapes; `now(0)` is `startedAt` and `now(k + 1)` the reading at the
      top of iteration `k`; `polls` counts the dataset reads made. */
  method FetchCmcPostViaTask(
    postIdOrUrl: string,
    timeoutMs: nat,
    callTask: Json -> Result<TaskRun, string>,
    listItems: (ListRequest, nat) -> Result<seq<Json>, string>,
    now: nat -> int)
    returns (out: FetchOutcome, ghost polls: nat)
    requires now(1) >= now(0)
    requires forall k: nat :: k >= 1 ==> Advances(now, k)
    ensures out.TaskFailed? <==> callTask(TaskInput(postIdOrUrl)).Err?
    ensures out.TaskFailed? ==> out.message == callTask(TaskInput(postIdOrUrl)).error
    ensures out.NoDataset? <==>
      callTask(TaskInput(postIdOrUrl)).Ok? && !HasDataset(callTask(TaskInput(postIdOrUrl)).value)
    ensures out.Fetched? ==>
      var started := callTask(TaskInput(postIdOrUrl));
      && StartedWithDataset(started)
      && out.runId == started.value.id && out.datasetId == started.value.defaultDatasetId.value
      && exists k: nat :: FirstItemAt(now, timeoutMs, listItems, ItemRequest(out.datasetId), k)
           && out.item == listItems(ItemRequest(out.datasetId), k).value[0]
    ensures out.PollFailed? ==>
      var started := callTask(TaskInput(postIdOrUrl));
      && StartedWithDataset(started)
      && exists k: nat :: FailedPollAt(now, timeoutMs, listItems, ItemRequest(started.value.defaultDatasetId.value), k)
           && out.message == listItems(ItemRequest(started.value.defaultDatasetId.value), k).error
    ensures out.TimedOut? ==>
      var started := callTask(TaskInput(postIdOrUrl));
      && StartedWithDataset(started) && out.timeoutMs == timeoutMs && out.runId == started.value.id
      && exists k: nat :: EmptyUntilTimeout(now, timeoutMs, listItems, ItemRequest(started.value.defaultDatasetId.value), k)
    ensures out.TaskFailed? || out.NoDataset? ==> polls == 0
    ensures out.Fetched? ==>
      && polls >= 1
      && FirstItemAt(now, timeoutMs, listItems, ItemRequest(out.datasetId), polls - 1)
      && out.item == listItems(ItemRequest(out.datasetId), polls - 1).value[0]
    ensures out.PollFailed? ==>
      && polls >= 1
      && FailedPollAt(now, timeoutMs, listItems, ItemRequest(callTask(TaskInput(postIdOrUrl)).value.defaultDatasetId.value), polls - 1)
    ensures out.TimedOut? ==>
      EmptyUntilTimeout(now, timeoutMs, listItems, ItemRequest(callTask(TaskInput(postIdOrUrl)).value.defaultDatasetId.value), polls)
  {
    var started := callTask(TaskInput(postIdOrUrl));
    if started.Err? {
      return TaskFailed(started.error), 0;
    }
    var run := started.value;
    var runId := run.id;
    if !HasDataset(run) {
      return NoDataset, 0;
    }
    var datasetId := run.defaultDatasetId.value;
    var startedAt := now(0);
    var k: nat := 0;
    while true
      invariant now(k) - startedAt <= timeoutMs
      invariant forall j :: 0 <= j < k ==> InBudget(now, timeoutMs, j) && EmptyPoll(listItems, ItemRequest(datasetId), j)
      decreases timeoutMs - (now(k) - startedAt), if k == 0 then 1 else 0
    {
      if k >= 1 {
        assert Advances(now, k);
      }
      var elapsed := now(k + 1) - startedAt;
      if elapsed > timeoutMs {
        assert EmptyUntilTimeout(now, timeoutMs, listItems, ItemRequest(datasetId), k);
        return TimedOut(timeoutMs, runId), k;
      }
      var list := listItems(ItemRequest(datasetId), k);
      if list.Err? {
        assert FailedPollAt(now, timeoutMs, listItems, ItemRequest(datasetId), k);
        return PollFailed(list.error), k + 1;
      }
      var items := list.value;
      if |items| > 0 {
        assert FirstItemAt(now, timeoutMs, listItems, ItemRequest(datasetId), k);
        return Fetched(runId, datasetId, items[0]), k + 1;
      }
      assert items == [];
      k := k + 1;
    }
  }

  /** `elapsed > timeoutMs` in JavaScript where the budget may be
      `undefined` (`None`): `undefined` converts to NaN, and no comparison
      with NaN holds. */
  predicate ExceedsBudget(elapsed: int, timeoutMs: Option<nat>) {
    timeoutMs.Some? && elapsed > timeoutMs.value
  }

  /** What the polling loop has shown after a number of iterations;
      `Watching` means the observation ended while the loop was still
      polling, and is no outcome of the program itself. */
  datatype PollOutcome = Found(item: Json) | PollError(message: string) | Expired | Watching

  /** Polls 0 to `k - 1` were made with the budget not exceeded and came
      back empty. */
  predicate QuietUntil(
    now: nat -> int, timeoutMs: Option<nat>, listItems: (ListRequest, nat) -> Result<seq<Json>, string>, request: ListRequest, k: nat)
  {
    forall j :: 0 <= j < k ==> !ExceedsBudget(Elapsed(now, j), timeoutMs) && EmptyPoll(listItems, request, j)
  }

  /** The polling loop of `fetchCmcPostViaTask` as the program holds it:
      the budget is read from an environment key the schema does not
      declare, so it may be `undefined`. `watch` is how many iterations are
      observed. With an undefined budget the loop never expires, and a
      dataset that stays empty keeps it polling for as long as it is
      watched, however long that is. */
  method PollAsWritten(
    timeoutMs: Option<nat>,
    request: ListRequest,
    listItems: (ListRequest, nat) -> Result<seq<Json>, string>,
    now: nat -> int,
    watch: nat)
    returns (out: PollOutcome, polls: nat)
    ensures polls <= watch
    ensures out.Watching? ==> polls == watch && QuietUntil(now, timeoutMs, listItems, request, watch)
    ensures out.Expired? ==>
      && QuietUntil(now, timeoutMs, listItems, request, polls)
      && ExceedsBudget(Elapsed(now, polls), timeoutMs)
    ensures out.Found? ==>
      && 1 <= polls
      && QuietUntil(now, timeoutMs, listItems, request, polls - 1)
      && !ExceedsBudget(Elapsed(now, polls - 1), timeoutMs)
      && listItems(request, polls - 1).Ok? && |listItems(request, polls - 1).value| > 0
      && out.item == listItems(request, polls - 1).value[0]
    ensures out.PollError? ==>
      && 1 <= polls
      && QuietUntil(now, timeoutMs, listItems, request, polls - 1)
      && !ExceedsBudget(Elapsed(now, polls - 1), timeoutMs)
      && listItems(request, polls - 1) == Err(out.message)
    ensures timeoutMs.None? ==> !out.Expired?
    ensures timeoutMs.None? && (forall j :: 0 <= j < watch ==> EmptyPoll(listItems, request, j)) ==>
      out == Watching && polls == watch
  {
    var k: nat := 0;
    while k < watch
      invariant k <= watch
      invariant QuietUntil(now, timeoutMs, listItems, request, k)
    {
      if ExceedsBudget(now(k + 1) - now(0), timeoutMs) {
        return Expired, k;
      }
      var list := listItems(request, k);
      if list.Err? {
        assert !EmptyPoll(listItems, request, k);
        return PollError(list.error), k + 1;
      }
      if |list.value| > 0 {
        assert !EmptyPoll(listItems, request, k);
        return Found(list.value[0]), k + 1;
      }
      k := k + 1;
    }
    return Watching, watch;
  }

  /** The sleep between polls advances the clock by at least the poll interval. */
  predicate SleepsFully(now: nat -> int, k: nat) {
    now(k + 2) >= now(k + 1) + PollEveryMs
  }

  lemma {:induction false} ElapsedGrows(now: nat -> int, k: nat)
    requires now(1) >= now(0)
    requires forall j: nat :: SleepsFully(now, j)
    ensures Elapsed(now, k) >= PollEveryMs * k
  {
    if k > 0 {
      ElapsedGrows(now, k - 1);
      assert SleepsFully(now, k - 1);
    }
  }

  /** When every sleep lasts the full interval, a run that stays in budget
      for `polls` iterations polls at most `timeoutMs / 2000 + 1` times. */
  lemma PollCountBound(now: nat -> int, timeoutMs: nat, polls: nat)
    requires now(1) >= now(0)
    requires forall j: nat :: SleepsFully(now, j)
    requires forall k :: 0 <= k < polls ==> InBudget(now, timeoutMs, k)
    ensures polls <= timeoutMs / PollEveryMs + 1
  {
    if polls > 0 {
      assert InBudget(now, timeoutMs, polls - 1);
      ElapsedGrows(now, polls - 1);
    }
  }
}
