/** Collecting one render-queue snapshot from a Resolve that may change between any two calls.

    `History` says what every getter would answer at every instant; the k-th call the probe makes
    observes instant k. The history is arbitrary, so it covers every interleaving of outside
    changes with the probe's calls. */
module RenderQueueSnapshot {
  import opened PythonValues
  import opened RenderQueueEntries
  import T = Text

  datatype Answer = Raised | Returned(value: Value)

  datatype Instant = Instant(
    projectManager: Answer,
    currentProject: Answer,
    projectName: Answer,
    currentTimeline: Answer,
    timelineName: Answer,
    rendering: Answer,
    jobs: Answer,
    jobStatus: string -> Answer)

  type History = nat -> Instant

  datatype Context = Context(project: string, timeline: string)

  function Required(a: Answer): Result<Value> {
    if a.Raised? then Err(AccessorCallFailed) else Ok(a.value)
  }

  predicate AnswersHandle(a: Answer) {
    a.Returned? && Truthy(a.value)
  }

  predicate AnswersName(a: Answer) {
    a.Returned? && a.value.Str? && !T.Blank(a.value.s)
  }

  // ---- the guards: six calls each ----

  predicate IdentityAnswered(h: History, at: nat) {
    && AnswersHandle(h(at).projectManager)
    && AnswersHandle(h(at + 1).currentProject)
    && AnswersName(h(at + 2).projectName)
    && AnswersHandle(h(at + 3).currentTimeline)
    && AnswersName(h(at + 4).timelineName)
  }

  function CurrentIdentity(h: History, at: nat): Result<Context> {
    if IdentityAnswered(h, at)
    then Ok(Context(h(at + 2).projectName.value.s, h(at + 4).timelineName.value.s))
    else Err(IdentityError(h, at))
  }

  function RaisedOr(a: Answer, code: Code): Code {
    if a.Raised? then AccessorCallFailed else code
  }

  /** The error of the first of the five calls that is not answered as required. */
  function IdentityError(h: History, at: nat): Code {
    if !AnswersHandle(h(at).projectManager) then RaisedOr(h(at).projectManager, ProjectManagerMissing)
    else if !AnswersHandle(h(at + 1).currentProject) then RaisedOr(h(at + 1).currentProject, CurrentProjectMissing)
    else if !AnswersName(h(at + 2).projectName) then RaisedOr(h(at + 2).projectName, InvalidString)
    else if !AnswersHandle(h(at + 3).currentTimeline) then RaisedOr(h(at + 3).currentTimeline, CurrentTimelineMissing)
    else RaisedOr(h(at + 4).timelineName, InvalidString)
  }

  function RequireExpected(observed: Context, expected: Context): Result<()> {
    if observed.project != expected.project then Err(ProjectIdentityMismatch)
    else if observed.timeline != expected.timeline then Err(TimelineIdentityMismatch)
    else Ok(())
  }

  function RequireIdle(a: Answer): Result<()> {
    var rendering :- Required(a);
    if !rendering.Bool? then Err(InvalidRenderingState)
    else if rendering.b then Err(RenderingActive)
    else Ok(())
  }

  /** Identity and rendering-inactive; on success the observed names. */
  function VerifyContext(h: History, at: nat, expected: Context): (r: Result<Context>)
    ensures r.Ok? ==> r.value == expected
  {
    var observed :- CurrentIdentity(h, at);
    var _ :- RequireExpected(observed, expected);
    var _ :- RequireIdle(h(at + 5).rendering);
    Ok(observed)
  }

  /** The queue Resolve reports at an instant, if the probe can represent it. */
  function QueueAt(h: History, k: nat): Result<seq<Entry>> {
    var raw :- Required(h(k).jobs);
    NormalizeQueue(raw)
  }

  /** A guard and the queue read after it: seven calls. */
  function CaptureGuard(h: History, at: nat, expected: Context): (r: Result<seq<Entry>>)
    ensures r.Ok? ==> QueueAt(h, at + 6) == r
  {
    var _ :- VerifyContext(h, at, expected);
    QueueAt(h, at + 6)
  }

  // ---- the status reads: one call per identified entry ----

  function ReadStatus(a: Answer): Result<string> {
    var status :- Required(a);
    if status.Null? then Err(RenderJobStatusMissing)
    else if !status.Dict? then Err(RenderJobStatusInvalid)
    else if Text("JobStatus") !in status.entries then Err(RenderJobStatusFieldMissing)
    else
      var raw := status.entries[Text("JobStatus")];
      if raw.Str? && !T.Blank(raw.s) then Ok(raw.s) else Err(RenderJobStatusFieldInvalid)
  }

  function IdentifiedCount(queue: seq<Entry>): nat {
    if queue == [] then 0
    else IdentifiedCount(queue[..|queue| - 1]) + (if queue[|queue| - 1].jobId.Some? then 1 else 0)
  }

  function ReadStatuses(h: History, at: nat, queue: seq<Entry>): (r: Result<seq<Option<string>>>)
    ensures r.Ok? ==> |r.value| == |queue|
  {
    if queue == [] then Ok([])
    else
      var front :- ReadStatuses(h, at, queue[..|queue| - 1]);
      var last := queue[|queue| - 1];
      if last.jobId.None? then Ok(front + [None])
      else
        var status :- ReadStatus(h(at + IdentifiedCount(queue[..|queue| - 1])).jobStatus(last.jobId.value));
        Ok(front + [Some(status)])
  }

  // ---- the snapshot ----

  /** The published document, before it is spelled out as JSON. */
  datatype Snapshot = Snapshot(
    capturedAt: string,
    expected: Context,
    observed: Context,
    queue: seq<Entry>,
    statuses: seq<Option<string>>)

  function PostStatusRebracket(h: History, at: nat, expected: Context, stable: seq<Entry>): (r: Result<Context>)
    ensures r.Ok? ==> r.value == expected && QueueAt(h, at + 6).Ok? && SameQueue(QueueAt(h, at + 6).value, stable)
  {
    var observed :- VerifyContext(h, at, expected);
    var entries :- QueueAt(h, at + 6);
    if SameQueue(entries, stable) then Ok(observed) else Err(PostStatusQueueDrift)
  }

  predicate PublishableQueue(queue: seq<Entry>) {
    forall i {:trigger AllFinite(Dict(queue[i].fields))} | 0 <= i < |queue| :: AllFinite(Dict(queue[i].fields))
  }

  function Collect(h: History, at: nat, expected: Context, capturedAt: string): Result<Snapshot> {
    if T.Blank(expected.project) || T.Blank(expected.timeline) then Err(InvalidExpectedContext)
    else
      var pre :- CaptureGuard(h, at, expected);
      var post :- CaptureGuard(h, at + 7, expected);
      if !SameQueue(pre, post) then Err(RenderQueueDrift)
      else
        var _ :- VerifyContext(h, at + 14, expected);
        var statuses :- ReadStatuses(h, at + 20, post);
        var observed :- PostStatusRebracket(h, at + 20 + IdentifiedCount(post), expected, post);
        if !PublishableQueue(post) then Err(NonFiniteFloatInEvidence)
        else Ok(Snapshot(capturedAt, expected, observed, post, statuses))
  }

  /** The instant of the last call of a run that publishes this queue, its third queue read. */
  function LastRead(at: nat, queue: seq<Entry>): nat {
    at + 26 + IdentifiedCount(queue)
  }

  /** The session the probe holds: every getter call advances the world by one instant. */
  class Session {
    const history: History
    var calls: nat

    constructor (history: History)
      ensures this.history == history && calls == 0
    {
      this.history := history;
      calls := 0;
    }

    method CallRequired(a: Answer) returns (r: Result<Value>)
      modifies this
      ensures calls == old(calls) + 1
      ensures r == Required(a)
    {
      calls := calls + 1;
      r := Required(a);
    }

    method GetCurrentIdentity() returns (r: Result<Context>)
      modifies this
      ensures r == CurrentIdentity(history, old(calls))
      ensures r.Ok? ==> calls == old(calls) + 5
    {
      hide T.Blank;
      var manager :- CallRequired(history(calls).projectManager);
      if !Truthy(manager) { return Err(ProjectManagerMissing); }
      var project :- CallRequired(history(calls).currentProject);
      if !Truthy(project) { return Err(CurrentProjectMissing); }
      var projectName :- CallRequired(history(calls).projectName);
      if !projectName.Str? || T.Blank(projectName.s) { return Err(InvalidString); }
      var timeline :- CallRequired(history(calls).currentTimeline);
      if !Truthy(timeline) { return Err(CurrentTimelineMissing); }
      var timelineName :- CallRequired(history(calls).timelineName);
      if !timelineName.Str? || T.Blank(timelineName.s) { return Err(InvalidString); }
      return Ok(Context(projectName.s, timelineName.s));
    }

    method VerifyContextAndRenderingInactive(expected: Context) returns (r: Result<Context>)
      modifies this
      ensures r == VerifyContext(history, old(calls), expected)
      ensures r.Ok? ==> calls == old(calls) + 6
    {
      hide CurrentIdentity;
      var observed :- GetCurrentIdentity();
      if observed.project != expected.project { return Err(ProjectIdentityMismatch); }
      if observed.timeline != expected.timeline { return Err(TimelineIdentityMismatch); }
      var rendering :- CallRequired(history(calls).rendering);
      if !rendering.Bool? { return Err(InvalidRenderingState); }
      if rendering.b { return Err(RenderingActive); }
      return Ok(observed);
    }

    method GetRenderQueue() returns (r: Result<seq<Entry>>)
      modifies this
      ensures r == QueueAt(history, old(calls))
      ensures calls == old(calls) + 1
    {
      hide NormalizeQueue;
      var raw :- CallRequired(history(calls).jobs);
      r := NormalizeRenderQueue(raw);
    }

    method CaptureGuardState(expected: Context) returns (r: Result<seq<Entry>>)
      modifies this
      ensures r == CaptureGuard(history, old(calls), expected)
      ensures r.Ok? ==> calls == old(calls) + 7
    {
      hide VerifyContext, QueueAt;
      var _ :- VerifyContextAndRenderingInactive(expected);
      r := GetRenderQueue();
    }

    method FetchJobStatus(jobId: string) returns (r: Result<string>)
      modifies this
      ensures r == ReadStatus(history(old(calls)).jobStatus(jobId))
      ensures calls == old(calls) + 1
    {
      hide T.Blank;
      var status :- CallRequired(history(calls).jobStatus(jobId));
      if status.Null? { return Err(RenderJobStatusMissing); }
      if !status.Dict? { return Err(RenderJobStatusInvalid); }
      if Text("JobStatus") !in status.entries { return Err(RenderJobStatusFieldMissing); }
      var raw := status.entries[Text("JobStatus")];
      if !raw.Str? || T.Blank(raw.s) { return Err(RenderJobStatusFieldInvalid); }
      return Ok(raw.s);
    }

    method FetchStatuses(queue: seq<Entry>) returns (r: Result<seq<Option<string>>>)
      modifies this
      ensures r == ReadStatuses(history, old(calls), queue)
      ensures r.Ok? ==> calls == old(calls) + IdentifiedCount(queue)
    {
      hide ReadStatus;
      ghost var start := calls;
      var statuses: seq<Option<string>> := [];
      for i := 0 to |queue|
        invariant ReadStatuses(history, start, queue[..i]) == Ok(statuses)
        invariant calls == start + IdentifiedCount(queue[..i])
      {
        assert queue[..i + 1][..i] == queue[..i];
        if queue[i].jobId.None? {
          statuses := statuses + [None];
        } else {
          var status := FetchJobStatus(queue[i].jobId.value);
          if status.Err? {
            FirstStatusErrorIsFinal(history, start, queue, i + 1);
            return Err(status.code);
          }
          statuses := statuses + [Some(status.value)];
        }
      }
      assert queue[..|queue|] == queue;
      return Ok(statuses);
    }

    method RebracketAfterStatuses(expected: Context, stable: seq<Entry>) returns (r: Result<Context>)
      modifies this
      ensures r == PostStatusRebracket(history, old(calls), expected, stable)
      ensures r.Ok? ==> calls == old(calls) + 7
    {
      hide VerifyContext, QueueAt, SameQueue;
      var observed :- VerifyContextAndRenderingInactive(expected);
      var again :- GetRenderQueue();
      if !SameQueue(again, stable) { return Err(PostStatusQueueDrift); }
      return Ok(observed);
    }

    method CollectRenderQueueSnapshot(expected: Context, capturedAt: string) returns (r: Result<Snapshot>)
      modifies this
      ensures r == Collect(history, old(calls), expected, capturedAt)
      ensures r.Ok? ==> calls == LastRead(old(calls), r.value.queue) + 1
    {
      hide VerifyContext, CaptureGuard, PostStatusRebracket, ReadStatuses, IdentifiedCount, SameQueue, PublishableQueue, T.Blank;
      if T.Blank(expected.project) || T.Blank(expected.timeline) { return Err(InvalidExpectedContext); }
      var pre :- CaptureGuardState(expected);
      var post :- CaptureGuardState(expected);
      if !SameQueue(pre, post) { return Err(RenderQueueDrift); }
      var _ :- VerifyContextAndRenderingInactive(expected);
      var statuses :- FetchStatuses(post);
      var observed :- RebracketAfterStatuses(expected, post);
      if !PublishableQueue(post) { return Err(NonFiniteFloatInEvidence); }
      return Ok(Snapshot(capturedAt, expected, observed, post, statuses));
    }
  }

  lemma {:induction false} FirstStatusErrorIsFinal(h: History, at: nat, queue: seq<Entry>, n: nat)
    requires n <= |queue| && ReadStatuses(h, at, queue[..n]).Err?
    ensures ReadStatuses(h, at, queue) == ReadStatuses(h, at, queue[..n])
    decreases |queue|
  {
    if n == |queue| {
      assert queue[..n] == queue;
    } else {
      var front := queue[..|queue| - 1];
      assert front[..n] == queue[..n];
      FirstStatusErrorIsFinal(h, at, front, n);
    }
  }

  // ---- the double collect ----

  ghost predicate SameAt(h: History, i: nat, j: nat) {
    QueueAt(h, i).Ok? && QueueAt(h, j).Ok? && SameQueue(QueueAt(h, i).value, QueueAt(h, j).value)
  }

  /** From instant a to instant c the queue never returns to an earlier value. */
  ghost predicate NeverReturns(h: History, a: nat, c: nat) {
    forall i: nat, j: nat, k: nat | a <= i <= j <= k <= c && SameAt(h, i, k) :: SameAt(h, i, j)
  }

  /** At instant k Resolve reports a queue that compares equal to this one. */
  ghost predicate ReadsQueue(h: History, k: nat, queue: seq<Entry>) {
    QueueAt(h, k).Ok? && SameQueue(QueueAt(h, k).value, queue)
  }

  /** The shape of every publishing run: queue reads at calls 6 and 13, one status call per
      identified entry from call 20, then the rebracket, whose queue read is the last call. */
  lemma PublishingRun(h: History, at: nat, expected: Context, capturedAt: string, doc: Snapshot)
    requires Collect(h, at, expected, capturedAt) == Ok(doc)
    ensures doc == Snapshot(capturedAt, expected, expected, doc.queue, doc.statuses)
    ensures !T.Blank(expected.project) && !T.Blank(expected.timeline)
    ensures ReadsQueue(h, at + 6, doc.queue)
    ensures QueueAt(h, at + 13) == Ok(doc.queue)
    ensures ReadStatuses(h, at + 20, doc.queue) == Ok(doc.statuses)
    ensures ReadsQueue(h, LastRead(at, doc.queue), doc.queue)
    ensures PublishableQueue(doc.queue)
  {
    hide VerifyContext, CaptureGuard, PostStatusRebracket, QueueAt, ReadStatuses, SameQueue, PublishableQueue, T.Blank;
  }

  /** Where the status of entry i was read: after the second read and before the third. */
  lemma {:induction false} StatusReadAt(h: History, at: nat, queue: seq<Entry>, statuses: seq<Option<string>>, i: nat)
    returns (k: nat)
    requires ReadStatuses(h, at, queue) == Ok(statuses)
    requires i < |queue| && queue[i].jobId.Some?
    ensures at <= k < at + IdentifiedCount(queue)
    ensures StatusObserved(h, k, queue[i].jobId.value, statuses[i])
    decreases |queue|
  {
    hide ReadStatus;
    var front := queue[..|queue| - 1];
    if i == |front| {
      k := at + IdentifiedCount(front);
    } else {
      k := StatusReadAt(h, at, front, ReadStatuses(h, at, front).value, i);
    }
  }

  /** Resolve answers the status query for this job with this status at instant k. */
  ghost predicate StatusObserved(h: History, k: nat, jobId: string, status: Option<string>) {
    status.Some? && ReadStatus(h(k).jobStatus(jobId)) == Ok(status.value)
  }

  /** In every run that publishes, if the queue never returned to an earlier value between the first
      read and the last, it was constant all that time, and every published status was read inside
      that window. */
  lemma DoubleCollect(h: History, at: nat, expected: Context, capturedAt: string, doc: Snapshot)
    requires Collect(h, at, expected, capturedAt) == Ok(doc)
    requires NeverReturns(h, at + 6, LastRead(at, doc.queue))
    ensures doc.observed == expected
    ensures forall k: nat | at + 6 <= k <= LastRead(at, doc.queue) :: ReadsQueue(h, k, doc.queue)
    ensures |doc.statuses| == |doc.queue|
    ensures forall i | 0 <= i < |doc.queue| && doc.queue[i].jobId.Some? ::
              exists k: nat :: at + 13 < k < LastRead(at, doc.queue) && StatusObserved(h, k, doc.queue[i].jobId.value, doc.statuses[i])
  {
    hide Collect, QueueAt, ReadStatuses, ReadStatus, SameQueue;
    PublishingRun(h, at, expected, capturedAt, doc);
    var last := LastRead(at, doc.queue);
    FirstAgreesWithLast(h, at + 6, last, doc.queue);
    forall k: nat | at + 6 <= k <= last
      ensures ReadsQueue(h, k, doc.queue)
    {
      assert SameAt(h, at + 6, k);
      SameQueueIsSymmetric(QueueAt(h, at + 6).value, QueueAt(h, k).value);
      SameQueueIsTransitive(QueueAt(h, k).value, QueueAt(h, at + 6).value, doc.queue);
    }
    forall i | 0 <= i < |doc.queue| && doc.queue[i].jobId.Some?
      ensures exists k: nat :: at + 13 < k < last && StatusObserved(h, k, doc.queue[i].jobId.value, doc.statuses[i])
    {
      var k := StatusReadAt(h, at + 20, doc.queue, doc.statuses, i);
    }
  }

  /** The assumption is exact: of a published run it says neither more nor less than that the queue
      stood still over the window. */
  lemma StandsStillIffNeverReturns(h: History, at: nat, expected: Context, capturedAt: string, doc: Snapshot)
    requires Collect(h, at, expected, capturedAt) == Ok(doc)
    ensures NeverReturns(h, at + 6, LastRead(at, doc.queue)) <==>
            forall k: nat | at + 6 <= k <= LastRead(at, doc.queue) :: ReadsQueue(h, k, doc.queue)
  {
    hide Collect, QueueAt, ReadStatuses, ReadStatus, SameQueue;
    var a, c := at + 6, LastRead(at, doc.queue);
    if NeverReturns(h, a, c) { DoubleCollect(h, at, expected, capturedAt, doc); }
    if forall k: nat | a <= k <= c :: ReadsQueue(h, k, doc.queue) {
      forall i: nat, j: nat, k: nat | a <= i <= j <= k <= c && SameAt(h, i, k) ensures SameAt(h, i, j) {
        FirstAgreesWithLast(h, i, j, doc.queue);
      }
    }
  }

  lemma FirstAgreesWithLast(h: History, a: nat, c: nat, queue: seq<Entry>)
    requires ReadsQueue(h, a, queue) && ReadsQueue(h, c, queue)
    ensures SameAt(h, a, c)
  {
    hide QueueAt;
    SameQueueIsSymmetric(QueueAt(h, c).value, queue);
    SameQueueIsTransitive(QueueAt(h, a).value, queue, QueueAt(h, c).value);
  }

  /** A run whose queue differs anywhere in the window from what its first read saw never publishes. */
  lemma ChangedQueueNeverPublishes(h: History, at: nat, expected: Context, capturedAt: string, doc: Snapshot, k: nat)
    requires NeverReturns(h, at + 6, LastRead(at, doc.queue))
    requires at + 6 <= k <= LastRead(at, doc.queue) && !SameAt(h, at + 6, k)
    ensures Collect(h, at, expected, capturedAt) != Ok(doc)
  {
    hide Collect, QueueAt, SameQueue;
    if Collect(h, at, expected, capturedAt) == Ok(doc) {
      PublishingRun(h, at, expected, capturedAt, doc);
      FirstAgreesWithLast(h, at + 6, LastRead(at, doc.queue), doc.queue);
    }
  }

  /** Without that assumption the window is not constant: the three reads cannot see a queue that
      changes and changes back between them. */
  lemma ReturningQueueIsMissed() returns (h: History, expected: Context, doc: Snapshot, k: nat)
    ensures Collect(h, 0, expected, "") == Ok(doc)
    ensures 6 <= k < LastRead(0, doc.queue) && !SameAt(h, 6, k)
  {
    expected := Context("P", "T");
    h := at => BlinkingInstant(at == 7);
    BlinkingGuard(h, expected, 0);
    BlinkingGuard(h, expected, 7);
    BlinkingGuard(h, expected, 14);
    BlinkingGuard(h, expected, 20);
    BlinkingQueue(h, 6);
    BlinkingQueue(h, 7);
    BlinkingQueue(h, 13);
    BlinkingQueue(h, 26);
    hide VerifyContext, QueueAt;
    doc, k := Snapshot("", expected, expected, [], []), 7;
  }

  function BlinkingInstant(blink: bool): Instant {
    Instant(
      Returned(Handle(true)), Returned(Handle(true)), Returned(Str("P")),
      Returned(Handle(true)), Returned(Str("T")), Returned(Bool(false)),
      Returned(List(if blink then [Dict(map[])] else [])), _ => Raised)
  }

  lemma BlinkingGuard(h: History, expected: Context, at: nat)
    requires expected == Context("P", "T")
    requires forall k: nat :: h(k) == BlinkingInstant(k == 7)
    ensures VerifyContext(h, at, expected) == Ok(expected)
  {
    assert !T.IsSpace("P"[0]) && !T.IsSpace("T"[0]);
    assert !T.Blank("P") && !T.Blank("T");
    hide T.Blank;
  }

  lemma BlinkingQueue(h: History, k: nat)
    requires forall k: nat :: h(k) == BlinkingInstant(k == 7)
    ensures k == 7 ==> QueueAt(h, k).Err? || |QueueAt(h, k).value| == 1
    ensures k != 7 ==> QueueAt(h, k) == Ok([])
  {
    hide NormalizeEntry;
    assert h(k) == BlinkingInstant(k == 7);
  }
}
