/** `execute_test_d`: one queue attempt with a durable record on either side of it. */
module TestDAttempt {
  import opened PythonValues
  import E = EvidenceRecord
  import D = EvidenceDurability
  import P = EvidencePublication
  import Q = RenderQueueEntries
  import T = Text

  // ---- job ids and the outcome ----

  function IdText(v: Value): Option<string> {
    match v
    case Str(s) => if T.Blank(s) then None else Some(T.Strip(s))
    case Int(i) => Some(T.Strip(T.IntText(i)))
    case _ => None
  }

  /** The first alias with a usable value decides. */
  function FirstId(fields: map<Key, Value>, aliases: seq<string>): Option<string> {
    if aliases == [] then None
    else if Text(aliases[0]) in fields && IdText(fields[Text(aliases[0])]).Some? then IdText(fields[Text(aliases[0])])
    else FirstId(fields, aliases[1..])
  }

  function JobIdOf(job: Value): Option<string> {
    if job.Dict? then FirstId(job.entries, Q.JOB_ID_ALIASES) else None
  }

  function CoerceDirectJobId(v: Value): Option<string> {
    match v
    case Bool(_) => None
    case Null => None
    case Str(_) => IdText(v)
    case Int(_) => IdText(v)
    case _ => JobIdOf(v)
  }

  function NormalizeQueue(raw: Value): Option<seq<Value>> {
    match raw
    case Null => Some([])
    case Bool(b) => if b then None else Some([])
    case List(items) => Some(items)
    case _ => None
  }

  datatype Class = Accepted | Rejected | Inconclusive

  datatype Outcome = Outcome(kind: Class, directJobId: Option<string>, newJobIds: seq<string>)

  function IdsOf(jobs: seq<Value>): seq<string> {
    if jobs == [] then []
    else (if JobIdOf(jobs[0]).Some? then [JobIdOf(jobs[0]).value] else []) + IdsOf(jobs[1..])
  }

  predicate AllIdentified(jobs: seq<Value>) {
    forall i | 0 <= i < |jobs| :: JobIdOf(jobs[i]).Some?
  }

  function ClassifyQueueOutcome(addResult: Value, before: seq<Value>, after: seq<Value>): Outcome {
    var direct := CoerceDirectJobId(addResult);
    if before != [] then Outcome(Inconclusive, direct, [])
    else if !AllIdentified(after) then Outcome(Inconclusive, direct, [])
    else
      var ids := IdsOf(after);
      if |after| == 1 && |ids| == 1 then
        if direct.Some? && direct.value != ids[0] then Outcome(Inconclusive, direct, ids)
        else Outcome(Accepted, direct, ids)
      else if after == [] && (addResult == Str("") || addResult == Bool(false)) then Outcome(Rejected, direct, [])
      else if after == [] && direct.Some? then Outcome(Inconclusive, direct, [])
      else Outcome(Inconclusive, direct, ids)
  }

  // ---- what Resolve and the disk answer ----

  /** A look at the project: whether everything but the end frame is as reviewed, the end frame of the
      Control timeline, the raw render queue and the raw rendering flag. */
  datatype Look = Look(asReviewed: bool, endFrame: Value, queue: Value, rendering: Value)

  /** After the call each observation may fail on its own. */
  datatype Aftermath = Aftermath(
    queue: Option<Value>, rendering: Option<Value>, identityRead: bool, timeline: Option<Look>, projectAsReviewed: bool)

  datatype Record = PreAdd | AddResult | PostAdd

  /** `text` is what each record is serialised to; only the last holds an outcome. */
  datatype World = World(
    first: Look, presetOk: bool, targetOk: bool, second: Look, callable: bool,
    presetLoaded: Value, settingsApplied: Value, contextOk: bool, third: Look,
    preAddCalls: E.Calls, addResult: Option<Value>, resultCalls: E.Calls, after: Aftermath, postAddCalls: E.Calls,
    text: (Record, Option<Outcome>) -> string)

  const END_FRAMES: set<int> := {86424, 86544}

  /** `validate_test_d_snapshot`. */
  predicate TimelineValid(look: Look, expected: Option<int>) {
    && look.asReviewed && look.endFrame.Int? && look.endFrame.i in END_FRAMES
    && (expected.Some? ==> look.endFrame.i == expected.value)
  }

  predicate PreAddSnapshotPasses(look: Look, expected: Option<int>) {
    TimelineValid(look, expected) && NormalizeQueue(look.queue) == Some([]) && look.rendering == Bool(false)
  }

  // ---- the records ----

  function FileName(record: Record): string {
    match record
    case PreAdd => "pre_add_evidence.json"
    case AddResult => "add_render_job_result.json"
    case PostAdd => "post_add_evidence.json"
  }

  function RequestFor(w: World, record: Record, outcome: Option<Outcome>): E.Request {
    E.Request(FileName(record), w.text(record, outcome),
              match record case PreAdd => w.preAddCalls case AddResult => w.resultCalls case PostAdd => w.postAddCalls)
  }

  /** How a write ends after the writes before it. */
  function EndingOf(before: seq<E.Request>, r: E.Request): E.Ending {
    E.Persist(E.DiskAfter(before), r.name, r.text, r.calls).ending
  }

  /** The records up to the one before AddRenderJob, and up to the one right after it. */
  function FirstRequest(w: World): seq<E.Request> {
    [RequestFor(w, PreAdd, None)]
  }

  function FirstTwo(w: World): seq<E.Request> {
    FirstRequest(w) + [RequestFor(w, AddResult, None)]
  }

  function AllThree(w: World, outcome: Outcome): seq<E.Request> {
    FirstTwo(w) + [RequestFor(w, PostAdd, Some(outcome))]
  }

  function PreAddWrite(w: World): E.Ending {
    EndingOf([], RequestFor(w, PreAdd, None))
  }

  function ResultWrite(w: World): E.Ending {
    EndingOf(FirstRequest(w), RequestFor(w, AddResult, None))
  }

  function PostAddWrite(w: World, outcome: Outcome): E.Ending {
    EndingOf(FirstTwo(w), RequestFor(w, PostAdd, Some(outcome)))
  }

  // ---- the effects ----

  /** A record is stored when it has taken its name; the call is noted with the evidence as it then is. */
  datatype Event =
    | SnapshotPassed(which: nat)
    | PresetLoaded
    | SettingsApplied
    | Stored(record: Record, outcome: Option<Outcome>)
    | AddCalled(evidence: E.Disk)
    | Observed

  datatype Returned = Returned(
    outcome: Outcome, endFrame: int, postErrors: nat, evidenceErrors: nat,
    preAddPersisted: bool, resultPersisted: bool, postAddPersisted: bool)

  /** The effects in order, and every state of the evidence directory. */
  datatype Run = Run(events: seq<Event>, trail: seq<E.Disk>, result: Option<Returned>)

  function StoredBy(write: E.Ending, record: Record, outcome: Option<Outcome>): seq<Event> {
    if write == E.FailedBefore then [] else [Stored(record, outcome)]
  }

  function Count(failed: bool): nat { if failed then 1 else 0 }

  /** Errors among the five observations after the call; the last two share one guard each. */
  function PostErrors(after: Aftermath, endFrame: int): nat {
    Count(after.queue.None? || NormalizeQueue(after.queue.value).None?)
    + Count(after.rendering.None?)
    + Count(!after.identityRead)
    + Count(after.timeline.None? || !TimelineValid(after.timeline.value, Some(endFrame)))
    + Count(!after.projectAsReviewed)
  }

  function FirstOutcome(addResult: Value, after: Aftermath): Outcome {
    if after.queue.None? || NormalizeQueue(after.queue.value).None?
    then Outcome(Inconclusive, CoerceDirectJobId(addResult), [])
    else ClassifyQueueOutcome(addResult, [], NormalizeQueue(after.queue.value).value)
  }

  function Doubt(o: Outcome): Outcome {
    o.(kind := Inconclusive)
  }

  /** The outcome that goes into the post-add record. */
  function RecordedOutcome(w: World, addResult: Value, endFrame: int): Outcome {
    var o := FirstOutcome(addResult, w.after);
    var o1 := if w.after.rendering != Some(Bool(false)) then Doubt(o) else o;
    var o2 := if PostErrors(w.after, endFrame) > 0 then Doubt(o1) else o1;
    if ResultWrite(w) != E.Persisted then Doubt(o2) else o2
  }

  function Gates(w: World): seq<Event> {
    [SnapshotPassed(1), SnapshotPassed(2), PresetLoaded, SettingsApplied, SnapshotPassed(3)]
  }

  predicate GatesPass(w: World) {
    && PreAddSnapshotPasses(w.first, None) && w.presetOk && w.targetOk
    && PreAddSnapshotPasses(w.second, Some(w.first.endFrame.i)) && w.callable
    && w.presetLoaded == Bool(true) && w.settingsApplied == Bool(true) && w.contextOk
    && PreAddSnapshotPasses(w.third, Some(w.first.endFrame.i))
  }

  /** How far the gates get: each effect happens when all before it let it. */
  function GateEvents(w: World): seq<Event> {
    if !PreAddSnapshotPasses(w.first, None) then []
    else if !w.presetOk || !w.targetOk || !PreAddSnapshotPasses(w.second, Some(w.first.endFrame.i)) then [SnapshotPassed(1)]
    else if !w.callable then [SnapshotPassed(1), SnapshotPassed(2)]
    else if w.presetLoaded != Bool(true) then [SnapshotPassed(1), SnapshotPassed(2), PresetLoaded]
    else if w.settingsApplied != Bool(true) || !w.contextOk || !PreAddSnapshotPasses(w.third, Some(w.first.endFrame.i))
    then [SnapshotPassed(1), SnapshotPassed(2), PresetLoaded, SettingsApplied]
    else Gates(w)
  }

  function Execute(w: World): Run {
    if !GatesPass(w) then Run(GateEvents(w), [], None)
    else
      var before := Gates(w) + StoredBy(PreAddWrite(w), PreAdd, None);
      var called := before + [AddCalled(E.DiskAfter(FirstRequest(w)))];
      if PreAddWrite(w) != E.Persisted then Run(before, E.Writes(FirstRequest(w)), None)
      else if w.addResult.None? then Run(called, E.Writes(FirstRequest(w)), None)
      else Called(w, called)
  }

  /** AddRenderJob has returned. */
  function Called(w: World, before: seq<Event>): Run
    requires w.addResult.Some? && GatesPass(w)
  {
    var endFrame := w.first.endFrame.i;
    var recorded := RecordedOutcome(w, w.addResult.value, endFrame);
    var write := PostAddWrite(w, recorded);
    var events := before + StoredBy(ResultWrite(w), AddResult, None) + [Observed] + StoredBy(write, PostAdd, Some(recorded));
    Run(events, E.Writes(AllThree(w, recorded)), Some(Returned(
      if write != E.Persisted then Doubt(recorded) else recorded,
      endFrame, PostErrors(w.after, endFrame),
      Count(ResultWrite(w) != E.Persisted) + Count(write != E.Persisted),
      true, ResultWrite(w) == E.Persisted, write == E.Persisted)))
  }

  // ---- the attempt as it runs ----

  class Attempt {
    const w: World
    const package: E.Package
    var events: seq<Event>
    ghost var requests: seq<E.Request>

    ghost predicate Valid()
      reads this, package
    {
      package.trail == E.Writes(requests) && package.disk == E.DiskAfter(requests)
    }

    constructor (w: World)
      ensures this.w == w && events == [] && requests == [] && fresh(package) && Valid()
    {
      this.w := w;
      package := new E.Package();
      events := [];
      requests := [];
    }

    method WriteJson(record: Record, outcome: Option<Outcome>) returns (ok: bool)
      requires Valid()
      modifies this`events, this`requests, package
      ensures Valid() && requests == old(requests) + [RequestFor(w, record, outcome)]
      ensures var ending := EndingOf(old(requests), RequestFor(w, record, outcome));
              events == old(events) + StoredBy(ending, record, outcome) && ok == (ending == E.Persisted)
    {
      var r := RequestFor(w, record, outcome);
      E.LastWrite(requests, r);
      hide RequestFor;
      var ending := package.WriteAndHash(r.name, r.text, r.calls);
      requests := requests + [r];
      if ending != E.FailedBefore { events := events + [Stored(record, outcome)]; }
      return ending == E.Persisted;
    }

    /** endFrame is None when a gate raised. */
    method PassGates() returns (endFrame: Option<int>)
      requires events == []
      modifies this`events
      ensures events == GateEvents(w)
      ensures endFrame == if GatesPass(w) then Some(w.first.endFrame.i) else None
    {
      if !PreAddSnapshotPasses(w.first, None) { return None; }
      events := events + [SnapshotPassed(1)];
      var frame := w.first.endFrame.i;
      if !w.presetOk || !w.targetOk { return None; }
      if !PreAddSnapshotPasses(w.second, Some(frame)) { return None; }
      events := events + [SnapshotPassed(2)];
      if !w.callable { return None; }
      events := events + [PresetLoaded];
      if w.presetLoaded != Bool(true) { return None; }
      events := events + [SettingsApplied];
      if w.settingsApplied != Bool(true) || !w.contextOk { return None; }
      if !PreAddSnapshotPasses(w.third, Some(frame)) { return None; }
      events := events + [SnapshotPassed(3)];
      return Some(frame);
    }

    /** The observations after the call; a failed one is counted and the others still happen. */
    method Observe(endFrame: int) returns (jobs: Option<seq<Value>>, postErrors: nat)
      modifies this`events
      ensures events == old(events) + [Observed]
      ensures postErrors == PostErrors(w.after, endFrame)
      ensures jobs == if w.after.queue.None? then None else NormalizeQueue(w.after.queue.value)
    {
      postErrors := 0;
      jobs := None;
      if w.after.queue.Some? { jobs := NormalizeQueue(w.after.queue.value); }
      if jobs.None? { postErrors := postErrors + 1; }
      if w.after.rendering.None? { postErrors := postErrors + 1; }
      if !w.after.identityRead { postErrors := postErrors + 1; }
      if w.after.timeline.None? {
        postErrors := postErrors + 1;
      } else if !TimelineValid(w.after.timeline.value, Some(endFrame)) {
        postErrors := postErrors + 1;
      }
      if !w.after.projectAsReviewed { postErrors := postErrors + 1; }
      events := events + [Observed];
    }

    /** The outcome for the last record, from the queue first and then from everything that went wrong. */
    method Decide(endFrame: int, addResult: Value, jobs: Option<seq<Value>>, postErrors: nat, evidenceErrors: nat)
      returns (outcome: Outcome)
      requires jobs == (if w.after.queue.None? then None else NormalizeQueue(w.after.queue.value))
      requires postErrors == PostErrors(w.after, endFrame) && evidenceErrors == Count(ResultWrite(w) != E.Persisted)
      ensures outcome == RecordedOutcome(w, addResult, endFrame)
    {
      hide ClassifyQueueOutcome, CoerceDirectJobId, PostErrors, NormalizeQueue, ResultWrite;
      outcome :=
        if jobs.None? then Outcome(Inconclusive, CoerceDirectJobId(addResult), [])
        else ClassifyQueueOutcome(addResult, [], jobs.value);
      if w.after.rendering != Some(Bool(false)) { outcome := Doubt(outcome); }
      if postErrors > 0 { outcome := Doubt(outcome); }
      if evidenceErrors > 0 { outcome := Doubt(outcome); }
    }

    /** Once AddRenderJob has returned nothing stops the observations and the last record. */
    method Conclude(endFrame: int, addResult: Value) returns (result: Option<Returned>)
      requires Valid() && requests == FirstRequest(w)
      requires GatesPass(w) && endFrame == w.first.endFrame.i && w.addResult == Some(addResult)
      modifies this`events, this`requests, package
      ensures Valid() && Run(events, package.trail, result) == Called(w, old(events))
    {
      hide RecordedOutcome, PostErrors, GatesPass, NormalizeQueue, RequestFor, EndingOf, StoredBy;
      hide E.Writes, E.DiskAfter;
      var evidenceErrors: nat := 0;
      var resultPersisted := WriteJson(AddResult, None);
      if !resultPersisted { evidenceErrors := evidenceErrors + 1; }
      var jobs, postErrors := Observe(endFrame);
      var outcome := Decide(endFrame, addResult, jobs, postErrors, evidenceErrors);
      var returned := outcome;
      var postPersisted := WriteJson(PostAdd, Some(outcome));
      if !postPersisted {
        evidenceErrors := evidenceErrors + 1;
        returned := Doubt(outcome);
      }
      return Some(Returned(returned, endFrame, postErrors, evidenceErrors, true, resultPersisted, postPersisted));
    }

    method ExecuteTestD() returns (result: Option<Returned>)
      requires events == [] && requests == [] && Valid()
      modifies this`events, this`requests, package
      ensures Valid() && Run(events, package.trail, result) == Execute(w)
    {
      hide GatesPass, GateEvents, Called, RequestFor, EndingOf;
      GateEventsWhenPassing(w);
      var frame := PassGates();
      if frame.None? { return None; }
      var persisted := WriteJson(PreAdd, None);
      assert requests == FirstRequest(w);
      if !persisted { return None; }
      events := events + [AddCalled(package.disk)];
      if w.addResult.None? { return None; }
      result := Conclude(frame.value, w.addResult.value);
    }
  }

  lemma GateEventsWhenPassing(w: World)
    ensures GatesPass(w) ==> GateEvents(w) == Gates(w)
  {
  }
}
