/** The offline acceptance comparison of an expected job against an accepted snapshot. */
module RenderQueueComparison {
  import opened PythonValues
  import opened RenderQueueEntries
  import opened RenderQueueSnapshot
  import opened RenderQueueExactness
  import T = Text

  datatype Classification =
    | NoExpectedJobIdSupplied
    | ExactSingleJobMatch
    | ZeroMatchingJobs
    | AmbiguousDueToUnidentifiedEntries
    | ExpectedJobPresentWithAdditionalJobs

  datatype StatusCheck = NotRequested | NotApplicable | StatusMatch | StatusMismatch

  datatype Refusal =
    | ExpectedJobIdInvalid
    | ExpectedJobStatusInvalid
    | ExpectedJobStatusRequiresExpectedJobId
    | DuplicateIdentifiedJobIdInValidatedSnapshot

  datatype Outcome =
    | Refused(refusal: Refusal)
    | Compared(classification: Classification, matching: seq<nat>, statusCheck: StatusCheck)

  function MatchingIndexes(queue: seq<Entry>, id: string): (r: seq<nat>)
    ensures forall i: nat :: i in r <==> exists k | 0 <= k < |queue| :: queue[k].index == i && queue[k].jobId == Some(id)
  {
    if queue == [] then []
    else
      var front := MatchingIndexes(queue[..|queue| - 1], id);
      var last := queue[|queue| - 1];
      assert queue == queue[..|queue| - 1] + [last];
      if last.jobId == Some(id) then front + [last.index] else front
  }

  function CountWhere(queue: seq<Entry>, identified: bool): nat {
    if queue == [] then 0
    else CountWhere(queue[..|queue| - 1], identified) + (if queue[|queue| - 1].jobId.Some? == identified then 1 else 0)
  }

  function Classify(queue: seq<Entry>, matching: seq<nat>): Classification {
    if |matching| == 1 && |queue| == 1 && CountWhere(queue, true) == 1 then ExactSingleJobMatch
    else if |matching| == 0 then ZeroMatchingJobs
    else if CountWhere(queue, false) > 0 then AmbiguousDueToUnidentifiedEntries
    else ExpectedJobPresentWithAdditionalJobs
  }

  function CheckStatus(doc: Snapshot, c: Classification, matching: seq<nat>, status: Option<string>): StatusCheck
    requires c.ExactSingleJobMatch? ==> |matching| == 1 && matching[0] < |doc.statuses|
  {
    if status.None? then NotRequested
    else if c != ExactSingleJobMatch then NotApplicable
    else if doc.statuses[matching[0]] == status then StatusMatch
    else StatusMismatch
  }

  function Compare(doc: Snapshot, id: Option<string>, status: Option<string>): Outcome
    requires Publishable(doc)
  {
    if id.Some? && T.Blank(id.value) then Refused(ExpectedJobIdInvalid)
    else if status.Some? && T.Blank(status.value) then Refused(ExpectedJobStatusInvalid)
    else if status.Some? && id.None? then Refused(ExpectedJobStatusRequiresExpectedJobId)
    else if id.None? then Compared(NoExpectedJobIdSupplied, [], CheckStatus(doc, NoExpectedJobIdSupplied, [], status))
    else
      var matching := MatchingIndexes(doc.queue, id.value);
      if |matching| > 1 then Refused(DuplicateIdentifiedJobIdInValidatedSnapshot)
      else
        MatchIsInRange(doc, id.value);
        assert |matching| == 1 ==> matching[0] in matching;
        var c := Classify(doc.queue, matching);
        Compared(c, matching, CheckStatus(doc, c, matching, status))
  }

  lemma MatchIsInRange(doc: Snapshot, id: string)
    requires Publishable(doc)
    ensures forall i | i in MatchingIndexes(doc.queue, id) :: i < |doc.queue| && doc.queue[i].jobId == Some(id)
  {
  }

  /** Accepted snapshots have distinct IDs, so no expected ID matches twice. */
  lemma {:induction false} AtMostOneMatch(queue: seq<Entry>, id: string)
    requires DistinctIds(queue)
    ensures |MatchingIndexes(queue, id)| <= 1
    ensures |MatchingIndexes(queue, id)| == 1 <==> exists k :: 0 <= k < |queue| && queue[k].jobId == Some(id)
  {
    if queue != [] {
      var front, last := queue[..|queue| - 1], queue[|queue| - 1];
      AtMostOneMatch(front, id);
      if last.jobId == Some(id) {
        assert forall k | 0 <= k < |front| :: front[k].jobId != Some(id) by {
          forall k | 0 <= k < |front| ensures front[k].jobId != Some(id) { assert queue[k] == front[k]; }
        }
      } else if k :| 0 <= k < |queue| && queue[k].jobId == Some(id) {
        assert front[k].jobId == Some(id);
      }
    }
  }

  lemma {:induction false} CountIsZeroIffNone(queue: seq<Entry>, identified: bool)
    ensures CountWhere(queue, identified) == 0 <==> forall k | 0 <= k < |queue| :: queue[k].jobId.Some? != identified
  {
    if queue != [] {
      var n := |queue| - 1;
      CountIsZeroIffNone(queue[..n], identified);
      assert forall k | 0 <= k < n :: queue[..n][k] == queue[k];
    }
  }

  ghost predicate Lists(queue: seq<Entry>, id: string) {
    exists k :: 0 <= k < |queue| && queue[k].jobId == Some(id)
  }

  /** What each classification means for the queue itself; the duplicate refusal is unreachable. */
  lemma ClassificationMeaning(doc: Snapshot, id: string, status: Option<string>)
    requires Publishable(doc) && !T.Blank(id) && (status.Some? ==> !T.Blank(status.value))
    ensures Compare(doc, Some(id), status).Compared?
    ensures var r, q := Compare(doc, Some(id), status), doc.queue;
      && (r.classification == ExactSingleJobMatch <==> |q| == 1 && q[0].jobId == Some(id))
      && (r.classification == ZeroMatchingJobs <==> !Lists(q, id))
      && (r.classification == AmbiguousDueToUnidentifiedEntries <==>
            Lists(q, id) && exists k :: 0 <= k < |q| && q[k].jobId.None?)
      && (r.classification == ExpectedJobPresentWithAdditionalJobs <==>
            |q| > 1 && Lists(q, id) && forall k | 0 <= k < |q| :: q[k].jobId.Some?)
      && (r.statusCheck == StatusMatch <==>
            status.Some? && |q| == 1 && q[0].jobId == Some(id) && doc.statuses[0] == status)
      && (r.statusCheck == StatusMismatch <==>
            status.Some? && |q| == 1 && q[0].jobId == Some(id) && doc.statuses[0] != status)
      && (r.statusCheck == NotRequested <==> status.None?)
      && (r.matching == [] <==> !Lists(q, id))
      && (forall i | i in r.matching :: i < |q| && q[i].jobId == Some(id))
  {
    hide T.Blank, WellFormedEntry, StatusMatches, PublishableQueue;
    AtMostOneMatch(doc.queue, id);
    MatchIsInRange(doc, id);
    CountIsZeroIffNone(doc.queue, true);
    CountIsZeroIffNone(doc.queue, false);
    var matching := MatchingIndexes(doc.queue, id);
    if |doc.queue| == 1 && doc.queue[0].jobId == Some(id) {
      assert doc.queue[..0] == [];
      assert CountWhere(doc.queue, true) == 1;
    }
    if |matching| == 1 {
      assert matching[0] in matching;
    }
  }

  /** What makes the comparison refuse, or stop before it looks at the queue. */
  lemma RefusalMeaning(doc: Snapshot, id: Option<string>, status: Option<string>)
    requires Publishable(doc)
    ensures var r := Compare(doc, id, status);
      && (r == Refused(ExpectedJobIdInvalid) <==> id.Some? && T.Strip(id.value) == "")
      && (r == Refused(ExpectedJobStatusInvalid) <==>
            (id.Some? ==> T.Strip(id.value) != "") && status.Some? && T.Strip(status.value) == "")
      && (r == Refused(ExpectedJobStatusRequiresExpectedJobId) <==> id.None? && status.Some? && T.Strip(status.value) != "")
      && r != Refused(DuplicateIdentifiedJobIdInValidatedSnapshot)
      && (r.Compared? && r.classification == NoExpectedJobIdSupplied <==> id.None? && status.None?)
  {
    hide T.Blank, T.Strip, MatchingIndexes, Classify, CheckStatus;
    if id.Some? {
      T.BlankMeansStripsToNothing(id.value);
      AtMostOneMatch(doc.queue, id.value);
      NeverUnsupplied(doc.queue, MatchingIndexes(doc.queue, id.value));
    }
    if status.Some? { T.BlankMeansStripsToNothing(status.value); }
  }

  lemma NeverUnsupplied(queue: seq<Entry>, matching: seq<nat>)
    ensures Classify(queue, matching) != NoExpectedJobIdSupplied
  {
  }
}
