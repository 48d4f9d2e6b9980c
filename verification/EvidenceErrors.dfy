/** Every error the create-only writer raises names what really happened. */
module EvidenceErrors {
  import opened EvidencePublication
  import opened PythonValues

  /** Action a, taken by writer w in state s, is what error e reports. */
  predicate IsCause(s: State, a: Action, w: nat, e: Error) {
    && Acts(a, w)
    && match e
       case OutputPathIsDirectory => a.Validate? && Output in s.entries && s.entries[Output] == Directory
       case OutputPathAlreadyExists => (a.Validate? || a.LinkFindsFile?) && Output in s.entries && (a.Validate? ==> s.entries[Output].Regular?)
       case OutputParentDirectoryMissing => a.Validate? && Output !in s.entries && !s.parentIsDirectory
       case OutputTempCreateFailed => a.MakeTempFails?
       case OutputWriteFailed => a.WriteFails?
       case OutputPublishFailed => a.LinkFails?
       case OutputTempCleanupFailed => a.UnlinkFails?
  }

  ghost predicate Happened(states: seq<State>, actions: seq<Action>, n: nat, w: nat, e: Error)
    requires n <= |actions| && n < |states|
  {
    exists k :: 0 <= k < n && IsCause(states[k], actions[k], w, e)
  }

  /** What a writer raises, or is about to raise once it has cleaned up, is what happened. */
  ghost predicate ErrorIsTrue(states: seq<State>, actions: seq<Action>, n: nat, w: nat)
    requires n <= |actions| && n < |states| && w < |states[n].writers|
  {
    match states[n].writers[w].phase
    case Ready => forall e :: !Happened(states, actions, n, w, e)
    case Validated => forall e :: !Happened(states, actions, n, w, e)
    case Writing(_, _, _) => forall e :: !Happened(states, actions, n, w, e)
    case Synced(_, _) => forall e :: !Happened(states, actions, n, w, e)
    case Cleaning(_, _, pending) => forall e :: Happened(states, actions, n, w, e) <==> pending == Some(e)
    case Done(Returned) => forall e :: !Happened(states, actions, n, w, e)
    case Done(Raised(e, _)) => Happened(states, actions, n, w, e) && !(e != OutputTempCleanupFailed && Happened(states, actions, n, w, OutputTempCleanupFailed))
    case Crashed => true
  }

  lemma OneMoreStep(states: seq<State>, actions: seq<Action>, n: nat, w: nat, e: Error)
    requires n < |actions| && n + 1 < |states|
    ensures Happened(states, actions, n + 1, w, e) <==>
            Happened(states, actions, n, w, e) || IsCause(states[n], actions[n], w, e)
  {
    hide IsCause;
    if Happened(states, actions, n + 1, w, e) {
      var k :| 0 <= k < n + 1 && IsCause(states[k], actions[k], w, e);
    }
  }

  lemma {:induction false} ErrorsAreTrue(states: seq<State>, actions: seq<Action>, n: nat, w: nat)
    requires Run(states, actions) && n <= |actions| && w < |states[n].writers|
    ensures ErrorIsTrue(states, actions, n, w)
  {
    if n > 0 {
      var s, a := states[n - 1], actions[n - 1];
      assert Step(s, a, states[n]);
      SameWriters(s, a);
      ErrorsAreTrue(states, actions, n - 1, w);
      forall e ensures Happened(states, actions, n, w, e) <==>
                       Happened(states, actions, n - 1, w, e) || IsCause(s, a, w, e)
      {
        OneMoreStep(states, actions, n - 1, w, e);
      }
      StepKeepsErrorsTrue(states, actions, n - 1, n, w);
    }
  }

  lemma SameWriters(s: State, a: Action)
    requires Enabled(s, a)
    ensures |Apply(s, a).writers| == |s.writers|
    ensures forall w | 0 <= w < |s.writers| && !Acts(a, w) :: Apply(s, a).writers[w] == s.writers[w]
  {
  }

  /** What one step of its own does to a writer's phase, in terms of the causes. */
  lemma OwnStep(s: State, a: Action, w: nat)
    requires Enabled(s, a) && Acts(a, w)
    ensures var p, q := s.writers[w].phase, Apply(s, a).writers[w].phase;
            && !p.Done? && !p.Crashed?
            && (q.Crashed? || forall e :: IsCause(s, a, w, e) <==>
                  || (q.Done? && !p.Cleaning? && q.outcome.Raised? && q.outcome.error == e)
                  || (q.Cleaning? && q.pending == Some(e))
                  || (a.UnlinkFails? && e == OutputTempCleanupFailed))
            && (p.Cleaning? ==> q.Crashed? || q.Done?)
            && (q.Done? && p.Cleaning? ==>
                  q.outcome == if a.UnlinkFails? then Raised(OutputTempCleanupFailed, Some(s.writers[w].published))
                               else if p.pending.None? then EvidencePublication.Outcome.Returned
                               else Raised(p.pending.value, Some(false)))
            && (q.Done? && !p.Cleaning? ==> q.outcome.Raised?) && (a.UnlinkFails? ==> p.Cleaning?)
  {
  }

  lemma StepKeepsErrorsTrue(states: seq<State>, actions: seq<Action>, m: nat, n: nat, w: nat)
    requires n == m + 1 && n <= |actions| && n < |states| && Step(states[m], actions[m], states[n])
    requires w < |states[m].writers| == |states[n].writers| && ErrorIsTrue(states, actions, m, w)
    requires forall e :: Happened(states, actions, n, w, e) <==>
                         Happened(states, actions, m, w, e) || IsCause(states[m], actions[m], w, e)
    ensures ErrorIsTrue(states, actions, n, w)
  {
    var s, a := states[m], actions[m];
    if Acts(a, w) {
      hide Happened, IsCause, Apply, Enabled;
      OwnStep(s, a, w);
    } else {
      hide Happened, Apply, Enabled;
      SameWriters(s, a);
    }
  }
}
