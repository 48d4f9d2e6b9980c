/** The evidence writer itself, making its system calls one by one while others act in between. */
module EvidenceWriter {
  import opened EvidencePublication
  import opened PythonValues

  /** What happens around one system call: what the others do first, and whether the call fails.
      For `mkstemp` the directory also offers a name and an inode, and for a write it says how far
      the kernel takes the text. */
  datatype Weather = Weather(others: seq<Action>, fails: bool, temp: nat, inode: nat, upTo: nat)

  /** The directory as the writers share it, with the history of what was done to it. */
  class Disk {
    var now: State
    ghost var states: seq<State>
    ghost var actions: seq<Action>

    ghost predicate Valid()
      reads this
    {
      Run(states, actions) && now == states[|actions|]
    }

    constructor (start: State)
      requires Init(start)
      ensures Valid() && now == start && states == [start] && actions == []
    {
      now := start;
      states := [start];
      actions := [];
    }

    method Do(a: Action)
      requires Valid() && Enabled(now, a)
      modifies this
      ensures Valid() && now == Apply(old(now), a)
      ensures actions == old(actions) + [a] && states == old(states) + [now]
    {
      hide Enabled, Apply;
      var next := Apply(now, a);
      assert Run(states + [next], actions + [a]) by { ExtendRun(states, actions, a); }
      now := next;
      states := states + [next];
      actions := actions + [a];
    }

    /** The other writers and programs run; this writer stands still. */
    method LetOthersRun(me: nat, others: seq<Action>)
      requires Valid() && me < |now.writers|
      modifies this
      ensures Valid() && old(actions) <= actions && old(states) <= states
      ensures me < |now.writers| && now.writers[me] == old(now).writers[me]
    {
      for i := 0 to |others|
        invariant Valid() && old(actions) <= actions && old(states) <= states
        invariant me < |now.writers| && now.writers[me] == old(now).writers[me]
      {
        if !Acts(others[i], me) && Enabled(now, others[i]) {
          OthersLeaveMeAlone(now, others[i], me);
          Do(others[i]);
        }
      }
    }

    /** `write_json_no_overwrite` after the text has been serialised. */
    method WriteNoOverwrite(me: nat, weather: nat -> Weather) returns (outcome: Outcome)
      requires Valid() && me < |now.writers| && now.writers[me].phase == Ready
      modifies this
      ensures Valid() && old(actions) <= actions && old(states) <= states
      ensures me < |now.writers| && now.writers[me].phase == Done(outcome)
      ensures outcome.Returned? ==> OutputHolds(now, File(now.writers[me].text, true))
      ensures Output in old(now).entries ==> outcome.Raised? && outcome.published.None?
    {
      outcome := CallByCall(me, weather);
      FinishedCall(states, actions, me, outcome);
    }

    method CallByCall(me: nat, weather: nat -> Weather) returns (outcome: Outcome)
      requires Valid() && me < |now.writers| && now.writers[me].phase == Ready
      modifies this
      ensures Valid() && old(actions) <= actions && old(states) <= states
      ensures me < |now.writers| && now.writers[me].phase == Done(outcome)
      ensures Output in old(now).entries ==> outcome.Raised? && outcome.published.None?
    {
      hide Run, Inv, Enabled, Apply;
      ValidateOutputPath(me, weather(0));
      if now.writers[me].phase.Done? { return now.writers[me].phase.outcome; }
      MakeTempFile(me, weather(1));
      if now.writers[me].phase.Done? { return now.writers[me].phase.outcome; }
      var step := WriteAndSync(me, weather);
      if now.writers[me].phase.Synced? {
        PublishFile(me, weather(step));
      }
      outcome := RemoveTemp(me, weather(step + 1));
    }

    method ValidateOutputPath(me: nat, weather: Weather)
      requires Valid() && me < |now.writers| && now.writers[me].phase == Ready
      modifies this
      ensures Valid() && old(actions) <= actions && old(states) <= states
      ensures me < |now.writers|
      ensures var p := now.writers[me].phase;
        p == Validated || (p.Done? && p.outcome.Raised? && p.outcome.published.None?)
      ensures Output in old(now).entries ==> now.writers[me].phase.Done?
    {
      ghost var n := |actions|;
      assert states[n] == now;
      LetOthersRun(me, weather.others);
      assert states[n] == old(now);
      TakenStaysTaken(states, actions, n, |actions|);
      Do(Validate(me));
    }

    method MakeTempFile(me: nat, weather: Weather)
      requires Valid() && me < |now.writers| && now.writers[me].phase == Validated
      modifies this
      ensures Valid() && old(actions) <= actions && old(states) <= states
      ensures me < |now.writers|
      ensures now.writers[me].phase == Writing(weather.temp, weather.inode, 0)
           || now.writers[me].phase == Done(Raised(OutputTempCreateFailed, None))
    {
      hide Run, Inv;
      LetOthersRun(me, weather.others);
      if weather.fails || !Enabled(now, MakeTemp(me, weather.temp, weather.inode)) {
        Do(MakeTempFails(me));
      } else {
        Do(MakeTemp(me, weather.temp, weather.inode));
      }
    }

    /** Write the whole text in as many pieces as it takes, flush and fsync. */
    method WriteAndSync(me: nat, weather: nat -> Weather) returns (step: nat)
      requires Valid() && me < |now.writers| && now.writers[me].phase.Writing? && now.writers[me].phase.written == 0
      modifies this
      ensures Valid() && old(actions) <= actions && old(states) <= states
      ensures me < |now.writers|
      ensures var p := now.writers[me].phase; p.Synced? || (p.Cleaning? && p.pending == Some(OutputWriteFailed))
    {
      hide Run, Inv;
      var temp, inode := now.writers[me].phase.temp, now.writers[me].phase.inode;
      step := 2;
      var text, written := now.writers[me].text, 0;
      while written < |text|
        invariant Valid() && old(actions) <= actions && old(states) <= states
        invariant me < |now.writers| && now.writers[me].text == text && written <= |text|
        invariant now.writers[me].phase == Writing(temp, inode, written)
      {
        LetOthersRun(me, weather(step).others);
        if weather(step).fails {
          Do(WriteFails(me));
          return;
        }
        var upTo := if written < weather(step).upTo <= |text| then weather(step).upTo else |text|;
        Do(Write(me, upTo));
        written := upTo;
        step := step + 1;
      }
      LetOthersRun(me, weather(step).others);
      if weather(step).fails {
        Do(WriteFails(me));
      } else {
        Do(Sync(me));
      }
    }

    method PublishFile(me: nat, weather: Weather)
      requires Valid() && me < |now.writers| && now.writers[me].phase.Synced?
      modifies this
      ensures Valid() && old(actions) <= actions && old(states) <= states
      ensures me < |now.writers| && now.writers[me].phase.Cleaning?
    {
      hide Run, Inv;
      LetOthersRun(me, weather.others);
      if Output in now.entries {
        Do(LinkFindsFile(me));
      } else if weather.fails || !Enabled(now, Link(me)) {
        Do(LinkFails(me));
      } else {
        Do(Link(me));
      }
    }

    method RemoveTemp(me: nat, weather: Weather) returns (outcome: Outcome)
      requires Valid() && me < |now.writers| && now.writers[me].phase.Cleaning?
      modifies this
      ensures Valid() && old(actions) <= actions && old(states) <= states
      ensures me < |now.writers| && now.writers[me].phase == Done(outcome)
    {
      hide Run, Inv;
      LetOthersRun(me, weather.others);
      Do(if weather.fails then UnlinkFails(me) else Unlink(me));
      outcome := now.writers[me].phase.outcome;
    }
  }

  lemma TakenStaysTaken(states: seq<State>, actions: seq<Action>, i: nat, n: nat)
    requires Run(states, actions) && i <= n <= |actions|
    ensures Output in states[i].entries ==> Output in states[n].entries
  {
    OutputNeverChanges(states, actions, i, n);
  }

  lemma FinishedCall(states: seq<State>, actions: seq<Action>, me: nat, outcome: Outcome)
    requires Run(states, actions) && me < |states[|actions|].writers|
    requires states[|actions|].writers[me].phase == Done(outcome)
    ensures outcome.Returned? ==> OutputHolds(states[|actions|], File(states[|actions|].writers[me].text, true))
  {
    var n := |actions|;
    RunKeepsInv(states, actions, n);
    OutcomeMatchesRun(states, actions, me, n, outcome);
    if outcome.Returned? { LinkedOutputIsComplete(states, actions, me, n); }
  }

  lemma ExtendRun(states: seq<State>, actions: seq<Action>, a: Action)
    requires Run(states, actions) && Enabled(states[|actions|], a)
    ensures Run(states + [Apply(states[|actions|], a)], actions + [a])
  {
  }

  lemma OthersLeaveMeAlone(s: State, a: Action, me: nat)
    requires Enabled(s, a) && !Acts(a, me) && me < |s.writers|
    ensures me < |Apply(s, a).writers| && Apply(s, a).writers[me] == s.writers[me]
  {
  }
}
