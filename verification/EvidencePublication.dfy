/** Create-only publication of an evidence file: temporary file, write, fsync, link, unlink.

    Any number of writers share the directory of one output path. The look at the output path and its
    parent before anything is written is one step, and so is every later system call; a call that
    fails has no effect. Any writer may crash between two steps, any call may fail, and some other
    program may create the output path. */
module EvidencePublication {
  import opened PythonValues

  /** Names in the output directory: the output path itself and the temporary names. */
  datatype Name = Output | Temp(id: nat)

  datatype Target = Regular(inode: nat) | Directory

  /** What a file holds, and whether that content has been forced to disk. */
  datatype File = File(text: string, durable: bool)

  datatype Error =
    | OutputPathIsDirectory
    | OutputPathAlreadyExists
    | OutputParentDirectoryMissing
    | OutputTempCreateFailed
    | OutputWriteFailed
    | OutputPublishFailed
    | OutputTempCleanupFailed

  /** How a call ended. The `published` detail is absent from the errors raised before the
      temporary file exists. */
  datatype Outcome = Returned | Raised(error: Error, published: Option<bool>)

  datatype Phase =
    | Ready
    | Validated
    | Writing(temp: nat, inode: nat, written: nat)
    | Synced(temp: nat, inode: nat)
    | Cleaning(temp: nat, inode: nat, pending: Option<Error>)
    | Done(outcome: Outcome)
    | Crashed

  /** One call of the writer: its serialised text, where it is, and its local `published` flag. */
  datatype Writer = Writer(text: string, phase: Phase, published: bool)

  datatype State = State(
    parentIsDirectory: bool,
    entries: map<Name, Target>,
    files: map<nat, File>,
    writers: seq<Writer>)

  datatype Action =
    | Validate(w: nat)
    | MakeTemp(w: nat, id: nat, inode: nat)
    | MakeTempFails(w: nat)
    | Write(w: nat, upTo: nat)
    | WriteFails(w: nat)  // a failing write, flush, fsync or close
    | Sync(w: nat)
    | Link(w: nat)
    | LinkFindsFile(w: nat)
    | LinkFails(w: nat)
    | Unlink(w: nat)
    | UnlinkFails(w: nat)
    | Crash(w: nat)
    | ForeignCreate(inode: nat, file: File)

  predicate Enabled(s: State, a: Action) {
    if a.ForeignCreate? then
      Output !in s.entries && a.inode !in s.files
    else
      && a.w < |s.writers|
      && var phase := s.writers[a.w].phase;
         match a
         case Validate(_) => phase.Ready?
         case MakeTemp(_, id, inode) => phase.Validated? && s.parentIsDirectory && Temp(id) !in s.entries && inode !in s.files
         case MakeTempFails(_) => phase.Validated?
         case Write(_, upTo) => phase.Writing? && phase.written < upTo <= |s.writers[a.w].text|
         case WriteFails(_) => phase.Writing?
         case Sync(_) => phase.Writing? && phase.written == |s.writers[a.w].text|
         case Link(_) => phase.Synced? && Output !in s.entries && Temp(phase.temp) in s.entries
         case LinkFindsFile(_) => phase.Synced? && Output in s.entries
         case LinkFails(_) => phase.Synced?
         case Unlink(_) => phase.Cleaning?
         case UnlinkFails(_) => phase.Cleaning?
         case Crash(_) => !phase.Done? && !phase.Crashed?
         case ForeignCreate(_, _) => false
  }

  function ValidationResult(s: State): Phase {
    if Output in s.entries then
      Done(Raised(if s.entries[Output].Directory? then OutputPathIsDirectory else OutputPathAlreadyExists, None))
    else if !s.parentIsDirectory then Done(Raised(OutputParentDirectoryMissing, None))
    else Validated
  }

  function Moved(s: State, w: nat, phase: Phase): State
    requires w < |s.writers|
  {
    s.(writers := s.writers[w := s.writers[w].(phase := phase)])
  }

  function Apply(s: State, a: Action): State
    requires Enabled(s, a)
  {
    if a.ForeignCreate? then
      s.(entries := s.entries[Output := Regular(a.inode)], files := s.files[a.inode := a.file])
    else
      var writer := s.writers[a.w];
      var phase := writer.phase;
      match a
      case Validate(w) => Moved(s, w, ValidationResult(s))
      case MakeTemp(w, id, inode) =>
        Moved(s, w, Writing(id, inode, 0)).(
          entries := s.entries[Temp(id) := Regular(inode)],
          files := s.files[inode := File("", false)])
      case MakeTempFails(w) => Moved(s, w, Done(Raised(OutputTempCreateFailed, None)))
      case Write(w, upTo) =>
        Moved(s, w, phase.(written := upTo)).(
          files := if phase.inode in s.files
                   then s.files[phase.inode := File(s.files[phase.inode].text + writer.text[phase.written..upTo], false)]
                   else s.files)
      case WriteFails(w) => Moved(s, w, Cleaning(phase.temp, phase.inode, Some(OutputWriteFailed)))
      case Sync(w) =>
        Moved(s, w, Synced(phase.temp, phase.inode)).(
          files := if phase.inode in s.files
                   then s.files[phase.inode := s.files[phase.inode].(durable := true)]
                   else s.files)
      case Link(w) =>
        s.(entries := s.entries[Output := s.entries[Temp(phase.temp)]],
           writers := s.writers[w := Writer(writer.text, Cleaning(phase.temp, phase.inode, None), true)])
      case LinkFindsFile(w) => Moved(s, w, Cleaning(phase.temp, phase.inode, Some(OutputPathAlreadyExists)))
      case LinkFails(w) => Moved(s, w, Cleaning(phase.temp, phase.inode, Some(OutputPublishFailed)))
      case Unlink(w) =>
        Moved(s, w, Done(if phase.pending.None? then Returned else Raised(phase.pending.value, Some(false)))).(
          entries := s.entries - {Temp(phase.temp)})
      case UnlinkFails(w) => Moved(s, w, Done(Raised(OutputTempCleanupFailed, Some(writer.published))))
      case Crash(w) => Moved(s, w, Crashed)
  }

  /** Before any of the writers has started; the directory may already hold anything. */
  ghost predicate Init(s: State) {
    && (forall n | n in s.entries && s.entries[n].Regular? :: s.entries[n].inode in s.files)
    && (forall w | 0 <= w < |s.writers| :: s.writers[w].phase == Ready && !s.writers[w].published)
  }

  ghost predicate Step(s: State, a: Action, s': State) {
    Enabled(s, a) && s' == Apply(s, a)
  }

  ghost predicate Run(states: seq<State>, actions: seq<Action>) {
    && |states| == |actions| + 1
    && Init(states[0])
    && forall i | 0 <= i < |actions| :: Step(states[i], actions[i], states[i + 1])
  }

  // ---- the invariant ----

  predicate HoldsTemp(p: Phase) {
    p.Writing? || p.Synced? || p.Cleaning?
  }

  /** What one writer knows about its own file. */
  ghost predicate OwnsItsFile(s: State, writer: Writer) {
    var p := writer.phase;
    HoldsTemp(p) ==>
      && p.inode in s.files
      && Temp(p.temp) in s.entries && s.entries[Temp(p.temp)] == Regular(p.inode)
      && (p.Writing? ==> p.written <= |writer.text| && s.files[p.inode].text == writer.text[..p.written])
      && (p.Synced? ==> s.files[p.inode] == File(writer.text, true))
  }

  /** A writer has linked exactly when its flag says so, and then the output holds its text. */
  ghost predicate FlagIsTrue(s: State, writer: Writer) {
    && (writer.published ==>
          && OutputHolds(s, File(writer.text, true))
          && (writer.phase.Crashed? || (writer.phase.Cleaning? && writer.phase.pending.None?) || writer.phase.Done?))
    && (writer.phase.Cleaning? ==> writer.published == writer.phase.pending.None?)
    && (writer.phase.Done? ==> OutcomeIsTrue(writer))
  }

  predicate OutcomeIsTrue(writer: Writer)
    requires writer.phase.Done?
  {
    match writer.phase.outcome
    case Returned => writer.published
    case Raised(e, Some(p)) => p == writer.published && (p ==> e == OutputTempCleanupFailed)
    case Raised(_, None) => !writer.published
  }

  ghost predicate OutputHolds(s: State, file: File) {
    && Output in s.entries && s.entries[Output].Regular?
    && s.entries[Output].inode in s.files
    && s.files[s.entries[Output].inode] == file
  }

  ghost predicate Apart(a: Phase, b: Phase) {
    HoldsTemp(a) && HoldsTemp(b) ==> a.inode != b.inode && a.temp != b.temp
  }

  /** The inode behind the output path is nobody's file in the making. */
  ghost predicate OutputIsNotBeingWritten(s: State, writer: Writer) {
    Output in s.entries && HoldsTemp(writer.phase) && !writer.published ==>
      s.entries[Output] != Regular(writer.phase.inode)
  }

  ghost predicate WriterInv(s: State, writer: Writer) {
    OwnsItsFile(s, writer) && FlagIsTrue(s, writer) && OutputIsNotBeingWritten(s, writer)
  }

  ghost predicate PairInv(v: Writer, w: Writer) {
    Apart(v.phase, w.phase) && !(v.published && w.published)
  }

  ghost predicate EntriesPointToFiles(s: State) {
    forall n | n in s.entries && s.entries[n].Regular? :: s.entries[n].inode in s.files
  }

  ghost predicate Inv(s: State) {
    && EntriesPointToFiles(s)
    && (forall w | 0 <= w < |s.writers| :: WriterInv(s, s.writers[w]))
    && (forall v, w | 0 <= v < w < |s.writers| :: PairInv(s.writers[v], s.writers[w]))
  }

  /** What no step ever does to the output path: take it away, repoint it or change its file. */
  ghost predicate OutputKept(s: State, s': State) {
    Output in s.entries ==>
      && Output in s'.entries && s'.entries[Output] == s.entries[Output]
      && (s.entries[Output].Regular? && s.entries[Output].inode in s.files ==>
            s.entries[Output].inode in s'.files
            && s'.files[s.entries[Output].inode].text == s.files[s.entries[Output].inode].text)
  }

  lemma InitEstablishesInv(s: State)
    requires Init(s)
    ensures Inv(s)
  {
  }

  predicate Acts(a: Action, w: nat) {
    !a.ForeignCreate? && a.w == w
  }

  predicate MakesTheFile(a: Action) {
    a.MakeTemp? || a.Write? || a.Sync?
  }

  ghost predicate ActorInv(s: State, w: nat) {
    w < |s.writers| && WriterInv(s, s.writers[w]) && EntriesPointToFiles(s)
  }

  /** The acting writer's own knowledge after a step that touches its file ... */
  lemma MakerKeepsInv(s: State, a: Action)
    requires Enabled(s, a) && MakesTheFile(a) && ActorInv(s, a.w)
    ensures ActorInv(Apply(s, a), a.w) && OutputKept(s, Apply(s, a))
  {
    match a
    case MakeTemp(_, _, _) =>
    case Write(_, _) =>
    case Sync(_) =>
  }

  /** ... after the link ... */
  lemma LinkerKeepsInv(s: State, a: Action)
    requires Enabled(s, a) && a.Link? && ActorInv(s, a.w)
    ensures ActorInv(Apply(s, a), a.w) && OutputKept(s, Apply(s, a))
  {
  }

  /** ... and after any other step. */
  lemma MoverKeepsInv(s: State, a: Action)
    requires Enabled(s, a) && !MakesTheFile(a) && !a.Link? && !a.ForeignCreate? && !Ends(a) && ActorInv(s, a.w)
    ensures ActorInv(Apply(s, a), a.w) && OutputKept(s, Apply(s, a))
  {
  }

  predicate Ends(a: Action) {
    a.Unlink? || a.UnlinkFails? || a.Crash?
  }

  lemma EnderKeepsInv(s: State, a: Action)
    requires Enabled(s, a) && Ends(a) && ActorInv(s, a.w)
    ensures ActorInv(Apply(s, a), a.w) && OutputKept(s, Apply(s, a))
  {
  }

  lemma ActorKeepsInv(s: State, a: Action)
    requires Inv(s) && Enabled(s, a) && !a.ForeignCreate?
    ensures ActorInv(Apply(s, a), a.w) && OutputKept(s, Apply(s, a))
  {
    hide Apply, WriterInv, EntriesPointToFiles, OutputKept;
    if MakesTheFile(a) { MakerKeepsInv(s, a); }
    else if a.Link? { LinkerKeepsInv(s, a); }
    else if Ends(a) { EnderKeepsInv(s, a); }
    else { MoverKeepsInv(s, a); }
  }

  lemma ForeignCreateKeepsInv(s: State, a: Action)
    requires Inv(s) && Enabled(s, a) && a.ForeignCreate?
    ensures Inv(Apply(s, a)) && OutputKept(s, Apply(s, a))
  {
    forall w | 0 <= w < |s.writers| ensures WriterInv(Apply(s, a), s.writers[w]) {
      assert WriterInv(s, s.writers[w]);
    }
  }

  lemma ApartFrom(s: State, v: nat, w: nat)
    requires Inv(s) && v < |s.writers| && w < |s.writers| && v != w
    ensures PairInv(s.writers[v], s.writers[w])
  {
    assert PairInv(s.writers[if v < w then v else w], s.writers[if v < w then w else v]);
  }

  ghost predicate BystanderInv(s: State, a: Action, w: nat) {
    && Enabled(s, a) && !a.ForeignCreate? && w < |s.writers| && w != a.w
    && WriterInv(s, s.writers[w]) && WriterInv(s, s.writers[a.w])
    && PairInv(s.writers[w], s.writers[a.w])
    && EntriesPointToFiles(s)
  }

  ghost predicate BystanderKept(s: State, a: Action, w: nat)
    requires BystanderInv(s, a, w)
  {
    && |Apply(s, a).writers| == |s.writers|
    && Apply(s, a).writers[w] == s.writers[w]
    && WriterInv(Apply(s, a), s.writers[w])
    && PairInv(s.writers[w], Apply(s, a).writers[a.w])
  }

  /** A writer standing still is not disturbed by another one's step. */
  lemma MakerSparesBystander(s: State, a: Action, w: nat)
    requires BystanderInv(s, a, w) && MakesTheFile(a)
    ensures BystanderKept(s, a, w)
  {
    match a
    case MakeTemp(_, _, _) =>
    case Write(_, _) =>
    case Sync(_) =>
  }

  lemma LinkerSparesBystander(s: State, a: Action, w: nat)
    requires BystanderInv(s, a, w) && a.Link?
    ensures BystanderKept(s, a, w)
  {
  }

  lemma MoverSparesBystander(s: State, a: Action, w: nat)
    requires BystanderInv(s, a, w) && !MakesTheFile(a) && !a.Link?
    ensures BystanderKept(s, a, w)
  {
  }

  lemma BystanderKeepsInv(s: State, a: Action, w: nat)
    requires Inv(s) && Enabled(s, a) && !a.ForeignCreate? && w < |s.writers| && w != a.w
    ensures BystanderInv(s, a, w) && BystanderKept(s, a, w)
  {
    ApartFrom(s, w, a.w);
    assert BystanderInv(s, a, w);
    hide BystanderInv, BystanderKept;
    if MakesTheFile(a) { MakerSparesBystander(s, a, w); }
    else if a.Link? { LinkerSparesBystander(s, a, w); }
    else { MoverSparesBystander(s, a, w); }
  }

  lemma StepKeepsInv(s: State, a: Action, s': State)
    requires Inv(s) && Step(s, a, s')
    ensures Inv(s')
    ensures OutputKept(s, s')
  {
    if a.ForeignCreate? {
      ForeignCreateKeepsInv(s, a);
    } else {
      ActorKeepsInv(s, a);
      hide WriterInv, PairInv, EntriesPointToFiles, OutputKept;
      assert |s'.writers| == |s.writers|;
      forall w | 0 <= w < |s'.writers| ensures WriterInv(s', s'.writers[w]) {
        if w != a.w { BystanderKeepsInv(s, a, w); }
      }
      forall v, w | 0 <= v < w < |s'.writers| ensures PairInv(s'.writers[v], s'.writers[w]) {
        if v != a.w { BystanderKeepsInv(s, a, v); }
        if w != a.w { BystanderKeepsInv(s, a, w); }
        if v != a.w && w != a.w { ApartFrom(s, v, w); }
        if v == a.w { PairIsSymmetric(s'.writers[w], s'.writers[v]); }
      }
    }
  }

  lemma PairIsSymmetric(v: Writer, w: Writer)
    requires PairInv(v, w)
    ensures PairInv(w, v)
  {
  }

  // ---- whole runs ----

  ghost predicate Linked(actions: seq<Action>, n: nat, w: nat) {
    exists i :: 0 <= i < n && i < |actions| && actions[i] == Link(w)
  }

  lemma {:induction false} RunKeepsInv(states: seq<State>, actions: seq<Action>, n: nat)
    requires Run(states, actions) && n <= |actions|
    ensures Inv(states[n])
    ensures |states[n].writers| == |states[0].writers|
    ensures forall w | 0 <= w < |states[n].writers| :: states[n].writers[w].text == states[0].writers[w].text
    ensures forall w: nat | w < |states[n].writers| :: states[n].writers[w].published <==> Linked(actions, n, w)
  {
    if n == 0 {
      InitEstablishesInv(states[0]);
    } else {
      RunKeepsInv(states, actions, n - 1);
      assert Step(states[n - 1], actions[n - 1], states[n]);
      StepKeepsInv(states[n - 1], actions[n - 1], states[n]);
      hide Inv;
      forall w: nat | w < |states[n].writers|
        ensures states[n].writers[w].text == states[0].writers[w].text
        ensures states[n].writers[w].published <==> Linked(actions, n, w)
      {
        StepSetsFlagByLink(states[n - 1], actions[n - 1], w);
        if Linked(actions, n - 1, w) {
          var i :| 0 <= i < n - 1 && i < |actions| && actions[i] == Link(w);
          assert Linked(actions, n, w);
        }
      }
    }
  }

  lemma StepSetsFlagByLink(s: State, a: Action, w: nat)
    requires Enabled(s, a) && w < |s.writers|
    ensures |Apply(s, a).writers| == |s.writers|
    ensures Apply(s, a).writers[w].text == s.writers[w].text
    ensures Apply(s, a).writers[w].published == (s.writers[w].published || a == Link(w))
  {
  }

  /** Once something is at the output path, neither the entry nor the text behind it ever changes:
      a file that was there before is untouched, and a published file stays as it was published. */
  lemma {:induction false} OutputNeverChanges(states: seq<State>, actions: seq<Action>, i: nat, j: nat)
    requires Run(states, actions) && i <= j <= |actions|
    ensures OutputKept(states[i], states[j])
    decreases j - i
  {
    RunKeepsInv(states, actions, i);
    if i < j {
      OutputNeverChanges(states, actions, i, j - 1);
      RunKeepsInv(states, actions, j - 1);
      assert Step(states[j - 1], actions[j - 1], states[j]);
      StepKeepsInv(states[j - 1], actions[j - 1], states[j]);
      hide Inv, Step, Apply, Enabled;
      assert EntriesPointToFiles(states[i]) by { InvEntries(states[i]); }
      assert EntriesPointToFiles(states[j - 1]) by { InvEntries(states[j - 1]); }
    }
  }

  lemma InvEntries(s: State)
    requires Inv(s)
    ensures EntriesPointToFiles(s)
  {
  }

  /** From its link on, the output path holds that writer's complete text, forced to disk. */
  lemma LinkedOutputIsComplete(states: seq<State>, actions: seq<Action>, w: nat, n: nat)
    requires Run(states, actions) && n <= |actions| && w < |states[0].writers|
    requires Linked(actions, n, w)
    ensures OutputHolds(states[n], File(states[0].writers[w].text, true))
  {
    RunKeepsInv(states, actions, n);
    assert WriterInv(states[n], states[n].writers[w]);
  }

  /** At most one link of the output path succeeds in a whole run, whoever makes it, and none does
      when the path was taken from the start. */
  lemma AtMostOneLink(states: seq<State>, actions: seq<Action>, i: nat, j: nat)
    requires Run(states, actions)
    requires i < j < |actions| && actions[i].Link?
    ensures !actions[j].Link?
  {
    assert Step(states[i], actions[i], states[i + 1]) && Step(states[j], actions[j], states[j + 1]);
    var w := actions[i].w;
    assert Linked(actions, i + 1, w) && Linked(actions, j, w);
    RunKeepsInv(states, actions, i);
    LinkedOutputIsComplete(states, actions, w, j);
  }

  lemma NoLinkOverAnExistingFile(states: seq<State>, actions: seq<Action>, i: nat)
    requires Run(states, actions) && i < |actions|
    requires Output in states[0].entries
    ensures !actions[i].Link?
  {
    OutputNeverChanges(states, actions, 0, i);
    assert Step(states[i], actions[i], states[i + 1]);
  }

  /** What a finished call tells its caller is true of the run: a normal return means this writer
      linked, every `published` detail says whether it did, an error without that detail means it
      did not, and the only error a successful publication can end in is the cleanup failure. */
  lemma OutcomeMatchesRun(states: seq<State>, actions: seq<Action>, w: nat, n: nat, outcome: Outcome)
    requires Run(states, actions) && n <= |actions| && w < |states[n].writers|
    requires states[n].writers[w].phase == Done(outcome)
    ensures outcome.Returned? ==> Linked(actions, n, w)
    ensures outcome.Raised? && outcome.published.Some? ==> (outcome.published.value <==> Linked(actions, n, w))
    ensures outcome.Raised? && outcome.published.None? ==> !Linked(actions, n, w)
    ensures Linked(actions, n, w) ==> outcome == Returned || outcome == Raised(OutputTempCleanupFailed, Some(true))
  {
    RunKeepsInv(states, actions, n);
    assert WriterInv(states[n], states[n].writers[w]);
  }

  // ---- temporary files ----

  /** A writer that may have left its temporary file behind. */
  predicate MayLeak(p: Phase) {
    p.Crashed? || (p.Done? && p.outcome.Raised? && p.outcome.error == OutputTempCleanupFailed)
  }

  ghost predicate TempsAccountedFor(s0: State, s: State) {
    || (exists w :: 0 <= w < |s.writers| && MayLeak(s.writers[w].phase))
    || (forall id | Temp(id) in s.entries && Temp(id) !in s0.entries :: HeldBySomeone(s, id))
  }

  ghost predicate HeldBySomeone(s: State, id: nat) {
    exists w :: 0 <= w < |s.writers| && HoldsTemp(s.writers[w].phase) && s.writers[w].phase.temp == id
  }

  lemma HeldTempStaysHeld(s: State, a: Action, w: nat)
    requires Enabled(s, a) && !a.Crash? && !a.UnlinkFails?
    requires w < |s.writers| && HoldsTemp(s.writers[w].phase)
    requires Temp(s.writers[w].phase.temp) in Apply(s, a).entries || !Acts(a, w)
    ensures HeldBySomeone(Apply(s, a), s.writers[w].phase.temp)
  {
    var p := Apply(s, a).writers[w].phase;
    assert HoldsTemp(p) && p.temp == s.writers[w].phase.temp;
  }

  lemma StepAccountsForTemps(s0: State, s: State, a: Action)
    requires Enabled(s, a) && TempsAccountedFor(s0, s)
    ensures TempsAccountedFor(s0, Apply(s, a))
  {
    var s' := Apply(s, a);
    if w :| 0 <= w < |s.writers| && MayLeak(s.writers[w].phase) {
      assert MayLeak(s'.writers[w].phase);
    } else if a.Crash? || a.UnlinkFails? {
      assert MayLeak(s'.writers[a.w].phase);
    } else {
      forall id | Temp(id) in s'.entries && Temp(id) !in s0.entries
        ensures HeldBySomeone(s', id)
      {
        if Temp(id) in s.entries {
          var w: nat :| w < |s.writers| && HoldsTemp(s.writers[w].phase) && s.writers[w].phase.temp == id;
          HeldTempStaysHeld(s, a, w);
        } else {
          MadeTempIsHeld(s, a, id);
        }
      }
    }
  }

  lemma MadeTempIsHeld(s: State, a: Action, id: nat)
    requires Enabled(s, a) && Temp(id) !in s.entries && Temp(id) in Apply(s, a).entries
    ensures HeldBySomeone(Apply(s, a), id)
  {
    assert a.MakeTemp?;
    assert HoldsTemp(Apply(s, a).writers[a.w].phase);
  }

  lemma {:induction false} RunAccountsForTemps(states: seq<State>, actions: seq<Action>, n: nat)
    requires Run(states, actions) && n <= |actions|
    ensures TempsAccountedFor(states[0], states[n])
  {
    if n > 0 {
      RunAccountsForTemps(states, actions, n - 1);
      assert Step(states[n - 1], actions[n - 1], states[n]);
      StepAccountsForTemps(states[0], states[n - 1], actions[n - 1]);
    }
  }

  /** When every call has finished without a crash or a reported cleanup failure, no temporary file
      of theirs is left in the directory. */
  lemma NoTempLeftBehind(states: seq<State>, actions: seq<Action>, n: nat, id: nat)
    requires Run(states, actions) && n <= |actions|
    requires forall w | 0 <= w < |states[n].writers| ::
               states[n].writers[w].phase.Done? && !MayLeak(states[n].writers[w].phase)
    ensures Temp(id) in states[n].entries ==> Temp(id) in states[0].entries
  {
    RunAccountsForTemps(states, actions, n);
  }

  // ---- loss of power ----

  /** The directory after a restart: unsynced content may be anything, and directory entries that
      were not yet on disk may be gone. */
  ghost predicate Restarted(s: State, s': State) {
    && (Output in s'.entries ==> Output in s.entries && s'.entries[Output] == s.entries[Output])
    && s.files.Keys <= s'.files.Keys
    && forall i | i in s.files && s.files[i].durable :: s'.files[i] == s.files[i]
  }

  /** Because the fsync comes before the link, power may take the published name away but never
      leaves it on an incomplete file. */
  lemma RestartNeverTearsTheOutput(states: seq<State>, actions: seq<Action>, w: nat, n: nat, after: State)
    requires Run(states, actions) && n <= |actions| && w < |states[0].writers|
    requires Linked(actions, n, w) && Restarted(states[n], after)
    ensures Output in after.entries ==> OutputHolds(after, File(states[0].writers[w].text, true))
  {
    LinkedOutputIsComplete(states, actions, w, n);
  }
}
