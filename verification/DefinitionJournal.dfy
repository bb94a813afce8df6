/** Changes of a connection definition touch two files. An undo journal makes the pair change as one,
    whatever durable step fails and wherever the process dies. */
module DefinitionJournal {
  import opened Common

  // ---- The disk ----

  /** The configuration file, or nothing when it is missing. */
  type Contents = Option<string>

  /** The options file: settings by alias. */
  datatype OptionsFile = Missing | Valid(settings: map<string, string>) | Invalid(bytes: string)

  datatype Pair = Pair(config: Contents, options: OptionsFile)

  datatype Phase = Prepared | Committed

  datatype Journal = NoJournal | Record(phase: Phase, saved: Pair)

  datatype Disk = Disk(files: Pair, journal: Journal)

  /** How a durable step ends. A late step takes effect and still reports a failure, as a rename does
      whose directory cannot be synchronised afterwards. */
  datatype Fate = Done | Lost | Late | DiesBefore | DiesAfter {
    predicate TakesEffect() {
      Done? || Late? || DiesAfter?
    }

    function Report(): Ending {
      match this
      case Done => Fine
      case Lost => Failed
      case Late => Failed
      case DiesBefore => Died
      case DiesAfter => Died
    }
  }

  datatype Ending = Fine | Failed | Died

  /** The disk and how the durable steps to come will end. */
  datatype World = World(disk: Disk, fates: seq<Fate>) {
    function Fate(): Fate {
      if fates == [] then Done else fates[0]
    }

    function Later(): seq<Fate> {
      if fates == [] then [] else fates[1..]
    }

    /** One durable step towards a new disk. */
    function Put(target: Disk): (World, Ending) {
      (World(if Fate().TakesEffect() then target else disk, Later()), Fate().Report())
    }
  }

  // ---- Recovery and rollback ----

  /** Both files are put back, the second even when the first fails. */
  function RestoreRun(w: World, saved: Pair): (World, Ending) {
    var (w1, e1) := w.Put(w.disk.(files := w.disk.files.(config := saved.config)));
    if e1.Died? then (w1, Died)
    else
      var (w2, e2) := w1.Put(w1.disk.(files := w1.disk.files.(options := saved.options)));
      (w2, if e2.Died? then Died else if e1.Fine? && e2.Fine? then Fine else Failed)
  }

  function RecoverRun(w: World): (World, Ending) {
    match w.disk.journal
    case NoJournal => (w, Fine)
    case Record(Committed, _) => w.Put(w.disk.(journal := NoJournal))
    case Record(Prepared, saved) =>
      var (w1, e1) := RestoreRun(w, saved);
      if !e1.Fine? then (w1, e1) else w1.Put(w1.disk.(journal := NoJournal))
  }

  function AbortRun(w: World, saved: Pair): (World, Ending) {
    var (w1, e1) := RestoreRun(w, saved);
    if !e1.Fine? then (w1, e1) else w1.Put(w1.disk.(journal := NoJournal))
  }

  /** The pair a restart brings back: the saved one while a prepared journal is there. */
  function Logical(d: Disk): Pair {
    match d.journal
    case Record(Prepared, saved) => saved
    case _ => d.files
  }

  // ---- Operations ----

  /** What a change of one file asks for, given what is there. */
  datatype Change<T> = Reject | Keep | Set(contents: T)

  /** A change of the settings of an alias. Saving may be refused for the value it is given. */
  datatype OptionStep =
    | SaveAlias(alias: string, value: string, acceptable: bool)
    | RemoveAlias(alias: string)
    | MoveAlias(alias: string, to: string)
    | CopyAlias(alias: string, to: string)

  /** A file without settings is removed. */
  function FileOf(settings: map<string, string>): OptionsFile {
    if settings == map[] then Missing else Valid(settings)
  }

  function OptionChange(file: OptionsFile, step: OptionStep): Change<OptionsFile> {
    if !step.SaveAlias? && !step.RemoveAlias? && step.alias == step.to then Keep
    else if file.Invalid? then Reject
    else
      match step
      case SaveAlias(alias, value, acceptable) =>
        if !acceptable then Reject else Set(FileOf((if file.Valid? then file.settings else map[])[alias := value]))
      case RemoveAlias(alias) =>
        if file.Missing? then Keep else Set(FileOf(file.settings - {alias}))
      case MoveAlias(alias, to) =>
        if file.Missing? then Keep
        else Set(FileOf(if alias in file.settings then file.settings[to := file.settings[alias]] - {alias} else file.settings))
      case CopyAlias(alias, to) =>
        if file.Missing? then Keep
        else Set(FileOf(if alias in file.settings then file.settings[to := file.settings[alias]] else file.settings))
  }

  /** A mutation of the configuration and the option changes that follow it. */
  datatype Operation = Operation(config: Contents -> Change<Contents>, options: seq<OptionStep>)

  function Changed<T>(before: T, change: Change<T>): T {
    if change.Set? then change.contents else before
  }

  /** What the option changes lead to, or None when one is rejected. */
  function OptionsAfter(before: OptionsFile, steps: seq<OptionStep>): Option<OptionsFile>
    decreases |steps|
  {
    if steps == [] then Some(before)
    else if OptionChange(before, steps[0]).Reject? then None
    else OptionsAfter(Changed(before, OptionChange(before, steps[0])), steps[1..])
  }

  /** The pair an operation leads to, or None when it is rejected. */
  function Target(before: Pair, op: Operation): Option<Pair> {
    if op.config(before.config).Reject? then None
    else
      var options := OptionsAfter(before.options, op.options);
      if options.None? then None else Some(Pair(Changed(before.config, op.config(before.config)), options.value))
  }

  /** How an operation ends: whether its commit record reached the disk, whether writing that record was
      reported as a failure, and whether the rollback of a failed operation went through. */
  datatype Outcome = Outcome(ending: Ending, committed: bool, commitFailed: bool, rolledBack: bool)

  function OptionsRun(w: World, steps: seq<OptionStep>): (World, Ending)
    decreases |steps|
  {
    if steps == [] then (w, Fine)
    else
      match OptionChange(w.disk.files.options, steps[0])
      case Reject => (w, Failed)
      case Keep => OptionsRun(w, steps[1..])
      case Set(contents) =>
        var (w1, e1) := w.Put(w.disk.(files := w.disk.files.(options := contents)));
        if !e1.Fine? then (w1, e1) else OptionsRun(w1, steps[1..])
  }

  function ChangesRun(w: World, op: Operation): (World, Ending) {
    match op.config(w.disk.files.config)
    case Reject => (w, Failed)
    case Keep => OptionsRun(w, op.options)
    case Set(contents) =>
      var (w1, e1) := w.Put(w.disk.(files := w.disk.files.(config := contents)));
      if !e1.Fine? then (w1, e1) else OptionsRun(w1, op.options)
  }

  function BeginRun(w: World, saved: Pair): (World, Ending) {
    var (w1, e1) := RecoverRun(w);
    if !e1.Fine? then (w1, e1) else w1.Put(w1.disk.(journal := Record(Prepared, saved)))
  }

  function FailRun(w: World, saved: Pair, committed: bool): (World, Outcome) {
    var (w1, e1) := AbortRun(w, saved);
    (w1, Outcome(if e1.Died? then Died else Failed, committed, committed, e1.Fine?))
  }

  function CompleteRun(w: World, saved: Pair): (World, Outcome) {
    var written := w.Fate().TakesEffect();
    var (w1, e1) := w.Put(w.disk.(journal := Record(Committed, saved)));
    match e1
    case Died => (w1, Outcome(Died, written, false, false))
    case Failed => FailRun(w1, saved, written)
    case Fine =>
      var (w2, e2) := w1.Put(w1.disk.(journal := NoJournal));
      (w2, Outcome(if e2.Died? then Died else Fine, true, false, false))
  }

  /** A whole operation. The snapshot is taken before the recovery that beginning includes. */
  function OperationRun(w: World, op: Operation): (World, Outcome) {
    var saved := w.disk.files;
    var (w1, e1) := BeginRun(w, saved);
    if !e1.Fine? then (w1, Outcome(e1, false, false, false))
    else
      var (w2, e2) := ChangesRun(w1, op);
      match e2
      case Died => (w2, Outcome(Died, false, false, false))
      case Failed => FailRun(w2, saved, false)
      case Fine => CompleteRun(w2, saved)
  }

  // ---- The option changes of the four operations ----

  function CreateSteps(alias: string, options: Option<(string, bool)>): seq<OptionStep> {
    if options.Some? then [SaveAlias(alias, options.value.0, options.value.1)] else []
  }

  function UpdateSteps(alias: string, hostAlias: string, options: Option<(string, bool)>): seq<OptionStep> {
    var newAlias := if hostAlias == "" then alias else hostAlias;
    if options.Some? then
      [SaveAlias(newAlias, options.value.0, options.value.1)] + (if newAlias != alias then [RemoveAlias(alias)] else [])
    else if newAlias != alias then [MoveAlias(alias, newAlias)]
    else []
  }

  function SettingOf(file: OptionsFile, alias: string): Option<string> {
    if file.Valid? && alias in file.settings then Some(file.settings[alias]) else None
  }

  /** What a step that is not rejected does to the settings of an alias. */
  lemma StepSetting(file: OptionsFile, step: OptionStep, alias: string)
    requires !OptionChange(file, step).Reject? && (step.MoveAlias? || step.CopyAlias? ==> step.alias != step.to)
    ensures SettingOf(Changed(file, OptionChange(file, step)), alias)
         == match step
            case SaveAlias(a, value, _) => if alias == a then Some(value) else SettingOf(file, alias)
            case RemoveAlias(a) => if alias == a then None else SettingOf(file, alias)
            case MoveAlias(a, to) =>
              if alias == a then None else if alias == to && SettingOf(file, a).Some? then SettingOf(file, a) else SettingOf(file, alias)
            case CopyAlias(a, to) => if alias == to && SettingOf(file, a).Some? then SettingOf(file, a) else SettingOf(file, alias)
  {
    forall settings ensures SettingOf(FileOf(settings), alias) == if alias in settings then Some(settings[alias]) else None {
      FileKeeps(settings, alias);
    }
    hide FileOf;
  }

  lemma FileKeeps(settings: map<string, string>, alias: string)
    ensures SettingOf(FileOf(settings), alias) == if alias in settings then Some(settings[alias]) else None
  {}

  lemma OneOrTwoSteps(file: OptionsFile, a: OptionStep, b: OptionStep)
    ensures OptionsAfter(file, []) == Some(file)
    ensures OptionsAfter(file, [a]) == if OptionChange(file, a).Reject? then None else Some(Changed(file, OptionChange(file, a)))
    ensures OptionsAfter(file, [a] + [b]) == if OptionChange(file, a).Reject? then None else OptionsAfter(Changed(file, OptionChange(file, a)), [b])
  {
    hide OptionChange, Changed;
    assert ([a] + [b])[1..] == [b] && [a][1..] == [];
    assert forall f :: OptionsAfter(f, [a][1..]) == Some(f);
  }

  /** A rename takes the settings along: the new alias has the given settings, or those of the old alias when none are given
      and it had some; the old alias has none, and no other alias changes. */
  lemma RenameMovesSettings(file: OptionsFile, alias: string, newAlias: string, options: Option<(string, bool)>, other: string)
    requires newAlias != "" && newAlias != alias && other != alias && other != newAlias
    ensures var after := OptionsAfter(file, UpdateSteps(alias, newAlias, options));
      after.Some? ==>
        && SettingOf(after.value, alias) == None
        && SettingOf(after.value, other) == SettingOf(file, other)
        && SettingOf(after.value, newAlias)
           == (if options.Some? then Some(options.value.0)
               else if SettingOf(file, alias).Some? then SettingOf(file, alias)
               else SettingOf(file, newAlias))
  {
    hide OptionChange, Changed, SettingOf, OptionsAfter;
    var remove := RemoveAlias(alias);
    var first := if options.Some? then SaveAlias(newAlias, options.value.0, options.value.1) else MoveAlias(alias, newAlias);
    OneOrTwoSteps(file, first, remove);
    if !OptionChange(file, first).Reject? {
      var between := Changed(file, OptionChange(file, first));
      forall a | a in {alias, newAlias, other} {
        StepSetting(file, first, a);
      }
      if options.Some? {
        OneOrTwoSteps(between, remove, remove);
        if !OptionChange(between, remove).Reject? {
          forall a | a in {alias, newAlias, other} {
            StepSetting(between, remove, a);
          }
        }
      }
    }
  }

  // ---- One durable step keeps the logical pair recoverable ----

  /** The files of a disk each come from one pair or the other. */
  predicate Mixed(files: Pair, a: Pair, b: Pair) {
    && (files.config == a.config || files.config == b.config)
    && (files.options == a.options || files.options == b.options)
  }

  lemma RestoreFacts(w: World, saved: Pair)
    ensures var (w1, e) := RestoreRun(w, saved);
      && w1.disk.journal == w.disk.journal
      && Mixed(w1.disk.files, w.disk.files, saved)
      && (e.Fine? ==> w1.disk.files == saved)
  {}

  /** Recovery, however it ends, leaves the logical pair as it was; when it goes through the files hold that pair. */
  lemma RecoverKeepsLogical(w: World)
    ensures var (w1, e) := RecoverRun(w);
      && Logical(w1.disk) == Logical(w.disk)
      && (w1.disk.journal == w.disk.journal || w1.disk.journal.NoJournal?)
      && (e.Fine? ==> w1.disk == Disk(Logical(w.disk), NoJournal))
  {
    if w.disk.journal.Record? && w.disk.journal.phase.Prepared? {
      RestoreFacts(w, w.disk.journal.saved);
    }
  }

  /** Any number of recoveries, each with its own fates and most of them cut short, and one that goes through. */
  function RecoveriesRun(d: Disk, attempts: seq<seq<Fate>>): Disk
    decreases |attempts|
  {
    if attempts == [] then RecoverRun(World(d, [])).0.disk
    else RecoveriesRun(RecoverRun(World(d, attempts[0])).0.disk, attempts[1..])
  }

  lemma {:induction false} RecoveriesKeepLogical(d: Disk, attempts: seq<seq<Fate>>)
    ensures RecoveriesRun(d, attempts) == Disk(Logical(d), NoJournal)
    decreases |attempts|
  {
    if attempts == [] {
      RecoverKeepsLogical(World(d, []));
      NothingFails(d);
    } else {
      RecoverKeepsLogical(World(d, attempts[0]));
      RecoveriesKeepLogical(RecoverRun(World(d, attempts[0])).0.disk, attempts[1..]);
    }
  }

  lemma NothingFails(d: Disk)
    ensures RecoverRun(World(d, [])).1.Fine?
  {}

  lemma {:induction false} OptionsFacts(w: World, steps: seq<OptionStep>)
    ensures var (w1, e) := OptionsRun(w, steps);
      && w1.disk.journal == w.disk.journal && w1.disk.files.config == w.disk.files.config
      && (e.Fine? ==> OptionsAfter(w.disk.files.options, steps) == Some(w1.disk.files.options))
      && (OptionsAfter(w.disk.files.options, steps).None? ==> !e.Fine?)
    decreases |steps|
  {
    if steps != [] {
      match OptionChange(w.disk.files.options, steps[0])
      case Reject =>
      case Keep => OptionsFacts(w, steps[1..]);
      case Set(contents) =>
        var (w1, e1) := w.Put(w.disk.(files := w.disk.files.(options := contents)));
        if e1.Fine? {
          OptionsFacts(w1, steps[1..]);
        }
    }
  }

  lemma ChangesFacts(w: World, op: Operation)
    ensures var (w1, e) := ChangesRun(w, op);
      && w1.disk.journal == w.disk.journal
      && (e.Fine? ==> Target(w.disk.files, op) == Some(w1.disk.files))
  {
    match op.config(w.disk.files.config)
    case Reject =>
    case Keep => OptionsFacts(w, op.options);
    case Set(contents) =>
      var (w1, e1) := w.Put(w.disk.(files := w.disk.files.(config := contents)));
      OptionsFacts(w1, op.options);
  }

  lemma AbortFacts(w: World, saved: Pair)
    requires w.disk.journal.Record? && w.disk.journal.saved == saved
    ensures var (w1, e) := AbortRun(w, saved);
      && (w1.disk.journal == w.disk.journal || w1.disk == Disk(saved, NoJournal))
      && Mixed(w1.disk.files, w.disk.files, saved)
      && (e.Fine? ==> w1.disk == Disk(saved, NoJournal))
  {
    RestoreFacts(w, saved);
  }

  // ---- Atomicity ----

  lemma BeginFacts(w: World, saved: Pair)
    ensures var (w1, e) := BeginRun(w, saved);
      && (e.Fine? ==> w1.disk == Disk(Logical(w.disk), Record(Prepared, saved)))
      && (!e.Fine? ==> Logical(w1.disk) == Logical(w.disk) || w1.disk == Disk(Logical(w.disk), Record(Prepared, saved)))
  {
    RecoverKeepsLogical(w);
  }

  /** What an operation leaves when it starts from files that hold the logical pair. */
  lemma OperationFacts(w: World, op: Operation)
    requires w.disk.files == Logical(w.disk)
    ensures var before := w.disk.files;
      var (w1, o) := OperationRun(w, op);
      && (!o.committed ==> Logical(w1.disk) == before)
      && (o.committed ==> Target(before, op).Some?)
      && (o.committed && !o.commitFailed ==> Logical(w1.disk) == Target(before, op).value)
      && (o.committed && o.commitFailed ==>
            && o.ending != Fine && Mixed(Logical(w1.disk), Target(before, op).value, before)
            && (o.rolledBack ==> Logical(w1.disk) == before))
      && (o.ending.Fine? ==> o.committed && !o.commitFailed && w1.disk.files == Target(before, op).value)
      && (o.rolledBack ==> w1.disk == Disk(before, NoJournal))
  {
    var before := w.disk.files;
    BeginFacts(w, before);
    var (w1, e1) := BeginRun(w, before);
    if e1.Fine? {
      ChangesFacts(w1, op);
      var (w2, e2) := ChangesRun(w1, op);
      if e2.Failed? {
        AbortFacts(w2, before);
      } else if e2.Fine? {
        var (w3, e3) := w2.Put(w2.disk.(journal := Record(Committed, before)));
        if e3.Failed? {
          AbortFacts(w3, before);
        }
      }
    }
  }

  /** Wherever an operation stops, and however often the recovery after it is cut short, the files end up wholly old
      or wholly new: new exactly when the commit record was written. The one exception is a commit record whose
      write takes effect and is still reported as a failure. */
  lemma Atomic(w: World, op: Operation, attempts: seq<seq<Fate>>)
    requires w.disk.files == Logical(w.disk)
    requires !OperationRun(w, op).1.commitFailed
    ensures var before := w.disk.files;
      var (w1, o) := OperationRun(w, op);
      && (o.committed ==> Target(before, op).Some?)
      && RecoveriesRun(w1.disk, attempts) == Disk(if o.committed then Target(before, op).value else before, NoJournal)
  {
    OperationFacts(w, op);
    RecoveriesKeepLogical(OperationRun(w, op).0.disk, attempts);
  }

  // ---- The exception: a commit record that is there although its write failed ----

  /** The fate of the durable step that comes after i others. */
  function FateAt(fates: seq<Fate>, i: nat): Fate {
    if i < |fates| then fates[i] else Done
  }

  /** What the rollback of a late commit leaves for good: the recovery takes the journal for committed and keeps the files. */
  lemma LateCommit(w: World, saved: Pair, attempts: seq<seq<Fate>>)
    requires w.disk.journal == Record(Prepared, saved) && w.Fate() == Late
    ensures var config, options := FateAt(w.fates, 1), FateAt(w.fates, 2);
      var put := config.TakesEffect();
      var also := !config.Report().Died? && options.TakesEffect();
      RecoveriesRun(CompleteRun(w, saved).0.disk, attempts).files
      == Pair(if put then saved.config else w.disk.files.config, if also then saved.options else w.disk.files.options)
  {
    var (w1, _) := w.Put(w.disk.(journal := Record(Committed, saved)));
    assert w1.fates == w.fates[1..] && w1.Fate() == FateAt(w.fates, 1);
    assert World(w1.disk, w1.Later()).Fate() == FateAt(w.fates, 2);
    RecoveriesKeepLogical(CompleteRun(w, saved).0.disk, attempts);
  }

  /** So a late commit is atomic exactly when it changed one file only, or both files are put back, or neither is. */
  lemma LateCommitIsAtomicIff(w: World, saved: Pair, attempts: seq<seq<Fate>>)
    requires w.disk.journal == Record(Prepared, saved) && w.Fate() == Late
    ensures var settled, files := RecoveriesRun(CompleteRun(w, saved).0.disk, attempts).files, w.disk.files;
      var config, options := FateAt(w.fates, 1), FateAt(w.fates, 2);
      (settled == saved || settled == files)
      <==> files.config == saved.config || files.options == saved.options
           || config.TakesEffect() == (!config.Report().Died? && options.TakesEffect())
  {
    hide RecoveriesRun, CompleteRun;
    LateCommit(w, saved, attempts);
  }

  /** The commit record is written late, the configuration is put back, and the process dies before the options are:
      the old configuration stays beside the new options. */
  lemma TornCommit()
    ensures var was, now := Valid(map["a" := "x"]), Valid(map["a" := "y"]);
      var w := World(Disk(Pair(Some("old"), was), NoJournal), [Done, Done, Done, Late, Done, DiesBefore]);
      var (w1, o) := OperationRun(w, Operation(_ => Set(Some("new")), [SaveAlias("a", "y", true)]));
      o.commitFailed && RecoveriesRun(w1.disk, []).files == Pair(Some("old"), now)
  {
    var was, now := Valid(map["a" := "x"]), Valid(map["a" := "y"]);
    var saved := Pair(Some("old"), was);
    var op := Operation(_ => Set(Some("new")), [SaveAlias("a", "y", true)]);
    var w := World(Disk(saved, NoJournal), [Done, Done, Done, Late, Done, DiesBefore]);
    var (w1, e1) := BeginRun(w, saved);
    assert w1 == World(Disk(saved, Record(Prepared, saved)), [Done, Done, Late, Done, DiesBefore]);
    var (w2, e2) := w1.Put(w1.disk.(files := Pair(Some("new"), was)));
    assert w2 == World(Disk(Pair(Some("new"), was), Record(Prepared, saved)), [Done, Late, Done, DiesBefore]);
    var (w3, e3) := OptionsRun(w2, op.options);
    assert op.options[1..] == [];
    assert map["a" := "x"]["a" := "y"] == map["a" := "y"] != map[] by {
      assert "a" in map["a" := "y"];
    }
    assert w3 == World(Disk(Pair(Some("new"), now), Record(Prepared, saved)), [Late, Done, DiesBefore]) && e3.Fine?;
    LateCommit(w3, saved, []);
  }

  // ---- The other exception: an operation that starts on a prepared journal ----

  /** The snapshot is taken before the pending journal is undone, so an operation that does not commit
      brings back the files as it found them, not the pair that was pending. */
  lemma StaleSnapshot(w: World, op: Operation)
    requires BeginRun(w, w.disk.files).1.Fine?
    ensures var (w1, o) := OperationRun(w, op);
      && (!o.committed ==> Logical(w1.disk) == w.disk.files)
      && (o.committed ==> Target(Logical(w.disk), op).Some?)
      && (o.committed && !o.commitFailed ==> Logical(w1.disk) == Target(Logical(w.disk), op).value)
  {
    var before := w.disk.files;
    BeginFacts(w, before);
    var (w1, e1) := BeginRun(w, before);
    ChangesFacts(w1, op);
    var (w2, e2) := ChangesRun(w1, op);
    if e2.Failed? {
      AbortFacts(w2, before);
    } else if e2.Fine? {
      var (w3, e3) := w2.Put(w2.disk.(journal := Record(Committed, before)));
      if e3.Failed? {
        AbortFacts(w3, before);
      }
    }
  }

  /** An operation fails before its commit and cannot put the configuration back; the next one is rejected at once.
      The pair was the old one after the first, and is the new one after the second, which changed nothing itself. */
  lemma StaleRun()
    ensures var was, now := Pair(Some("old"), Missing), Pair(Some("new"), Missing);
      var (w1, o1) := OperationRun(World(Disk(was, NoJournal), [Done, Done, Lost, Lost]), Operation(_ => Set(Some("new")), []));
      var (w2, o2) := OperationRun(World(w1.disk, []), Operation(_ => Reject, []));
      && !o1.committed && Logical(w1.disk) == was
      && !o2.committed && o2.ending.Failed? && Logical(w2.disk) == now
  {
    var was, now := Pair(Some("old"), Missing), Pair(Some("new"), Missing);
    var fates := [Done, Done, Lost, Lost];
    var w := World(Disk(was, NoJournal), fates);
    var write := Operation(_ => Set(Some("new")), []);
    var (a1, _) := BeginRun(w, was);
    assert fates[1..] == [Done, Lost, Lost];
    assert a1 == World(Disk(was, Record(Prepared, was)), [Done, Lost, Lost]);
    var (a2, _) := ChangesRun(a1, write);
    assert [Done, Lost, Lost][1..] == [Lost, Lost] && [Lost, Lost][1..] == [Lost] && [Lost][1..] == [];
    assert a2 == World(Disk(now, Record(Prepared, was)), [Lost, Lost]);
    var (w1, o1) := OperationRun(w, write);
    assert w1 == World(Disk(now, Record(Prepared, was)), []);
    var refused := Operation(_ => Reject, []);
    var v := World(w1.disk, []);
    StaleSnapshot(v, refused);
  }

  /** An operation that began and did not commit changes nothing if and only if it started on settled files. */
  lemma FailureChangesNothingIff(w: World, op: Operation)
    requires BeginRun(w, w.disk.files).1.Fine? && !OperationRun(w, op).1.committed
    ensures Logical(OperationRun(w, op).0.disk) == Logical(w.disk) <==> w.disk.files == Logical(w.disk)
  {
    StaleSnapshot(w, op);
  }

  // ---- Whole runs ----

  /** A process performs an operation, or a new process starts and recovers; each with its own fates. */
  datatype Event = Do(op: Operation, fates: seq<Fate>) | Restart(attempt: seq<Fate>)

  function EventRun(d: Disk, e: Event): Disk {
    match e
    case Do(op, fates) => OperationRun(World(d, fates), op).0.disk
    case Restart(fates) => RecoverRun(World(d, fates)).0.disk
  }

  /** The operation starts on settled files and its commit record does not lie. */
  predicate Regular(d: Disk, e: Event) {
    e.Do? ==> d.files == Logical(d) && !OperationRun(World(d, e.fates), e.op).1.commitFailed
  }

  predicate AllRegular(d: Disk, events: seq<Event>)
    decreases |events|
  {
    events != [] ==> Regular(d, events[0]) && AllRegular(EventRun(d, events[0]), events[1..])
  }

  function Run(d: Disk, events: seq<Event>): Disk
    decreases |events|
  {
    if events == [] then d else Run(EventRun(d, events[0]), events[1..])
  }

  /** The pair after the committed operations of a run, one after the other, and nothing else. */
  function Serial(before: Pair, d: Disk, events: seq<Event>): Pair
    decreases |events|
  {
    if events == [] then before
    else
      var e := events[0];
      var next :=
        if e.Do? && OperationRun(World(d, e.fates), e.op).1.committed && Target(before, e.op).Some?
        then Target(before, e.op).value
        else before;
      Serial(next, EventRun(d, e), events[1..])
  }

  /** Over any run of operations, failures, crashes and restarts the logical pair is what the committed operations
      make of it in turn; every other operation might as well not have happened. */
  lemma {:induction false} RunsAreSerial(d: Disk, events: seq<Event>)
    requires AllRegular(d, events)
    ensures Logical(Run(d, events)) == Serial(Logical(d), d, events)
    decreases |events|
  {
    if events != [] {
      var e := events[0];
      match e {
        case Do(op, fates) => OperationFacts(World(d, fates), op);
        case Restart(fates) => RecoverKeepsLogical(World(d, fates));
      }
      RunsAreSerial(EventRun(d, e), events[1..]);
    }
  }

  /** The files are settled again after an operation that succeeds or whose rollback goes through, and after every
      recovery that goes through: only a failed rollback can make the next operation start on a pending journal. */
  lemma SettledAfter(w: World, op: Operation)
    requires w.disk.files == Logical(w.disk)
    ensures var (w1, o) := OperationRun(w, op);
      o.ending.Fine? || o.rolledBack ==> w1.disk.files == Logical(w1.disk)
    ensures var (w1, e) := RecoverRun(w);
      e.Fine? ==> w1.disk.files == Logical(w1.disk)
  {
    OperationFacts(w, op);
    RecoverKeepsLogical(w);
  }
}
