/** What the four operations on a definition do to the configuration and to the settings of every alias, and when they succeed. */
module DefinitionEffects {
  import opened Common
  import opened DefinitionJournal

  // ---- Options files ----

  /** A file that exists holds settings. */
  predicate Tidy(file: OptionsFile) {
    file.Valid? ==> file.settings != map[]
  }

  lemma StepTidies(file: OptionsFile, step: OptionStep)
    requires !OptionChange(file, step).Reject?
    ensures Tidy(file) ==> Tidy(Changed(file, OptionChange(file, step)))
    ensures Changed(file, OptionChange(file, step)).Invalid? ==> Changed(file, OptionChange(file, step)) == file
  {}

  /** A step is rejected exactly for a file that cannot be read, or settings that are not acceptable; naming an alias twice is no step. */
  lemma RejectedIff(file: OptionsFile, step: OptionStep)
    ensures OptionChange(file, step).Reject? <==>
      && !((step.MoveAlias? || step.CopyAlias?) && step.alias == step.to)
      && (file.Invalid? || (step.SaveAlias? && !step.acceptable))
  {}

  // ---- When everything can be written ----

  predicate AllDone(fates: seq<Fate>) {
    forall i :: 0 <= i < |fates| ==> fates[i] == Done
  }

  lemma PutDone(w: World, target: Disk)
    requires AllDone(w.fates)
    ensures w.Put(target).0.disk == target && AllDone(w.Put(target).0.fates) && w.Put(target).1.Fine?
  {}

  lemma {:induction false} OptionsDone(w: World, steps: seq<OptionStep>)
    requires AllDone(w.fates)
    ensures var (v, e) := OptionsRun(w, steps); var after := OptionsAfter(w.disk.files.options, steps);
      && AllDone(v.fates) && v.disk.journal == w.disk.journal && v.disk.files.config == w.disk.files.config
      && (if after.Some? then e.Fine? && v.disk.files.options == after.value else e.Failed?)
    decreases |steps|
  {
    hide OptionChange, AllDone;
    if steps != [] {
      var change := OptionChange(w.disk.files.options, steps[0]);
      if change.Keep? {
        OptionsDone(w, steps[1..]);
      } else if change.Set? {
        var target := w.disk.(files := w.disk.files.(options := change.contents));
        PutDone(w, target);
        OptionsDone(w.Put(target).0, steps[1..]);
      }
    }
  }

  lemma RestoreDone(w: World, saved: Pair)
    requires AllDone(w.fates)
    ensures RestoreRun(w, saved).1.Fine? && AllDone(RestoreRun(w, saved).0.fates) && RestoreRun(w, saved).0.disk == w.disk.(files := saved)
  {}

  lemma RecoverDone(w: World)
    requires AllDone(w.fates)
    ensures RecoverRun(w).1.Fine? && AllDone(RecoverRun(w).0.fates) && RecoverRun(w).0.disk == Disk(Logical(w.disk), NoJournal)
  {
    if w.disk.journal.Record? && w.disk.journal.phase.Prepared? {
      RestoreDone(w, w.disk.journal.saved);
    }
    hide RestoreRun;
  }

  lemma BeginDone(w: World, saved: Pair)
    requires AllDone(w.fates)
    ensures BeginRun(w, saved).1.Fine? && AllDone(BeginRun(w, saved).0.fates)
    ensures BeginRun(w, saved).0.disk == Disk(Logical(w.disk), Record(Prepared, saved))
  {
    RecoverDone(w);
    hide RecoverRun, AllDone;
    PutDone(RecoverRun(w).0, RecoverRun(w).0.disk.(journal := Record(Prepared, saved)));
  }

  lemma ChangesDone(w: World, op: Operation)
    requires AllDone(w.fates)
    ensures var (v, e) := ChangesRun(w, op); var target := Target(w.disk.files, op);
      && AllDone(v.fates) && v.disk.journal == w.disk.journal
      && (if target.Some? then e.Fine? && v.disk.files == target.value else e.Failed?)
  {
    hide AllDone, OptionsRun, OptionsAfter;
    match op.config(w.disk.files.config)
    case Reject =>
    case Keep => OptionsDone(w, op.options);
    case Set(contents) =>
      var target := w.disk.(files := w.disk.files.(config := contents));
      PutDone(w, target);
      OptionsDone(w.Put(target).0, op.options);
  }

  lemma CompleteDone(w: World, saved: Pair)
    requires AllDone(w.fates)
    ensures CompleteRun(w, saved).1.ending.Fine? && CompleteRun(w, saved).0.disk == w.disk.(journal := NoJournal)
  {}

  lemma FailDone(w: World, saved: Pair)
    requires AllDone(w.fates)
    ensures FailRun(w, saved, false).1.ending.Failed? && FailRun(w, saved, false).0.disk == Disk(saved, NoJournal)
  {
    RestoreDone(w, saved);
    hide RestoreRun;
  }

  /** With every write done an operation that can be carried out succeeds with its result, and one that cannot fails and leaves the files. */
  lemma OperationDone(w: World, op: Operation)
    requires AllDone(w.fates)
    ensures var (v, o) := OperationRun(w, op); var target := Target(Logical(w.disk), op);
      if target.Some? then o.ending.Fine? && v.disk == Disk(target.value, NoJournal) else o.ending.Failed? && v.disk == Disk(w.disk.files, NoJournal)
  {
    var saved := w.disk.files;
    BeginDone(w, saved);
    ChangesDone(BeginRun(w, saved).0, op);
    hide AllDone, BeginRun, ChangesRun, CompleteRun, FailRun, Target;
    var v := ChangesRun(BeginRun(w, saved).0, op).0;
    CompleteDone(v, saved);
    FailDone(v, saved);
  }

  /** Whatever the fates, an operation that ends well left its result. */
  lemma FineResult(w: World, op: Operation)
    requires OperationRun(w, op).1.ending.Fine?
    ensures var target := Target(Logical(w.disk), op);
      target.Some? && OperationRun(w, op).0.disk.files == target.value
  {
    BeginFacts(w, w.disk.files);
    var (w1, e1) := BeginRun(w, w.disk.files);
    assert e1.Fine?;
    ChangesFacts(w1, op);
    hide BeginRun, ChangesRun, AbortRun, Target;
  }

  // ---- The settings after each operation ----

  /** The alias has the given settings, if any are given; all other settings stay. */
  ghost predicate CreateEffect(before: OptionsFile, after: OptionsFile, alias: string, options: Option<(string, bool)>) {
    && (Tidy(before) ==> Tidy(after))
    && forall a :: SettingOf(after, a) == if options.Some? && a == alias then Some(options.value.0) else SettingOf(before, a)
  }

  /** The alias after the edit has the given settings, or else those of the alias before if there are any; after a rename
      the alias before has none; all other settings stay. */
  ghost predicate UpdateEffect(before: OptionsFile, after: OptionsFile, alias: string, newAlias: string, options: Option<(string, bool)>) {
    && (Tidy(before) ==> Tidy(after))
    && forall a :: SettingOf(after, a) ==
         if a == newAlias && options.Some? then Some(options.value.0)
         else if a == newAlias && SettingOf(before, alias).Some? then SettingOf(before, alias)
         else if a == alias && newAlias != alias then None
         else SettingOf(before, a)
  }

  /** The copy has the settings of the source if there are any; all other settings stay, those of the source too. */
  ghost predicate DuplicateEffect(before: OptionsFile, after: OptionsFile, alias: string, newAlias: string) {
    && (Tidy(before) ==> Tidy(after))
    && forall a :: SettingOf(after, a) == if a == newAlias && SettingOf(before, alias).Some? then SettingOf(before, alias) else SettingOf(before, a)
  }

  /** The alias has no settings; all other settings stay. */
  ghost predicate DeleteEffect(before: OptionsFile, after: OptionsFile, alias: string) {
    && (Tidy(before) ==> Tidy(after))
    && forall a :: SettingOf(after, a) == if a == alias then None else SettingOf(before, a)
  }

  /** The given settings can be saved. */
  predicate CanSave(file: OptionsFile, options: Option<(string, bool)>) {
    options.Some? ==> !file.Invalid? && options.value.1
  }

  lemma SameAlias(file: OptionsFile, step: OptionStep)
    requires (step.MoveAlias? || step.CopyAlias?) && step.alias == step.to
    ensures OptionChange(file, step).Keep?
  {}

  lemma SavedIsValid(file: OptionsFile, step: OptionStep)
    requires step.SaveAlias? && !OptionChange(file, step).Reject?
    ensures !Changed(file, OptionChange(file, step)).Invalid?
  {}

  lemma SavedAll(file: OptionsFile, alias: string, value: string, acceptable: bool)
    requires !OptionChange(file, SaveAlias(alias, value, acceptable)).Reject?
    ensures var after := Changed(file, OptionChange(file, SaveAlias(alias, value, acceptable)));
      CreateEffect(file, after, alias, Some((value, acceptable)))
  {
    var step := SaveAlias(alias, value, acceptable);
    StepTidies(file, step);
    hide OptionChange, Changed, SettingOf, Tidy;
    forall a {
      StepSetting(file, step, a);
    }
  }

  lemma CreateAfter(file: OptionsFile, alias: string, options: Option<(string, bool)>)
    ensures var after := OptionsAfter(file, CreateSteps(alias, options));
      (after.Some? <==> CanSave(file, options)) && (after.Some? ==> CreateEffect(file, after.value, alias, options))
  {
    hide OptionChange, Changed, SettingOf, OptionsAfter, Tidy, CreateEffect;
    if options.Some? {
      var step := SaveAlias(alias, options.value.0, options.value.1);
      OneOrTwoSteps(file, step, step);
      RejectedIff(file, step);
      if !OptionChange(file, step).Reject? {
        SavedAll(file, alias, options.value.0, options.value.1);
      }
    } else {
      OneOrTwoSteps(file, RemoveAlias(alias), RemoveAlias(alias));
      NothingCreated(file, alias);
    }
  }

  lemma NothingCreated(file: OptionsFile, alias: string)
    ensures CreateEffect(file, file, alias, None) && UpdateEffect(file, file, alias, alias, None) && DuplicateEffect(file, file, alias, alias)
  {}

  lemma RemovedAll(file: OptionsFile, alias: string)
    requires !OptionChange(file, RemoveAlias(alias)).Reject?
    ensures DeleteEffect(file, Changed(file, OptionChange(file, RemoveAlias(alias))), alias)
  {
    StepTidies(file, RemoveAlias(alias));
    hide OptionChange, Changed, SettingOf, Tidy;
    forall a {
      StepSetting(file, RemoveAlias(alias), a);
    }
  }

  lemma DeleteAfter(file: OptionsFile, alias: string)
    ensures var after := OptionsAfter(file, [RemoveAlias(alias)]);
      (after.Some? <==> !file.Invalid?) && (after.Some? ==> DeleteEffect(file, after.value, alias))
  {
    hide OptionChange, Changed, SettingOf, OptionsAfter, Tidy, DeleteEffect;
    OneOrTwoSteps(file, RemoveAlias(alias), RemoveAlias(alias));
    RejectedIff(file, RemoveAlias(alias));
    if !file.Invalid? {
      RemovedAll(file, alias);
    }
  }

  lemma CopiedAll(file: OptionsFile, alias: string, newAlias: string)
    requires alias != newAlias && !OptionChange(file, CopyAlias(alias, newAlias)).Reject?
    ensures DuplicateEffect(file, Changed(file, OptionChange(file, CopyAlias(alias, newAlias))), alias, newAlias)
  {
    StepTidies(file, CopyAlias(alias, newAlias));
    hide OptionChange, Changed, SettingOf, Tidy;
    forall a {
      StepSetting(file, CopyAlias(alias, newAlias), a);
    }
  }

  lemma DuplicateAfter(file: OptionsFile, alias: string, newAlias: string)
    ensures var after := OptionsAfter(file, [CopyAlias(alias, newAlias)]);
      (after.Some? <==> alias == newAlias || !file.Invalid?) && (after.Some? ==> DuplicateEffect(file, after.value, alias, newAlias))
  {
    var step := CopyAlias(alias, newAlias);
    KeepChanges(file);
    hide OptionChange, Changed, SettingOf, OptionsAfter, Tidy, DuplicateEffect;
    OneOrTwoSteps(file, step, step);
    RejectedIff(file, step);
    if alias == newAlias {
      SameAlias(file, step);
      NothingCreated(file, alias);
    } else if !file.Invalid? {
      CopiedAll(file, alias, newAlias);
    }
  }

  lemma KeepChanges(file: OptionsFile)
    ensures Changed(file, Keep) == file
  {}

  lemma MovedAll(file: OptionsFile, alias: string, newAlias: string)
    requires alias != newAlias && !OptionChange(file, MoveAlias(alias, newAlias)).Reject?
    ensures UpdateEffect(file, Changed(file, OptionChange(file, MoveAlias(alias, newAlias))), alias, newAlias, None)
  {
    StepTidies(file, MoveAlias(alias, newAlias));
    hide OptionChange, Changed, SettingOf, Tidy;
    forall a {
      StepSetting(file, MoveAlias(alias, newAlias), a);
    }
  }

  lemma SavedThenRemoved(file: OptionsFile, between: OptionsFile, after: OptionsFile, alias: string, newAlias: string, options: Option<(string, bool)>)
    requires CreateEffect(file, between, newAlias, options) && options.Some? && alias != newAlias && DeleteEffect(between, after, alias)
    ensures UpdateEffect(file, after, alias, newAlias, options)
  {
    hide SettingOf, Tidy;
  }

  lemma SavedOnly(file: OptionsFile, after: OptionsFile, alias: string, options: Option<(string, bool)>)
    requires CreateEffect(file, after, alias, options) && options.Some?
    ensures UpdateEffect(file, after, alias, alias, options)
  {
    hide SettingOf, Tidy;
  }

  /** The settings after an edit, with and without a rename. */
  lemma UpdateAfter(file: OptionsFile, alias: string, hostAlias: string, options: Option<(string, bool)>)
    ensures var after := OptionsAfter(file, UpdateSteps(alias, hostAlias, options));
      var newAlias := if hostAlias == "" then alias else hostAlias;
      && (after.Some? <==> CanSave(file, options) && (options.None? && newAlias != alias ==> !file.Invalid?))
      && (after.Some? ==> UpdateEffect(file, after.value, alias, newAlias, options))
  {
    hide OptionChange, Changed, SettingOf, OptionsAfter, Tidy, UpdateEffect, CreateEffect, DeleteEffect;
    var newAlias := if hostAlias == "" then alias else hostAlias;
    var remove := RemoveAlias(alias);
    if options.Some? {
      var save := SaveAlias(newAlias, options.value.0, options.value.1);
      OneOrTwoSteps(file, save, remove);
      RejectedIff(file, save);
      assert [save] + [] == [save];
      if !OptionChange(file, save).Reject? {
        var between := Changed(file, OptionChange(file, save));
        SavedAll(file, newAlias, options.value.0, options.value.1);
        assert options == Some((options.value.0, options.value.1));
        if newAlias == alias {
          SavedOnly(file, between, alias, options);
        } else {
          SavedIsValid(file, save);
          DeleteAfter(between, alias);
          SavedThenRemoved(file, between, OptionsAfter(between, [remove]).value, alias, newAlias, options);
        }
      }
    } else if newAlias != alias {
      var move := MoveAlias(alias, newAlias);
      OneOrTwoSteps(file, move, move);
      RejectedIff(file, move);
      if !file.Invalid? {
        MovedAll(file, alias, newAlias);
      }
    } else {
      OneOrTwoSteps(file, remove, remove);
      NothingCreated(file, alias);
    }
  }
}
