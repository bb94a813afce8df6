/** The definition service: the durable steps of the four operations, with the fates of their writes. */
module DefinitionService {
  import opened Common
  import opened DefinitionJournal
  import opened DefinitionEffects

  class Service {
    var disk: Disk
    var fates: seq<Fate>

    ghost function Now(): World
      reads this
    {
      World(disk, fates)
    }

    /** A new process recovers before it serves; when that fails the source hands out no service. */
    constructor (disk: Disk, fates: seq<Fate>)
      ensures Now() == RecoverRun(World(disk, fates)).0
    {
      this.disk, this.fates := disk, fates;
      new;
      var _ := RecoverPendingTransaction();
    }

    method Put(target: Disk) returns (ending: Ending)
      modifies this
      ensures (Now(), ending) == old(Now()).Put(target)
    {
      var fate := Done;
      if |fates| > 0 {
        fate, fates := fates[0], fates[1..];
      }
      if fate.TakesEffect() {
        disk := target;
      }
      ending := fate.Report();
    }

    method RestoreTransaction(saved: Pair) returns (ending: Ending)
      modifies this
      ensures (Now(), ending) == RestoreRun(old(Now()), saved)
    {
      var config := Put(disk.(files := disk.files.(config := saved.config)));
      if config.Died? {
        return Died;
      }
      var options := Put(disk.(files := disk.files.(options := saved.options)));
      if options.Died? {
        return Died;
      }
      ending := if config.Fine? && options.Fine? then Fine else Failed;
    }

    method RecoverPendingTransaction() returns (ending: Ending)
      modifies this
      ensures (Now(), ending) == RecoverRun(old(Now()))
    {
      if disk.journal.NoJournal? {
        return Fine;
      }
      if disk.journal.phase.Committed? {
        ending := Put(disk.(journal := NoJournal));
        return;
      }
      ending := RestoreTransaction(disk.journal.saved);
      if ending.Fine? {
        ending := Put(disk.(journal := NoJournal));
      }
    }

    method BeginTransaction(saved: Pair) returns (ending: Ending)
      modifies this
      ensures (Now(), ending) == BeginRun(old(Now()), saved)
    {
      ending := RecoverPendingTransaction();
      if ending.Fine? {
        ending := Put(disk.(journal := Record(Prepared, saved)));
      }
    }

    method AbortTransaction(saved: Pair) returns (ending: Ending)
      modifies this
      ensures (Now(), ending) == AbortRun(old(Now()), saved)
    {
      ending := RestoreTransaction(saved);
      if ending.Fine? {
        ending := Put(disk.(journal := NoJournal));
      }
    }

    /** An aborted operation fails, whether or not the rollback went through. */
    method Fail(saved: Pair, ghost committed: bool) returns (ending: Ending, ghost outcome: Outcome)
      modifies this
      ensures (Now(), outcome) == FailRun(old(Now()), saved, committed) && outcome.ending == ending
    {
      var aborted := AbortTransaction(saved);
      ending := if aborted.Died? then Died else Failed;
      outcome := Outcome(ending, committed, committed, aborted.Fine?);
    }

    method CompleteTransaction(saved: Pair) returns (ending: Ending, ghost outcome: Outcome)
      modifies this
      ensures (Now(), outcome) == CompleteRun(old(Now()), saved) && outcome.ending == ending
    {
      ghost var written := Now().Fate().TakesEffect();
      var commit := Put(disk.(journal := Record(Committed, saved)));
      if commit.Died? {
        return Died, Outcome(Died, written, false, false);
      }
      if commit.Failed? {
        ending, outcome := Fail(saved, written);
        return;
      }
      var cleanup := Put(disk.(journal := NoJournal));
      ending := if cleanup.Died? then Died else Fine;
      outcome := Outcome(ending, true, false, false);
    }

    method ChangeOptions(steps: seq<OptionStep>) returns (ending: Ending)
      modifies this
      ensures (Now(), ending) == OptionsRun(old(Now()), steps)
    {
      assert steps[0..] == steps;
      for i := 0 to |steps|
        invariant OptionsRun(Now(), steps[i..]) == OptionsRun(old(Now()), steps)
      {
        assert steps[i..][1..] == steps[i + 1..];
        var change := OptionChange(disk.files.options, steps[i]);
        if change.Reject? {
          return Failed;
        }
        if change.Set? {
          ending := Put(disk.(files := disk.files.(options := change.contents)));
          if !ending.Fine? {
            return;
          }
        }
      }
      ending := Fine;
    }

    method ChangeConfig(config: Contents -> Change<Contents>) returns (ending: Ending)
      modifies this
      ensures match config(old(disk.files.config))
        case Reject => Now() == old(Now()) && ending.Failed?
        case Keep => Now() == old(Now()) && ending.Fine?
        case Set(contents) => (Now(), ending) == old(Now()).Put(old(disk).(files := old(disk).files.(config := contents)))
    {
      var change := config(disk.files.config);
      if change.Reject? {
        return Failed;
      }
      ending := Fine;
      if change.Set? {
        ending := Put(disk.(files := disk.files.(config := change.contents)));
      }
    }

    /** Create, Update, Duplicate and Delete: snapshot, begin, change the configuration, change the options, complete. */
    method Perform(op: Operation) returns (ending: Ending, ghost outcome: Outcome)
      modifies this
      ensures (Now(), outcome) == OperationRun(old(Now()), op) && outcome.ending == ending
    {
      var saved := disk.files;
      var begun := BeginTransaction(saved);
      if !begun.Fine? {
        return begun, Outcome(begun, false, false, false);
      }
      ending := ChangeConfig(op.config);
      if ending.Fine? {
        ending := ChangeOptions(op.options);
      }
      if ending.Died? {
        outcome := Outcome(Died, false, false, false);
      } else if ending.Failed? {
        ending, outcome := Fail(saved, false);
      } else {
        ending, outcome := CompleteTransaction(saved);
      }
    }

    method Create(config: Contents -> Change<Contents>, alias: string, options: Option<(string, bool)>) returns (ending: Ending, ghost outcome: Outcome)
      modifies this
      ensures (Now(), outcome) == OperationRun(old(Now()), Operation(config, CreateSteps(alias, options))) && outcome.ending == ending
      ensures var before := Logical(old(disk));
        && (ending.Fine? ==>
              && !config(before.config).Reject? && disk.files.config == Changed(before.config, config(before.config))
              && CreateEffect(before.options, disk.files.options, alias, options))
        && (AllDone(old(fates)) ==>
              if !config(before.config).Reject? && CanSave(before.options, options) then ending.Fine? else ending.Failed? && disk.files == old(disk).files)
    {
      ghost var op := Operation(config, CreateSteps(alias, options));
      ghost var before := Now();
      CreateAfter(Logical(disk).options, alias, options);
      OperationResult(before, op);
      hide OperationRun, Target, OptionsAfter, AllDone, CanSave, CreateEffect;
      var steps: seq<OptionStep> := [];
      if options.Some? {
        steps := steps + [SaveAlias(alias, options.value.0, options.value.1)];
      }
      assert steps == CreateSteps(alias, options);
      ending, outcome := Perform(Operation(config, steps));
    }

    method Update(config: Contents -> Change<Contents>, alias: string, hostAlias: string, options: Option<(string, bool)>) returns (ending: Ending, ghost outcome: Outcome)
      modifies this
      ensures (Now(), outcome) == OperationRun(old(Now()), Operation(config, UpdateSteps(alias, hostAlias, options))) && outcome.ending == ending
      ensures var before := Logical(old(disk));
        && (ending.Fine? ==>
              && !config(before.config).Reject? && disk.files.config == Changed(before.config, config(before.config))
              && UpdateEffect(before.options, disk.files.options, alias, if hostAlias == "" then alias else hostAlias, options))
        && (AllDone(old(fates)) ==>
              if !config(before.config).Reject? && CanSave(before.options, options) && (options.None? && hostAlias !in {"", alias} ==> !before.options.Invalid?) then ending.Fine? else ending.Failed? && disk.files == old(disk).files)
    {
      ghost var op := Operation(config, UpdateSteps(alias, hostAlias, options));
      ghost var before := Now();
      UpdateAfter(Logical(disk).options, alias, hostAlias, options);
      OperationResult(before, op);
      hide OperationRun, Target, OptionsAfter, AllDone, CanSave, UpdateEffect;
      var newAlias := hostAlias;
      if newAlias == "" {
        newAlias := alias;
      }
      var steps: seq<OptionStep> := [];
      if options.Some? {
        steps := steps + [SaveAlias(newAlias, options.value.0, options.value.1)];
        if newAlias != alias {
          steps := steps + [RemoveAlias(alias)];
        }
      } else if newAlias != alias {
        steps := steps + [MoveAlias(alias, newAlias)];
      }
      assert steps == UpdateSteps(alias, hostAlias, options);
      ending, outcome := Perform(Operation(config, steps));
    }

    method Duplicate(config: Contents -> Change<Contents>, alias: string, newAlias: string) returns (ending: Ending, ghost outcome: Outcome)
      modifies this
      ensures (Now(), outcome) == OperationRun(old(Now()), Operation(config, [CopyAlias(alias, newAlias)])) && outcome.ending == ending
      ensures var before := Logical(old(disk));
        && (ending.Fine? ==>
              && !config(before.config).Reject? && disk.files.config == Changed(before.config, config(before.config))
              && DuplicateEffect(before.options, disk.files.options, alias, newAlias))
        && (AllDone(old(fates)) ==>
              if !config(before.config).Reject? && (alias == newAlias || !before.options.Invalid?) then ending.Fine? else ending.Failed? && disk.files == old(disk).files)
    {
      ghost var op := Operation(config, [CopyAlias(alias, newAlias)]);
      ghost var before := Now();
      DuplicateAfter(Logical(disk).options, alias, newAlias);
      OperationResult(before, op);
      hide OperationRun, Target, OptionsAfter, AllDone, CanSave, DuplicateEffect;
      ending, outcome := Perform(Operation(config, [CopyAlias(alias, newAlias)]));
    }

    method Delete(config: Contents -> Change<Contents>, alias: string) returns (ending: Ending, ghost outcome: Outcome)
      modifies this
      ensures (Now(), outcome) == OperationRun(old(Now()), Operation(config, [RemoveAlias(alias)])) && outcome.ending == ending
      ensures var before := Logical(old(disk));
        && (ending.Fine? ==>
              && !config(before.config).Reject? && disk.files.config == Changed(before.config, config(before.config))
              && DeleteEffect(before.options, disk.files.options, alias))
        && (AllDone(old(fates)) ==>
              if !config(before.config).Reject? && !before.options.Invalid? then ending.Fine? else ending.Failed? && disk.files == old(disk).files)
    {
      ghost var op := Operation(config, [RemoveAlias(alias)]);
      ghost var before := Now();
      DeleteAfter(Logical(disk).options, alias);
      OperationResult(before, op);
      hide OperationRun, Target, OptionsAfter, AllDone, CanSave, DeleteEffect;
      ending, outcome := Perform(Operation(config, [RemoveAlias(alias)]));
    }
  }

  /** What is known of an operation from its target. */
  lemma OperationResult(w: World, op: Operation)
    ensures var (v, o) := OperationRun(w, op); var target := Target(Logical(w.disk), op);
      && (o.ending.Fine? ==> target.Some? && v.disk.files == target.value)
      && (AllDone(w.fates) ==> if target.Some? then o.ending.Fine? else o.ending.Failed? && v.disk.files == w.disk.files)
    ensures var before := Logical(w.disk); var target := Target(before, op); var options := OptionsAfter(before.options, op.options);
      && (target.Some? <==> !op.config(before.config).Reject? && options.Some?)
      && (target.Some? ==> target.value == Pair(Changed(before.config, op.config(before.config)), options.value))
  {
    if OperationRun(w, op).1.ending.Fine? {
      FineResult(w, op);
    }
    if AllDone(w.fates) {
      OperationDone(w, op);
    }
    hide OperationRun, AllDone, OptionsAfter, Changed;
  }
}
