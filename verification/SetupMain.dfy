/** `main` as it runs: a log in memory, saved and saved again, and files written one by one. */
module SetupMain {
  import opened Options
  import opened SetupResume

  class OutputDirectory {
    var log: Log
    var files: Files

    ghost function Disk(): Disk
      reads this
    {
      SetupResume.Disk(log, files)
    }

    /** One run; it is stopped after `stop` saves or file steps. */
    method RunWizard(w: World, resume: bool, stop: nat)
      modifies this
      ensures Disk() == DiskAt(w, old(Disk()), resume, stop)
    {
      ghost var d := Disk();
      if stop == 0 { return; }
      var log := if resume then this.log else NoLog();
      if resume && log.Done() && AllStand(files) {
        this.log := log.(step7 := true);
        return;
      }
      var stored := if resume then Restorable(log, w.language) else Results(None, None, None);
      var storedFingerprint := if resume then log.step2 else None;

      log := log.(step1 := true);
      this.log := log;
      if stop == 1 { return; }
      log := log.(step2 := Some(Bare(w.schema)));
      this.log := log;
      if stop == 2 { return; }
      log := log.(step2 := Some(Keyed(w.schema)));
      this.log := log;
      if stop == 3 { return; }

      var reuse := resume && storedFingerprint == Some(Keyed(w.schema));
      if !reuse { stored := Results(None, None, None); }
      assert stored == Reused(w, d.log, resume);
      ModelSteps(w, log, stored, d, resume, stop);
    }

    /** Steps 3 to 7. */
    method ModelSteps(w: World, start: Log, stored: Results, ghost d: SetupResume.Disk, resume: bool, stop: nat)
      requires stop > 3 && !OnlyValidates(d, resume) && stored == Reused(w, d.log, resume)
      requires log == start == LogAt(w, d, resume, 3) && files == d.files
      modifies this
      ensures Disk() == DiskAt(w, d, resume, stop)
    {
      var log := start;
      var aliases := stored.aliases;
      if aliases.None? {
        aliases := Some(w.NewAliases());
        log := log.(aliases := aliases);
      }
      this.log := log;
      if stop == 4 { return; }
      var rules := stored.rules;
      if rules.None? {
        rules := Some(w.NewRules());
        log := log.(rules := rules);
      }
      this.log := log;
      if stop == 5 { return; }
      var examples := stored.examples;
      if examples.None? {
        examples := Some(w.NewExamples());
        log := log.(examples := examples);
      }
      this.log := log;
      if stop == 6 { return; }
      WriteAndValidate(w, log, aliases.value, rules.value, examples.value, d, resume, stop);
    }

    /** `step6_review_and_write`, accepting every file, and step 7. */
    method WriteAndValidate(w: World, start: Log, aliases: Entry, rules: Entry, examples: Entry,
                            ghost d: SetupResume.Disk, resume: bool, stop: nat)
      requires stop > 6 && !OnlyValidates(d, resume)
      requires aliases == UsedAliases(w, d.log, resume) && rules == UsedRules(w, d.log, resume)
      requires examples == UsedExamples(w, d.log, resume)
      requires log == start == LogAt(w, d, resume, 6) && files == d.files
      modifies this
      ensures Disk() == DiskAt(w, d, resume, stop)
    {
      hide UsedAliases, UsedRules, UsedExamples;
      var log := start;
      for i := 0 to 5
        invariant this.log == log && files == FilesAt(w, d, resume, i) && stop > 6 + i
        invariant forall j :: i <= j < 5 ==> Stands(files, FileAt(j)) == Stands(d.files, FileAt(j))
      {
        if !(resume && Stands(files, FileAt(i))) {
          var content := match FileAt(i)
            case Entities => DraftOf(aliases)
            case Aliases => Draft([], w.schema)
            case BusinessRules => DraftOf(rules)
            case Examples => DraftOf(examples)
            case Relationships => Draft(w.links(w.schema), w.schema);
          files := files[FileAt(i) := content];
        }
        if stop == 7 + i { return; }
      }
      log := log.(step6 := true);
      this.log := log;
      if stop == 12 { return; }
      log := log.(step7 := true);
      this.log := log;
    }
  }
}
