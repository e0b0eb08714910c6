/** The setup wizard's `main`: which log entries and files are on disk after each of its saves and
    writes, what `--resume` reuses, and what interruptions do to that. */
module SetupResume {
  import opened Options

  /** A schema as its fingerprint sees it: its tables with their columns, and the sources read. */
  datatype Schema = Schema(tables: seq<string>, sources: seq<string>)

  /** The digest, without collisions; with no tables the keyed and the bare one are the same. */
  datatype Fingerprint = Fingerprint(schema: Schema, keyed: bool)

  function Bare(s: Schema): Fingerprint { Fingerprint(s, false) }

  function Keyed(s: Schema): Fingerprint { Fingerprint(s, s.tables != []) }

  /** The stored result of a model step, with the schema it was made for. */
  datatype Entry = Entry(items: seq<string>, madeFor: Schema, language: string, mock: bool)

  /** `.setup_log.json`: which steps have an entry, and what theirs hold. */
  datatype Log = Log(step1: bool, step2: Option<Fingerprint>, aliases: Option<Entry>, rules: Option<Entry>,
                     examples: Option<Entry>, step6: bool, step7: bool) {
    predicate Done() { step1 && step2.Some? && aliases.Some? && rules.Some? && examples.Some? && step6 }
  }

  function NoLog(): Log { Log(false, None, None, None, None, false, false) }

  datatype File = Entities | Aliases | BusinessRules | Examples | Relationships

  /** In the order in which step 6 writes them. */
  function FileAt(i: nat): File
    requires i < 5
  {
    if i == 0 then Entities else if i == 1 then Aliases else if i == 2 then BusinessRules
    else if i == 3 then Examples else Relationships
  }

  lemma FileIndex(f: File) returns (i: nat)
    ensures i < 5 && FileAt(i) == f
  {
    i := match f
      case Entities => 0
      case Aliases => 1
      case BusinessRules => 2
      case Examples => 3
      case Relationships => 4;
  }

  /** The content of a file, timestamps aside, with the schema it was made for. */
  datatype Draft = Draft(items: seq<string>, madeFor: Schema)

  type Files = map<File, Draft>

  /** `_file_stands`: it exists and, for the examples, holds some. */
  predicate Stands(files: Files, f: File) { f in files && (f.Examples? ==> files[f].items != []) }

  predicate AllStand(files: Files) { forall i :: 0 <= i < 5 ==> Stands(files, FileAt(i)) }

  datatype Disk = Disk(log: Log, files: Files)

  /** What a run finds outside the output directory: the schema, the language asked for, whether the
      provider is the mock, and what the model answers. */
  datatype World = World(schema: Schema, language: string, mock: bool, aliases: (Schema, string) -> seq<string>,
                         rules: Schema -> seq<string>, examples: (Schema, string) -> seq<string>,
                         links: Schema -> seq<string>) {
    function NewAliases(): Entry { Entry(aliases(schema, language), schema, language, mock) }
    function NewRules(): Entry { Entry(rules(schema), schema, language, mock) }
    function NewExamples(): Entry { Entry(examples(schema, language), schema, language, mock) }
  }

  // ---- what a resumed run reuses --------------------------------------------------------------------

  /** A result of the mock provider is not one to reuse. */
  predicate Usable(e: Option<Entry>) { e.Some? && !e.value.mock }

  predicate UsableExamples(e: Option<Entry>) { Usable(e) && e.value.items != [] }

  datatype Results = Results(aliases: Option<Entry>, rules: Option<Entry>, examples: Option<Entry>)

  /** `_restorable_results`: the rules are kept whatever the language. */
  function Restorable(log: Log, language: string): Results {
    Results(if Usable(log.aliases) && log.aliases.value.language == language then log.aliases else None,
            if Usable(log.rules) then log.rules else None,
            if UsableExamples(log.examples) && log.examples.value.language == language then log.examples else None)
  }

  /** The stored results, or none when the fingerprint differs. */
  function Reused(w: World, log: Log, resume: bool): Results {
    if resume && log.step2 == Some(Keyed(w.schema)) then Restorable(log, w.language) else Results(None, None, None)
  }

  /** The results a run goes on with. */
  function UsedAliases(w: World, log: Log, resume: bool): Entry {
    if Reused(w, log, resume).aliases.Some? then Reused(w, log, resume).aliases.value else w.NewAliases()
  }

  function UsedRules(w: World, log: Log, resume: bool): Entry {
    if Reused(w, log, resume).rules.Some? then Reused(w, log, resume).rules.value else w.NewRules()
  }

  function UsedExamples(w: World, log: Log, resume: bool): Entry {
    if Reused(w, log, resume).examples.Some? then Reused(w, log, resume).examples.value else w.NewExamples()
  }

  // ---- the disk after each effect ----------------------------------------------------------------------

  /** A run that finds everything done only validates. */
  predicate OnlyValidates(d: Disk, resume: bool) { resume && d.log.Done() && AllStand(d.files) }

  /** The saves of a full run: connection, schema (twice), aliases, rules, examples; then, behind the
      five files, the write step and the validation. */
  function LogAt(w: World, d: Disk, resume: bool, k: nat): Log {
    if k == 0 then d.log
    else
      var log := (if resume then d.log else NoLog()).(step1 := true);
      if k == 1 then log
      else if k == 2 then log.(step2 := Some(Bare(w.schema)))
      else
        var keyed := log.(step2 := Some(Keyed(w.schema)));
        keyed.(aliases := if k < 4 then keyed.aliases else Some(UsedAliases(w, d.log, resume)),
               rules := if k < 5 then keyed.rules else Some(UsedRules(w, d.log, resume)),
               examples := if k < 6 then keyed.examples else Some(UsedExamples(w, d.log, resume)),
               step6 := keyed.step6 || k >= 12, step7 := keyed.step7 || k >= 13)
  }

  function DraftOf(e: Entry): Draft { Draft(e.items, e.madeFor) }

  function Content(w: World, d: Disk, resume: bool, f: File): Draft {
    match f
    case Entities => DraftOf(UsedAliases(w, d.log, resume))
    case Aliases => Draft([], w.schema)
    case BusinessRules => DraftOf(UsedRules(w, d.log, resume))
    case Examples => DraftOf(UsedExamples(w, d.log, resume))
    case Relationships => Draft(w.links(w.schema), w.schema)
  }

  /** The files after step 6 came to file `i`: one that stands is left alone by `--resume`. */
  function FilesAt(w: World, d: Disk, resume: bool, i: nat): Files
    requires i <= 5
  {
    if i == 0 then d.files
    else
      var before := FilesAt(w, d, resume, i - 1);
      if resume && Stands(d.files, FileAt(i - 1)) then before
      else before[FileAt(i - 1) := Content(w, d, resume, FileAt(i - 1))]
  }

  const FULL: nat := 13

  /** The disk after the first `k` effects of a run that starts from `d`. */
  function DiskAt(w: World, d: Disk, resume: bool, k: nat): Disk {
    if OnlyValidates(d, resume) then (if k == 0 then d else d.(log := d.log.(step7 := true)))
    else Disk(LogAt(w, d, resume, k), FilesAt(w, d, resume, if k <= 6 then 0 else if k <= 11 then k - 6 else 5))
  }

  function NoDisk(): Disk { Disk(NoLog(), map[]) }

  /** A first run stopped after `stops[0]` effects and resumed, each resumption but the last stopped
      likewise. */
  function Interrupted(w: World, stops: seq<nat>): Disk
    requires stops != []
  {
    if |stops| == 1 then DiskAt(w, NoDisk(), false, stops[0])
    else DiskAt(w, Interrupted(w, stops[..|stops| - 1]), true, stops[|stops| - 1])
  }

  lemma {:induction false} FirstFiles(w: World, i: nat)
    requires i <= 5
    ensures forall j :: 0 <= j < 5 ==> (FileAt(j) in FilesAt(w, NoDisk(), false, i) <==> j < i)
    ensures FileAt(0) == Entities && FileAt(1) == Aliases && FileAt(2) == BusinessRules
    ensures FileAt(3) == Examples && FileAt(4) == Relationships
  {
    hide Content;
    if i > 0 {
      FirstFiles(w, i - 1);
    }
  }

  /** What a first run has saved and written when it stops: one thing after another. */
  lemma EffectsInOrder(w: World, k: nat)
    ensures var d := DiskAt(w, NoDisk(), false, k);
            && (d.log.step1 <==> k >= 1) && (d.log.step2.Some? <==> k >= 2)
            && (d.log.aliases.Some? <==> k >= 4) && (d.log.rules.Some? <==> k >= 5)
            && (d.log.examples.Some? <==> k >= 6)
            && (Entities in d.files <==> k >= 7) && (Aliases in d.files <==> k >= 8)
            && (BusinessRules in d.files <==> k >= 9) && (Examples in d.files <==> k >= 10)
            && (Relationships in d.files <==> k >= 11)
            && (d.log.step6 <==> k >= 12) && (d.log.step7 <==> k >= 13)
  {
    hide Content;
    FirstFiles(w, if k <= 6 then 0 else if k <= 11 then k - 6 else 5);
  }

  // ---- interruptions and one run agree -------------------------------------------------------------------

  /** Everything on the disk is as one uninterrupted run makes it. */
  ghost predicate OnTheWay(w: World, d: Disk) {
    && (d.log.step2 == None || d.log.step2 == Some(Bare(w.schema)) || d.log.step2 == Some(Keyed(w.schema)))
    && (d.log.aliases.Some? ==> d.log.aliases.value == w.NewAliases())
    && (d.log.rules.Some? ==> d.log.rules.value == w.NewRules())
    && (d.log.examples.Some? ==> d.log.examples.value == w.NewExamples())
    && forall f :: f in d.files ==> d.files[f] == Content(w, NoDisk(), false, f)
  }

  lemma SameContent(w: World, d: Disk, resume: bool, f: File)
    requires OnTheWay(w, d)
    ensures Content(w, d, resume, f) == Content(w, NoDisk(), false, f)
  {
  }

  lemma {:induction false} FilesOnTheWay(w: World, d: Disk, resume: bool, i: nat)
    requires OnTheWay(w, d) && i <= 5
    ensures forall f :: f in FilesAt(w, d, resume, i) ==> FilesAt(w, d, resume, i)[f] == Content(w, NoDisk(), false, f)
    ensures d.files.Keys <= FilesAt(w, d, resume, i).Keys
    ensures forall j :: 0 <= j < i ==> FileAt(j) in FilesAt(w, d, resume, i)
  {
    if i > 0 {
      FilesOnTheWay(w, d, resume, i - 1);
      SameContent(w, d, resume, FileAt(i - 1));
    }
  }

  lemma LogOnTheWay(w: World, d: Disk, resume: bool, k: nat)
    requires OnTheWay(w, d)
    ensures OnTheWay(w, Disk(LogAt(w, d, resume, k), d.files))
  {
    hide Content;
  }

  lemma StaysOnTheWay(w: World, d: Disk, resume: bool, k: nat)
    requires OnTheWay(w, d)
    ensures OnTheWay(w, DiskAt(w, d, resume, k))
  {
    hide FilesAt, LogAt, Content;
    LogOnTheWay(w, d, resume, k);
    FilesOnTheWay(w, d, resume, if k <= 6 then 0 else if k <= 11 then k - 6 else 5);
  }

  lemma {:induction false} InterruptedOnTheWay(w: World, stops: seq<nat>)
    requires stops != []
    ensures OnTheWay(w, Interrupted(w, stops))
  {
    if |stops| == 1 {
      StaysOnTheWay(w, NoDisk(), false, stops[0]);
    } else {
      InterruptedOnTheWay(w, stops[..|stops| - 1]);
      StaysOnTheWay(w, Interrupted(w, stops[..|stops| - 1]), true, stops[|stops| - 1]);
    }
  }

  /** A run that gets to its end leaves all five files. */
  lemma EndHasAllFiles(w: World, d: Disk, resume: bool)
    requires OnTheWay(w, d)
    ensures forall f :: f in DiskAt(w, d, resume, FULL).files
  {
    FilesOnTheWay(w, d, resume, 5);
    forall f ensures f in DiskAt(w, d, resume, FULL).files {
      var i := FileIndex(f);
      assert OnlyValidates(d, resume) ==> Stands(d.files, FileAt(i));
    }
  }

  /** What one uninterrupted run from an empty directory writes. */
  function Generated(w: World): Files {
    map[Entities := Draft(w.aliases(w.schema, w.language), w.schema), Aliases := Draft([], w.schema),
        BusinessRules := Draft(w.rules(w.schema), w.schema),
        Examples := Draft(w.examples(w.schema, w.language), w.schema),
        Relationships := Draft(w.links(w.schema), w.schema)]
  }

  /** On the way means: made by this model for this schema; at the end, all of it. */
  lemma EndIsGenerated(w: World, d: Disk)
    requires OnTheWay(w, d) && forall f :: f in d.files
    ensures d.files == Generated(w)
  {
    forall f: File ensures f in Generated(w) && Generated(w)[f] == Content(w, NoDisk(), false, f) {
      match f
      case Entities =>
      case Aliases =>
      case BusinessRules =>
      case Examples =>
      case Relationships =>
    }
  }

  /** Any number of interruptions, wherever they come, followed by a resumption that gets to its end,
      leaves the files of one uninterrupted run. */
  lemma InterruptedEqualsOneRun(w: World, stops: seq<nat>)
    requires stops != []
    ensures DiskAt(w, Interrupted(w, stops), true, FULL).files == Generated(w)
    ensures DiskAt(w, NoDisk(), false, FULL).files == Generated(w)
  {
    InterruptedOnTheWay(w, stops);
    StaysOnTheWay(w, Interrupted(w, stops), true, FULL);
    StaysOnTheWay(w, NoDisk(), false, FULL);
    EndHasAllFiles(w, Interrupted(w, stops), true);
    EndHasAllFiles(w, NoDisk(), false);
    EndIsGenerated(w, DiskAt(w, Interrupted(w, stops), true, FULL));
    EndIsGenerated(w, DiskAt(w, NoDisk(), false, FULL));
  }

  // ---- which stops keep the stored answers ------------------------------------------------------------

  predicate Reached(stops: seq<nat>, k: nat) { exists i :: 0 <= i < |stops| && stops[i] >= k }

  /** Some run saved its write step, and the examples file holds examples: later runs only validate. */
  predicate Completed(w: World, stops: seq<nat>) {
    Reached(stops, 12) && w.examples(w.schema, w.language) != []
  }

  /** Where the last run stopped that saved a fingerprint, or 0 if none did. */
  function SchemaStop(w: World, stops: seq<nat>): nat {
    if stops == [] then 0
    else
      var before, last := stops[..|stops| - 1], stops[|stops| - 1];
      if last < 2 || Completed(w, before) then SchemaStop(w, before) else last
  }

  /** The stops alone tell which fingerprint and which answers are on disk. */
  ghost predicate ToldByStops(w: World, stops: seq<nat>, log: Log) {
    && log.step2 == (match SchemaStop(w, stops)
                     case 0 => None
                     case 2 => Some(Bare(w.schema))
                     case _ => Some(Keyed(w.schema)))
    && (log.step1 <==> Reached(stops, 1))
    && (log.step2.Some? <==> Reached(stops, 2))
    && (log.aliases.Some? <==> Reached(stops, 4))
    && (log.rules.Some? <==> Reached(stops, 5))
    && (log.examples.Some? <==> Reached(stops, 6))
    && (log.step6 <==> Reached(stops, 12))
  }

  lemma ReachedSnoc(stops: seq<nat>, last: nat, k: nat)
    ensures Reached(stops + [last], k) <==> Reached(stops, k) || last >= k
    ensures forall j: nat :: j <= k && Reached(stops, k) ==> Reached(stops, j)
  {
    var all := stops + [last];
    if last >= k { assert all[|stops|] >= k; }
    if i :| 0 <= i < |stops| && stops[i] >= k { assert all[i] >= k; }
  }

  lemma {:induction false} NothingStands(w: World, i: nat)
    requires i <= 5
    ensures FilesAt(w, NoDisk(), false, i) == FilesAt(w, NoDisk(), true, i)
  {
    if i > 0 {
      NothingStands(w, i - 1);
      assert !Stands(NoDisk().files, FileAt(i - 1));
    }
  }

  lemma FirstRunIsResumption(w: World, k: nat)
    ensures DiskAt(w, NoDisk(), false, k) == DiskAt(w, NoDisk(), true, k)
  {
    NothingStands(w, 5);
    NothingStands(w, if k <= 6 then 0 else if k <= 11 then k - 6 else 5);
    assert !OnlyValidates(NoDisk(), true);
  }

  lemma LogTold(w: World, stops: seq<nat>, d: Disk, k: nat)
    requires ToldByStops(w, stops, d.log) && (OnlyValidates(d, true) <==> Completed(w, stops))
    ensures ToldByStops(w, stops + [k], DiskAt(w, d, true, k).log)
  {
    var all := stops + [k];
    assert all[..|all| - 1] == stops;
    ReachedSnoc(stops, k, 1);
    ReachedSnoc(stops, k, 2);
    ReachedSnoc(stops, k, 4);
    ReachedSnoc(stops, k, 5);
    ReachedSnoc(stops, k, 6);
    ReachedSnoc(stops, k, 12);
    hide Reached, FilesAt, UsedAliases, UsedRules, UsedExamples;
  }

  /** Only a run that got past the files has saved its write step. */
  lemma WrittenIsAll(w: World, d: Disk, k: nat)
    requires OnTheWay(w, d) && (d.log.step6 ==> forall f :: f in d.files)
    ensures DiskAt(w, d, true, k).log.step6 ==> forall f :: f in DiskAt(w, d, true, k).files
  {
    if k >= 12 && !OnlyValidates(d, true) {
      EndHasAllFiles(w, d, true);
    } else {
      FilesOnTheWay(w, d, true, if k <= 6 then 0 else if k <= 11 then k - 6 else 5);
    }
  }

  lemma CompletedOnlyValidates(w: World, stops: seq<nat>, d: Disk)
    requires OnTheWay(w, d) && ToldByStops(w, stops, d.log) && (d.log.step6 ==> forall f :: f in d.files)
    ensures OnlyValidates(d, true) <==> Completed(w, stops)
  {
    ReachedSnoc(stops, 0, 12);
    assert FileAt(3) == Examples;
    if Completed(w, stops) {
      assert d.log.Done();
      forall i | 0 <= i < 5 ensures Stands(d.files, FileAt(i)) {
      }
    }
  }

  lemma NothingTold(w: World)
    ensures OnTheWay(w, NoDisk()) && ToldByStops(w, [], NoLog())
  {
  }

  lemma {:induction false} StopsTell(w: World, stops: seq<nat>)
    requires stops != []
    ensures ToldByStops(w, stops, Interrupted(w, stops).log)
    ensures Interrupted(w, stops).log.step6 ==> forall f :: f in Interrupted(w, stops).files
  {
    hide ToldByStops, DiskAt, OnTheWay;
    var before, last := stops[..|stops| - 1], stops[|stops| - 1];
    assert stops == before + [last];
    if before == [] {
      NothingTold(w);
      FirstRunIsResumption(w, last);
      CompletedOnlyValidates(w, [], NoDisk());
      LogTold(w, [], NoDisk(), last);
      WrittenIsAll(w, NoDisk(), last);
    } else {
      var d := Interrupted(w, before);
      StopsTell(w, before);
      InterruptedOnTheWay(w, before);
      CompletedOnlyValidates(w, before, d);
      LogTold(w, before, d, last);
      WrittenIsAll(w, d, last);
    }
  }

  /** Schema and model unchanged: a resumption asks for nothing it has an answer to exactly if the answers
      are not of the mock provider and the last run that saved a fingerprint did not stop between the two
      saves of the schema step, or there is no table to key; aliases and examples also need the language
      they were made in, rules do not. */
  lemma AnswersReusedIff(w: World, stops: seq<nat>, next: World)
    requires stops != [] && next.schema == w.schema
    ensures var log := Interrupted(w, stops).log;
            var reused := Reused(next, log, true);
            var kept := !w.mock && (SchemaStop(w, stops) != 2 || w.schema.tables == []);
            && (log.aliases.Some? ==> (reused.aliases == log.aliases <==> kept && next.language == w.language))
            && (log.rules.Some? ==> (reused.rules == log.rules <==> kept))
            && (log.examples.Some? && log.examples.value.items != [] ==>
                  (reused.examples == log.examples <==> kept && next.language == w.language))
            && (!kept ==> reused == Results(None, None, None))
            && (next.language != w.language ==> reused.aliases == None && reused.examples == None)
  {
    hide Interrupted, DiskAt, SchemaStop, Completed;
    StopsTell(w, stops);
    InterruptedOnTheWay(w, stops);
    var log := Interrupted(w, stops).log;
    ReachedSnoc(stops, 0, 4);
    ReachedSnoc(stops, 0, 5);
    ReachedSnoc(stops, 0, 6);
    hide Reached;
    assert log.step2 == Some(Keyed(w.schema)) <==>
           SchemaStop(w, stops) != 0 && (SchemaStop(w, stops) != 2 || w.schema.tables == []);
  }

  /** With the keyed fingerprint on disk a resumption asks the model for nothing it already answered. */
  lemma AnswersAreNotAskedAgain(w: World, stops: seq<nat>)
    requires stops != [] && !w.mock
    ensures var log := Interrupted(w, stops).log;
            log.step2 == Some(Keyed(w.schema)) ==>
              && Reused(w, log, true).aliases == log.aliases && Reused(w, log, true).rules == log.rules
              && (UsableExamples(log.examples) ==> Reused(w, log, true).examples == log.examples)
  {
    hide Interrupted;
    InterruptedOnTheWay(w, stops);
  }

  /** Stopped between the two saves of the schema step, a resumption leaves a fingerprint the next
      one does not recognise: every answer on disk is asked for again, though nothing changed. */
  lemma StoppedBetweenSchemaSaves(w: World, stops: seq<nat>)
    requires stops != [] && w.schema.tables != [] && !Completed(w, stops)
    ensures var log := Interrupted(w, stops + [2]).log;
            Reused(w, log, true) == Results(None, None, None)
            && log.aliases == Interrupted(w, stops).log.aliases && log.rules == Interrupted(w, stops).log.rules
            && log.examples == Interrupted(w, stops).log.examples
  {
    assert (stops + [2])[..|stops|] == stops;
    hide Completed;
    StopsTell(w, stops);
    StopsTell(w, stops + [2]);
    InterruptedOnTheWay(w, stops);
    CompletedOnlyValidates(w, stops, Interrupted(w, stops));
  }

  // ---- what is reused was made for the schema read now ----------------------------------------------------

  /** The entry was made for every schema whose keyed fingerprint the log holds. */
  ghost predicate MadeForStored(fp: Option<Fingerprint>, e: Option<Entry>) {
    forall s: Schema :: e.Some? && fp == Some(Keyed(s)) ==> e.value.madeFor == s
  }

  /** No reusable result in the log was made for another schema than the one whose fingerprint the log holds. */
  ghost predicate Coherent(log: Log) {
    && (Usable(log.aliases) ==> MadeForStored(log.step2, log.aliases))
    && (Usable(log.rules) ==> MadeForStored(log.step2, log.rules))
    && (UsableExamples(log.examples) ==> MadeForStored(log.step2, log.examples))
  }

  ghost predicate AllMadeFor(r: Results, s: Schema) {
    && (r.aliases.Some? ==> r.aliases.value.madeFor == s)
    && (r.rules.Some? ==> r.rules.value.madeFor == s)
    && (r.examples.Some? ==> r.examples.value.madeFor == s)
  }

  /** From a coherent log only results of the schema read now are reused. */
  lemma CoherentReuse(w: World, log: Log)
    requires Coherent(log)
    ensures AllMadeFor(Reused(w, log, true), w.schema)
  {
  }

  /** Coherence is just what reuse needs: without it some run reuses a result of another schema. */
  lemma CoherentIffReuseIsOwn(log: Log)
    ensures Coherent(log) <==> forall w: World :: AllMadeFor(Reused(w, log, true), w.schema)
  {
    if Coherent(log) {
      forall w: World ensures AllMadeFor(Reused(w, log, true), w.schema) {
        CoherentReuse(w, log);
      }
    } else {
      var e := if Usable(log.aliases) && !MadeForStored(log.step2, log.aliases) then log.aliases
               else if Usable(log.rules) && !MadeForStored(log.step2, log.rules) then log.rules
               else log.examples;
      var s: Schema :| log.step2 == Some(Keyed(s)) && e.value.madeFor != s;
      var w := World(s, e.value.language, false, (s, l) => [], s => [], (s, l) => [], s => []);
      assert !AllMadeFor(Reused(w, log, true), w.schema);
    }
  }

  /** The results of `log` that a run stopped after `k` effects has not replaced or confirmed. */
  function Unreplaced(log: Log, k: nat): Results {
    Results(if k < 4 && Usable(log.aliases) then log.aliases else None,
            if k < 5 && Usable(log.rules) then log.rules else None,
            if k < 6 && UsableExamples(log.examples) then log.examples else None)
  }

  /** The run has put the fingerprint of its own schema into the log. */
  predicate FingerprintSaved(w: World, k: nat) { k >= 3 || (k == 2 && w.schema.tables == []) }

  lemma BareIsKeyed(s: Schema)
    ensures forall t :: Bare(s) == Keyed(t) <==> s == t && s.tables == []
  {
  }

  lemma UsedMadeFor(w: World, log: Log)
    requires Coherent(log)
    ensures UsedAliases(w, log, true).madeFor == w.schema && UsedRules(w, log, true).madeFor == w.schema
    ensures UsedExamples(w, log, true).madeFor == w.schema
  {
  }

  /** A resumption that is stopped keeps the log coherent exactly when it has not yet saved its
      fingerprint, or every reusable result it has not come to was made for its schema. */
  lemma StoppedResumeCoherent(w: World, d: Disk, k: nat)
    requires Coherent(d.log) && !OnlyValidates(d, true)
    ensures Coherent(DiskAt(w, d, true, k).log)
            <==> (FingerprintSaved(w, k) ==> AllMadeFor(Unreplaced(d.log, k), w.schema))
  {
    var log := DiskAt(w, d, true, k).log;
    CoherentReuse(w, d.log);
    UsedMadeFor(w, d.log);
    assert k >= 3 ==> log.step2 == Some(Keyed(w.schema));
    if k == 2 {
      BareIsKeyed(w.schema);
    }
  }

  /** A first run leaves a coherent log wherever it stops, and so does a run that gets past its model steps. */
  lemma FreshAndCompleteRunsCoherent(w: World, d: Disk, k: nat)
    ensures k > 0 || Coherent(d.log) ==> Coherent(DiskAt(w, d, false, k).log)
    ensures Coherent(d.log) && k >= 6 ==> Coherent(DiskAt(w, d, true, k).log)
  {
    if Coherent(d.log) && !OnlyValidates(d, true) {
      StoppedResumeCoherent(w, d, k);
    }
  }

  /** One run after another: a first one and resumptions, each with its own world and stop. */
  function Runs(worlds: seq<World>, stops: seq<nat>): Disk
    requires |worlds| == |stops| >= 1
  {
    var n := |stops| - 1;
    if n == 0 then DiskAt(worlds[0], NoDisk(), false, stops[0])
    else DiskAt(worlds[n], Runs(worlds[..n], stops[..n]), true, stops[n])
  }

  /** Each resumption but the last stopped before saving its fingerprint, or when every reusable
      result it had not come to was made for its schema. */
  ghost predicate StoppedSafely(worlds: seq<World>, stops: seq<nat>)
    requires |worlds| == |stops| >= 1
  {
    var n := |stops| - 1;
    n > 0 ==>
      var d := Runs(worlds[..n], stops[..n]);
      && StoppedSafely(worlds[..n], stops[..n])
      && (OnlyValidates(d, true) || !FingerprintSaved(worlds[n], stops[n])
          || AllMadeFor(Unreplaced(d.log, stops[n]), worlds[n].schema))
  }

  lemma ValidationKeepsCoherent(log: Log)
    requires Coherent(log)
    ensures Coherent(log.(step7 := true))
  {
  }

  lemma EmptyIsCoherent()
    ensures Coherent(NoLog())
  {
  }

  /** After any number of runs stopped safely, however the schema changed between them, a further
      resumption reuses only results made for the schema it reads. */
  lemma {:induction false} SafeRunsReuseOwn(worlds: seq<World>, stops: seq<nat>, w: World)
    requires |worlds| == |stops| >= 1 && StoppedSafely(worlds, stops)
    ensures Coherent(Runs(worlds, stops).log) && AllMadeFor(Reused(w, Runs(worlds, stops).log, true), w.schema)
  {
    hide Coherent, LogAt, FilesAt, Reused, AllMadeFor;
    var n := |stops| - 1;
    if n == 0 {
      EmptyIsCoherent();
      FreshAndCompleteRunsCoherent(worlds[0], NoDisk(), stops[0]);
    } else {
      var d := Runs(worlds[..n], stops[..n]);
      SafeRunsReuseOwn(worlds[..n], stops[..n], w);
      if OnlyValidates(d, true) {
        ValidationKeepsCoherent(d.log);
      } else {
        StoppedResumeCoherent(worlds[n], d, stops[n]);
      }
    }
    CoherentReuse(w, Runs(worlds, stops).log);
  }

  /** The reusable results that a resumption stopped after `k` effects leaves on disk without having made
      them itself: those it has not come to and those it reused. */
  function LeftStanding(w: World, log: Log, k: nat): Results {
    var unreplaced, reused := Unreplaced(log, k), Reused(w, log, true);
    Results(if k < 4 then unreplaced.aliases else reused.aliases,
            if k < 5 then unreplaced.rules else reused.rules,
            if k < 6 then unreplaced.examples else reused.examples)
  }

  /** What the two fingerprints a run saves ask of an entry. */
  lemma StoredIs(s: Schema, e: Option<Entry>)
    ensures MadeForStored(Some(Keyed(s)), e) <==> (e.Some? ==> e.value.madeFor == s)
    ensures s.tables == [] ==> Bare(s) == Keyed(s)
    ensures s.tables != [] ==> MadeForStored(Some(Bare(s)), e)
  {
    BareIsKeyed(s);
  }

  /** Whatever the log was before: a resumption that saves its fingerprint leaves a coherent log exactly
      when all it leaves standing was made for its schema, or only the bare fingerprint of a schema with
      tables is saved, which no run recognises. */
  lemma SavingResumeCoherent(w: World, d: Disk, k: nat)
    requires !OnlyValidates(d, true) && k >= 2
    ensures Coherent(DiskAt(w, d, true, k).log)
            <==> (FingerprintSaved(w, k) ==> AllMadeFor(LeftStanding(w, d.log, k), w.schema))
  {
    hide MadeForStored, Bare, Keyed, FilesAt;
    var log := DiskAt(w, d, true, k).log;
    StoredIs(w.schema, log.aliases);
    StoredIs(w.schema, log.rules);
    StoredIs(w.schema, log.examples);
    assert log.step2 == Some(if k == 2 then Bare(w.schema) else Keyed(w.schema));
  }

  lemma OtherResumeCoherent(w: World, d: Disk, k: nat)
    requires OnlyValidates(d, true) || k < 2
    ensures Coherent(DiskAt(w, d, true, k).log) <==> Coherent(d.log)
  {
  }

  /** The last resumption that saved a fingerprint left standing only results made for its schema, or
      stopped between the two saves of the schema step; or there was none but the first run. */
  ghost predicate OwnResults(worlds: seq<World>, stops: seq<nat>)
    requires |worlds| == |stops| >= 1
  {
    var n := |stops| - 1;
    n > 0 ==>
      var d := Runs(worlds[..n], stops[..n]);
      if OnlyValidates(d, true) || stops[n] < 2 then OwnResults(worlds[..n], stops[..n])
      else FingerprintSaved(worlds[n], stops[n]) ==>
             AllMadeFor(LeftStanding(worlds[n], d.log, stops[n]), worlds[n].schema)
  }

  lemma {:induction false} RunsCoherentIff(worlds: seq<World>, stops: seq<nat>)
    requires |worlds| == |stops| >= 1
    ensures Coherent(Runs(worlds, stops).log) <==> OwnResults(worlds, stops)
  {
    hide Coherent, DiskAt, LeftStanding, AllMadeFor;
    var n := |stops| - 1;
    if n == 0 {
      EmptyIsCoherent();
      FreshAndCompleteRunsCoherent(worlds[0], NoDisk(), stops[0]);
    } else {
      var d := Runs(worlds[..n], stops[..n]);
      RunsCoherentIff(worlds[..n], stops[..n]);
      if OnlyValidates(d, true) || stops[n] < 2 {
        OtherResumeCoherent(worlds[n], d, stops[n]);
      } else {
        SavingResumeCoherent(worlds[n], d, stops[n]);
      }
    }
  }

  /** After any runs, however the schema changed between them, no further resumption reuses a result of
      another schema exactly when the last one that saved a fingerprint left none standing. */
  lemma RunsReuseOwnIff(worlds: seq<World>, stops: seq<nat>)
    requires |worlds| == |stops| >= 1
    ensures (forall w: World :: AllMadeFor(Reused(w, Runs(worlds, stops).log, true), w.schema))
            <==> OwnResults(worlds, stops)
  {
    hide *;
    RunsCoherentIff(worlds, stops);
    CoherentIffReuseIsOwn(Runs(worlds, stops).log);
  }

  /** One interruption, any schema and language found by the resumption: what it reuses was made for
      the schema it reads. */
  lemma OneInterruptionReusesOwn(w1: World, k: nat, w2: World)
    ensures AllMadeFor(Reused(w2, DiskAt(w1, NoDisk(), false, k).log, true), w2.schema)
  {
    FreshAndCompleteRunsCoherent(w1, NoDisk(), k);
    CoherentReuse(w2, DiskAt(w1, NoDisk(), false, k).log);
  }

  lemma {:induction false} WrittenUpTo(w: World, d: Disk, i: nat)
    requires d.files == map[] && i <= 5
    ensures forall j :: 0 <= j < i ==>
              FileAt(j) in FilesAt(w, d, true, i) && FilesAt(w, d, true, i)[FileAt(j)] == Content(w, d, true, FileAt(j))
  {
    if i > 0 {
      WrittenUpTo(w, d, i - 1);
    }
  }

  lemma WrittenFiles(w: World, d: Disk)
    requires d.files == map[]
    ensures forall i :: 0 <= i < 5 ==>
              FileAt(i) in FilesAt(w, d, true, 5) && FilesAt(w, d, true, 5)[FileAt(i)] == Content(w, d, true, FileAt(i))
  {
    WrittenUpTo(w, d, 5);
  }

  /** Two interruptions with a schema change between them: the third run reuses the aliases, rules
      and examples of the old schema, and writes them. */
  lemma TwoInterruptionsMixSchemas(w1: World, w2: World)
    requires !w1.mock && w1.schema != w2.schema && w1.language == w2.language
    requires w1.examples(w1.schema, w1.language) != []
    ensures var d1 := DiskAt(w1, NoDisk(), false, 6);
            var d2 := DiskAt(w2, d1, true, 3);
            var d3 := DiskAt(w2, d2, true, FULL);
            && Reused(w2, d2.log, true) == Results(Some(w1.NewAliases()), Some(w1.NewRules()), Some(w1.NewExamples()))
            && Entities in d3.files && d3.files[Entities] == Draft(w1.aliases(w1.schema, w1.language), w1.schema)
            && BusinessRules in d3.files && d3.files[BusinessRules] == Draft(w1.rules(w1.schema), w1.schema)
  {
    var d1 := DiskAt(w1, NoDisk(), false, 6);
    var d2 := DiskAt(w2, d1, true, 3);
    assert d1.files == map[] && d2.files == map[];
    assert d2.log.step2 == Some(Keyed(w2.schema));
    assert !OnlyValidates(d2, true) by { assert !Stands(d2.files, FileAt(0)); }
    WrittenFiles(w2, d2);
    assert DiskAt(w2, d2, true, FULL).files == FilesAt(w2, d2, true, 5);
    assert FileAt(0) == Entities && FileAt(2) == BusinessRules;
    assert Content(w2, d2, true, Entities) == DraftOf(w1.NewAliases());
    assert Content(w2, d2, true, BusinessRules) == DraftOf(w1.NewRules());
  }

  // ---- whom the files at the end were made for ---------------------------------------------------------

  ghost predicate FilesMadeFor(files: Files, s: Schema) {
    forall f: File :: f in files && files[f].madeFor == s
  }

  /** A resumption leaves a file that stands alone and writes every other. */
  lemma {:induction false} FilesWritten(w: World, d: Disk, i: nat, j: nat)
    requires i <= 5 && j < 5
    ensures var f, files := FileAt(j), FilesAt(w, d, true, i);
            if j < i && !Stands(d.files, f) then f in files && files[f] == Content(w, d, true, f)
            else (f in files <==> f in d.files) && (f in files ==> files[f] == d.files[f])
  {
    if i > 0 {
      FilesWritten(w, d, i - 1, j);
    }
  }

  lemma FileAtEnd(w: World, d: Disk, f: File)
    ensures var files := DiskAt(w, d, true, FULL).files;
            f in files && files[f] == if Stands(d.files, f) then d.files[f] else Content(w, d, true, f)
  {
    var j := FileIndex(f);
    FilesWritten(w, d, 5, j);
    assert OnlyValidates(d, true) ==> Stands(d.files, FileAt(j));
  }

  /** After a resumption from a coherent log all five files are made for the schema it read exactly if
      every file it found standing was. */
  lemma FilesAreOwnIff(w: World, d: Disk)
    requires Coherent(d.log)
    ensures FilesMadeFor(DiskAt(w, d, true, FULL).files, w.schema)
            <==> forall f: File :: Stands(d.files, f) ==> d.files[f].madeFor == w.schema
  {
    hide DiskAt, UsedAliases, UsedRules, UsedExamples, Coherent;
    UsedMadeFor(w, d.log);
    forall f: File
      ensures var files := DiskAt(w, d, true, FULL).files;
              f in files && (files[f].madeFor == w.schema <==> Stands(d.files, f) ==> d.files[f].madeFor == w.schema)
    {
      FileAtEnd(w, d, f);
    }
  }

  /** One interruption: the files at the end are all made for the schema the resumption read exactly
      if that is the schema the first run read, or the first run stopped before it wrote a file. */
  lemma OneInterruptionFilesAreOwnIff(w1: World, k: nat, w2: World)
    ensures FilesMadeFor(DiskAt(w2, DiskAt(w1, NoDisk(), false, k), true, FULL).files, w2.schema)
            <==> w1.schema == w2.schema || k <= 6
  {
    var d := DiskAt(w1, NoDisk(), false, k);
    FreshAndCompleteRunsCoherent(w1, NoDisk(), k);
    FilesAreOwnIff(w2, d);
    FirstRunIsResumption(w1, k);
    var i := if k <= 6 then 0 else if k <= 11 then k - 6 else 5;
    forall f: File ensures f in d.files ==> d.files[f].madeFor == w1.schema && k > 6 {
      var j := FileIndex(f);
      FilesWritten(w1, NoDisk(), i, j);
    }
    if k > 6 {
      FilesWritten(w1, NoDisk(), i, 0);
      assert FileAt(0) == Entities && Stands(d.files, Entities);
    }
  }
}
