/** Step 2 of the setup wizard as it works: a plan made from names alone, an inspection that is told
    bare names to leave out, and a drop of what had to be read although a rule removes it. */
module SchemaReading {
  import opened Options
  import opened SchemaSelection

  /** One foreign key; a target without a schema is in the schema of its source. */
  datatype Link = Link(fromSchema: Option<string>, fromTable: string, fromColumn: string,
                       toSchema: Option<string>, toTable: string, toColumn: string)

  class SkipReport {
    var found: nat
    var tables: map<Rule, nat>

    function Count(rule: Rule): nat
      reads this
    {
      if rule in tables then tables[rule] else 0
    }

    constructor (found: nat)
      ensures this.found == found && forall r :: Count(r) == 0
    {
      this.found, tables := found, map[];
    }

    method Add(rule: Rule, n: nat)
      modifies this`tables
      ensures forall r :: Count(r) == old(Count(r)) + if r == rule then n else 0
    {
      tables := tables[rule := Count(rule) + n];
    }
  }

  class Snapshot {
    var tables: seq<Table>
    var relationships: seq<Link>

    constructor ()
      ensures tables == [] && relationships == []
    {
      tables, relationships := [], [];
    }
  }

  class ReadPlan {
    var schemas: seq<string>
    var excludeTables: seq<string>
    var perSchema: map<string, nat>
    const report: SkipReport

    constructor (report: SkipReport)
      ensures this.report == report && schemas == [] && excludeTables == [] && perSchema == map[]
    {
      this.report := report;
      schemas, excludeTables, perSchema := [], [], map[];
    }
  }

  /** The listing is a dictionary: no schema is listed twice. */
  ghost predicate Distinct(es: seq<Entry>) {
    forall i, j :: 0 <= i < j < |es| ==> es[i].schema != es[j].schema
  }

  function Schemas(es: seq<Entry>): seq<string> { seq(|es|, i requires 0 <= i < |es| => es[i].schema) }

  lemma {:induction false} SelectDistinct(es: seq<Entry>, keep: Entry -> bool)
    requires Distinct(es)
    ensures Distinct(Select(es, keep))
  {
    if es != [] {
      var init := es[..|es| - 1];
      SelectDistinct(init, keep);
      assert forall e :: e in init ==> e.schema != es[|es| - 1].schema;
    }
  }

  // ---- planning -------------------------------------------------------------------------------------

  function Of(counts: map<string, nat>, k: string): nat { if k in counts then counts[k] else 0 }

  lemma CountStep(ts: seq<Table>, i: nat, keep: Table -> bool)
    requires i < |ts|
    ensures |Filter(ts[..i + 1], keep)| == |Filter(ts[..i], keep)| + if keep(ts[i]) then 1 else 0
  {
    FilterStep(ts, i, keep);
  }

  lemma FlatStep(es: seq<Entry>, i: nat, keep: Table -> bool)
    requires i < |es|
    ensures |Filter(Flat(es[..i + 1]), keep)| == |Filter(Flat(es[..i]), keep)| + |Filter(Tables(es[i]), keep)|
  {
    assert es[..i + 1] == es[..i] + [es[i]];
    FlatSnoc(es[..i], es[i]);
    FilterConcat(Flat(es[..i]), Tables(es[i]), keep);
  }

  lemma NothingFiltered()
    ensures forall keep :: Filter([], keep) == []
  {
  }

  /** `name_count`, one schema. */
  method CountSchema(p: Policy, e: Entry, before: map<string, nat>) returns (counts: map<string, nat>)
    ensures forall k :: Of(counts, k) == Of(before, k) + |Filter(Tables(e), FoldIs(p, k))|
  {
    hide Filter;
    counts := before;
    ghost var ts := Tables(e);
    assert ts[..0] == [];
    NothingFiltered();
    for j := 0 to |e.names|
      invariant forall k :: Of(counts, k) == Of(before, k) + |Filter(ts[..j], FoldIs(p, k))|
    {
      var folded := p.fold(e.names[j]);
      counts := counts[folded := Of(counts, folded) + 1];
      forall k {
        CountStep(ts, j, FoldIs(p, k));
      }
    }
    assert ts[..|e.names|] == ts;
  }

  /** `name_count`. */
  method CountNames(p: Policy, remaining: seq<Entry>) returns (counts: map<string, nat>)
    ensures forall k :: Of(counts, k) == |Filter(Flat(remaining), FoldIs(p, k))|
  {
    counts := map[];
    for i := 0 to |remaining|
      invariant forall k :: Of(counts, k) == |Filter(Flat(remaining[..i]), FoldIs(p, k))|
    {
      hide Filter, Flat, Of;
      counts := CountSchema(p, remaining[i], counts);
      forall k {
        FlatStep(remaining, i, FoldIs(p, k));
      }
    }
    assert remaining[..|remaining|] == remaining;
  }

  function HasTableRule(p: Policy): Table -> bool { (t: Table) => p.TableRule(t).Some? }

  /** The tables of one schema that a table rule leaves out. */
  method LeftOut(p: Policy, e: Entry) returns (staged: seq<Table>)
    ensures staged == Filter(Tables(e), HasTableRule(p))
    ensures e.names != [] && |staged| == |e.names| <==> p.AllLeftOut(e)
  {
    hide Filter, Policy.TableRule;
    staged := [];
    var ts := Tables(e);
    NothingFiltered();
    assert ts[..0] == [];
    for i := 0 to |e.names|
      invariant staged == Filter(ts[..i], HasTableRule(p))
      invariant |staged| <= i
      invariant |staged| == i <==> forall j :: 0 <= j < i ==> p.TableRule(ts[j]).Some?
    {
      FilterStep(ts, i, HasTableRule(p));
      if p.TableRule(ts[i]).Some? { staged := staged + [ts[i]]; }
    }
    assert ts[..|e.names|] == ts;
    assert forall j :: 0 <= j < |e.names| ==> ts[j] == Table(e.schema, e.names[j], []);
  }

  /** One open schema whose every table is left out: counted, not read. */
  method CountAll(p: Policy, staged: seq<Table>, report: SkipReport)
    requires forall t :: t in staged ==> HasTableRule(p)(t)
    modifies report`tables
    ensures forall r :: report.Count(r) == old(report.Count(r)) + |Filter(staged, TableRuleIs(p, r))|
  {
    hide Filter, Policy.TableRule;
    NothingFiltered();
    assert staged[..0] == [];
    for i := 0 to |staged|
      invariant forall r :: report.Count(r) == old(report.Count(r)) + |Filter(staged[..i], TableRuleIs(p, r))|
    {
      assert HasTableRule(p)(staged[i]);
      forall r {
        CountStep(staged, i, TableRuleIs(p, r));
      }
      report.Add(p.TableRule(staged[i]).value, 1);
    }
    assert staged[..|staged|] == staged;
  }

  /** One open schema that is read: its left-out tables with a unique name are excluded by name. */
  method ExcludeUnique(p: Policy, ghost all: seq<Table>, counts: map<string, nat>, staged: seq<Table>, plan: ReadPlan)
    returns (excluded: nat)
    requires forall k :: Of(counts, k) == |Filter(all, FoldIs(p, k))|
    requires forall t :: t in staged ==> HasTableRule(p)(t)
    modifies plan`excludeTables, plan.report`tables
    ensures excluded == |Filter(staged, Unread(p, all))|
    ensures plan.excludeTables == old(plan.excludeTables) + Names(Filter(staged, Unread(p, all)))
    ensures forall r :: plan.report.Count(r) == old(plan.report.Count(r)) + |Filter(staged, UnreadBy(p, all, r))|
  {
    hide Filter, Policy.TableRule;
    excluded := 0;
    NothingFiltered();
    assert staged[..0] == [];
    for i := 0 to |staged|
      invariant excluded == |Filter(staged[..i], Unread(p, all))|
      invariant plan.excludeTables == old(plan.excludeTables) + Names(Filter(staged[..i], Unread(p, all)))
      invariant forall r :: plan.report.Count(r)
                            == old(plan.report.Count(r)) + |Filter(staged[..i], UnreadBy(p, all, r))|
    {
      var t := staged[i];
      assert HasTableRule(p)(t) && Unread(p, all)(t) == (Of(counts, p.fold(t.name)) == 1);
      FilterStep(staged, i, Unread(p, all));
      forall r {
        CountStep(staged, i, UnreadBy(p, all, r));
      }
      if Of(counts, p.fold(t.name)) == 1 {
        plan.excludeTables := plan.excludeTables + [t.name];
        plan.report.Add(p.TableRule(t).value, 1);
        excluded := excluded + 1;
      }
    }
    assert staged[..|staged|] == staged;
  }

  /** What planning has done with the open schemas `done`. */
  ghost predicate Planned(plan: ReadPlan, p: Policy, all: seq<Table>, done: seq<Entry>)
    reads plan
  {
    var read := Select(done, Readable(p));
    && plan.schemas == Schemas(read)
    && plan.excludeTables == Names(Filter(Flat(read), Unread(p, all)))
    && forall e :: e in read ==>
         e.schema in plan.perSchema && plan.perSchema[e.schema] == |Filter(Tables(e), Read(p, all))|
  }

  lemma ReadIsRest(p: Policy, all: seq<Table>, e: Entry)
    ensures |e.names| == |Filter(Tables(e), Read(p, all))| + |Filter(Tables(e), Unread(p, all))|
  {
    var every := (t: Table) => true;
    FilterAll(Tables(e), every);
    FilterSplits(Tables(e), every, Read(p, all), Unread(p, all));
  }

  lemma StagedFilters(p: Policy, all: seq<Table>, e: Entry, rule: Rule)
    ensures var staged := Filter(Tables(e), HasTableRule(p));
            && Filter(staged, Unread(p, all)) == Filter(Tables(e), Unread(p, all))
            && Filter(staged, UnreadBy(p, all, rule)) == Filter(Tables(e), UnreadBy(p, all, rule))
            && Filter(staged, TableRuleIs(p, rule)) == Filter(Tables(e), TableRuleIs(p, rule))
  {
    hide Filter, Unique;
    FilterTwice(Tables(e), HasTableRule(p), Unread(p, all), Unread(p, all));
    FilterTwice(Tables(e), HasTableRule(p), UnreadBy(p, all, rule), UnreadBy(p, all, rule));
    FilterTwice(Tables(e), HasTableRule(p), TableRuleIs(p, rule), TableRuleIs(p, rule));
  }

  lemma PlanStep(p: Policy, all: seq<Table>, es: seq<Entry>, i: nat)
    requires i < |es|
    ensures Select(es[..i + 1], Readable(p))
            == Select(es[..i], Readable(p)) + if Readable(p)(es[i]) then [es[i]] else []
    ensures forall r :: PlanSkips(p, all, es[..i + 1], r)
                        == PlanSkips(p, all, es[..i], r) + PlanSkipsIn(p, all, es[i], r)
  {
    assert es[..i + 1] == es[..i] + [es[i]];
    SelectSnoc(es[..i], es[i], Readable(p));
  }

  lemma NamesConcat(a: seq<Table>, b: seq<Table>)
    ensures Names(a + b) == Names(a) + Names(b)
  {
  }

  lemma PlannedStep(p: Policy, all: seq<Table>, read: seq<Entry>, e: Entry)
    ensures Schemas(read + [e]) == Schemas(read) + [e.schema]
    ensures Names(Filter(Flat(read + [e]), Unread(p, all)))
            == Names(Filter(Flat(read), Unread(p, all))) + Names(Filter(Tables(e), Unread(p, all)))
  {
    hide Flat, Filter, Unread, Tables;
    FlatSnoc(read, e);
    FilterConcat(Flat(read), Tables(e), Unread(p, all));
    NamesConcat(Filter(Flat(read), Unread(p, all)), Filter(Tables(e), Unread(p, all)));
  }

  /** One open schema of the planning loop. */
  method PlanSchema(plan: ReadPlan, p: Policy, remaining: seq<Entry>, i: nat, counts: map<string, nat>,
                    ghost all: seq<Table>)
    requires i < |remaining| && Distinct(remaining) && Planned(plan, p, all, remaining[..i])
    requires forall k :: Of(counts, k) == |Filter(all, FoldIs(p, k))|
    modifies plan, plan.report`tables
    ensures Planned(plan, p, all, remaining[..i + 1])
    ensures forall r :: plan.report.Count(r) == old(plan.report.Count(r)) + PlanSkipsIn(p, all, remaining[i], r)
  {
    hide Filter, Select, Flat, Unique, Policy.AllLeftOut, Policy.TableRule, PlanSkips;
    var e := remaining[i];
    PlanStep(p, all, remaining, i);
    ghost var read := Select(remaining[..i], Readable(p));
    var staged := LeftOut(p, e);
    forall r {
      StagedFilters(p, all, e, r);
    }
    StagedFilters(p, all, e, Staging);
    assert Readable(p)(e) <==> !p.AllLeftOut(e);
    if e.names != [] && |staged| == |e.names| {
      assert read == Select(remaining[..i + 1], Readable(p));
      CountAll(p, staged, plan.report);
    } else {
      PlannedStep(p, all, read, e);
      ReadIsRest(p, all, e);
      var excluded := ExcludeUnique(p, all, counts, staged, plan);
      assert forall e' :: e' in read ==> e'.schema != e.schema;
      plan.perSchema := plan.perSchema[e.schema := |e.names| - excluded];
      plan.schemas := plan.schemas + [e.schema];
    }
  }

  lemma SchemaStep(p: Policy, es: seq<Entry>, i: nat)
    requires i < |es|
    ensures Select(es[..i + 1], Open(p)) == Select(es[..i], Open(p)) + if Open(p)(es[i]) then [es[i]] else []
    ensures Flat(es[..i + 1]) == Flat(es[..i]) + Tables(es[i])
    ensures forall r :: SchemaSkips(p, es[..i + 1], r)
                        == SchemaSkips(p, es[..i], r)
                           + if p.SchemaRule(es[i].schema) == Some(r) then |es[i].names| else 0
  {
    assert es[..i + 1] == es[..i] + [es[i]];
    SelectSnoc(es[..i], es[i], Open(p));
    FlatSnoc(es[..i], es[i]);
  }

  /** The narrowing to `includes` and the schema rules. */
  method OpenSchemas(p: Policy, listing: seq<Entry>) returns (remaining: seq<Entry>, report: SkipReport)
    ensures fresh(report) && remaining == Remaining(p, listing)
    ensures report.found == |Found(p, listing)|
    ensures forall r :: report.Count(r) == SchemaSkips(p, Select(listing, Included(p)), r)
  {
    hide Filter, Policy.SchemaRule, Policy.Includes;
    var selected: seq<Entry> := [];
    for i := 0 to |listing|
      invariant selected == Select(listing[..i], Included(p))
    {
      assert listing[..i + 1] == listing[..i] + [listing[i]];
      SelectSnoc(listing[..i], listing[i], Included(p));
      if p.Includes(listing[i].schema) { selected := selected + [listing[i]]; }
    }
    assert listing[..|listing|] == listing;
    report := new SkipReport(0);
    remaining := [];
    for i := 0 to |selected|
      invariant fresh(report) && report.found == |Flat(selected[..i])| && remaining == Select(selected[..i], Open(p))
      invariant forall r :: report.Count(r) == SchemaSkips(p, selected[..i], r)
    {
      hide Flat, Select, SchemaSkips;
      SchemaStep(p, selected, i);
      var e := selected[i];
      report.found := report.found + |e.names|;
      if p.SchemaRule(e.schema).None? {
        remaining := remaining + [e];
      } else {
        report.Add(p.SchemaRule(e.schema).value, |e.names|);
      }
    }
    assert selected[..|selected|] == selected;
  }

  lemma NothingPlanned(p: Policy, all: seq<Table>)
    ensures Select([], Readable(p)) == [] && Flat([]) == [] && Filter([], Unread(p, all)) == []
    ensures forall r :: PlanSkips(p, all, [], r) == 0
  {
  }

  lemma RemainingDistinct(p: Policy, listing: seq<Entry>)
    requires Distinct(listing)
    ensures Distinct(Remaining(p, listing)) && Distinct(ToRead(p, listing))
    ensures forall e :: e in ToRead(p, listing) ==> e in listing && Open(p)(e)
  {
    SelectDistinct(listing, Included(p));
    SelectDistinct(Select(listing, Included(p)), Open(p));
    SelectDistinct(Remaining(p, listing), Readable(p));
  }

  lemma PlannedSchemas(p: Policy, listing: seq<Entry>, schemas: seq<string>)
    requires schemas == Schemas(ToRead(p, listing))
    ensures forall name :: name in schemas <==> exists e :: e in listing && e.schema == name && IsToRead(p, e)
  {
    hide ToRead, IsToRead;
    var read := ToRead(p, listing);
    forall e {
      ToReadIs(p, listing, e);
    }
    forall name ensures name in schemas <==> exists e :: e in read && e.schema == name {
      if name in schemas {
        var i :| 0 <= i < |read| && schemas[i] == name;
        assert read[i] in read;
      }
      if e :| e in read && e.schema == name {
        var i :| 0 <= i < |read| && read[i] == e;
        assert schemas[i] == name;
      }
    }
  }

  /** `_plan_reading`. */
  method PlanReading(p: Policy, listing: seq<Entry>) returns (plan: ReadPlan)
    requires Distinct(listing)
    ensures fresh(plan) && fresh(plan.report)
    ensures forall name :: name in plan.schemas <==> exists e :: e in listing && e.schema == name && IsToRead(p, e)
    ensures Planned(plan, p, Flat(Remaining(p, listing)), Remaining(p, listing))
    ensures plan.report.found == |Found(p, listing)|
    ensures forall r :: plan.report.Count(r)
                        == SchemaSkips(p, Select(listing, Included(p)), r)
                           + PlanSkips(p, Flat(Remaining(p, listing)), Remaining(p, listing), r)
  {
    hide Filter, Flat, SchemaSkips, Remaining;
    var remaining, report := OpenSchemas(p, listing);
    RemainingDistinct(p, listing);
    ghost var all := Flat(remaining);
    var counts := CountNames(p, remaining);
    plan := new ReadPlan(report);
    NothingPlanned(p, all);
    for i := 0 to |remaining|
      invariant fresh(plan) && plan.report == report && fresh(report) && report.found == |Found(p, listing)|
      invariant Planned(plan, p, all, remaining[..i])
      invariant forall r :: report.Count(r)
                            == SchemaSkips(p, Select(listing, Included(p)), r) + PlanSkips(p, all, remaining[..i], r)
    {
      hide Planned, PlanSkips, Select;
      PlanStep(p, all, remaining, i);
      PlanSchema(plan, p, remaining, i, counts, all);
    }
    assert remaining[..|remaining|] == remaining;
    PlannedSchemas(p, listing, plan.schemas);
  }

  // ---- inspection -------------------------------------------------------------------------------------

  function LinksOf(ts: seq<Table>, links: Table -> seq<Link>): seq<Link> {
    if ts == [] then [] else LinksOf(ts[..|ts| - 1], links) + links(ts[|ts| - 1])
  }

  /** The schemas the inspector itself still leaves out. */
  function NotOut(p: Policy, out: string -> bool): Entry -> bool { (e: Entry) => !out(p.lower(e.schema)) }

  /** The entries an include list stands for: an empty one means every schema. */
  ghost predicate Stands(listing: seq<Entry>, schemas: seq<string>, entries: seq<Entry>) {
    if schemas == [] then entries == listing
    else Schemas(entries) == schemas && forall e :: e in entries ==> e in listing
  }

  method NamesIn(listing: seq<Entry>, schema: string) returns (names: seq<string>)
    ensures forall e :: e in listing && e.schema == schema && Distinct(listing) ==> names == e.names
  {
    names := [];
    for i := 0 to |listing|
      invariant forall e :: e in listing[..i] ==> e.schema != schema
    {
      if listing[i].schema == schema { return listing[i].names; }
      assert listing[..i + 1] == listing[..i] + [listing[i]];
    }
    assert listing[..|listing|] == listing;
  }

  method InspectSchema(schema: string, names: seq<string>, exclude: seq<string>, ghost e: Entry)
    returns (found: seq<Table>)
    requires e == Entry(schema, names)
    ensures found == Filter(Tables(e), NotNamed(exclude))
  {
    hide Filter;
    found := [];
    ghost var ts := Tables(e);
    NothingFiltered();
    assert ts[..0] == [];
    for i := 0 to |names|
      invariant found == Filter(ts[..i], NotNamed(exclude))
    {
      FilterStep(ts, i, NotNamed(exclude));
      if names[i] in exclude { continue; }
      found := found + [Table(schema, names[i], [])];
    }
    assert ts[..|names|] == ts;
  }

  lemma InspectStep(p: Policy, es: seq<Entry>, i: nat, keep: Entry -> bool, f: Table -> bool)
    requires i < |es|
    ensures Filter(Flat(Select(es[..i + 1], keep)), f)
            == Filter(Flat(Select(es[..i], keep)), f) + if keep(es[i]) then Filter(Tables(es[i]), f) else []
  {
    assert es[..i + 1] == es[..i] + [es[i]];
    SelectSnoc(es[..i], es[i], keep);
    if keep(es[i]) {
      FlatSnoc(Select(es[..i], keep), es[i]);
      FilterConcat(Flat(Select(es[..i], keep)), Tables(es[i]), f);
    }
  }

  lemma NothingSelected(p: Policy, out: string -> bool, exclude: seq<string>)
    ensures Filter(Flat(Select([], NotOut(p, out))), NotNamed(exclude)) == []
  {
  }

  /** `SchemaInspector.inspect`: every table of the schemas asked for but those whose bare name is
      excluded, then the foreign keys of the tables read. */
  method Inspect(p: Policy, listing: seq<Entry>, links: Table -> seq<Link>, schemas: seq<string>, exclude: seq<string>,
                 out: string -> bool, ghost entries: seq<Entry>) returns (snapshot: Snapshot)
    requires Distinct(listing) && Stands(listing, schemas, entries)
    ensures fresh(snapshot)
    ensures snapshot.tables == Filter(Flat(Select(entries, NotOut(p, out))), NotNamed(exclude))
    ensures snapshot.relationships == LinksOf(snapshot.tables, links)
  {
    hide Filter, Select, Flat;
    snapshot := new Snapshot();
    NothingSelected(p, out, exclude);
    var targets := schemas;
    if schemas == [] { targets := Schemas(listing); }
    for i := 0 to |targets|
      invariant fresh(snapshot) && snapshot.relationships == []
      invariant snapshot.tables == Filter(Flat(Select(entries[..i], NotOut(p, out))), NotNamed(exclude))
    {
      ghost var read := Select(entries[..i], NotOut(p, out));
      assert entries[i] in listing;
      InspectStep(p, entries, i, NotOut(p, out), NotNamed(exclude));
      if !out(p.lower(targets[i])) {
        var names := NamesIn(listing, targets[i]);
        var found := InspectSchema(targets[i], names, exclude, entries[i]);
        snapshot.tables := snapshot.tables + found;
      }
    }
    assert entries[..|targets|] == entries && snapshot.tables[..0] == [];
    for i := 0 to |snapshot.tables|
      invariant fresh(snapshot) && snapshot.tables == Filter(Flat(Select(entries, NotOut(p, out))), NotNamed(exclude))
      invariant snapshot.relationships == LinksOf(snapshot.tables[..i], links)
    {
      assert snapshot.tables[..i + 1][..i] == snapshot.tables[..i];
      snapshot.relationships := snapshot.relationships + links(snapshot.tables[i]);
    }
    assert snapshot.tables[..|snapshot.tables|] == snapshot.tables;
  }

  // ---- the later drop -----------------------------------------------------------------------------------

  function OrEmpty(s: Option<string>): string { if s.Some? then s.value else "" }

  /** The identities of a link's two ends. */
  function FromEnd(p: Policy, l: Link): (string, string) { (p.lower(OrEmpty(l.fromSchema)), p.lower(l.fromTable)) }

  function ToEnd(p: Policy, l: Link): (string, string) {
    (p.lower(OrEmpty(if OrEmpty(l.toSchema) == "" then l.fromSchema else l.toSchema)), p.lower(l.toTable))
  }

  function Untouched(p: Policy, drop: set<(string, string)>): Link -> bool {
    (l: Link) => FromEnd(p, l) !in drop && ToEnd(p, l) !in drop
  }

  function KeepLinks(ls: seq<Link>, keep: Link -> bool): seq<Link> {
    if ls == [] then []
    else KeepLinks(ls[..|ls| - 1], keep) + if keep(ls[|ls| - 1]) then [ls[|ls| - 1]] else []
  }

  function NotIn(p: Policy, drop: set<(string, string)>): Table -> bool { (t: Table) => p.Identity(t) !in drop }

  lemma {:induction false} KeepAll(ls: seq<Link>, keep: Link -> bool)
    requires forall l :: l in ls ==> keep(l)
    ensures KeepLinks(ls, keep) == ls
  {
    if ls != [] {
      var init, last := ls[..|ls| - 1], ls[|ls| - 1];
      assert ls == init + [last];
      KeepAll(init, keep);
    }
  }

  /** `_drop_tables`. */
  method DropTables(snapshot: Snapshot, p: Policy, drop: set<(string, string)>)
    modifies snapshot
    ensures snapshot.tables == Filter(old(snapshot.tables), NotIn(p, drop))
    ensures snapshot.relationships == KeepLinks(old(snapshot.relationships), Untouched(p, drop))
  {
    if drop == {} {
      FilterAll(snapshot.tables, NotIn(p, drop));
      KeepAll(snapshot.relationships, Untouched(p, drop));
      return;
    }
    ghost var ts := snapshot.tables;
    var kept: seq<Table> := [];
    for i := 0 to |snapshot.tables|
      invariant snapshot.tables == ts && snapshot.relationships == old(snapshot.relationships)
      invariant kept == Filter(ts[..i], NotIn(p, drop))
    {
      FilterStep(ts, i, NotIn(p, drop));
      if p.Identity(snapshot.tables[i]) !in drop { kept := kept + [snapshot.tables[i]]; }
    }
    assert ts[..|ts|] == ts;
    snapshot.tables := kept;
    var links, rels: seq<Link> := snapshot.relationships, [];
    for i := 0 to |links|
      invariant snapshot.tables == kept && rels == KeepLinks(links[..i], Untouched(p, drop))
    {
      assert links[..i + 1][..i] == links[..i];
      if FromEnd(p, links[i]) !in drop && ToEnd(p, links[i]) !in drop { rels := rels + [links[i]]; }
    }
    assert links[..|links|] == links;
    snapshot.relationships := rels;
  }

  /** The rule `_skip_tables` drops a table by: a schema pattern of its own, then the table rules. */
  function SkipRule(p: Policy, patterns: string -> bool, chosen: bool, t: Table): Option<Rule> {
    if patterns(p.lower(t.schema)) then Some(if chosen then Chosen else Cli) else p.TableRule(t)
  }

  function SkipRuleNone(p: Policy, patterns: string -> bool, chosen: bool): Table -> bool {
    (t: Table) => SkipRule(p, patterns, chosen, t).None?
  }

  function SkipRuleIs(p: Policy, patterns: string -> bool, chosen: bool, rule: Rule): Table -> bool {
    (t: Table) => SkipRule(p, patterns, chosen, t) == Some(rule)
  }

  /** The identities `_skip_tables` drops. */
  function Dropped(p: Policy, patterns: string -> bool, chosen: bool, ts: seq<Table>): set<(string, string)> {
    set t | t in ts && SkipRule(p, patterns, chosen, t).Some? :: p.Identity(t)
  }

  /** Dropping by identity drops exactly the tables a rule matched: the rules see only identities. */
  lemma {:induction false} DropIsFilter(p: Policy, patterns: string -> bool, chosen: bool, ts: seq<Table>)
    ensures Filter(ts, NotIn(p, Dropped(p, patterns, chosen, ts))) == Filter(ts, SkipRuleNone(p, patterns, chosen))
  {
    var drop := Dropped(p, patterns, chosen, ts);
    forall t | t in ts ensures NotIn(p, drop)(t) == SkipRuleNone(p, patterns, chosen)(t) {
      if p.Identity(t) in drop {
        var t' :| t' in ts && SkipRule(p, patterns, chosen, t').Some? && p.Identity(t') == p.Identity(t);
      }
    }
    FilterAgrees(ts, NotIn(p, drop), SkipRuleNone(p, patterns, chosen));
  }

  /** Tables of a schema that matches are counted under the operator's choice or the command line, as the
      patterns are; all others as their own rules say. */
  lemma SkipsCountOnce(p: Policy, patterns: string -> bool, chosen: bool, t: Table)
    ensures patterns(p.lower(t.schema)) && chosen ==> SkipRuleIs(p, patterns, chosen, Chosen)(t)
    ensures patterns(p.lower(t.schema)) && !chosen ==> SkipRuleIs(p, patterns, chosen, Cli)(t)
    ensures !patterns(p.lower(t.schema)) ==>
              && (SkipRuleIs(p, patterns, chosen, ConfiguredTables)(t) <==> Matches(p, ConfiguredTables, t))
              && (SkipRuleIs(p, patterns, chosen, Staging)(t)
                  <==> Matches(p, Staging, t) && !Matches(p, ConfiguredTables, t))
              && (SkipRuleNone(p, patterns, chosen)(t)
                  <==> !Matches(p, ConfiguredTables, t) && !Matches(p, Staging, t))
  {
  }

  /** `_skip_tables`. */
  method SkipTables(snapshot: Snapshot, p: Policy, patterns: string -> bool, chosen: bool, report: SkipReport)
    modifies snapshot, report`tables
    ensures snapshot.tables == Filter(old(snapshot.tables), SkipRuleNone(p, patterns, chosen))
    ensures snapshot.relationships
            == KeepLinks(old(snapshot.relationships), Untouched(p, Dropped(p, patterns, chosen, old(snapshot.tables))))
    ensures forall r :: report.Count(r)
                        == old(report.Count(r)) + |Filter(old(snapshot.tables), SkipRuleIs(p, patterns, chosen, r))|
  {
    hide Filter, SkipRule;
    var ts, dropped := snapshot.tables, {};
    NothingFiltered();
    assert ts[..0] == [];
    for i := 0 to |ts|
      invariant snapshot.tables == ts && snapshot.relationships == old(snapshot.relationships)
      invariant dropped == Dropped(p, patterns, chosen, ts[..i])
      invariant forall r :: report.Count(r)
                            == old(report.Count(r)) + |Filter(ts[..i], SkipRuleIs(p, patterns, chosen, r))|
    {
      forall r {
        CountStep(ts, i, SkipRuleIs(p, patterns, chosen, r));
      }
      assert ts[..i + 1] == ts[..i] + [ts[i]];
      var rule := SkipRule(p, patterns, chosen, ts[i]);
      if rule.Some? {
        report.Add(rule.value, 1);
        dropped := dropped + {p.Identity(ts[i])};
      }
    }
    assert ts[..|ts|] == ts;
    DropIsFilter(p, patterns, chosen, ts);
    DropTables(snapshot, p, dropped);
  }

  // ---- step 2 as a whole ----------------------------------------------------------------------------------

  /** The foreign keys of a table start at that table. */
  ghost predicate OwnLinks(links: Table -> seq<Link>) {
    forall t, l :: l in links(t) ==> l.fromSchema == Some(t.schema) && l.fromTable == t.name
  }

  lemma {:induction false} KeepConcat(a: seq<Link>, b: seq<Link>, keep: Link -> bool)
    ensures KeepLinks(a + b, keep) == KeepLinks(a, keep) + KeepLinks(b, keep)
  {
    if b == [] {
      assert a + b == a;
    } else {
      var b' := b[..|b| - 1];
      assert a + b == (a + b') + [b[|b| - 1]] && ((a + b') + [b[|b| - 1]])[..|a + b'|] == a + b';
      KeepConcat(a, b', keep);
    }
  }

  lemma {:induction false} KeepNone(ls: seq<Link>, keep: Link -> bool)
    requires forall l :: l in ls ==> !keep(l)
    ensures KeepLinks(ls, keep) == []
  {
    if ls != [] {
      KeepNone(ls[..|ls| - 1], keep);
    }
  }

  lemma LinksSnoc(ts: seq<Table>, t: Table, links: Table -> seq<Link>)
    ensures LinksOf(ts + [t], links) == LinksOf(ts, links) + links(t)
  {
    assert (ts + [t])[..|ts|] == ts;
  }

  /** The relationships left are those of the tables left, without the ones that point at a dropped table. */
  lemma {:induction false} LinksOfKept(p: Policy, ts: seq<Table>, links: Table -> seq<Link>,
                                       drop: set<(string, string)>)
    requires OwnLinks(links)
    ensures KeepLinks(LinksOf(ts, links), Untouched(p, drop))
            == KeepLinks(LinksOf(Filter(ts, NotIn(p, drop)), links), Untouched(p, drop))
  {
    if ts != [] {
      var init, t, keep := ts[..|ts| - 1], ts[|ts| - 1], Untouched(p, drop);
      LinksOfKept(p, init, links, drop);
      KeepConcat(LinksOf(init, links), links(t), keep);
      if NotIn(p, drop)(t) {
        LinksSnoc(Filter(init, NotIn(p, drop)), t, links);
        KeepConcat(LinksOf(Filter(init, NotIn(p, drop)), links), links(t), keep);
      } else {
        KeepNone(links(t), keep);
      }
    }
  }

  lemma {:induction false} SelectAll(es: seq<Entry>, keep: Entry -> bool)
    requires forall e :: e in es ==> keep(e)
    ensures Select(es, keep) == es
  {
    if es != [] {
      SelectAll(es[..|es| - 1], keep);
    }
  }

  /** No pattern of the inspector's own: `_skip_tables` is called with an empty list. */
  function NoPattern(): string -> bool { (s: string) => false }

  /** The patterns handed on to the inspector: the same schema rules once more. */
  function SchemaPatterns(p: Policy): string -> bool {
    (s: string) => p.system(s) || p.configured(s) || p.cli(s) || p.chosen(s)
  }

  /** The tables read although a rule removes them. */
  function DroppedLater(p: Policy, listing: seq<Entry>): set<(string, string)> {
    Dropped(p, NoPattern(), false, Filter(Flat(ToRead(p, listing)), Read(p, Flat(Remaining(p, listing)))))
  }

  /** A target without a schema is in that of its source. */
  function TargetSchema(l: Link): string {
    if l.toSchema.Some? && l.toSchema.value != "" then l.toSchema.value
    else if l.fromSchema.Some? then l.fromSchema.value
    else ""
  }

  /** The relationship ends at the table. */
  predicate PointsAt(p: Policy, l: Link, t: Table) {
    p.lower(TargetSchema(l)) == p.lower(t.schema) && p.lower(l.toTable) == p.lower(t.name)
  }

  /** The table is read although a table rule removes it: its bare name is not its own. */
  predicate ReadInVain(p: Policy, listing: seq<Entry>, t: Table) {
    && t in Flat(ToRead(p, listing)) && (Matches(p, ConfiguredTables, t) || Matches(p, Staging, t))
    && !Unique(p, Flat(Remaining(p, listing)), t.name)
  }

  lemma DroppedLaterIs(p: Policy, listing: seq<Entry>, id: (string, string))
    ensures id in DroppedLater(p, listing)
            <==> exists t :: ReadInVain(p, listing, t) && (p.lower(t.schema), p.lower(t.name)) == id
  {
    hide Flat, ToRead, Remaining, Unique;
    var ts := Filter(Flat(ToRead(p, listing)), Read(p, Flat(Remaining(p, listing))));
    forall t ensures ReadInVain(p, listing, t) <==> t in ts && SkipRule(p, NoPattern(), false, t).Some? {
    }
  }

  lemma {:induction false} KeptLink(ls: seq<Link>, keep: Link -> bool, l: Link)
    ensures l in KeepLinks(ls, keep) <==> l in ls && keep(l)
  {
    if ls != [] {
      KeptLink(ls[..|ls| - 1], keep, l);
      assert ls == ls[..|ls| - 1] + [ls[|ls| - 1]];
    }
  }

  lemma {:induction false} LinkOf(ts: seq<Table>, links: Table -> seq<Link>, l: Link)
    ensures l in LinksOf(ts, links) <==> exists t :: t in ts && l in links(t)
  {
    if ts != [] {
      LinkOf(ts[..|ts| - 1], links, l);
      assert ts == ts[..|ts| - 1] + [ts[|ts| - 1]];
    }
  }

  /** A table that is kept has not the identity of one read in vain. */
  lemma KeptIsNotVain(p: Policy, listing: seq<Entry>, t: Table)
    requires forall r: Rule :: !Matches(p, r, t)
    ensures p.Identity(t) !in DroppedLater(p, listing)
  {
    hide Flat, ToRead, Remaining, Unique, DroppedLater;
    DroppedLaterIs(p, listing, p.Identity(t));
    assert !Matches(p, ConfiguredTables, t) && !Matches(p, Staging, t);
  }

  /** The relationships of a source are those of the tables kept that do not end at a table read in vain. */
  lemma LinksLeft(p: Policy, listing: seq<Entry>, kept: seq<Table>, links: Table -> seq<Link>, l: Link)
    requires OwnLinks(links) && forall t :: t in kept ==> forall r: Rule :: !Matches(p, r, t)
    ensures l in KeepLinks(LinksOf(kept, links), Untouched(p, DroppedLater(p, listing)))
            <==> && (exists t :: t in kept && l in links(t))
                 && !exists t :: ReadInVain(p, listing, t) && PointsAt(p, l, t)
  {
    hide ReadInVain, DroppedLater, LinksOf, KeepLinks, Matches;
    KeptLink(LinksOf(kept, links), Untouched(p, DroppedLater(p, listing)), l);
    LinkOf(kept, links, l);
    DroppedLaterIs(p, listing, ToEnd(p, l));
    if t :| t in kept && l in links(t) {
      KeptIsNotVain(p, listing, t);
      assert FromEnd(p, l) == p.Identity(t);
    }
    forall t ensures PointsAt(p, l, t) <==> (p.lower(t.schema), p.lower(t.name)) == ToEnd(p, l) {
    }
  }

  lemma TablesAndLinksLeft(p: Policy, listing: seq<Entry>, kept: seq<Table>, links: Table -> seq<Link>, ls: seq<Link>)
    requires OwnLinks(links) && kept == Filter(Found(p, listing), Unskipped(p))
    requires ls == KeepLinks(LinksOf(kept, links), Untouched(p, DroppedLater(p, listing)))
    ensures forall t :: t in kept <==> IsKept(p, listing, t)
    ensures forall l :: l in ls
              <==> && (exists t :: t in kept && l in links(t))
                   && !exists t :: ReadInVain(p, listing, t) && PointsAt(p, l, t)
  {
    hide Filter, Found, Listed, Matches, ReadInVain, PointsAt, KeepLinks, LinksOf, DroppedLater, OwnLinks;
    forall t {
      KeptIs(p, listing, t);
    }
    forall l {
      LinksLeft(p, listing, kept, links, l);
    }
  }

  lemma SkipRuleIsTableRule(p: Policy, ts: seq<Table>)
    ensures Filter(ts, SkipRuleNone(p, NoPattern(), false)) == Filter(ts, NoTableRule(p))
    ensures forall r :: Filter(ts, SkipRuleIs(p, NoPattern(), false, r)) == Filter(ts, TableRuleIs(p, r))
  {
    FilterAgrees(ts, SkipRuleNone(p, NoPattern(), false), NoTableRule(p));
    forall r {
      FilterAgrees(ts, SkipRuleIs(p, NoPattern(), false, r), TableRuleIs(p, r));
    }
  }

  /** What the inspection of a plan reads. */
  lemma PlanIsRead(p: Policy, listing: seq<Entry>, plan: ReadPlan, all: seq<Table>)
    requires Distinct(listing) && all == Flat(Remaining(p, listing)) && Planned(plan, p, all, Remaining(p, listing))
    ensures var read := ToRead(p, listing);
            && plan.schemas == Schemas(read) && (read != [] ==> Stands(listing, plan.schemas, read))
            && Filter(Flat(Select(read, NotOut(p, SchemaPatterns(p)))), NotNamed(plan.excludeTables))
               == Filter(Flat(read), Read(p, all))
  {
    hide Filter;
    var read := ToRead(p, listing);
    RemainingDistinct(p, listing);
    SelectAll(read, NotOut(p, SchemaPatterns(p)));
    forall t | t in Flat(read) ensures t in all {
      FlatMembers(read, t);
      FlatMembers(Remaining(p, listing), t);
    }
    ExcludedNamesAreExact(p, all, Flat(read));
  }

  lemma NothingRead(p: Policy, all: seq<Table>, links: Table -> seq<Link>)
    ensures Flat([]) == [] && LinksOf([], links) == [] && forall f :: Filter([], f) == []
  {
  }

  /** Step 2 for one source: plan, inspect what the plan names, drop the rest. */
  method Discover(p: Policy, listing: seq<Entry>, links: Table -> seq<Link>)
    returns (snapshot: Snapshot, report: SkipReport)
    requires Distinct(listing) && OwnLinks(links)
    ensures fresh(snapshot) && fresh(report)
    ensures snapshot.tables == Filter(Found(p, listing), Unskipped(p))
    ensures forall t :: t in snapshot.tables <==> IsKept(p, listing, t)
    ensures report.found == |Found(p, listing)|
    ensures forall r :: report.Count(r) == SkipCount(p, Found(p, listing), r)
    ensures snapshot.relationships == KeepLinks(LinksOf(snapshot.tables, links), Untouched(p, DroppedLater(p, listing)))
    ensures forall l :: l in snapshot.relationships
              <==> && (exists t :: t in snapshot.tables && l in links(t))
                   && !exists t :: ReadInVain(p, listing, t) && PointsAt(p, l, t)
  {
    hide Filter, Flat, Select, Planned, LinksOf, SchemaSkips, PlanSkips, Dropped, Remaining, ToRead, Found, Stands,
      IsKept, ReadInVain, PointsAt;
    ghost var all := Flat(Remaining(p, listing));
    ghost var read := ToRead(p, listing);
    ghost var inspected := Filter(Flat(read), Read(p, all));
    var plan := PlanReading(p, listing);
    report := plan.report;
    PlanIsRead(p, listing, plan, all);
    forall r {
      TwoPhasesCount(p, listing, all, r);
    }
    TwoPhasesKeep(p, listing, all);
    SkipRuleIsTableRule(p, inspected);
    DropIsFilter(p, NoPattern(), false, inspected);
    LinksOfKept(p, inspected, links, DroppedLater(p, listing));
    if plan.schemas == [] {
      snapshot := new Snapshot();
      NothingRead(p, all, links);
    } else {
      snapshot := Inspect(p, listing, links, plan.schemas, plan.excludeTables, SchemaPatterns(p), read);
      SkipTables(snapshot, p, NoPattern(), false, report);
    }
    TablesAndLinksLeft(p, listing, snapshot.tables, links, snapshot.relationships);
  }

}
