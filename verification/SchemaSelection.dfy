/** Which tables the setup wizard's step 2 is to keep: the skip rules of `setup_project.py` and
    `database/schema_filter.py` as one filter, and the parts a two-phase reading splits it into. */
module SchemaSelection {
  import opened Options

  /** In the order in which a table is counted under the first that matches. */
  datatype Rule = System | Configured | Cli | Chosen | ConfiguredTables | Staging

  /** A table; the data sources it is in are set when several snapshots become one. */
  datatype Table = Table(schema: string, name: string, datasources: seq<string>)

  /** One schema of the listing. */
  datatype Entry = Entry(schema: string, names: seq<string>)

  /** The rules of one run. All patterns are compared with lower-cased names; `includes` with
      case-folded ones, and an empty `includes` means every schema. */
  datatype Policy = Policy(lower: string -> string, fold: string -> string, includes: seq<string>,
                           system: string -> bool, configured: string -> bool, cli: string -> bool,
                           chosen: string -> bool, tables: (string, string) -> bool,
                           staging: (string, string) -> bool) {

    /** `SchemaExclusion.reason`, then the operator's choice. */
    function SchemaRule(schema: string): Option<Rule> {
      var s := lower(schema);
      if system(s) then Some(System)
      else if configured(s) then Some(Configured)
      else if cli(s) then Some(Cli)
      else if chosen(s) then Some(Chosen)
      else None
    }

    function TableRule(t: Table): Option<Rule> {
      var (s, n) := Identity(t);
      if tables(s, n) then Some(ConfiguredTables)
      else if staging(s, n) then Some(Staging)
      else None
    }

    /** The first rule that removes a listed table. */
    function FirstRule(t: Table): Option<Rule> {
      if SchemaRule(t.schema).Some? then SchemaRule(t.schema) else TableRule(t)
    }

    /** `_identity`: what makes two tables the same table. */
    function Identity(t: Table): (string, string) { (lower(t.schema), lower(t.name)) }

    predicate Includes(schema: string) {
      includes == [] || exists i :: 0 <= i < |includes| && fold(includes[i]) == fold(schema)
    }

    /** Every table of the schema is left out by a table rule. */
    predicate AllLeftOut(e: Entry) {
      e.names != [] && forall i :: 0 <= i < |e.names| ==> TableRule(Table(e.schema, e.names[i], [])).Some?
    }
  }

  /** Whether a rule, taken alone, matches a listed table. */
  predicate Matches(p: Policy, rule: Rule, t: Table) {
    var schema, name := p.lower(t.schema), p.lower(t.name);
    match rule
    case System => p.system(schema)
    case Configured => p.configured(schema)
    case Cli => p.cli(schema)
    case Chosen => p.chosen(schema)
    case ConfiguredTables => p.tables(schema, name)
    case Staging => p.staging(schema, name)
  }

  const RULES: seq<Rule> := [System, Configured, Cli, Chosen, ConfiguredTables, Staging]

  /** A table is kept exactly if no rule matches it, and skipped under a rule exactly if that is the
      first of the matching ones. */
  lemma FirstRuleIsFirstMatch(p: Policy, t: Table)
    ensures p.FirstRule(t).None? <==> forall r: Rule :: !Matches(p, r, t)
    ensures forall i :: 0 <= i < |RULES| ==>
              (p.FirstRule(t) == Some(RULES[i])
               <==> Matches(p, RULES[i], t) && forall j :: 0 <= j < i ==> !Matches(p, RULES[j], t))
  {
    forall r: Rule | p.FirstRule(t).None? ensures !Matches(p, r, t) {
    }
    assert p.FirstRule(t).Some? ==> Matches(p, p.FirstRule(t).value, t);
    assert RULES[0] == System && RULES[1] == Configured && RULES[2] == Cli && RULES[3] == Chosen;
    assert RULES[4] == ConfiguredTables && RULES[5] == Staging;
  }

  // ---- sequences of tables and schemas

  function Filter(ts: seq<Table>, keep: Table -> bool): (r: seq<Table>)
    ensures forall t :: t in r <==> t in ts && keep(t)
  {
    if ts == [] then []
    else
      var rest := Filter(ts[..|ts| - 1], keep);
      assert ts == ts[..|ts| - 1] + [ts[|ts| - 1]];
      if keep(ts[|ts| - 1]) then rest + [ts[|ts| - 1]] else rest
  }

  function Select(es: seq<Entry>, keep: Entry -> bool): (r: seq<Entry>)
    ensures forall e :: e in r <==> e in es && keep(e)
  {
    if es == [] then []
    else
      var rest := Select(es[..|es| - 1], keep);
      assert es == es[..|es| - 1] + [es[|es| - 1]];
      if keep(es[|es| - 1]) then rest + [es[|es| - 1]] else rest
  }

  function Tables(e: Entry): seq<Table> {
    seq(|e.names|, i requires 0 <= i < |e.names| => Table(e.schema, e.names[i], []))
  }

  function Flat(es: seq<Entry>): seq<Table> {
    if es == [] then [] else Flat(es[..|es| - 1]) + Tables(es[|es| - 1])
  }

  /** The counting loops take one table or one schema at a time. */
  lemma FilterSnoc(ts: seq<Table>, t: Table, keep: Table -> bool)
    ensures Filter(ts + [t], keep) == Filter(ts, keep) + if keep(t) then [t] else []
  {
    assert (ts + [t])[..|ts|] == ts;
  }

  /** One step of a loop over `ts`. */
  lemma FilterStep(ts: seq<Table>, i: nat, keep: Table -> bool)
    requires i < |ts|
    ensures Filter(ts[..i + 1], keep) == Filter(ts[..i], keep) + if keep(ts[i]) then [ts[i]] else []
  {
    hide Filter;
    assert ts[..i + 1] == ts[..i] + [ts[i]];
    FilterSnoc(ts[..i], ts[i], keep);
  }

  lemma {:induction false} FilterConcat(a: seq<Table>, b: seq<Table>, keep: Table -> bool)
    ensures Filter(a + b, keep) == Filter(a, keep) + Filter(b, keep)
  {
    if b == [] {
      assert a + b == a;
    } else {
      var b' := b[..|b| - 1];
      assert a + b == (a + b') + [b[|b| - 1]] && b == b' + [b[|b| - 1]];
      FilterConcat(a, b', keep);
      FilterSnoc(a + b', b[|b| - 1], keep);
    }
  }

  lemma {:induction false} FilterAgrees(ts: seq<Table>, f: Table -> bool, g: Table -> bool)
    requires forall t :: t in ts ==> f(t) == g(t)
    ensures Filter(ts, f) == Filter(ts, g)
  {
    if ts != [] {
      FilterAgrees(ts[..|ts| - 1], f, g);
    }
  }

  lemma {:induction false} FilterTwice(ts: seq<Table>, f: Table -> bool, g: Table -> bool, both: Table -> bool)
    requires forall t :: t in ts ==> both(t) == (f(t) && g(t))
    ensures Filter(Filter(ts, f), g) == Filter(ts, both)
  {
    if ts != [] {
      var t, rest := ts[|ts| - 1], Filter(ts[..|ts| - 1], f);
      FilterTwice(ts[..|ts| - 1], f, g, both);
      if f(t) { FilterSnoc(rest, t, g); }
    }
  }

  lemma {:induction false} FilterSplits(ts: seq<Table>, whole: Table -> bool, f: Table -> bool, g: Table -> bool)
    requires forall t :: t in ts ==> whole(t) == (f(t) || g(t)) && !(f(t) && g(t))
    ensures |Filter(ts, whole)| == |Filter(ts, f)| + |Filter(ts, g)|
  {
    if ts != [] {
      FilterSplits(ts[..|ts| - 1], whole, f, g);
    }
  }

  lemma {:induction false} FilterNone(ts: seq<Table>, f: Table -> bool)
    requires forall t :: t in ts ==> !f(t)
    ensures Filter(ts, f) == []
  {
    if ts != [] {
      FilterNone(ts[..|ts| - 1], f);
    }
  }

  lemma {:induction false} FilterAll(ts: seq<Table>, f: Table -> bool)
    requires forall t :: t in ts ==> f(t)
    ensures Filter(ts, f) == ts
  {
    if ts != [] {
      FilterAll(ts[..|ts| - 1], f);
    }
  }

  // ---- the specification: one filter

  /** The schemas within `includes`. */
  function Included(p: Policy): Entry -> bool { (e: Entry) => p.Includes(e.schema) }

  /** The tables the listing returned within `includes`. */
  function Found(p: Policy, listing: seq<Entry>): seq<Table> { Flat(Select(listing, Included(p))) }

  function Unskipped(p: Policy): Table -> bool { (t: Table) => p.FirstRule(t).None? }

  function SkippedBy(p: Policy, rule: Rule): Table -> bool { (t: Table) => p.FirstRule(t) == Some(rule) }

  function SkipCount(p: Policy, ts: seq<Table>, rule: Rule): nat { |Filter(ts, SkippedBy(p, rule))| }

  /** The listing has the table. */
  predicate Listed(listing: seq<Entry>, t: Table) {
    t.datasources == [] && exists e :: e in listing && e.schema == t.schema && t.name in e.names
  }

  lemma {:induction false} FlatMembers(es: seq<Entry>, t: Table)
    ensures t in Flat(es) <==> exists e :: e in es && t in Tables(e)
  {
    if es != [] {
      FlatMembers(es[..|es| - 1], t);
      assert es == es[..|es| - 1] + [es[|es| - 1]];
    }
  }

  lemma ListedInFlat(es: seq<Entry>, t: Table)
    ensures t in Flat(es) <==> Listed(es, t)
  {
    FlatMembers(es, t);
    if Listed(es, t) {
      var e :| e in es && e.schema == t.schema && t.name in e.names;
      var i :| 0 <= i < |e.names| && e.names[i] == t.name;
      assert Tables(e)[i] == t;
    }
  }

  /** The tables found are the listed ones of the schemas asked for: all, or those whose name folds like
      one of the list. */
  lemma FoundIs(p: Policy, listing: seq<Entry>, t: Table)
    ensures t in Found(p, listing)
            <==> && Listed(listing, t)
                 && (p.includes == [] || exists x :: x in p.includes && p.fold(x) == p.fold(t.schema))
  {
    ListedInFlat(Select(listing, Included(p)), t);
    assert p.Includes(t.schema) <==> p.includes == [] || exists x :: x in p.includes && p.fold(x) == p.fold(t.schema);
  }

  /** A table to keep: listed, of a schema asked for, and matched by no rule. */
  predicate IsKept(p: Policy, listing: seq<Entry>, t: Table) {
    && Listed(listing, t) && (p.includes == [] || exists x :: x in p.includes && p.fold(x) == p.fold(t.schema))
    && forall r: Rule :: !Matches(p, r, t)
  }

  lemma KeptIs(p: Policy, listing: seq<Entry>, t: Table)
    ensures t in Filter(Found(p, listing), Unskipped(p)) <==> IsKept(p, listing, t)
  {
    hide Found;
    FoundIs(p, listing, t);
    FirstRuleIsFirstMatch(p, t);
  }

  /** Every table found is kept or skipped, and skipped under one rule. */
  lemma {:induction false} EveryTableOnce(p: Policy, ts: seq<Table>)
    ensures |ts| == |Filter(ts, Unskipped(p))| + SkipCount(p, ts, System) + SkipCount(p, ts, Configured)
                    + SkipCount(p, ts, Cli) + SkipCount(p, ts, Chosen) + SkipCount(p, ts, ConfiguredTables)
                    + SkipCount(p, ts, Staging)
  {
    if ts != [] {
      EveryTableOnce(p, ts[..|ts| - 1]);
    }
  }

  // ---- the two phases

  /** The schemas no schema rule removes. */
  function Open(p: Policy): Entry -> bool { (e: Entry) => p.SchemaRule(e.schema).None? }

  /** The schemas that are read. */
  function Readable(p: Policy): Entry -> bool { (e: Entry) => !p.AllLeftOut(e) }

  function Remaining(p: Policy, listing: seq<Entry>): seq<Entry> { Select(Select(listing, Included(p)), Open(p)) }

  function ToRead(p: Policy, listing: seq<Entry>): seq<Entry> { Select(Remaining(p, listing), Readable(p)) }

  /** A schema is read that is asked for, matches no schema rule, and is empty or has a table that no
      table rule matches. */
  predicate IsToRead(p: Policy, e: Entry) {
    var schema := p.lower(e.schema);
    && (p.includes == [] || exists x :: x in p.includes && p.fold(x) == p.fold(e.schema))
    && !p.system(schema) && !p.configured(schema) && !p.cli(schema) && !p.chosen(schema)
    && (e.names == [] || exists name :: name in e.names && !p.tables(schema, p.lower(name))
                                        && !p.staging(schema, p.lower(name)))
  }

  lemma LeftOutIs(p: Policy, e: Entry)
    ensures p.AllLeftOut(e)
            <==> e.names != [] && forall name :: name in e.names ==>
                   p.tables(p.lower(e.schema), p.lower(name)) || p.staging(p.lower(e.schema), p.lower(name))
  {
    forall i | 0 <= i < |e.names|
      ensures p.TableRule(Table(e.schema, e.names[i], [])).Some?
              <==> p.tables(p.lower(e.schema), p.lower(e.names[i])) || p.staging(p.lower(e.schema), p.lower(e.names[i]))
    {
    }
    hide Policy.TableRule;
  }

  lemma ToReadIs(p: Policy, listing: seq<Entry>, e: Entry)
    ensures e in ToRead(p, listing) <==> e in listing && IsToRead(p, e)
  {
    hide Policy.AllLeftOut, Select;
    LeftOutIs(p, e);
    assert p.Includes(e.schema) <==> p.includes == [] || exists x :: x in p.includes && p.fold(x) == p.fold(e.schema);
  }

  function NoTableRule(p: Policy): Table -> bool { (t: Table) => p.TableRule(t).None? }

  function TableRuleIs(p: Policy, rule: Rule): Table -> bool { (t: Table) => p.TableRule(t) == Some(rule) }

  function FoldIs(p: Policy, folded: string): Table -> bool { (t: Table) => p.fold(t.name) == folded }

  /** No other table of `all` has that name. */
  predicate Unique(p: Policy, all: seq<Table>, name: string) { |Filter(all, FoldIs(p, p.fold(name)))| == 1 }

  /** The tables the inspection is told not to read. */
  function Unread(p: Policy, all: seq<Table>): Table -> bool {
    (t: Table) => p.TableRule(t).Some? && Unique(p, all, t.name)
  }

  function Read(p: Policy, all: seq<Table>): Table -> bool {
    (t: Table) => p.TableRule(t).None? || !Unique(p, all, t.name)
  }

  function UnreadBy(p: Policy, all: seq<Table>, rule: Rule): Table -> bool {
    (t: Table) => p.TableRule(t) == Some(rule) && Unique(p, all, t.name)
  }

  function ReadBy(p: Policy, all: seq<Table>, rule: Rule): Table -> bool {
    (t: Table) => p.TableRule(t) == Some(rule) && !Unique(p, all, t.name)
  }

  function Names(ts: seq<Table>): seq<string> { seq(|ts|, i requires 0 <= i < |ts| => ts[i].name) }

  function NotNamed(names: seq<string>): Table -> bool { (t: Table) => t.name !in names }

  lemma {:induction false} TwoOfAKind(ts: seq<Table>, f: Table -> bool, a: Table, b: Table)
    requires a in ts && b in ts && a != b && f(a) && f(b)
    ensures |Filter(ts, f)| >= 2
  {
    var r := Filter(ts, f);
    assert a in r && b in r;
    var i :| 0 <= i < |r| && r[i] == a;
    var j :| 0 <= j < |r| && r[j] == b;
    assert i != j;
  }

  /** The inspection compares bare names only, yet skips just the tables it is meant to skip. */
  lemma ExcludedNamesAreExact(p: Policy, all: seq<Table>, read: seq<Table>)
    requires forall t :: t in read ==> t in all
    ensures Filter(read, NotNamed(Names(Filter(read, Unread(p, all))))) == Filter(read, Read(p, all))
  {
    var gone := Filter(read, Unread(p, all));
    forall t | t in read ensures NotNamed(Names(gone))(t) == Read(p, all)(t) {
      if t in gone {
        var i :| 0 <= i < |gone| && gone[i] == t;
        assert Names(gone)[i] == t.name;
      } else if t.name in Names(gone) {
        var i :| 0 <= i < |gone| && Names(gone)[i] == t.name;
        TwoOfAKind(all, FoldIs(p, p.fold(t.name)), t, gone[i]);
      }
    }
    FilterAgrees(read, NotNamed(Names(gone)), Read(p, all));
  }

  lemma FlatSnoc(es: seq<Entry>, e: Entry)
    ensures Flat(es + [e]) == Flat(es) + Tables(e)
  {
    assert (es + [e])[..|es|] == es;
  }

  lemma SelectSnoc(es: seq<Entry>, e: Entry, keep: Entry -> bool)
    ensures Select(es + [e], keep) == Select(es, keep) + if keep(e) then [e] else []
  {
    assert (es + [e])[..|es|] == es;
  }

  /** A schema none of whose tables `f` keeps can be left out before filtering. */
  lemma {:induction false} SelectThenFilter(es: seq<Entry>, keep: Entry -> bool, f: Table -> bool, g: Table -> bool)
    requires forall e, t :: e in es && t in Tables(e) ==> f(t) == (keep(e) && g(t))
    ensures Filter(Flat(es), f) == Filter(Flat(Select(es, keep)), g)
  {
    if es != [] {
      var init, e := es[..|es| - 1], es[|es| - 1];
      assert es == init + [e];
      SelectThenFilter(init, keep, f, g);
      FilterConcat(Flat(init), Tables(e), f);
      if keep(e) {
        FlatSnoc(Select(init, keep), e);
        FilterConcat(Flat(Select(init, keep)), Tables(e), g);
        FilterAgrees(Tables(e), f, g);
      } else {
        FilterNone(Tables(e), f);
      }
    }
  }

  lemma KeptIsReadable(p: Policy, e: Entry, t: Table)
    requires t in Tables(e) && p.TableRule(t).None?
    ensures !p.AllLeftOut(e)
  {
    var i :| 0 <= i < |e.names| && t == Table(e.schema, e.names[i], []);
  }

  /** What is read and then kept is what the one filter keeps. */
  lemma TwoPhasesKeep(p: Policy, listing: seq<Entry>, all: seq<Table>)
    requires all == Flat(Remaining(p, listing))
    ensures Filter(Filter(Flat(ToRead(p, listing)), Read(p, all)), NoTableRule(p))
            == Filter(Found(p, listing), Unskipped(p))
  {
    hide Filter, Select, Flat, Unique, Policy.AllLeftOut, Policy.SchemaRule, Policy.TableRule;
    var wanted := Select(listing, Included(p));
    var rest := Select(wanted, Open(p));
    forall e, t | e in rest && t in Tables(e) && NoTableRule(p)(t) ensures Readable(p)(e) {
      KeptIsReadable(p, e, t);
    }
    SelectThenFilter(wanted, Open(p), Unskipped(p), NoTableRule(p));
    SelectThenFilter(rest, Readable(p), NoTableRule(p), NoTableRule(p));
    FilterTwice(Flat(ToRead(p, listing)), Read(p, all), NoTableRule(p), NoTableRule(p));
  }

  // ---- the counts

  /** Tables of schemas a schema rule removes. */
  function SchemaSkips(p: Policy, es: seq<Entry>, rule: Rule): nat {
    if es == [] then 0
    else
      var e := es[|es| - 1];
      SchemaSkips(p, es[..|es| - 1], rule) + if p.SchemaRule(e.schema) == Some(rule) then |e.names| else 0
  }

  /** Tables a table rule removes before the inspection, in one open schema. */
  function PlanSkipsIn(p: Policy, all: seq<Table>, e: Entry, rule: Rule): nat {
    |Filter(Tables(e), if p.AllLeftOut(e) then TableRuleIs(p, rule) else UnreadBy(p, all, rule))|
  }

  function PlanSkips(p: Policy, all: seq<Table>, es: seq<Entry>, rule: Rule): nat {
    if es == [] then 0
    else PlanSkips(p, all, es[..|es| - 1], rule) + PlanSkipsIn(p, all, es[|es| - 1], rule)
  }

  lemma {:induction false} SchemaSkipsSplit(p: Policy, es: seq<Entry>, rule: Rule)
    ensures SkipCount(p, Flat(es), rule)
            == SchemaSkips(p, es, rule) + |Filter(Flat(Select(es, Open(p))), TableRuleIs(p, rule))|
  {
    if es != [] {
      var init, e := es[..|es| - 1], es[|es| - 1];
      SchemaSkipsSplit(p, init, rule);
      FilterConcat(Flat(init), Tables(e), SkippedBy(p, rule));
      if p.SchemaRule(e.schema).None? {
        FlatSnoc(Select(init, Open(p)), e);
        FilterConcat(Flat(Select(init, Open(p))), Tables(e), TableRuleIs(p, rule));
        FilterAgrees(Tables(e), SkippedBy(p, rule), TableRuleIs(p, rule));
      } else if p.SchemaRule(e.schema) == Some(rule) {
        FilterAll(Tables(e), SkippedBy(p, rule));
      } else {
        FilterNone(Tables(e), SkippedBy(p, rule));
      }
    }
  }

  lemma {:induction false} PlanSkipsSplit(p: Policy, all: seq<Table>, es: seq<Entry>, rule: Rule)
    ensures |Filter(Flat(es), TableRuleIs(p, rule))|
            == PlanSkips(p, all, es, rule) + |Filter(Flat(Select(es, Readable(p))), ReadBy(p, all, rule))|
  {
    if es != [] {
      var init, e := es[..|es| - 1], es[|es| - 1];
      PlanSkipsSplit(p, all, init, rule);
      FilterConcat(Flat(init), Tables(e), TableRuleIs(p, rule));
      if !p.AllLeftOut(e) {
        FlatSnoc(Select(init, Readable(p)), e);
        FilterConcat(Flat(Select(init, Readable(p))), Tables(e), ReadBy(p, all, rule));
        FilterSplits(Tables(e), TableRuleIs(p, rule), UnreadBy(p, all, rule), ReadBy(p, all, rule));
      }
    }
  }

  /** A table counted while planning is not counted after reading, and none is forgotten. */
  lemma TwoPhasesCount(p: Policy, listing: seq<Entry>, all: seq<Table>, rule: Rule)
    requires all == Flat(Remaining(p, listing))
    ensures SkipCount(p, Found(p, listing), rule)
            == SchemaSkips(p, Select(listing, Included(p)), rule) + PlanSkips(p, all, Remaining(p, listing), rule)
               + |Filter(Filter(Flat(ToRead(p, listing)), Read(p, all)), TableRuleIs(p, rule))|
  {
    hide Filter, Select, Flat, Unique, SchemaSkips, PlanSkips, Policy.TableRule;
    SchemaSkipsSplit(p, Select(listing, Included(p)), rule);
    PlanSkipsSplit(p, all, Remaining(p, listing), rule);
    FilterTwice(Flat(ToRead(p, listing)), Read(p, all), TableRuleIs(p, rule), ReadBy(p, all, rule));
  }
}
