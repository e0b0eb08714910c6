/** Step 2 over several data sources: each is planned, read and filtered by its own rules, the tables
    and relationships are then one snapshot, and the operator may remove single tables. */
module SchemaSources {
  import opened Ordered
  import opened SchemaSelection
  import opened SchemaReading

  type Id = (string, string)

  /** A table with the source it was read from. */
  datatype Occurrence = Occurrence(table: Table, source: string)

  /** What one source gives after its drop. */
  datatype Part = Part(source: string, tables: seq<Table>, links: seq<Link>)

  /** A data source with its rules, its listing and the foreign keys of its tables. */
  datatype Source = Source(name: string, rules: Policy, listing: seq<Entry>, links: Table -> seq<Link>)

  // ---- first occurrences --------------------------------------------------------------------------------

  /** `dict.setdefault` over `xs` with these keys: of the items with one key the first stays, in its place. */
  function Firsts<T, K(==)>(xs: seq<T>, keys: seq<K>): (r: seq<T>)
    requires |xs| == |keys|
  {
    if xs == [] then []
    else
      var n := |xs| - 1;
      if keys[n] in keys[..n] then Firsts(xs[..n], keys[..n]) else Firsts(xs[..n], keys[..n]) + [xs[n]]
  }

  lemma FirstsSnoc<T, K>(xs: seq<T>, keys: seq<K>, x: T, k: K)
    requires |xs| == |keys|
    ensures Firsts(xs + [x], keys + [k]) == Firsts(xs, keys) + if k in keys then [] else [x]
  {
    assert (xs + [x])[..|xs|] == xs && (keys + [k])[..|xs|] == keys;
  }

  /** Every key stays once. */
  lemma {:induction false} FirstKeys<K(!new)>(keys: seq<K>)
    ensures NoDup(Firsts(keys, keys)) && forall k :: k in Firsts(keys, keys) <==> k in keys
  {
    if keys != [] {
      var init, last := keys[..|keys| - 1], keys[|keys| - 1];
      assert keys == init + [last];
      FirstKeys(init);
      FirstsSnoc(init, init, last, last);
    }
  }

  /** Each item that stays stands where its key does. */
  lemma {:induction false} FirstsHaveTheirKeys<T, K>(xs: seq<T>, keys: seq<K>)
    requires |xs| == |keys|
    ensures |Firsts(xs, keys)| == |Firsts(keys, keys)|
    ensures forall i :: 0 <= i < |Firsts(xs, keys)| ==>
              exists j :: 0 <= j < |xs| && xs[j] == Firsts(xs, keys)[i] && keys[j] == Firsts(keys, keys)[i]
  {
    if xs != [] {
      var n := |xs| - 1;
      FirstsHaveTheirKeys(xs[..n], keys[..n]);
      assert xs == xs[..n] + [xs[n]] && keys == keys[..n] + [keys[n]];
      FirstsSnoc(xs[..n], keys[..n], xs[n], keys[n]);
      FirstsSnoc(keys[..n], keys[..n], keys[n], keys[n]);
      hide Firsts;
      forall i | 0 <= i < |Firsts(xs, keys)|
        ensures exists j :: 0 <= j < |xs| && xs[j] == Firsts(xs, keys)[i] && keys[j] == Firsts(keys, keys)[i]
      {
        if i < |Firsts(xs[..n], keys[..n])| {
          var j :| 0 <= j < n && xs[..n][j] == Firsts(xs[..n], keys[..n])[i]
                   && keys[..n][j] == Firsts(keys[..n], keys[..n])[i];
          assert xs[j] == xs[..n][j] && keys[j] == keys[..n][j];
        } else {
          assert xs[n] == Firsts(xs, keys)[i];
        }
      }
    }
  }

  /** The places of the first of each key. */
  function FirstPlaces<K(==)>(keys: seq<K>): (at: seq<nat>)
    ensures forall i :: 0 <= i < |at| ==> at[i] < |keys|
    ensures forall i, j :: 0 <= i < j < |at| ==> at[i] < at[j]
  {
    if keys == [] then []
    else
      var n := |keys| - 1;
      if keys[n] in keys[..n] then FirstPlaces(keys[..n]) else FirstPlaces(keys[..n]) + [n]
  }

  lemma {:induction false} FirstPlacesAre<K>(keys: seq<K>, i: nat)
    requires i < |FirstPlaces(keys)|
    ensures keys[FirstPlaces(keys)[i]] !in keys[..FirstPlaces(keys)[i]]
  {
    var n := |keys| - 1;
    if i < |FirstPlaces(keys[..n])| {
      FirstPlacesAre(keys[..n], i);
      var k := FirstPlaces(keys[..n])[i];
      assert keys[..n][..k] == keys[..k] && keys[..n][k] == keys[k];
    }
  }

  /** The items that stay are those at these places, in order. */
  lemma {:induction false} FirstsStand<T, K>(xs: seq<T>, keys: seq<K>)
    requires |xs| == |keys|
    ensures |Firsts(xs, keys)| == |FirstPlaces(keys)|
    ensures forall i :: 0 <= i < |FirstPlaces(keys)| ==> Firsts(xs, keys)[i] == xs[FirstPlaces(keys)[i]]
  {
    if xs != [] {
      FirstsStand(xs[..|xs| - 1], keys[..|xs| - 1]);
    }
  }

  // ---- combining ------------------------------------------------------------------------------------------

  function Ids(p: Policy, os: seq<Occurrence>): seq<Id> {
    seq(|os|, i requires 0 <= i < |os| => p.Identity(os[i].table))
  }

  type Ends = (Id, string, Id, string)

  /** The ends of a relationship: identities and folded column names. */
  function EndsOf(p: Policy, l: Link): Ends { (FromEnd(p, l), p.fold(l.fromColumn), ToEnd(p, l), p.fold(l.toColumn)) }

  function AllEnds(p: Policy, ls: seq<Link>): seq<Ends> {
    seq(|ls|, i requires 0 <= i < |ls| => EndsOf(p, ls[i]))
  }

  function Occurrences(part: Part): seq<Occurrence> {
    seq(|part.tables|, i requires 0 <= i < |part.tables| => Occurrence(part.tables[i], part.source))
  }

  function AllOccurrences(parts: seq<Part>): seq<Occurrence> {
    if parts == [] then [] else AllOccurrences(parts[..|parts| - 1]) + Occurrences(parts[|parts| - 1])
  }

  function AllLinks(parts: seq<Part>): seq<Link> {
    if parts == [] then [] else AllLinks(parts[..|parts| - 1]) + parts[|parts| - 1].links
  }

  /** The sources of the occurrences with one identity, each once. */
  function SourcesOf(p: Policy, os: seq<Occurrence>, id: Id): seq<string> {
    if os == [] then []
    else
      var before, o := SourcesOf(p, os[..|os| - 1], id), os[|os| - 1];
      if p.Identity(o.table) != id || o.source in before then before else before + [o.source]
  }

  lemma SourcesSnoc(p: Policy, os: seq<Occurrence>, o: Occurrence, id: Id)
    ensures SourcesOf(p, os + [o], id)
            == SourcesOf(p, os, id)
               + if p.Identity(o.table) != id || o.source in SourcesOf(p, os, id) then [] else [o.source]
  {
    assert (os + [o])[..|os|] == os;
  }

  lemma {:induction false} SourcesOfAre(p: Policy, os: seq<Occurrence>, id: Id)
    ensures NoDup(SourcesOf(p, os, id))
    ensures forall name :: name in SourcesOf(p, os, id) <==>
              exists o :: o in os && p.Identity(o.table) == id && o.source == name
  {
    if os != [] {
      var init, last := os[..|os| - 1], os[|os| - 1];
      assert os == init + [last];
      SourcesOfAre(p, init, id);
    }
  }

  /** The first occurrence of each table. */
  function FirstOccurrences(p: Policy, os: seq<Occurrence>): seq<Occurrence> { Firsts(os, Ids(p, os)) }

  function WithSources(p: Policy, os: seq<Occurrence>, configured: nat, t: Table): Table {
    t.(datasources := if configured > 1 then SourcesOf(p, os, p.Identity(t)) else [])
  }

  /** The combined tables: first occurrences, with all their sources when several are configured. */
  function CombinedTables(p: Policy, os: seq<Occurrence>, configured: nat): seq<Table> {
    var firsts := FirstOccurrences(p, os);
    seq(|firsts|, i requires 0 <= i < |firsts| => WithSources(p, os, configured, firsts[i].table))
  }

  function CombinedLinks(p: Policy, ls: seq<Link>): seq<Link> { Firsts(ls, AllEnds(p, ls)) }

  /** `found` and `where` of `_combine_snapshots` after some occurrences. */
  ghost predicate Seen(p: Policy, os: seq<Occurrence>, found: seq<Occurrence>, where: map<Id, seq<string>>) {
    && found == FirstOccurrences(p, os)
    && forall id :: (id in where <==> id in Ids(p, os)) && SourcesOf(p, os, id) == if id in where then where[id] else []
  }

  lemma IdsSnoc(p: Policy, os: seq<Occurrence>, o: Occurrence)
    ensures Ids(p, os + [o]) == Ids(p, os) + [p.Identity(o.table)]
  {
  }

  lemma SeenStep(p: Policy, os: seq<Occurrence>, o: Occurrence)
    ensures FirstOccurrences(p, os + [o])
            == FirstOccurrences(p, os) + if p.Identity(o.table) in Ids(p, os) then [] else [o]
    ensures forall id :: id in Ids(p, os + [o]) <==> id in Ids(p, os) || p.Identity(o.table) == id
  {
    IdsSnoc(p, os, o);
    FirstsSnoc(os, Ids(p, os), o, p.Identity(o.table));
  }

  /** One table of one source: `found` in order of first sight, `where` with the sources. */
  method AddTable(p: Policy, ghost os: seq<Occurrence>, o: Occurrence, found: seq<Occurrence>,
                  where: map<Id, seq<string>>)
    returns (found': seq<Occurrence>, where': map<Id, seq<string>>)
    requires Seen(p, os, found, where)
    ensures Seen(p, os + [o], found', where')
  {
    hide FirstOccurrences, Ids, SourcesOf;
    SeenStep(p, os, o);
    forall id {
      SourcesSnoc(p, os, o, id);
    }
    var id := p.Identity(o.table);
    found', where' := found, where;
    if id !in where { found', where' := found + [o], where[id := []]; }
    if o.source !in where'[id] { where' := where'[id := where'[id] + [o.source]]; }
  }

  lemma PartsStep(parts: seq<Part>, i: nat)
    requires i < |parts|
    ensures AllOccurrences(parts[..i + 1]) == AllOccurrences(parts[..i]) + Occurrences(parts[i])
    ensures AllLinks(parts[..i + 1]) == AllLinks(parts[..i]) + parts[i].links
  {
    assert parts[..i + 1][..i] == parts[..i];
  }

  lemma NothingSeen(p: Policy)
    ensures Seen(p, [], [], map[])
  {
  }

  lemma FirstIsSeen(p: Policy, os: seq<Occurrence>, i: nat)
    requires i < |FirstOccurrences(p, os)|
    ensures p.Identity(FirstOccurrences(p, os)[i].table) in Ids(p, os)
    ensures FirstOccurrences(p, os)[i] in os
  {
    FirstsHaveTheirKeys(os, Ids(p, os));
  }

  /** The sources are written into the tables. */
  method NameSources(p: Policy, ghost os: seq<Occurrence>, configured: nat, found: seq<Occurrence>,
                     where: map<Id, seq<string>>)
    returns (tables: seq<Table>)
    requires Seen(p, os, found, where)
    ensures tables == CombinedTables(p, os, configured)
  {
    hide FirstOccurrences, SourcesOf, Ids;
    tables := [];
    for i := 0 to |found|
      invariant tables == CombinedTables(p, os, configured)[..i]
    {
      FirstIsSeen(p, os, i);
      var t := found[i].table;
      tables := tables + [t.(datasources := if configured > 1 then where[p.Identity(t)] else [])];
    }
  }

  /** The table half of `_combine_snapshots`. */
  method CombineTables(p: Policy, parts: seq<Part>, configured: nat) returns (tables: seq<Table>)
    ensures tables == CombinedTables(p, AllOccurrences(parts), configured)
  {
    hide FirstOccurrences, SourcesOf, Ids, Seen;
    var found: seq<Occurrence>, where: map<Id, seq<string>> := [], map[];
    ghost var os: seq<Occurrence> := [];
    NothingSeen(p);
    for i := 0 to |parts|
      invariant os == AllOccurrences(parts[..i]) && Seen(p, os, found, where)
    {
      hide AllOccurrences;
      PartsStep(parts, i);
      ghost var before, occurrences := os, Occurrences(parts[i]);
      for j := 0 to |parts[i].tables|
        invariant os == before + occurrences[..j] && Seen(p, os, found, where)
      {
        var o := Occurrence(parts[i].tables[j], parts[i].source);
        found, where := AddTable(p, os, o, found, where);
        os := os + [o];
      }
    }
    assert parts[..|parts|] == parts;
    tables := NameSources(p, os, configured, found, where);
  }

  lemma EndsSnoc(p: Policy, ls: seq<Link>, l: Link)
    ensures AllEnds(p, ls + [l]) == AllEnds(p, ls) + [EndsOf(p, l)]
  {
  }

  lemma LinksStep(p: Policy, ls: seq<Link>, l: Link)
    ensures CombinedLinks(p, ls + [l]) == CombinedLinks(p, ls) + if EndsOf(p, l) in AllEnds(p, ls) then [] else [l]
    ensures forall e :: e in AllEnds(p, ls + [l]) <==> e in AllEnds(p, ls) || EndsOf(p, l) == e
  {
    EndsSnoc(p, ls, l);
    FirstsSnoc(ls, AllEnds(p, ls), l, EndsOf(p, l));
  }

  lemma NoLinks(p: Policy)
    ensures CombinedLinks(p, []) == [] && AllEnds(p, []) == []
  {
  }

  /** The relationship half. */
  method CombineLinks(p: Policy, parts: seq<Part>) returns (links: seq<Link>)
    ensures links == CombinedLinks(p, AllLinks(parts))
  {
    hide CombinedLinks, AllEnds, EndsOf;
    links := [];
    var seen: set<Ends> := {};
    ghost var ls: seq<Link> := [];
    NoLinks(p);
    for i := 0 to |parts|
      invariant ls == AllLinks(parts[..i]) && links == CombinedLinks(p, ls)
      invariant forall e :: e in seen <==> e in AllEnds(p, ls)
    {
      hide AllLinks;
      PartsStep(parts, i);
      ghost var before := ls;
      for j := 0 to |parts[i].links|
        invariant ls == before + parts[i].links[..j] && links == CombinedLinks(p, ls)
        invariant forall e :: e in seen <==> e in AllEnds(p, ls)
      {
        var l := parts[i].links[j];
        LinksStep(p, ls, l);
        if EndsOf(p, l) !in seen {
          links, seen := links + [l], seen + {EndsOf(p, l)};
        }
        ls := ls + [l];
      }
    }
    assert parts[..|parts|] == parts;
  }

  // ---- all sources -------------------------------------------------------------------------------------------

  /** What the one filter keeps of a source. */
  function KeptOf(source: Source): Part {
    var kept := Filter(Found(source.rules, source.listing), Unskipped(source.rules));
    Part(source.name, kept,
         KeepLinks(LinksOf(kept, source.links), Untouched(source.rules, DroppedLater(source.rules, source.listing))))
  }

  function Parts(sources: seq<Source>): seq<Part> {
    seq(|sources|, i requires 0 <= i < |sources| => KeptOf(sources[i]))
  }

  function FoundIn(sources: seq<Source>): nat {
    if sources == [] then 0
    else
      FoundIn(sources[..|sources| - 1])
      + |Found(sources[|sources| - 1].rules, sources[|sources| - 1].listing)|
  }

  function SkippedIn(sources: seq<Source>, rule: Rule): nat {
    if sources == [] then 0
    else
      var last := sources[|sources| - 1];
      SkippedIn(sources[..|sources| - 1], rule) + SkipCount(last.rules, Found(last.rules, last.listing), rule)
  }

  function KeptIn(sources: seq<Source>): nat {
    if sources == [] then 0 else KeptIn(sources[..|sources| - 1]) + |KeptOf(sources[|sources| - 1]).tables|
  }

  /** Over all sources too, every table found is kept or skipped under one rule of its source. */
  lemma {:induction false} EveryTableOnceInAll(sources: seq<Source>)
    ensures FoundIn(sources) == KeptIn(sources) + SkippedIn(sources, System) + SkippedIn(sources, Configured)
                                + SkippedIn(sources, Cli) + SkippedIn(sources, Chosen)
                                + SkippedIn(sources, ConfiguredTables) + SkippedIn(sources, Staging)
  {
    hide SkipCount, Found;
    if sources != [] {
      var last := sources[|sources| - 1];
      EveryTableOnceInAll(sources[..|sources| - 1]);
      EveryTableOnce(last.rules, Found(last.rules, last.listing));
    }
  }

  /** The same way of comparing names in all sources. */
  ghost predicate Uniform(p: Policy, sources: seq<Source>) {
    forall i :: 0 <= i < |sources| ==>
      && sources[i].rules.lower == p.lower && sources[i].rules.fold == p.fold
      && Distinct(sources[i].listing) && OwnLinks(sources[i].links)
  }

  lemma AllRules()
    ensures forall r: Rule :: r in RULES
    ensures forall i, j :: 0 <= i < j < |RULES| ==> RULES[i] != RULES[j]
  {
    assert RULES[0] == System && RULES[1] == Configured && RULES[2] == Cli && RULES[3] == Chosen;
    assert RULES[4] == ConfiguredTables && RULES[5] == Staging;
    forall r: Rule ensures r in RULES {
      match r
      case System =>
      case Configured =>
      case Cli =>
      case Chosen =>
      case ConfiguredTables =>
      case Staging =>
    }
  }

  /** `SkipReport.merged`, one report into the total. */
  method Merge(total: SkipReport, report: SkipReport)
    requires total != report
    modifies total
    ensures total.found == old(total.found) + report.found
    ensures forall r :: total.Count(r) == old(total.Count(r)) + report.Count(r)
  {
    AllRules();
    total.found := total.found + report.found;
    for i := 0 to |RULES|
      invariant total.found == old(total.found) + report.found
      invariant forall r :: total.Count(r) == old(total.Count(r)) + if r in RULES[..i] then report.Count(r) else 0
    {
      hide SkipReport.Count;
      assert RULES[..i + 1] == RULES[..i] + [RULES[i]] && RULES[i] !in RULES[..i];
      total.Add(RULES[i], report.Count(RULES[i]));
    }
    assert RULES[..|RULES|] == RULES;
  }

  /** Every source discovered, the reports added up, the tables and relationships combined. */
  method DiscoverAll(p: Policy, sources: seq<Source>, configured: nat) returns (combined: Snapshot, report: SkipReport)
    requires Uniform(p, sources)
    ensures fresh(combined) && fresh(report)
    ensures combined.tables == CombinedTables(p, AllOccurrences(Parts(sources)), configured)
    ensures combined.relationships == CombinedLinks(p, AllLinks(Parts(sources)))
    ensures report.found == FoundIn(sources)
    ensures forall r :: report.Count(r) == SkippedIn(sources, r)
  {
    hide Found, SkipCount, KeepLinks, LinksOf, Filter, DroppedLater, IsKept, ReadInVain, PointsAt, SkipReport.Count;
    report := new SkipReport(0);
    var parts: seq<Part> := [];
    for i := 0 to |sources|
      invariant fresh(report) && parts == Parts(sources[..i])
      invariant report.found == FoundIn(sources[..i])
      invariant forall r :: report.Count(r) == SkippedIn(sources[..i], r)
    {
      var source := sources[i];
      assert sources[..i + 1][..i] == sources[..i] && sources[..i + 1][i] == source;
      var snapshot, skipped := Discover(source.rules, source.listing, source.links);
      Merge(report, skipped);
      parts := parts + [Part(source.name, snapshot.tables, snapshot.relationships)];
    }
    assert sources[..|sources|] == sources;
    var tables := CombineTables(p, parts, configured);
    var links := CombineLinks(p, parts);
    combined := new Snapshot();
    combined.tables, combined.relationships := tables, links;
  }

  lemma CombinedIsFirsts(p: Policy, os: seq<Occurrence>, configured: nat, i: nat)
    requires i < |CombinedTables(p, os, configured)|
    ensures var firsts, ids := FirstOccurrences(p, os), Firsts(Ids(p, os), Ids(p, os));
            var tables := CombinedTables(p, os, configured);
            && |tables| == |firsts| == |ids| && firsts[i] in os
            && tables[i] == WithSources(p, os, configured, firsts[i].table) && p.Identity(tables[i]) == ids[i]
  {
    FirstsHaveTheirKeys(os, Ids(p, os));
    hide Firsts, SourcesOf;
  }

  /** No table twice. */
  ghost predicate DistinctTables(p: Policy, ts: seq<Table>) {
    forall i, j :: 0 <= i < j < |ts| ==> p.Identity(ts[i]) != p.Identity(ts[j])
  }

  /** The combined snapshot has no table twice, ... */
  lemma CombinedOnce(p: Policy, os: seq<Occurrence>, configured: nat)
    ensures DistinctTables(p, CombinedTables(p, os, configured))
  {
    hide Firsts, SourcesOf, CombinedTables;
    FirstKeys(Ids(p, os));
    forall i: nat | i < |CombinedTables(p, os, configured)| {
      CombinedIsFirsts(p, os, configured, i);
    }
  }

  /** ... has each table some source keeps, ... */
  lemma CombinedHasAll(p: Policy, os: seq<Occurrence>, configured: nat, k: nat)
    requires k < |os|
    ensures exists i :: 0 <= i < |CombinedTables(p, os, configured)|
              && p.Identity(CombinedTables(p, os, configured)[i]) == p.Identity(os[k].table)
  {
    FirstKeys(Ids(p, os));
    FirstsHaveTheirKeys(os, Ids(p, os));
    hide Firsts, SourcesOf;
    assert Ids(p, os)[k] == p.Identity(os[k].table);
    var ids := Firsts(Ids(p, os), Ids(p, os));
    assert p.Identity(os[k].table) in ids;
    var i: nat :| i < |ids| && ids[i] == p.Identity(os[k].table);
    CombinedIsFirsts(p, os, configured, i);
  }

  /** ... each as some source has it, and named with just the sources that keep it. */
  lemma CombinedSources(p: Policy, os: seq<Occurrence>, configured: nat, i: nat)
    requires i < |CombinedTables(p, os, configured)|
    ensures var t := CombinedTables(p, os, configured)[i];
            && (exists o :: o in os && t == o.table.(datasources := t.datasources))
            && (configured <= 1 ==> t.datasources == [])
            && (configured > 1 ==> NoDup(t.datasources) && forall name ::
                  (name in t.datasources <==>
                   exists o :: o in os && p.Identity(o.table) == p.Identity(t) && o.source == name))
  {
    hide FirstOccurrences, Firsts, SourcesOf;
    CombinedIsFirsts(p, os, configured, i);
    SourcesOfAre(p, os, p.Identity(CombinedTables(p, os, configured)[i]));
  }

  predicate SameTable(p: Policy, a: Table, b: Table) {
    p.lower(a.schema) == p.lower(b.schema) && p.lower(a.name) == p.lower(b.name)
  }

  /** The combined tables are first occurrences, in the order of the sources and of their tables. */
  lemma CombinedInOrder(p: Policy, os: seq<Occurrence>, configured: nat) returns (at: seq<nat>)
    ensures |at| == |CombinedTables(p, os, configured)| && forall i, j :: 0 <= i < j < |at| ==> at[i] < at[j]
    ensures forall i :: 0 <= i < |at| ==>
              && at[i] < |os|
              && CombinedTables(p, os, configured)[i].(datasources := []) == os[at[i]].table.(datasources := [])
              && forall k :: 0 <= k < at[i] ==> !SameTable(p, os[k].table, os[at[i]].table)
  {
    hide Firsts, FirstPlaces, SourcesOf;
    at := FirstPlaces(Ids(p, os));
    FirstsStand(os, Ids(p, os));
    forall i, k | 0 <= i < |at| && 0 <= k < at[i] ensures !SameTable(p, os[k].table, os[at[i]].table) {
      FirstPlacesAre(Ids(p, os), i);
      assert Ids(p, os)[..at[i]][k] == p.Identity(os[k].table);
    }
  }

  /** Two relationships between the same columns of the same tables. */
  predicate SameEnds(p: Policy, a: Link, b: Link) {
    && p.lower(OrEmpty(a.fromSchema)) == p.lower(OrEmpty(b.fromSchema)) && p.lower(a.fromTable) == p.lower(b.fromTable)
    && p.fold(a.fromColumn) == p.fold(b.fromColumn)
    && p.lower(TargetSchema(a)) == p.lower(TargetSchema(b)) && p.lower(a.toTable) == p.lower(b.toTable)
    && p.fold(a.toColumn) == p.fold(b.toColumn)
  }

  lemma SameEndsIs(p: Policy, a: Link, b: Link)
    ensures SameEnds(p, a, b) <==> EndsOf(p, a) == EndsOf(p, b)
  {
  }

  /** Of the relationships with the same ends the first stays, in its place. */
  lemma CombinedLinksInOrder(p: Policy, ls: seq<Link>) returns (at: seq<nat>)
    ensures |at| == |CombinedLinks(p, ls)| && forall i, j :: 0 <= i < j < |at| ==> at[i] < at[j]
    ensures forall i :: 0 <= i < |at| ==>
              && at[i] < |ls| && CombinedLinks(p, ls)[i] == ls[at[i]]
              && forall k :: 0 <= k < at[i] ==> !SameEnds(p, ls[k], ls[at[i]])
  {
    hide Firsts, FirstPlaces, SameEnds, EndsOf;
    at := FirstPlaces(AllEnds(p, ls));
    FirstsStand(ls, AllEnds(p, ls));
    forall i, k | 0 <= i < |at| && 0 <= k < at[i] ensures !SameEnds(p, ls[k], ls[at[i]]) {
      FirstPlacesAre(AllEnds(p, ls), i);
      assert AllEnds(p, ls)[..at[i]][k] == EndsOf(p, ls[k]);
      SameEndsIs(p, ls[k], ls[at[i]]);
    }
  }

  /** The combined relationships are relationships of the sources, each of those is there, and none twice. */
  lemma CombinedLinkIs(p: Policy, ls: seq<Link>, i: nat)
    requires i < |CombinedLinks(p, ls)|
    ensures var ends := Firsts(AllEnds(p, ls), AllEnds(p, ls));
            && |ends| == |CombinedLinks(p, ls)| && CombinedLinks(p, ls)[i] in ls
            && EndsOf(p, CombinedLinks(p, ls)[i]) == ends[i]
  {
    FirstsHaveTheirKeys(ls, AllEnds(p, ls));
    hide Firsts, EndsOf;
  }

  lemma LinkIsCombined(p: Policy, ls: seq<Link>, k: nat) returns (i: nat)
    requires k < |ls|
    ensures i < |CombinedLinks(p, ls)| && SameEnds(p, ls[k], CombinedLinks(p, ls)[i])
  {
    var keys := AllEnds(p, ls);
    assert keys[k] == EndsOf(p, ls[k]);
    FirstKeys(keys);
    FirstsHaveTheirKeys(ls, keys);
    hide Firsts, EndsOf, SameEnds, AllEnds;
    assert keys[k] in Firsts(keys, keys);
    i :| i < |Firsts(keys, keys)| && Firsts(keys, keys)[i] == keys[k];
    CombinedLinkIs(p, ls, i);
    SameEndsIs(p, ls[k], CombinedLinks(p, ls)[i]);
  }

  lemma CombinedLinksAre(p: Policy, ls: seq<Link>)
    ensures forall l :: l in CombinedLinks(p, ls) ==> l in ls
    ensures forall l :: l in ls ==> exists m :: m in CombinedLinks(p, ls) && SameEnds(p, l, m)
    ensures forall i, j :: 0 <= i < j < |CombinedLinks(p, ls)| ==>
              !SameEnds(p, CombinedLinks(p, ls)[i], CombinedLinks(p, ls)[j])
  {
    hide Firsts, CombinedLinks, SameEnds, EndsOf, AllEnds;
    FirstKeys(AllEnds(p, ls));
    forall i: nat | i < |CombinedLinks(p, ls)| {
      CombinedLinkIs(p, ls, i);
    }
    forall i, j | 0 <= i < j < |CombinedLinks(p, ls)|
      ensures !SameEnds(p, CombinedLinks(p, ls)[i], CombinedLinks(p, ls)[j])
    {
      SameEndsIs(p, CombinedLinks(p, ls)[i], CombinedLinks(p, ls)[j]);
    }
    forall l | l in ls ensures exists m :: m in CombinedLinks(p, ls) && SameEnds(p, l, m) {
      var k: nat :| k < |ls| && ls[k] == l;
      var i := LinkIsCombined(p, ls, k);
    }
  }

  // ---- the operator's last word -----------------------------------------------------------------------------

  /** The full name of a table. */
  function FullName(t: Table): string { if t.schema == "" then t.name else t.schema + "." + t.name }

  /** The operator named the table, alone or with its schema. */
  predicate NamedBy(p: Policy, wanted: set<string>, t: Table) {
    p.fold(t.name) in wanted || p.fold(FullName(t)) in wanted
  }

  function NotNamedBy(p: Policy, wanted: set<string>): Table -> bool { (t: Table) => !NamedBy(p, wanted, t) }

  function NamedFilter(p: Policy, wanted: set<string>): Table -> bool { (t: Table) => NamedBy(p, wanted, t) }

  lemma SameIdentity(p: Policy, wanted: set<string>, ts: seq<Table>, t: Table)
    requires DistinctTables(p, ts) && t in ts
    ensures (exists t' :: t' in ts && NamedBy(p, wanted, t') && p.Identity(t') == p.Identity(t))
            <==> NamedBy(p, wanted, t)
  {
    if t' :| t' in ts && NamedBy(p, wanted, t') && p.Identity(t') == p.Identity(t) {
      var i :| 0 <= i < |ts| && ts[i] == t;
      var j :| 0 <= j < |ts| && ts[j] == t';
      assert i == j;
    }
  }

  lemma NamedOrNot(p: Policy, wanted: set<string>, ts: seq<Table>)
    ensures |ts| == |Filter(ts, NotNamedBy(p, wanted))| + |Filter(ts, NamedFilter(p, wanted))|
  {
    var every := (t: Table) => true;
    FilterAll(ts, every);
    FilterSplits(ts, every, NotNamedBy(p, wanted), NamedFilter(p, wanted));
  }

  /** The identities of the tables the operator names. */
  function NamedIds(p: Policy, wanted: set<string>, ts: seq<Table>): set<Id> {
    set t | t in ts && NamedBy(p, wanted, t) :: p.Identity(t)
  }

  lemma ExcludedAreNamed(p: Policy, wanted: set<string>, ts: seq<Table>)
    requires DistinctTables(p, ts)
    ensures Filter(ts, NotIn(p, NamedIds(p, wanted, ts))) == Filter(ts, NotNamedBy(p, wanted))
  {
    hide NamedBy, Filter;
    forall t | t in ts ensures NotIn(p, NamedIds(p, wanted, ts))(t) == NotNamedBy(p, wanted)(t) {
      SameIdentity(p, wanted, ts, t);
    }
    FilterAgrees(ts, NotIn(p, NamedIds(p, wanted, ts)), NotNamedBy(p, wanted));
  }

  /** The tables the operator names at the end of step 2 are removed and counted as chosen; of a
      snapshot without a table twice just those go, and every relationship to one of them. */
  method ExcludeNamed(snapshot: Snapshot, p: Policy, wanted: set<string>, report: SkipReport)
    requires DistinctTables(p, snapshot.tables)
    modifies snapshot, report`tables
    ensures snapshot.tables == Filter(old(snapshot.tables), NotNamedBy(p, wanted))
    ensures snapshot.relationships
            == KeepLinks(old(snapshot.relationships), Untouched(p, NamedIds(p, wanted, old(snapshot.tables))))
    ensures forall r :: report.Count(r)
                        == old(report.Count(r)) + if r == Chosen then |old(snapshot.tables)| - |snapshot.tables| else 0
  {
    hide Filter, NamedBy, SkipReport.Count;
    var ts, drop := snapshot.tables, {};
    NothingFiltered();
    assert ts[..0] == [];
    for i := 0 to |ts|
      invariant snapshot.tables == ts && snapshot.relationships == old(snapshot.relationships)
      invariant drop == NamedIds(p, wanted, ts[..i])
      invariant forall r :: report.Count(r)
                            == old(report.Count(r))
                               + if r == Chosen then |Filter(ts[..i], NamedFilter(p, wanted))| else 0
    {
      CountStep(ts, i, NamedFilter(p, wanted));
      assert ts[..i + 1] == ts[..i] + [ts[i]];
      if NamedBy(p, wanted, ts[i]) {
        drop := drop + {p.Identity(ts[i])};
        report.Add(Chosen, 1);
      }
    }
    assert ts[..|ts|] == ts;
    NamedOrNot(p, wanted, ts);
    ExcludedAreNamed(p, wanted, ts);
    DropTables(snapshot, p, drop);
  }

  // ---- step 2 as a whole ---------------------------------------------------------------------------------------

  /** How often a table was read again from a further source. */
  function Repeats(p: Policy, os: seq<Occurrence>): int { |os| - |FirstOccurrences(p, os)| }

  lemma PartsSnoc(sources: seq<Source>)
    requires sources != []
    ensures var n := |sources| - 1; Parts(sources) == Parts(sources[..n]) + [KeptOf(sources[n])]
  {
    hide KeptOf;
  }

  lemma NoParts()
    ensures Parts([]) == []
  {
  }

  lemma {:induction false} OccurrencesAreKept(sources: seq<Source>)
    ensures |AllOccurrences(Parts(sources))| == KeptIn(sources)
  {
    hide KeptOf, Parts;
    if sources != [] {
      var n := |sources| - 1;
      OccurrencesAreKept(sources[..n]);
      PartsSnoc(sources);
      assert (Parts(sources[..n]) + [KeptOf(sources[n])])[..|Parts(sources[..n])|] == Parts(sources[..n]);
    } else {
      NoParts();
    }
  }

  /** No relationship that is left has an end at a table the operator removed. */
  lemma {:induction false} NoLinkToDropped(p: Policy, ls: seq<Link>, drop: set<Id>, l: Link)
    requires l in KeepLinks(ls, Untouched(p, drop))
    ensures l in ls && FromEnd(p, l) !in drop && ToEnd(p, l) !in drop
  {
    var n := |ls| - 1;
    assert ls == ls[..n] + [ls[n]];
    if l in KeepLinks(ls[..n], Untouched(p, drop)) {
      NoLinkToDropped(p, ls[..n], drop, l);
    }
  }

  lemma {:induction false} OccurrenceOf(parts: seq<Part>, o: Occurrence)
    ensures o in AllOccurrences(parts)
            <==> exists i :: 0 <= i < |parts| && o.source == parts[i].source && o.table in parts[i].tables
  {
    if parts != [] {
      var init, last := parts[..|parts| - 1], parts[|parts| - 1];
      OccurrenceOf(init, o);
      assert o in Occurrences(last) <==> o.source == last.source && o.table in last.tables by {
        if o.source == last.source && o.table in last.tables {
          var k :| 0 <= k < |last.tables| && last.tables[k] == o.table;
          assert Occurrences(last)[k] == o;
        }
      }
      hide Occurrences;
      assert forall i :: 0 <= i < |init| ==> init[i] == parts[i];
    }
  }

  /** What the sources give: the tables each is to keep. */
  lemma OccurrenceIs(sources: seq<Source>, o: Occurrence)
    ensures o in AllOccurrences(Parts(sources))
            <==> exists i :: 0 <= i < |sources| && o.source == sources[i].name
                             && IsKept(sources[i].rules, sources[i].listing, o.table)
  {
    hide AllOccurrences, Filter, Found, IsKept;
    OccurrenceOf(Parts(sources), o);
    forall i | 0 <= i < |sources|
      ensures o.table in Parts(sources)[i].tables <==> IsKept(sources[i].rules, sources[i].listing, o.table)
    {
      KeptIs(sources[i].rules, sources[i].listing, o.table);
    }
    assert forall i :: 0 <= i < |sources| ==> Parts(sources)[i].source == sources[i].name;
  }

  lemma KeptIsPlain(sources: seq<Source>, o: Occurrence)
    requires exists i :: 0 <= i < |sources| && o.source == sources[i].name
                         && IsKept(sources[i].rules, sources[i].listing, o.table)
    ensures o.table.datasources == []
  {
  }

  /** The snapshot has no other tables than those some source is to keep, none of them by a name the
      operator gave. */
  lemma OnlyKeptTables(p: Policy, sources: seq<Source>, configured: nat, wanted: set<string>, x: Table)
    requires x in Filter(CombinedTables(p, AllOccurrences(Parts(sources)), configured), NotNamedBy(p, wanted))
    ensures p.fold(x.name) !in wanted && (x.schema != "" ==> p.fold(x.schema + "." + x.name) !in wanted)
    ensures exists i :: 0 <= i < |sources| && IsKept(sources[i].rules, sources[i].listing, x.(datasources := []))
  {
    hide CombinedTables, AllOccurrences, Parts, IsKept, Filter, SourcesOf;
    var os := AllOccurrences(Parts(sources));
    var i: nat :| i < |CombinedTables(p, os, configured)| && CombinedTables(p, os, configured)[i] == x;
    CombinedSources(p, os, configured, i);
    var o :| o in os && x == o.table.(datasources := x.datasources);
    OccurrenceIs(sources, o);
    KeptIsPlain(sources, o);
  }

  /** Each table a source is to keep is in it, with that source, unless the operator named it. */
  lemma EveryKeptTable(p: Policy, sources: seq<Source>, configured: nat, wanted: set<string>, i: nat, t: Table)
    requires i < |sources| && IsKept(sources[i].rules, sources[i].listing, t)
    ensures exists x :: x in CombinedTables(p, AllOccurrences(Parts(sources)), configured) && SameTable(p, x, t)
              && (configured > 1 ==> sources[i].name in x.datasources)
              && (x in Filter(CombinedTables(p, AllOccurrences(Parts(sources)), configured), NotNamedBy(p, wanted))
                  || p.fold(x.name) in wanted || (x.schema != "" && p.fold(x.schema + "." + x.name) in wanted))
  {
    hide CombinedTables, AllOccurrences, Parts, IsKept, SourcesOf, Filter;
    var os, o := AllOccurrences(Parts(sources)), Occurrence(t, sources[i].name);
    OccurrenceIs(sources, o);
    var k: nat :| k < |os| && os[k] == o;
    CombinedHasAll(p, os, configured, k);
    var j: nat :| j < |CombinedTables(p, os, configured)|
                  && p.Identity(CombinedTables(p, os, configured)[j]) == p.Identity(os[k].table);
    CombinedSources(p, os, configured, j);
    var x := CombinedTables(p, os, configured)[j];
    assert x in CombinedTables(p, os, configured) && SameTable(p, x, t);
  }

  /** Step 2: sources discovered and combined, then the operator's removal. Every table found is kept
      (once for all sources that have it) or counted under one rule. */
  method Step2(p: Policy, sources: seq<Source>, configured: nat, wanted: set<string>)
    returns (snapshot: Snapshot, report: SkipReport)
    requires Uniform(p, sources)
    ensures fresh(snapshot) && fresh(report)
    ensures snapshot.tables
            == Filter(CombinedTables(p, AllOccurrences(Parts(sources)), configured), NotNamedBy(p, wanted))
    ensures forall x :: x in snapshot.tables ==>
              && p.fold(x.name) !in wanted && (x.schema != "" ==> p.fold(x.schema + "." + x.name) !in wanted)
              && exists i :: 0 <= i < |sources| && IsKept(sources[i].rules, sources[i].listing, x.(datasources := []))
    ensures forall l, t :: l in snapshot.relationships && NamedBy(p, wanted, t)
                           && t in CombinedTables(p, AllOccurrences(Parts(sources)), configured) ==>
                             FromEnd(p, l) != p.Identity(t) && ToEnd(p, l) != p.Identity(t)
    ensures report.found == FoundIn(sources)
    ensures report.found
            == |snapshot.tables| + Repeats(p, AllOccurrences(Parts(sources)))
               + report.Count(System) + report.Count(Configured) + report.Count(Cli) + report.Count(Chosen)
               + report.Count(ConfiguredTables) + report.Count(Staging)
  {
    hide Filter, NamedBy, CombinedLinks, AllOccurrences, FirstOccurrences, SourcesOf, FoundIn, SkippedIn, KeptIn, Parts,
      SkipReport.Count, Uniform, KeepLinks, AllLinks, IsKept;
    snapshot, report := DiscoverAll(p, sources, configured);
    ghost var os, ts, ls := AllOccurrences(Parts(sources)), snapshot.tables, snapshot.relationships;
    CombinedOnce(p, os, configured);
    EveryTableOnceInAll(sources);
    OccurrencesAreKept(sources);
    ExcludeNamed(snapshot, p, wanted, report);
    forall l | l in snapshot.relationships
      ensures FromEnd(p, l) !in NamedIds(p, wanted, ts) && ToEnd(p, l) !in NamedIds(p, wanted, ts)
    {
      NoLinkToDropped(p, ls, NamedIds(p, wanted, ts), l);
    }
    forall x | x in snapshot.tables
      ensures p.fold(x.name) !in wanted && (x.schema != "" ==> p.fold(x.schema + "." + x.name) !in wanted)
      ensures exists i :: 0 <= i < |sources| && IsKept(sources[i].rules, sources[i].listing, x.(datasources := []))
    {
      OnlyKeptTables(p, sources, configured, wanted, x);
    }
  }
}
