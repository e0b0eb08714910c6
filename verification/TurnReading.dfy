/** What a client learns from the stream of a turn: the events loaded back as JSON, and looked up by
    name and field. */
module TurnReading {
  import opened Options
  import opened Streaming
  import opened StreamingStages
  import opened EventStream
  import opened JsonText
  import opened JsonReading
  import opened TurnStream

  // ---- a client -------------------------------------------------------------------------------

  /** The events whose data is JSON, loaded. */
  function Received(es: seq<Event>): seq<Payload> {
    if es == [] then []
    else
      (match Load(es[0].data) case Some(j) => [(es[0].name, j)] case None => []) + Received(es[1..])
  }

  /** The data of the first event of that name. */
  function Data(ps: seq<Payload>, name: string): Option<Json> {
    if ps == [] then None else if ps[0].0 == name then Some(ps[0].1) else Data(ps[1..], name)
  }

  function Field(members: seq<Member>, key: string): Option<Json> {
    if members == [] then None else if members[0].key == key then Some(members[0].value) else Field(members[1..], key)
  }

  /** One field of the data, which is an object. */
  function Part(data: Option<Json>, key: string): Option<Json> {
    if data.Some? && data.value.Dict? then Field(data.value.members, key) else None
  }

  lemma {:induction false} EventsAreReceived(ps: seq<Payload>)
    ensures Received(Events(ps)) == ps
  {
    hide Load, Dump;
    if ps != [] {
      EventsAreReceived(ps[1..]);
      LoadDump(ps[0].1);
      assert Events(ps)[1..] == Events(ps[1..]);
      assert ps == [ps[0]] + ps[1..];
    }
  }

  // ---- the events of a turn -----------------------------------------------------------------------

  const TURN_EVENTS: seq<string> :=
    ["resolved", "assumptions", "sql", "rows", "interpretation_delta", "llm", "error", "done"]

  function Told(s: string): Option<Json> { Some(Str(s)) }

  ghost predicate TellsSql(data: Option<Json>, sql: Option<SqlView>) {
    && (data.Some? <==> sql.Some?)
    && (sql.Some? ==>
          && Part(data, "sql") == Told(sql.value.sql) && Part(data, "sql_display") == Told(sql.value.display)
          && Part(data, "guard") == Some(sql.value.guard))
  }

  ghost predicate TellsRows(data: Option<Json>, rows: Option<RowsView>) {
    && (data.Some? <==> rows.Some?)
    && (rows.Some? ==>
          && Part(data, "columns") == Some(List(rows.value.columns)) && Part(data, "rows") == Some(rows.value.rows)
          && Part(data, "row_count") == Some(Int(rows.value.rowCount)))
  }

  ghost predicate TellsError(data: Option<Json>, error: Option<ErrorView>) {
    && (data.Some? <==> error.Some?)
    && (error.Some? ==>
          && Part(data, "code") == Told(error.value.code) && Part(data, "message") == Told(error.value.message)
          && Part(data, "request_id") == Told(error.value.requestId))
  }

  /** The events tell the turn: each part under its name and fields, and only the parts the turn has. */
  ghost predicate Tells(ps: seq<Payload>, t: TurnView) {
    && Part(Data(ps, "resolved"), "resolved_question") == Told(t.resolvedQuestion)
    && Part(Data(ps, "resolved"), "basis") == Some(t.basis)
    && Data(ps, "assumptions") == Some(t.ambiguity)
    && TellsSql(Data(ps, "sql"), t.sql) && TellsRows(Data(ps, "rows"), t.rows)
    && (if t.interpretation == "" then Data(ps, "interpretation_delta") == None
        else Part(Data(ps, "interpretation_delta"), "text") == Told(t.interpretation))
    && Data(ps, "llm") == t.llm && TellsError(Data(ps, "error"), t.error)
    && Part(Data(ps, "done"), "turn") == Some(t.dump)
  }

  /** Every name is one of `order`, and they stand in its order, none twice. */
  predicate OnceInOrder(ps: seq<Payload>, order: seq<string>) {
    && (forall i :: 0 <= i < |ps| ==> ps[i].0 in order)
    && forall i, j, a, b ::
         0 <= i < j < |ps| && 0 <= a < |order| && 0 <= b < |order| && ps[i].0 == order[a] && ps[j].0 == order[b] ==>
           a < b
  }

  lemma {:induction false} DataConcat(a: seq<Payload>, b: seq<Payload>, name: string)
    ensures Data(a + b, name) == if Data(a, name).Some? then Data(a, name) else Data(b, name)
  {
    if a == [] {
      assert a + b == b;
    } else {
      assert (a + b)[1..] == a[1..] + b;
      DataConcat(a[1..], b, name);
    }
  }

  function One(p: Option<Payload>): seq<Payload> { match p case Some(e) => [e] case None => [] }

  /** Events that may be missing, one by one. */
  function Present(ps: seq<Option<Payload>>): seq<Payload> {
    if ps == [] then []
    else Present(ps[..|ps| - 1]) + One(ps[|ps| - 1])
  }

  /** Each event that is there has the name of its place. */
  predicate InPlace(ps: seq<Option<Payload>>, order: seq<string>) {
    |ps| == |order| && forall i :: 0 <= i < |ps| && ps[i].Some? ==> ps[i].value.0 == order[i]
  }

  predicate Distinct(order: seq<string>) { forall i, j :: 0 <= i < j < |order| ==> order[i] != order[j] }

  /** The places of the events that are there. */
  function PresentAt(ps: seq<Option<Payload>>): (at: seq<nat>)
    ensures forall k :: 0 <= k < |at| ==> at[k] < |ps| && ps[at[k]].Some?
    ensures forall j, k :: 0 <= j < k < |at| ==> at[j] < at[k]
  {
    if ps == [] then []
    else
      var n := |ps| - 1;
      assert forall k :: 0 <= k < n ==> ps[..n][k] == ps[k];
      if ps[n].Some? then PresentAt(ps[..n]) + [n] else PresentAt(ps[..n])
  }

  lemma {:induction false} PresentStands(ps: seq<Option<Payload>>)
    ensures |Present(ps)| == |PresentAt(ps)|
    ensures forall k :: 0 <= k < |PresentAt(ps)| ==> Present(ps)[k] == ps[PresentAt(ps)[k]].value
  {
    if ps != [] {
      var n := |ps| - 1;
      PresentStands(ps[..n]);
      assert Present(ps) == Present(ps[..n]) + if ps[n].Some? then [ps[n].value] else [];
      assert PresentAt(ps) == PresentAt(ps[..n]) + if ps[n].Some? then [n] else [];
      hide Present, PresentAt;
      forall k | 0 <= k < |PresentAt(ps)| ensures Present(ps)[k] == ps[PresentAt(ps)[k]].value {
        if k < |PresentAt(ps[..n])| {
          assert ps[..n][PresentAt(ps[..n])[k]] == ps[PresentAt(ps[..n])[k]];
        }
      }
    }
  }

  lemma PresentNames(ps: seq<Option<Payload>>, order: seq<string>)
    requires InPlace(ps, order) && Distinct(order)
    ensures OnceInOrder(Present(ps), order)
  {
    var at := PresentAt(ps);
    PresentStands(ps);
    hide Present, PresentAt;
    forall k | 0 <= k < |at| ensures Present(ps)[k].0 == order[at[k]] {
      assert ps[at[k]].Some?;
    }
  }

  lemma {:induction false} NotPresent(ps: seq<Option<Payload>>, name: string)
    requires forall i :: 0 <= i < |ps| && ps[i].Some? ==> ps[i].value.0 != name
    ensures Data(Present(ps), name) == None
  {
    if ps != [] {
      var n := |ps| - 1;
      var last := One(ps[n]);
      NotPresent(ps[..n], name);
      DataConcat(Present(ps[..n]), last, name);
      assert last != [] ==> last[1..] == [];
    }
  }

  lemma OneData(p: Option<Payload>, name: string)
    ensures Data(One(p), name) == if p.Some? && p.value.0 == name then Some(p.value.1) else None
  {
    if p.Some? {
      assert One(p)[1..] == [];
    }
  }

  lemma {:induction false} PresentData(ps: seq<Option<Payload>>, order: seq<string>, i: nat)
    requires InPlace(ps, order) && Distinct(order) && i < |ps|
    ensures Data(Present(ps), order[i]) == match ps[i] case Some(p) => Some(p.1) case None => None
  {
    var n := |ps| - 1;
    assert Present(ps) == Present(ps[..n]) + One(ps[n]);
    hide Present, One, Data;
    DataConcat(Present(ps[..n]), One(ps[n]), order[i]);
    OneData(ps[n], order[i]);
    if i < n {
      PresentData(ps[..n], order[..n], i);
    } else {
      NotPresent(ps[..n], order[n]);
    }
  }

  function Optional<T, U>(x: Option<T>, f: T -> U): Option<U> { if x.Some? then Some(f(x.value)) else None }

  /** The events a turn may have, in place. */
  function Places(t: TurnView): seq<Option<Payload>> {
    [Some(("resolved", Dict([Member("resolved_question", Str(t.resolvedQuestion)), Member("basis", t.basis)]))),
     Some(("assumptions", t.ambiguity)),
     Optional(t.sql, SqlPayload), Optional(t.rows, RowsPayload),
     if t.interpretation != "" then Some(("interpretation_delta", Dict([Member("text", Str(t.interpretation))])))
     else None,
     Optional(t.llm, (j: Json) => ("llm", j)), Optional(t.error, ErrorPayload),
     Some(("done", Dict([Member("turn", t.dump)])))]
  }

  lemma PresentSnoc(ps: seq<Option<Payload>>, p: Option<Payload>)
    ensures Present(ps + [p]) == Present(ps) + One(p)
  {
    assert (ps + [p])[..|ps|] == ps;
  }

  lemma EightAre<T>(a: T, b: T, c: T, d: T, e: T, f: T, g: T, h: T)
    ensures [a, b, c, d, e, f, g, h] == [] + [a] + [b] + [c] + [d] + [e] + [f] + [g] + [h]
  {
  }

  lemma NothingPresent()
    ensures Present([]) == []
  {
  }

  lemma PresentEight(a: Option<Payload>, b: Option<Payload>, c: Option<Payload>, d: Option<Payload>,
                     e: Option<Payload>, f: Option<Payload>, g: Option<Payload>, h: Option<Payload>)
    ensures Present([a, b, c, d, e, f, g, h])
            == [] + One(a) + One(b) + One(c) + One(d) + One(e) + One(f) + One(g) + One(h)
  {
    NothingPresent();
    hide Present, One;
    EightAre(a, b, c, d, e, f, g, h);
    PresentSnoc([], a);
    PresentSnoc([] + [a], b);
    PresentSnoc([] + [a] + [b], c);
    PresentSnoc([] + [a] + [b] + [c], d);
    PresentSnoc([] + [a] + [b] + [c] + [d], e);
    PresentSnoc([] + [a] + [b] + [c] + [d] + [e], f);
    PresentSnoc([] + [a] + [b] + [c] + [d] + [e] + [f], g);
    PresentSnoc([] + [a] + [b] + [c] + [d] + [e] + [f] + [g], h);
  }

  lemma TurnIsPresent(t: TurnView)
    ensures TurnPayloads(t) == Present(Places(t))
  {
    hide Present, SqlPayload, RowsPayload, ErrorPayload;
    var ps := Places(t);
    PresentEight(ps[0], ps[1], ps[2], ps[3], ps[4], ps[5], ps[6], ps[7]);
    assert ps == [ps[0], ps[1], ps[2], ps[3], ps[4], ps[5], ps[6], ps[7]];
    assert [] + One(ps[0]) == One(ps[0]);
  }

  lemma TurnPlaces(t: TurnView)
    ensures InPlace(Places(t), TURN_EVENTS) && Distinct(TURN_EVENTS)
  {
  }

  lemma FieldsOfTwo(a: Member, b: Member)
    requires a.key != b.key
    ensures Field([a, b], a.key) == Some(a.value) && Field([a, b], b.key) == Some(b.value)
  {
    assert [a, b][1..] == [b];
  }

  lemma FieldsOfThree(a: Member, b: Member, c: Member)
    requires a.key != b.key && a.key != c.key && b.key != c.key
    ensures Field([a, b, c], a.key) == Some(a.value) && Field([a, b, c], b.key) == Some(b.value)
    ensures Field([a, b, c], c.key) == Some(c.value)
  {
    assert [a, b, c][1..] == [b, c];
    FieldsOfTwo(b, c);
  }

  lemma SqlIsTold(v: SqlView)
    ensures TellsSql(Some(SqlPayload(v).1), Some(v))
  {
    FieldsOfThree(Member("sql", Str(v.sql)), Member("sql_display", Str(v.display)), Member("guard", v.guard));
  }

  lemma RowsAreTold(v: RowsView)
    ensures TellsRows(Some(RowsPayload(v).1), Some(v))
  {
    FieldsOfThree(Member("columns", List(v.columns)), Member("rows", v.rows), Member("row_count", Int(v.rowCount)));
  }

  lemma ErrorIsTold(v: ErrorView)
    ensures TellsError(Some(ErrorPayload(v).1), Some(v))
  {
    FieldsOfThree(Member("code", Str(v.code)), Member("message", Str(v.message)),
                  Member("request_id", Str(v.requestId)));
  }

  lemma PlaceIsTold(t: TurnView, i: nat, name: string)
    requires i < |TURN_EVENTS| && TURN_EVENTS[i] == name
    ensures Data(TurnPayloads(t), name) == match Places(t)[i] case Some(p) => Some(p.1) case None => None
  {
    hide Places, TURN_EVENTS, Present, Data, TurnPayloads;
    TurnIsPresent(t);
    TurnPlaces(t);
    PresentData(Places(t), TURN_EVENTS, i);
  }

  lemma EventsOfTurn(t: TurnView)
    ensures OnceInOrder(TurnPayloads(t), TURN_EVENTS)
  {
    hide Places, TURN_EVENTS, Present, TurnPayloads, OnceInOrder;
    TurnIsPresent(t);
    TurnPlaces(t);
    PresentNames(Places(t), TURN_EVENTS);
  }

  lemma NothingIsTold()
    ensures TellsSql(None, None) && TellsRows(None, None) && TellsError(None, None)
  {
  }

  /** The client learns every part of the turn, and the events come in one order, none twice. */
  lemma TurnIsTold(t: TurnView)
    ensures Tells(TurnPayloads(t), t) && OnceInOrder(TurnPayloads(t), TURN_EVENTS)
  {
    hide Data, OnceInOrder, TurnPayloads, TellsSql, TellsRows, TellsError, SqlPayload, RowsPayload, ErrorPayload;
    EventsOfTurn(t);
    PlaceIsTold(t, 0, "resolved");
    PlaceIsTold(t, 1, "assumptions");
    PlaceIsTold(t, 2, "sql");
    PlaceIsTold(t, 3, "rows");
    PlaceIsTold(t, 4, "interpretation_delta");
    PlaceIsTold(t, 5, "llm");
    PlaceIsTold(t, 6, "error");
    PlaceIsTold(t, 7, "done");
    FieldsOfTwo(Member("resolved_question", Str(t.resolvedQuestion)), Member("basis", t.basis));
    if t.sql.Some? { SqlIsTold(t.sql.value); } else { assert TellsSql(None, None) by { NothingIsTold(); } }
    if t.rows.Some? { RowsAreTold(t.rows.value); } else { assert TellsRows(None, None) by { NothingIsTold(); } }
    if t.error.Some? { ErrorIsTold(t.error.value); } else { assert TellsError(None, None) by { NothingIsTold(); } }
  }

  // ---- the whole stream ---------------------------------------------------------------------------

  /** A stage event with its step and state. */
  ghost predicate TellsStage(p: Payload, step: string, state: string) {
    p.0 == "stage" && Part(Some(p.1), "stage") == Told(step) && Part(Some(p.1), "state") == Told(state)
  }

  ghost predicate TellsTransition(p: Payload, t: Transition) {
    exists step: string :: ShownAs(t.stage, step) && TellsStage(p, step, t.state)
  }

  /** Event `k` tells the step of the `k`-th transition that has one, with its state. */
  ghost predicate TellsStages(ps: seq<Payload>, script: seq<Transition>) {
    && |ps| == |Positions(script)|
    && forall k :: 0 <= k < |ps| ==> TellsTransition(ps[k], script[Positions(script)[k]])
  }

  lemma StageIsTold(m: Message, turn: TurnView, failure: ErrorView)
    requires m.Stage?
    ensures var ps := Payloads(m, turn, failure); |ps| == 1 && TellsStage(ps[0], m.step, m.state)
  {
    FieldsOfTwo(Member("stage", Str(m.step)), Member("state", Str(m.state)));
  }

  lemma {:induction false} StagePayloads(stages: seq<Message>, turn: TurnView, failure: ErrorView)
    requires forall k :: 0 <= k < |stages| ==> stages[k].Stage?
    ensures var ps := AllPayloads(stages, turn, failure);
            |ps| == |stages| && forall k :: 0 <= k < |ps| ==> TellsStage(ps[k], stages[k].step, stages[k].state)
  {
    hide TurnPayloads, TellsStage;
    if stages != [] {
      StageIsTold(stages[0], turn, failure);
      StagePayloads(stages[1..], turn, failure);
    }
  }

  lemma StagesAreTold(script: seq<Transition>, stages: seq<Message>, turn: TurnView, failure: ErrorView)
    requires Shows(script, stages)
    ensures TellsStages(AllPayloads(stages, turn, failure), script)
  {
    hide AllPayloads, TellsStage, ShownAs;
    StagePayloads(stages, turn, failure);
    var ps := AllPayloads(stages, turn, failure);
    forall k | 0 <= k < |ps| ensures TellsTransition(ps[k], script[Positions(script)[k]]) {
      var t, step := script[Positions(script)[k]], stages[k].step;
      assert ShownAs(t.stage, step) && TellsStage(ps[k], step, t.state);
    }
  }

  lemma ErrorHasItsName(e: ErrorView)
    ensures ErrorPayload(e).0 == "error"
  {
  }

  lemma EndIsTold(turnReturns: bool, turn: TurnView, failure: ErrorView)
    ensures var ps := Payloads(if turnReturns then Turn else Failed, turn, failure);
            if turnReturns then Tells(ps, turn) && OnceInOrder(ps, TURN_EVENTS)
            else |ps| == 1 && ps[0].0 == "error" && TellsError(Some(ps[0].1), Some(failure))
  {
    hide Tells, OnceInOrder, TurnPayloads, ErrorPayload, TellsError;
    TurnIsTold(turn);
    ErrorIsTold(failure);
    ErrorHasItsName(failure);
  }

  lemma EndIsNotEmpty(m: Message, turn: TurnView, failure: ErrorView)
    requires m.Turn? || m.Failed?
    ensures Payloads(m, turn, failure) != []
  {
  }

  lemma StagesAreAsMany(ps: seq<Payload>, script: seq<Transition>)
    requires TellsStages(ps, script)
    ensures |ps| == |Positions(script)|
  {
  }

  /** Parsing and loading the text gives the payloads written. */
  lemma WireGives(frames: seq<Message>, turn: TurnView, failure: ErrorView)
    ensures Received(Parse(Text(Events(AllPayloads(frames, turn, failure))))) == AllPayloads(frames, turn, failure)
  {
    hide Parse, Text, Received, AllPayloads, Events, AllWritable, Named;
    var ps := AllPayloads(frames, turn, failure);
    PayloadsAreNamed(frames, turn, failure);
    NamedIsWritable(ps);
    RoundTrip(Events(ps));
    EventsAreReceived(ps);
  }

  /** End to end: the client of a finished streaming request loads off the wire one event for each stage
      that has a step, in the engine's order, and then the events that tell the turn, or the one error. */
  lemma ClientLearnsTheTurn(cfg: Config, requests: seq<Spec>, actions: seq<Action>, i: nat,
                            turn: TurnView, failure: ErrorView)
    requires Run(cfg, Initial(cfg, requests), actions).Some? && i < |requests| && requests[i].streaming
    ensures var st := Run(cfg, Initial(cfg, requests), actions).value;
            && |st.streams| == |requests|
            && (st.streams[i].phase.Finished? ==>
                  var got := Received(Parse(Text(Events(AllPayloads(st.streams[i].frames, turn, failure)))));
                  var n := |Positions(requests[i].script)|;
                  && n < |got| && TellsStages(got[..n], requests[i].script)
                  && if requests[i].turnReturns then Tells(got[n..], turn) && OnceInOrder(got[n..], TURN_EVENTS)
                     else |got| == n + 1 && got[n].0 == "error" && TellsError(Some(got[n].1), Some(failure)))
  {
    hide Run, Initial, TurnPayloads, ErrorPayload, Parse, Text, Events, Received, Tells, TellsStages, TellsError,
      OnceInOrder, Shows, Payloads, AllPayloads;
    FinishedShows(cfg, requests, actions, i);
    var st := Run(cfg, Initial(cfg, requests), actions).value;
    if st.streams[i].phase.Finished? {
      var frames := st.streams[i].frames;
      var m := |frames| - 1;
      var stages, end := AllPayloads(frames[..m], turn, failure), Payloads(frames[m], turn, failure);
      StagesAreTold(requests[i].script, frames[..m], turn, failure);
      EndIsTold(requests[i].turnReturns, turn, failure);
      assert frames == frames[..m] + [frames[m]];
      PayloadsConcat(frames[..m], [frames[m]], turn, failure);
      LastPayloads(frames[m], turn, failure);
      WireGives(frames, turn, failure);
      var n := |Positions(requests[i].script)|;
      StagesAreAsMany(stages, requests[i].script);
      assert (stages + end)[..n] == stages && (stages + end)[n..] == end;
      EndIsNotEmpty(frames[m], turn, failure);
    }
  }

}
