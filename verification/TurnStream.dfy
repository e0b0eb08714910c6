/** `_turn_event_stream`: the events of a streamed turn, from the engine's thread to the client's parser. */
module TurnStream {
  import opened Options
  import opened Streaming
  import opened StreamingRuns
  import opened EventStream
  import opened JsonText

  /** The parts of a finished turn the stream reports; the optional ones are absent when the turn has
      none, an empty interpretation counts as none. */
  datatype TurnView = TurnView(resolvedQuestion: string, basis: Json, ambiguity: Json, sql: Option<SqlView>,
                               rows: Option<RowsView>, interpretation: string, llm: Option<Json>,
                               error: Option<ErrorView>, dump: Json)

  datatype SqlView = SqlView(sql: string, display: string, guard: Json)

  datatype RowsView = RowsView(columns: seq<Json>, rows: Json, rowCount: int)

  datatype ErrorView = ErrorView(code: string, message: string, requestId: string)

  /** An event's name and data before `_sse_event`. */
  type Payload = (string, Json)

  function ErrorPayload(e: ErrorView): Payload {
    ("error", Dict([Member("code", Str(e.code)), Member("message", Str(e.message)),
                    Member("request_id", Str(e.requestId))]))
  }

  function SqlPayload(v: SqlView): Payload {
    ("sql", Dict([Member("sql", Str(v.sql)), Member("sql_display", Str(v.display)), Member("guard", v.guard)]))
  }

  function RowsPayload(v: RowsView): Payload {
    ("rows", Dict([Member("columns", List(v.columns)), Member("rows", v.rows), Member("row_count", Int(v.rowCount))]))
  }

  /** The events after the stages. */
  function TurnPayloads(t: TurnView): seq<Payload> {
    [("resolved", Dict([Member("resolved_question", Str(t.resolvedQuestion)), Member("basis", t.basis)]))]
    + [("assumptions", t.ambiguity)]
    + (if t.sql.Some? then [SqlPayload(t.sql.value)] else [])
    + (if t.rows.Some? then [RowsPayload(t.rows.value)] else [])
    + (if t.interpretation != "" then [("interpretation_delta", Dict([Member("text", Str(t.interpretation))]))] else [])
    + (if t.llm.Some? then [("llm", t.llm.value)] else [])
    + (if t.error.Some? then [ErrorPayload(t.error.value)] else [])
    + [("done", Dict([Member("turn", t.dump)]))]
  }

  /** What the generator yields for one item of the draining loop; `failure` is its generic error. */
  function Payloads(m: Message, turn: TurnView, failure: ErrorView): seq<Payload> {
    match m
    case Stage(step, state) => [("stage", Dict([Member("stage", Str(step)), Member("state", Str(state))]))]
    case Turn => TurnPayloads(turn)
    case Failed => [ErrorPayload(failure)]
    case Done => []
  }

  function AllPayloads(output: seq<Message>, turn: TurnView, failure: ErrorView): seq<Payload> {
    if output == [] then [] else Payloads(output[0], turn, failure) + AllPayloads(output[1..], turn, failure)
  }

  /** The events as the frames carry them. */
  function Events(ps: seq<Payload>): seq<Event> {
    seq(|ps|, i requires 0 <= i < |ps| => Event(ps[i].0, Dump(ps[i].1)))
  }

  predicate KnownName(name: string) {
    || name == "stage" || name == "resolved" || name == "assumptions" || name == "sql" || name == "rows"
    || name == "interpretation_delta" || name == "llm" || name == "error" || name == "done"
  }

  predicate Named(ps: seq<Payload>) { forall i :: 0 <= i < |ps| ==> KnownName(ps[i].0) }

  lemma KnownIsOneLine(name: string)
    requires KnownName(name)
    ensures name != "" && OneLine(name)
  {
  }

  lemma NamedIsWritable(ps: seq<Payload>)
    requires Named(ps)
    ensures AllWritable(Events(ps))
  {
    hide Dump, OneLine, KnownName;
    forall i | 0 <= i < |ps| ensures Writable(Events(ps)[i]) {
      KnownIsOneLine(ps[i].0);
      DumpIsOneLine(ps[i].1);
    }
  }

  lemma NamedConcat(a: seq<Payload>, b: seq<Payload>)
    requires Named(a) && Named(b)
    ensures Named(a + b)
  {
    hide KnownName;
  }

  lemma TurnIsNamed(t: TurnView)
    ensures Named(TurnPayloads(t))
  {
  }

  lemma {:induction false} PayloadsAreNamed(output: seq<Message>, turn: TurnView, failure: ErrorView)
    ensures Named(AllPayloads(output, turn, failure))
  {
    if output != [] {
      hide TurnPayloads;
      TurnIsNamed(turn);
      assert Named(Payloads(output[0], turn, failure));
      PayloadsAreNamed(output[1..], turn, failure);
      hide Named, Payloads;
      NamedConcat(Payloads(output[0], turn, failure), AllPayloads(output[1..], turn, failure));
    }
  }

  lemma {:induction false} PayloadsConcat(a: seq<Message>, b: seq<Message>, turn: TurnView, failure: ErrorView)
    ensures AllPayloads(a + b, turn, failure) == AllPayloads(a, turn, failure) + AllPayloads(b, turn, failure)
  {
    hide Payloads;
    if a == [] {
      assert a + b == b;
    } else {
      assert (a + b)[1..] == a[1..] + b;
      PayloadsConcat(a[1..], b, turn, failure);
    }
  }

  lemma LastPayloads(last: Message, turn: TurnView, failure: ErrorView)
    ensures AllPayloads([last], turn, failure) == Payloads(last, turn, failure)
  {
    assert [last][1..] == [];
  }

  /** End to end: what a client of a served streaming request parses off the wire is the engine's
      stage transitions through the step table, in order, then the turn's events or the error. */
  lemma ClientReadsTheTurn(cfg: Config, requests: seq<Spec>, actions: seq<Action>, i: nat,
                           turn: TurnView, failure: ErrorView)
    requires Run(cfg, Initial(cfg, requests), actions).Some? && i < |requests| && requests[i].streaming
    ensures var st := Run(cfg, Initial(cfg, requests), actions).value;
            && |st.streams| == |requests|
            && (st.streams[i].phase.Finished? ==>
                  Parse(Text(Events(AllPayloads(st.streams[i].frames, turn, failure))))
                  == Events(AllPayloads(Mapped(requests[i].script), turn, failure)
                            + if requests[i].turnReturns then TurnPayloads(turn) else [ErrorPayload(failure)]))
  {
    hide Run, Initial, Mapped, TurnPayloads, ErrorPayload, Parse, Text, Events, Named, AllWritable;
    StreamContent(cfg, requests, actions, i);
    var last := if requests[i].turnReturns then Turn else Failed;
    LastPayloads(last, turn, failure);
    PayloadsConcat(Mapped(requests[i].script), [last], turn, failure);
    var all := AllPayloads(Mapped(requests[i].script) + [last], turn, failure);
    PayloadsAreNamed(Mapped(requests[i].script) + [last], turn, failure);
    NamedIsWritable(all);
    RoundTrip(Events(all));
  }

}
