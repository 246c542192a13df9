/** The response envelope, its wire size and its cap (src/arknights_mcp/mcp/envelopes.py). */
module Envelope {
  import opened Json
  import opened JsonText
  import opened Shed
  import opened PayloadHygiene

  const MAX_RESPONSE_BYTES: int := 200_000
  const JSONRPC_FRAMING_BYTES: int := 64

  datatype Status =
    | OkStatus | Partial | NotFound | Ambiguous | InvalidInput | UnsupportedServer | DataStale
    | DatabaseUnavailable | SchemaIncompatible | AnalysisUnavailable | InternalError

  function StatusText(s: Status): string {
    match s
    case OkStatus => "ok"
    case Partial => "partial"
    case NotFound => "not_found"
    case Ambiguous => "ambiguous"
    case InvalidInput => "invalid_input"
    case UnsupportedServer => "unsupported_server"
    case DataStale => "data_stale"
    case DatabaseUnavailable => "database_unavailable"
    case SchemaIncompatible => "schema_incompatible"
    case AnalysisUnavailable => "analysis_unavailable"
    case InternalError => "internal_error"
  }

  datatype Provenance = Provenance(server: string, snapshotId: string, importedAt: string) {
    function ToDict(): Value {
      Obj([("server", Str(server)), ("snapshot_id", Str(snapshotId)), ("imported_at", Str(importedAt))])
    }
  }

  function Dicts(ps: seq<Provenance>): seq<Value> {
    if ps == [] then [] else [ps[0].ToDict()] + Dicts(ps[1..])
  }

  function Strings(ls: seq<string>): seq<Value> {
    if ls == [] then [] else [Str(ls[0])] + Strings(ls[1..])
  }

  /** Every source and every limitation is in the document, in order. */
  lemma {:induction false} ListsAreKept(ps: seq<Provenance>, ls: seq<string>)
    ensures |Dicts(ps)| == |ps| && |Strings(ls)| == |ls|
    ensures forall i :: 0 <= i < |ps| ==>
              Dicts(ps)[i] == Obj([("server", Str(ps[i].server)), ("snapshot_id", Str(ps[i].snapshotId)),
                                   ("imported_at", Str(ps[i].importedAt))])
    ensures forall i :: 0 <= i < |ls| ==> Strings(ls)[i] == Str(ls[i])
    decreases |ps| + |ls|
  {
    if ps != [] {
      ListsAreKept(ps[1..], ls);
    } else if ls != [] {
      ListsAreKept(ps, ls[1..]);
    }
  }

  type Payload = seq<(string, Value)>

  function Body(schemaVersion: string, status: string, rest: Payload): Value {
    Obj([("schema_version", Str(schemaVersion)), ("status", Str(status))] + rest)
  }

  function ResultFrame(mirror: string, body: Value): Value {
    Obj([("content", Arr([Obj([("type", Str("text")), ("text", Str(mirror))])])),
         ("structuredContent", body),
         ("isError", Bool(false))])
  }

  datatype ResponseEnvelope = ResponseEnvelope(
    status: Status, data: Payload, provenance: seq<Provenance>, limitations: seq<string>,
    analyzerVersion: Option<string>, schemaVersion: string)
  {
    /** Everything after the status, in contract order. */
    function Rest(): Payload {
      [("data", Obj(data)),
       ("provenance", Arr(Dicts(provenance))),
       ("limitations", Arr(Strings(limitations)))]
      + match analyzerVersion case Some(v) => [("analyzer_version", Str(v))] case None => []
    }

    function ToDict(): Value { Body(schemaVersion, StatusText(status), Rest()) }

    /** `mirror_text`. */
    function MirrorText(repr: real -> string): string { Dumps(ToDict(), Style(false, true), repr) }

    /** The `tools/call` result: both copies of the envelope. */
    function Frame(repr: real -> string): Value {
      ResultFrame(MirrorText(repr), ToDict())
    }

    function WireSize(repr: real -> string): int {
      Bytes(Dumps(Frame(repr), WORST, repr)) + JSONRPC_FRAMING_BYTES
    }
  }

  // ---------------------------------------------------------------- the measure bounds the message

  /** The JSON-RPC message a client receives. */
  function Message(id: Value, result: Value): Value {
    Obj([("jsonrpc", Str("2.0")), ("id", id), ("result", result)])
  }

  function WorstIdBytes(id: Value, repr: real -> string): nat { Bytes(Dumps(id, WORST, repr)) }

  lemma FieldsCons(f: (string, Value), rest: Payload, repr: real -> string)
    ensures Bytes(DumpsFields([f] + rest, WORST, repr))
         == FieldBytes(f, repr) + (if rest == [] then 0 else 2) + Bytes(DumpsFields(rest, WORST, repr))
  {
    assert ([f] + rest)[1..] == rest;
    SeparatorsWorst(WORST);
    QuoteBytes(f.0, true);
    BracketBytes(Quote(f.0, true), ": ", Dumps(f.1, WORST, repr));
    BracketBytes(DumpsField(f, WORST, repr), if rest == [] then "" else ", ", DumpsFields(rest, WORST, repr));
  }

  /** Quotes, colon, space, key and value. */
  function FieldBytes(f: (string, Value), repr: real -> string): int {
    Bytes(Escape(f.0, true)) + 4 + Bytes(Dumps(f.1, WORST, repr))
  }

  lemma ObjBytes(fields: Payload, repr: real -> string)
    ensures Bytes(Dumps(Obj(fields), WORST, repr)) == Bytes(DumpsFields(fields, WORST, repr)) + 2
  {
    BracketBytes("{", DumpsFields(fields, WORST, repr), "}");
    assert Bytes("{") == 1 && Bytes("}") == 1;
  }

  lemma ThreeFields(a: (string, Value), b: (string, Value), c: (string, Value), repr: real -> string)
    ensures Bytes(Dumps(Obj([a, b, c]), WORST, repr))
         == FieldBytes(a, repr) + FieldBytes(b, repr) + FieldBytes(c, repr) + 6
  {
    assert [c] + [] == [c] && [b] + [c] == [b, c] && [a] + [b, c] == [a, b, c];
    FieldsCons(c, [], repr);
    FieldsCons(b, [c], repr);
    FieldsCons(a, [b, c], repr);
    ObjBytes([a, b, c], repr);
  }

  lemma ThreePlainFields(k: string, v: Value, l: string, w: Value, m: string, x: Value, repr: real -> string)
    requires Plain(k) && Plain(l) && Plain(m)
    ensures Bytes(Dumps(Obj([(k, v), (l, w), (m, x)]), WORST, repr))
         == |k| + |l| + |m| + 18
            + Bytes(Dumps(v, WORST, repr)) + Bytes(Dumps(w, WORST, repr)) + Bytes(Dumps(x, WORST, repr))
  {
    ThreeFields((k, v), (l, w), (m, x), repr);
    PlainText(k, true);
    PlainText(l, true);
    PlainText(m, true);
  }

  lemma PlainStr(s: string, repr: real -> string)
    requires Plain(s)
    ensures Bytes(Dumps(Str(s), WORST, repr)) == |s| + 2
  {
    PlainText(s, true);
    QuoteBytes(s, true);
  }

  /** The framing around the result is 38 bytes and the id. */
  lemma MessageBytes(id: Value, result: Value, repr: real -> string)
    ensures Bytes(Dumps(Message(id, result), WORST, repr))
         == Bytes(Dumps(result, WORST, repr)) + 38 + WorstIdBytes(id, repr)
  {
    ThreePlainFields("jsonrpc", Str("2.0"), "id", id, "result", result, repr);
    PlainStr("2.0", repr);
  }

  /** Printable ASCII without quotes and backslashes: the same in every form, one byte each. */
  predicate Plain(s: string) {
    forall i :: 0 <= i < |s| ==> ' ' <= s[i] <= '~' && s[i] != '\"' && s[i] != '\\'
  }

  lemma {:induction false} PlainText(s: string, ascii: bool)
    requires Plain(s)
    ensures Escape(s, ascii) == s && Bytes(s) == |s|
  {
    if s != "" {
      PlainText(s[1..], ascii);
      assert EscapeChar(s[0], ascii) == [s[0]];
      assert s == [s[0]] + s[1..];
    }
  }

  /** However the message is written, `wire_size` covers it: exactly for the ids of at most 26 bytes. */
  lemma WireSizeCoversTheMessage(e: ResponseEnvelope, id: Value, repr: real -> string)
    ensures (forall st: Style :: Bytes(Dumps(Message(id, e.Frame(repr)), st, repr)) <= e.WireSize(repr))
            <==> WorstIdBytes(id, repr) <= 26
  {
    var frame := e.Frame(repr);
    MessageBytes(id, frame, repr);
    assert e.WireSize(repr) == Bytes(Dumps(frame, WORST, repr)) + 64;
    CoversExactly(id, frame, repr);
  }

  lemma CoversExactly(id: Value, frame: Value, repr: real -> string)
    ensures (forall st: Style :: Bytes(Dumps(Message(id, frame), st, repr)) <= Bytes(Dumps(frame, WORST, repr)) + 64)
            <==> WorstIdBytes(id, repr) <= 26
  {
    MessageBytes(id, frame, repr);
    forall st: Style
      ensures Bytes(Dumps(Message(id, frame), st, repr)) <= Bytes(Dumps(Message(id, frame), WORST, repr))
    {
      DumpsWorst(Message(id, frame), st, repr);
    }
  }

  // ---------------------------------------------------------------- rewriting the status

  lemma TextBlockBytes(mirror: string, repr: real -> string)
    ensures Bytes(Dumps(Arr([Obj([("type", Str("text")), ("text", Str(mirror))])]), WORST, repr))
         == Bytes(Escape(mirror, true)) + 30
  {
    TwoPlainFields("type", Str("text"), "text", Str(mirror), repr);
    PlainStr("text", repr);
    QuoteBytes(mirror, true);
    OneItem(Obj([("type", Str("text")), ("text", Str(mirror))]), repr);
  }

  lemma OneItem(v: Value, repr: real -> string)
    ensures Bytes(Dumps(Arr([v]), WORST, repr)) == Bytes(Dumps(v, WORST, repr)) + 2
  {
    BracketBytes(Dumps(v, WORST, repr), "", DumpsItems([v][1..], WORST, repr));
    BracketBytes("[", DumpsItems([v], WORST, repr), "]");
    assert Bytes("[") == 1 && Bytes("]") == 1;
  }

  lemma TwoPlainFields(k: string, v: Value, l: string, w: Value, repr: real -> string)
    requires Plain(k) && Plain(l)
    ensures Bytes(Dumps(Obj([(k, v), (l, w)]), WORST, repr))
         == |k| + |l| + 12 + Bytes(Dumps(v, WORST, repr)) + Bytes(Dumps(w, WORST, repr))
  {
    var a, b := (k, v), (l, w);
    assert [b] + [] == [b] && [a] + [b] == [a, b];
    FieldsCons(b, [], repr);
    FieldsCons(a, [b], repr);
    ObjBytes([a, b], repr);
    PlainText(k, true);
    PlainText(l, true);
  }

  lemma FrameKeysArePlain()
    ensures Plain("content") && Plain("structuredContent") && Plain("isError")
  {
  }

  /** The frame holds the escaped mirror once and the body once. */
  lemma FrameBytes(mirror: string, body: Value, repr: real -> string)
    ensures Bytes(Dumps(ResultFrame(mirror, body), WORST, repr))
         == Bytes(Escape(mirror, true)) + Bytes(Dumps(body, WORST, repr)) + 84
  {
    TextBlockBytes(mirror, repr);
    FrameKeysArePlain();
    ThreePlainFields("content", Arr([Obj([("type", Str("text")), ("text", Str(mirror))])]),
      "structuredContent", body, "isError", Bool(false), repr);
    assert Bytes("false") == 5;
  }

  const MIRROR: Style := Style(false, true)

  /** What a text costs on the wire: inside the mirror string it is escaped once more. */
  function Cost(s: string, mirrored: bool): nat { if mirrored then Bytes(Escape(s, true)) else Bytes(s) }

  lemma CostAppend(s: string, t: string, mirrored: bool)
    ensures Cost(s + t, mirrored) == Cost(s, mirrored) + Cost(t, mirrored)
  {
    if mirrored {
      FlatMapAppend(Escaper(true), s, t);
      BytesAppend(Escape(s, true), Escape(t, true));
    } else {
      BytesAppend(s, t);
    }
  }

  lemma CostAround(a: string, s: string, b: string, mirrored: bool)
    ensures Cost(a + s + b, mirrored) == Cost(a, mirrored) + Cost(s, mirrored) + Cost(b, mirrored)
  {
    CostAppend(a + s, b, mirrored);
    CostAppend(a, s, mirrored);
  }

  function CostOf(v: Value, st: Style, mirrored: bool, repr: real -> string): int { Cost(Dumps(v, st, repr), mirrored) }

  /** Writing w for v under some key changes the cost of an object by the difference of v and w. */
  lemma ReplaceField(pre: Payload, key: string, v: Value, w: Value, post: Payload, st: Style, mirrored: bool,
                     repr: real -> string)
    ensures CostOf(Obj(pre + [(key, w)] + post), st, mirrored, repr) - CostOf(w, st, mirrored, repr)
         == CostOf(Obj(pre + [(key, v)] + post), st, mirrored, repr) - CostOf(v, st, mirrored, repr)
  {
    ReplaceInFields(pre, key, v, w, post, st, mirrored, repr);
    CostAround("{", DumpsFields(pre + [(key, v)] + post, st, repr), "}", mirrored);
    CostAround("{", DumpsFields(pre + [(key, w)] + post, st, repr), "}", mirrored);
  }

  lemma {:induction false} ReplaceInFields(pre: Payload, key: string, v: Value, w: Value, post: Payload, st: Style,
                                           mirrored: bool, repr: real -> string)
    ensures Cost(DumpsFields(pre + [(key, w)] + post, st, repr), mirrored) - CostOf(w, st, mirrored, repr)
         == Cost(DumpsFields(pre + [(key, v)] + post, st, repr), mirrored) - CostOf(v, st, mirrored, repr)
  {
    if pre == [] {
      assert pre + [(key, v)] + post == [(key, v)] + post && pre + [(key, w)] + post == [(key, w)] + post;
      ConsCost((key, v), post, st, mirrored, repr);
      ConsCost((key, w), post, st, mirrored, repr);
      CostAround(Quote(key, st.ascii), Colon(st), Dumps(v, st, repr), mirrored);
      CostAround(Quote(key, st.ascii), Colon(st), Dumps(w, st, repr), mirrored);
    } else {
      var rest := pre[1..];
      ReplaceInFields(rest, key, v, w, post, st, mirrored, repr);
      assert pre + [(key, v)] + post == [pre[0]] + (rest + [(key, v)] + post);
      assert pre + [(key, w)] + post == [pre[0]] + (rest + [(key, w)] + post);
      ConsCost(pre[0], rest + [(key, v)] + post, st, mirrored, repr);
      ConsCost(pre[0], rest + [(key, w)] + post, st, mirrored, repr);
    }
  }

  lemma ConsCost(f: (string, Value), rest: Payload, st: Style, mirrored: bool, repr: real -> string)
    ensures Cost(DumpsFields([f] + rest, st, repr), mirrored)
         == Cost(DumpsField(f, st, repr), mirrored) + Cost(if rest == [] then "" else Comma(st), mirrored)
            + Cost(DumpsFields(rest, st, repr), mirrored)
  {
    assert ([f] + rest)[1..] == rest;
    CostAround(DumpsField(f, st, repr), if rest == [] then "" else Comma(st), DumpsFields(rest, st, repr), mirrored);
  }

  lemma PlainCost(t: string, st: Style, mirrored: bool, repr: real -> string)
    requires Plain(t)
    ensures CostOf(Str(t), st, mirrored, repr) == |t| + 2 * Cost("\"", mirrored)
  {
    PlainText(t, st.ascii);
    PlainText(t, true);
    CostAround("\"", t, "\"", mirrored);
  }

  function BodySize(body: Value, repr: real -> string): int {
    CostOf(body, MIRROR, true, repr) + CostOf(body, WORST, false, repr) + 84 + JSONRPC_FRAMING_BYTES
  }

  lemma WireSizeIsBodySize(e: ResponseEnvelope, repr: real -> string)
    ensures e.WireSize(repr) == BodySize(e.ToDict(), repr)
  {
    FrameBytes(e.MirrorText(repr), e.ToDict(), repr);
  }

  lemma PlainFieldCostsTwice(pre: Payload, key: string, t: string, u: string, post: Payload, repr: real -> string)
    requires Plain(t) && Plain(u)
    ensures BodySize(Obj(pre + [(key, Str(u))] + post), repr)
         == BodySize(Obj(pre + [(key, Str(t))] + post), repr) + 2 * (|u| - |t|)
  {
    PlainCost(t, MIRROR, true, repr);
    PlainCost(u, MIRROR, true, repr);
    PlainCost(t, WORST, false, repr);
    PlainCost(u, WORST, false, repr);
    ReplaceField(pre, key, Str(t), Str(u), post, MIRROR, true, repr);
    ReplaceField(pre, key, Str(t), Str(u), post, WORST, false, repr);
  }

  predicate IsLookupStatus(s: Status) {
    s.OkStatus? || s.Partial? || s.NotFound? || s.Ambiguous? || s.InvalidInput? || s.DataStale?
  }

  lemma ServiceStatusIsPlain(s: Status)
    requires !IsLookupStatus(s) && !IsDataStatus(s)
    ensures Plain(StatusText(s))
  {
    assert s.UnsupportedServer? ==> Plain("unsupported_server");
    assert s.InternalError? ==> Plain("internal_error");
  }

  predicate IsDataStatus(s: Status) { s.DatabaseUnavailable? || s.SchemaIncompatible? || s.AnalysisUnavailable? }

  lemma DataStatusIsPlain(s: Status)
    requires IsDataStatus(s)
    ensures Plain(StatusText(s))
  {
    assert s.DatabaseUnavailable? ==> Plain("database_unavailable");
    assert s.SchemaIncompatible? ==> Plain("schema_incompatible");
    assert s.AnalysisUnavailable? ==> Plain("analysis_unavailable");
  }

  lemma StatusIsPlain(s: Status)
    ensures Plain(StatusText(s))
  {
    if IsDataStatus(s) {
      DataStatusIsPlain(s);
    } else if !IsLookupStatus(s) {
      ServiceStatusIsPlain(s);
    }
  }

  /** The status is on the wire twice, so a status k letters longer costs exactly 2k bytes. */
  lemma StatusCostsTwice(e: ResponseEnvelope, s: Status, repr: real -> string)
    ensures e.(status := s).WireSize(repr) == e.WireSize(repr) + 2 * (|StatusText(s)| - |StatusText(e.status)|)
  {
    WireSizeIsBodySize(e, repr);
    WireSizeIsBodySize(e.(status := s), repr);
    StatusIsPlain(e.status);
    StatusIsPlain(s);
    var first, rest := [("schema_version", Str(e.schemaVersion))], e.Rest();
    SplitBody(e.schemaVersion, StatusText(e.status), rest);
    SplitBody(e.schemaVersion, StatusText(s), rest);
    assert e.(status := s).ToDict() == Body(e.schemaVersion, StatusText(s), rest);
    PlainFieldCostsTwice(first, "status", StatusText(e.status), StatusText(s), rest, repr);
  }

  lemma SplitBody(schema: string, t: string, rest: Payload)
    ensures Body(schema, t, rest) == Obj([("schema_version", Str(schema))] + [("status", Str(t))] + rest)
  {
  }

  // ---------------------------------------------------------------- the cap

  const EXCEEDED: string := "response exceeded the 200 "
  const WITHHELD: string := "KB cap and was withheld; "
  const NARROW: string := "narrow the query or request less detail "
  const KNOBS: string := "(include flags / pagination)"

  /** `_cap_limitation`. */
  const CAP_LIMITATION: string := EXCEEDED + WITHHELD + NARROW + KNOBS

  datatype ShedFrame = ShedFrame(payload: Payload, limitations: seq<string>)

  function Rebuild(e: ResponseEnvelope, frame: ShedFrame): ResponseEnvelope {
    e.(data := frame.payload, limitations := frame.limitations)
  }

  function Fits(e: ResponseEnvelope, repr: real -> string): ShedFrame -> bool {
    frame => Rebuild(e, frame).WireSize(repr) <= MAX_RESPONSE_BYTES
  }

  function Withheld(e: ResponseEnvelope): ResponseEnvelope {
    e.(status := Partial, data := [], limitations := e.limitations + [CAP_LIMITATION])
  }

  /** How an answer left the chokepoint. */
  datatype Outcome = Unchanged | ShedAt(step: nat, depth: int) | Floor

  /** The three answers of `_enforce_cap`, with the exact size of the second. */
  ghost predicate Answers(e: ResponseEnvelope, plan: Plan<ShedFrame>, repr: real -> string, r: ResponseEnvelope,
                          how: Outcome)
  {
    var frame := ShedFrame(e.data, e.limitations);
    match how
    case Unchanged => r == e && e.WireSize(repr) <= MAX_RESPONSE_BYTES
    case ShedAt(k, d) =>
      && e.WireSize(repr) > MAX_RESPONSE_BYTES && IsCandidate(plan, frame, k, d)
      && (Monotone(plan, frame, Fits(e, repr)) ==> FirstFitting(plan, frame, Fits(e, repr), k, d))
      && var f := Candidate(plan, frame, k, d);
         var g := ResponseEnvelope(e.status, f.payload, e.provenance, f.limitations, e.analyzerVersion,
                                   e.schemaVersion);
         && g.WireSize(repr) <= MAX_RESPONSE_BYTES
         && r == (if SectionShed(plan, frame, k) then g.(status := Partial) else g)
         && r.WireSize(repr) == g.WireSize(repr)
                                + (if SectionShed(plan, frame, k) then 2 * (7 - |StatusText(e.status)|) else 0)
    case Floor =>
      && e.WireSize(repr) > MAX_RESPONSE_BYTES
      && r == ResponseEnvelope(Partial, [], e.provenance, e.limitations + [CAP_LIMITATION], e.analyzerVersion,
                               e.schemaVersion)
      && (Monotone(plan, frame, Fits(e, repr)) ==> NothingFits(plan, frame, Fits(e, repr), |plan|))
  }

  ghost predicate Answered(e: ResponseEnvelope, plan: Plan<ShedFrame>, repr: real -> string, r: ResponseEnvelope) {
    exists how :: Answers(e, plan, repr, r, how)
  }

  /** `_enforce_cap`, lines 320-369. */
  method EnforceCap(e: ResponseEnvelope, plan: Plan<ShedFrame>, repr: real -> string)
    returns (r: ResponseEnvelope)
    ensures Answered(e, plan, repr, r)
  {
    if e.WireSize(repr) <= MAX_RESPONSE_BYTES {
      assert Answers(e, plan, repr, e, Unchanged);
      return e;
    }
    var fits := Fits(e, repr);
    var shed, k, d := ShedToFit(ShedFrame(e.data, e.limitations), plan, fits);
    if shed.Some? {
      var (frame, sectionShed) := shed.value;
      var fitted := Rebuild(e, frame);
      StatusCostsTwice(fitted, Partial, repr);
      r := if sectionShed then fitted.(status := Partial) else fitted;
      assert Answers(e, plan, repr, r, ShedAt(k, d));
      return;
    }
    r := Withheld(e);
    assert Answers(e, plan, repr, r, Floor);
  }

  /** What the client is told, whichever way the cap was met: sources and versions stay, a shed answer
      carries payload and limitations of its frame, and a withheld one says so. */
  lemma AnswerTells(e: ResponseEnvelope, plan: Plan<ShedFrame>, repr: real -> string, r: ResponseEnvelope)
    requires Answered(e, plan, repr, r)
    ensures r.provenance == e.provenance && r.analyzerVersion == e.analyzerVersion && r.schemaVersion == e.schemaVersion
    ensures var frame := ShedFrame(e.data, e.limitations);
            r == e || (r.status.Partial? && r.data == [] && r.limitations == e.limitations + [CAP_LIMITATION])
            || exists k: nat, d :: IsCandidate(plan, frame, k, d)
                 && r.data == Candidate(plan, frame, k, d).payload
                 && r.limitations == Candidate(plan, frame, k, d).limitations
                 && r.status == if SectionShed(plan, frame, k) then Partial else e.status
  {
    var how :| Answers(e, plan, repr, r, how);
    match how
    case Unchanged =>
    case ShedAt(k, d) => assert IsCandidate(plan, ShedFrame(e.data, e.limitations), k, d);
    case Floor =>
  }

  /** A frame fits when the envelope with its payload and limitations measures at most the cap. */
  lemma FitsByMeasure(e: ResponseEnvelope, repr: real -> string, f: ShedFrame)
    ensures Fits(e, repr)(f) <==>
              ResponseEnvelope(e.status, f.payload, e.provenance, f.limitations, e.analyzerVersion, e.schemaVersion)
              .WireSize(repr) <= 200_000
  {
  }

  /** `build_envelope`, lines 372-408: both payload rules first, so the cap measures what is sent. */
  method BuildEnvelope(status: Status, data: Payload, provenance: seq<Provenance>, limitations: seq<string>,
                       analyzerVersion: Option<string>, plan: Plan<ShedFrame>, isWord: char -> bool,
                       disclose: Masks -> string, repr: real -> string)
    returns (r: ResponseEnvelope)
    ensures Answered(Cleaned(status, data, provenance, limitations, analyzerVersion, isWord, disclose), plan, repr, r)
    ensures KeepsClean(plan) ==> NoNullField(Obj(r.data))
  {
    var payload, disclosures := CleanPayload(data, isWord, disclose);
    var e := ResponseEnvelope(status, payload, provenance, limitations + disclosures, analyzerVersion, "0.4");
    assert e == Cleaned(status, data, provenance, limitations, analyzerVersion, isWord, disclose);
    r := EnforceCap(e, plan, repr);
    if KeepsClean(plan) {
      CleanHasNoNullField(Obj(data));
      AnswerIsClean(e, plan, repr, r);
    }
  }

  /** No step of the plan brings a null value back. */
  ghost predicate KeepsClean(plan: Plan<ShedFrame>) {
    forall i, f: ShedFrame, d :: 0 <= i < |plan| && NoNullField(Obj(f.payload)) ==>
      NoNullField(Obj(plan[i].apply(f, d).payload))
  }

  lemma {:induction false} DeepestIsClean(plan: Plan<ShedFrame>, frame: ShedFrame, k: nat)
    requires k <= |plan| && KeepsClean(plan) && NoNullField(Obj(frame.payload))
    ensures NoNullField(Obj(Deepest(plan, frame, k).payload))
  {
    if k > 0 {
      DeepestIsClean(plan, frame, k - 1);
    }
  }

  /** What is sent has no null field either, whichever way the cap was met. */
  lemma AnswerIsClean(e: ResponseEnvelope, plan: Plan<ShedFrame>, repr: real -> string, r: ResponseEnvelope)
    requires Answered(e, plan, repr, r) && NoNullField(Obj(e.data)) && KeepsClean(plan)
    ensures NoNullField(Obj(r.data))
  {
    var how :| Answers(e, plan, repr, r, how);
    match how
    case Unchanged =>
    case ShedAt(k, d) => DeepestIsClean(plan, ShedFrame(e.data, e.limitations), k);
    case Floor =>
  }

  /** The envelope the cap is applied to. */
  function Cleaned(status: Status, data: Payload, provenance: seq<Provenance>, limitations: seq<string>,
                   analyzerVersion: Option<string>, isWord: char -> bool, disclose: Masks -> string): ResponseEnvelope
  {
    var masks := MasksOf(Obj(data), "", isWord);
    ResponseEnvelope(status, CleanFields(data), provenance,
                     limitations + (if masks == [] then [] else [disclose(masks)]), analyzerVersion, "0.4")
  }

  /** The first fitting candidate is an `ok` response that lost a section and has less than 10 bytes to
      spare: too few for the status that is written into it afterwards. */
  ghost predicate ShedAtTheEdge(e: ResponseEnvelope, plan: Plan<ShedFrame>, repr: real -> string) {
    var frame := ShedFrame(e.data, e.limitations);
    e.status == OkStatus
    && exists k: nat, d :: FirstFitting(plan, frame, Fits(e, repr), k, d) && SectionShed(plan, frame, k)
         && Rebuild(e, Candidate(plan, frame, k, d)).WireSize(repr) > MAX_RESPONSE_BYTES - 10
  }

  /** Nothing fits, and the response without its data leaves no room for the withholding note. */
  ghost predicate WithheldAtTheEdge(e: ResponseEnvelope, plan: Plan<ShedFrame>, repr: real -> string) {
    NothingFits(plan, ShedFrame(e.data, e.limitations), Fits(e, repr), |plan|)
    && e.(status := Partial, data := []).WireSize(repr)
       > MAX_RESPONSE_BYTES - (if e.limitations == [] then 244 else 247)
  }

  /** The honest bound, on the envelope and its plan: the answer is over the cap if and only if the
      envelope is and one of the two unmeasured writes does not fit. */
  lemma CapExceededExactly(e: ResponseEnvelope, plan: Plan<ShedFrame>, repr: real -> string, r: ResponseEnvelope)
    requires Answered(e, plan, repr, r) && Monotone(plan, ShedFrame(e.data, e.limitations), Fits(e, repr))
    ensures r.WireSize(repr) > MAX_RESPONSE_BYTES
            <==> e.WireSize(repr) > MAX_RESPONSE_BYTES
                 && (ShedAtTheEdge(e, plan, repr) || WithheldAtTheEdge(e, plan, repr))
  {
    var frame, fits := ShedFrame(e.data, e.limitations), Fits(e, repr);
    var how :| Answers(e, plan, repr, r, how);
    match how
    case Unchanged =>
    case ShedAt(k, d) =>
      ShedAnswerSize(e, plan, repr, r, k, d);
      if ShedAtTheEdge(e, plan, repr) {
        var l: nat, c :| FirstFitting(plan, frame, fits, l, c) && SectionShed(plan, frame, l)
          && Rebuild(e, Candidate(plan, frame, l, c)).WireSize(repr) > MAX_RESPONSE_BYTES - 10;
      }
    case Floor =>
      FloorExceedsExactly(e, repr);
  }

  lemma StatusLength(s: Status)
    ensures if s == OkStatus then |StatusText(s)| == 2 else |StatusText(s)| >= 7
  {
  }

  lemma ShedAnswerSize(e: ResponseEnvelope, plan: Plan<ShedFrame>, repr: real -> string, r: ResponseEnvelope, k: nat,
                       d: int)
    requires Answers(e, plan, repr, r, ShedAt(k, d))
    ensures r.WireSize(repr) <= MAX_RESPONSE_BYTES + 10
    ensures r.WireSize(repr) > MAX_RESPONSE_BYTES
            <==> e.status == OkStatus && SectionShed(plan, ShedFrame(e.data, e.limitations), k)
                 && Rebuild(e, Candidate(plan, ShedFrame(e.data, e.limitations), k, d)).WireSize(repr)
                    > MAX_RESPONSE_BYTES - 10
  {
    StatusLength(e.status);
  }

  /** Short of the floor an answer is at most 10 bytes over, and not over at all when the response was not
      `ok` or the plan only trims pages. */
  lemma OverByTenAtMost(e: ResponseEnvelope, plan: Plan<ShedFrame>, repr: real -> string, r: ResponseEnvelope)
    requires Answered(e, plan, repr, r) && r != Withheld(e)
    ensures r.WireSize(repr) <= MAX_RESPONSE_BYTES + 10
    ensures e.status != OkStatus || (forall i :: 0 <= i < |plan| ==> plan[i].paginated) ==>
              r.WireSize(repr) <= MAX_RESPONSE_BYTES
  {
    var how :| Answers(e, plan, repr, r, how);
    if how.ShedAt? {
      ShedAnswerSize(e, plan, repr, r, how.step, how.depth);
    }
  }

  // ---------------------------------------------------------------- the cap can be exceeded

  /** A response without data, sources and limitations, and the same with one long limitation. */
  function Quiet(status: Status): ResponseEnvelope { ResponseEnvelope(status, [], [], [], None, "0.4") }

  function Noisy(status: Status, noise: string): ResponseEnvelope { Quiet(status).(limitations := [noise]) }

  function Noise(n: nat): (s: string)
    ensures |s| == n && Plain(s)
  {
    seq(n, _ => 'x')
  }

  lemma NoisySize(status: Status, noise: string, repr: real -> string)
    requires Plain(noise)
    ensures Noisy(status, noise).WireSize(repr) == Quiet(status).WireSize(repr) + 2 * |noise| + 6
  {
    assert [] + [noise] == [noise];
    LimitationSize(Quiet(status), noise, repr);
  }

  /** An envelope and a plan whose one answer is a floor over the cap: one long limitation, and nothing to
      shed. */
  lemma FloorCanExceedCap(repr: real -> string)
    ensures var e := Noisy(OkStatus, Noise(100_000));
            forall r :: Answered(e, [], repr, r) ==> r == Withheld(e) && r.WireSize(repr) > MAX_RESPONSE_BYTES
  {
    var e := Noisy(OkStatus, Noise(100_000));
    NoisySize(OkStatus, Noise(100_000), repr);
    NoisySize(Partial, Noise(100_000), repr);
    CapLimitationIsPlain();
    LimitationSize(Noisy(Partial, Noise(100_000)), CAP_LIMITATION, repr);
    WireSizeIsBodySize(Quiet(OkStatus), repr);
    WireSizeIsBodySize(Quiet(Partial), repr);
    assert Withheld(e) == Noisy(Partial, Noise(100_000)).(limitations := [Noise(100_000)] + [CAP_LIMITATION]);
    forall r | Answered(e, [], repr, r) ensures r == Withheld(e) {
    }
  }

  lemma {:induction false} ItemsSnoc(items: seq<Value>, v: Value, st: Style, mirrored: bool, repr: real -> string)
    ensures Cost(DumpsItems(items + [v], st, repr), mirrored)
         == Cost(DumpsItems(items, st, repr), mirrored) + (if items == [] then 0 else Cost(Comma(st), mirrored))
            + CostOf(v, st, mirrored, repr)
  {
    if items == [] {
      assert items + [v] == [v] && [v][1..] == [];
      assert DumpsItems([v], st, repr) == Dumps(v, st, repr);
    } else {
      var rest := items[1..];
      ItemsSnoc(rest, v, st, mirrored, repr);
      assert (items + [v])[1..] == rest + [v];
      CostAround(Dumps(items[0], st, repr), Comma(st), DumpsItems(rest + [v], st, repr), mirrored);
      CostAround(Dumps(items[0], st, repr), if |items| == 1 then "" else Comma(st), DumpsItems(rest, st, repr),
                 mirrored);
    }
  }

  lemma ItemAppended(items: seq<Value>, v: Value, st: Style, mirrored: bool, repr: real -> string)
    ensures CostOf(Arr(items + [v]), st, mirrored, repr)
         == CostOf(Arr(items), st, mirrored, repr) + (if items == [] then 0 else Cost(Comma(st), mirrored))
            + CostOf(v, st, mirrored, repr)
  {
    ItemsSnoc(items, v, st, mirrored, repr);
    CostAround("[", DumpsItems(items, st, repr), "]", mirrored);
    CostAround("[", DumpsItems(items + [v], st, repr), "]", mirrored);
  }

  lemma {:induction false} StringsSnoc(ls: seq<string>, l: string)
    ensures Strings(ls + [l]) == Strings(ls) + [Str(l)]
  {
    if ls != [] {
      StringsSnoc(ls[1..], l);
      assert (ls + [l])[1..] == ls[1..] + [l];
    }
  }

  lemma SeparatorCosts()
    ensures Cost(Comma(MIRROR), true) == 1 && Cost(Comma(WORST), false) == 2
    ensures Cost("\"", true) == 2 && Cost("\"", false) == 1
  {
    assert ","[1..] == "" && ", "[1..] == " " && " "[1..] == "" && "\""[1..] == "";
    assert Escape(",", true) == EscapeChar(',', true) + Escape("", true) == ",";
    assert Escape("\"", true) == EscapeChar('\"', true) + Escape("", true) == "\\\"";
    assert "\\\""[1..] == "\"";
  }

  /** One plain limitation more costs its letters twice, its quotes and its separators. */
  lemma LimitationCostsTwice(pre: Payload, ls: seq<string>, l: string, post: Payload, repr: real -> string)
    requires Plain(l)
    ensures BodySize(Obj(pre + [("limitations", Arr(Strings(ls + [l])))] + post), repr)
         == BodySize(Obj(pre + [("limitations", Arr(Strings(ls)))] + post), repr)
            + 2 * |l| + 6 + (if ls == [] then 0 else 3)
  {
    var v, w := Arr(Strings(ls)), Arr(Strings(ls + [l]));
    StringsSnoc(ls, l);
    ReplaceField(pre, "limitations", v, w, post, MIRROR, true, repr);
    ReplaceField(pre, "limitations", v, w, post, WORST, false, repr);
    ItemAppended(Strings(ls), Str(l), MIRROR, true, repr);
    ItemAppended(Strings(ls), Str(l), WORST, false, repr);
    PlainCost(l, MIRROR, true, repr);
    PlainCost(l, WORST, false, repr);
    SeparatorCosts();
  }

  /** What stands before and after the limitations. */
  function Leading(e: ResponseEnvelope): Payload {
    [("schema_version", Str(e.schemaVersion)), ("status", Str(StatusText(e.status))), ("data", Obj(e.data)),
     ("provenance", Arr(Dicts(e.provenance)))]
  }

  function Trailing(e: ResponseEnvelope): Payload {
    match e.analyzerVersion case Some(v) => [("analyzer_version", Str(v))] case None => []
  }

  lemma SplitLimitations(e: ResponseEnvelope, ls: seq<string>)
    ensures e.(limitations := ls).ToDict() == Obj(Leading(e) + [("limitations", Arr(Strings(ls)))] + Trailing(e))
  {
    assert e.(limitations := ls).ToDict().fields
        == Leading(e) + [("limitations", Arr(Strings(ls)))] + Trailing(e);
  }

  lemma LimitationSize(e: ResponseEnvelope, l: string, repr: real -> string)
    requires Plain(l)
    ensures e.(limitations := e.limitations + [l]).WireSize(repr)
         == e.WireSize(repr) + 2 * |l| + 6 + (if e.limitations == [] then 0 else 3)
  {
    SplitLimitations(e, e.limitations);
    SplitLimitations(e, e.limitations + [l]);
    assert e.(limitations := e.limitations) == e;
    WireSizeIsBodySize(e, repr);
    WireSizeIsBodySize(e.(limitations := e.limitations + [l]), repr);
    LimitationCostsTwice(Leading(e), e.limitations, l, Trailing(e), repr);
  }

  lemma ExceededIsPlain()
    ensures Plain(EXCEEDED)
  {
  }

  lemma WithheldIsPlain()
    ensures Plain(WITHHELD)
  {
  }

  lemma NarrowIsPlain()
    ensures Plain(NARROW)
  {
  }

  lemma KnobsArePlain()
    ensures Plain(KNOBS)
  {
  }

  lemma PlainAppend(s: string, t: string)
    requires Plain(s) && Plain(t)
    ensures Plain(s + t)
  {
  }

  lemma CapLimitationIsPlain()
    ensures Plain(CAP_LIMITATION) && |CAP_LIMITATION| == 119
  {
    ExceededIsPlain();
    WithheldIsPlain();
    NarrowIsPlain();
    KnobsArePlain();
    PlainAppend(EXCEEDED, WITHHELD);
    PlainAppend(EXCEEDED + WITHHELD, NARROW);
    PlainAppend(EXCEEDED + WITHHELD + NARROW, KNOBS);
  }

  /** The floor is over the cap exactly when the response, with its data dropped, came that close to
      it: what the withholding note costs, which no test looks at. */
  lemma FloorExceedsExactly(e: ResponseEnvelope, repr: real -> string)
    ensures var dataless := e.(status := Partial, data := []);
            Withheld(e).WireSize(repr) > MAX_RESPONSE_BYTES
            <==> dataless.WireSize(repr) > MAX_RESPONSE_BYTES - (if e.limitations == [] then 244 else 247)
  {
    CapLimitationIsPlain();
    LimitationSize(e.(status := Partial, data := []), CAP_LIMITATION, repr);
  }

  // ---------------------------------------------------------------- ... and by a shed section

  lemma {:induction false} EscapeBound(f: char -> string, s: string)
    requires forall c :: |f(c)| <= 12
    ensures |FlatMap(f, s)| <= 12 * |s|
  {
    if s != "" {
      EscapeBound(f, s[1..]);
    }
  }

  lemma {:induction false} BytesBound(s: string)
    ensures |s| <= Bytes(s) <= 4 * |s|
  {
    if s != "" {
      BytesBound(s[1..]);
    }
  }

  /** A mirror is never longer than 48 times its document: enough for a small one. */
  lemma MirrorBound(v: Value, repr: real -> string)
    ensures CostOf(v, MIRROR, true, repr) <= 48 * CostOf(v, WORST, false, repr)
  {
    var s := Dumps(v, MIRROR, repr);
    DumpsWorst(v, MIRROR, repr);
    BytesBound(s);
    EscapeBound(Escaper(true), s);
    BytesBound(Escape(s, true));
  }

  predicate Small(f: (string, Value), repr: real -> string) {
    Plain(f.0) && |f.0| + 6 + CostOf(f.1, WORST, false, repr) <= 40
  }

  lemma {:induction false} SmallFields(fields: Payload, repr: real -> string)
    requires forall i :: 0 <= i < |fields| ==> Small(fields[i], repr)
    ensures Bytes(DumpsFields(fields, WORST, repr)) <= 40 * |fields|
  {
    if fields != [] {
      SmallFields(fields[1..], repr);
      FieldsCons(fields[0], fields[1..], repr);
      PlainText(fields[0].0, true);
      assert [fields[0]] + fields[1..] == fields;
    }
  }

  lemma SmallStr(key: string, t: string, repr: real -> string)
    requires Plain(key) && Plain(t) && |key| + |t| <= 32
    ensures Small((key, Str(t)), repr)
  {
    PlainStr(t, repr);
  }

  lemma SmallEmpty(key: string, repr: real -> string)
    requires Plain(key) && |key| <= 30
    ensures Small((key, Obj([])), repr) && Small((key, Arr([])), repr)
  {
    ObjBytes([], repr);
    BracketBytes("[", "", "]");
  }

  lemma QuietTexts(repr: real -> string)
    ensures Small(("schema_version", Str("0.4")), repr) && Small(("status", Str("ok")), repr)
  {
    SmallStr("schema_version", "0.4", repr);
    SmallStr("status", "ok", repr);
  }

  lemma QuietBody(repr: real -> string)
    ensures CostOf(Quiet(OkStatus).ToDict(), WORST, false, repr) <= 300
  {
    var fields := [("schema_version", Str("0.4")), ("status", Str("ok")), ("data", Obj([])), ("provenance", Arr([])),
                   ("limitations", Arr([]))];
    assert Quiet(OkStatus).ToDict().fields == fields;
    QuietTexts(repr);
    SmallEmpty("data", repr);
    SmallEmpty("provenance", repr);
    SmallEmpty("limitations", repr);
    SmallFields(fields, repr);
    ObjBytes(fields, repr);
  }

  ghost predicate OnTheEdge(g: ResponseEnvelope, repr: real -> string) {
    g.WireSize(repr) <= MAX_RESPONSE_BYTES < g.(status := Partial).WireSize(repr)
  }

  /** An `ok` frame that fits and yet is over the cap once its status has become `partial`. */
  lemma EdgeFrame(repr: real -> string)
    ensures exists n :: OnTheEdge(Noisy(OkStatus, Noise(n)), repr)
  {
    var quiet := Quiet(OkStatus);
    QuietBody(repr);
    MirrorBound(quiet.ToDict(), repr);
    WireSizeIsBodySize(quiet, repr);
    var n := (MAX_RESPONSE_BYTES - quiet.WireSize(repr) - 6) / 2;
    NoisySize(OkStatus, Noise(n), repr);
    StatusCostsTwice(Noisy(OkStatus, Noise(n)), Partial, repr);
    assert OnTheEdge(Noisy(OkStatus, Noise(n)), repr);
  }

  /** One long field under `data`. */
  function Rows(text: string): Payload { [("rows", Str(text))] }

  lemma {:induction false} FieldCost(key: string, text: string, repr: real -> string)
    requires Plain(text)
    ensures CostOf(Obj([(key, Str(text))]), WORST, false, repr) >= |text|
  {
    var f := (key, Str(text));
    assert [f] == [f] + [];
    ConsCost(f, [], WORST, false, repr);
    CostAround("{", DumpsFields([f], WORST, repr), "}", false);
    CostAround(Quote(key, true), Colon(WORST), Dumps(Str(text), WORST, repr), false);
    PlainCost(text, WORST, false, repr);
  }

  lemma DataIsPaidFor(e: ResponseEnvelope, text: string, repr: real -> string)
    requires Plain(text)
    ensures e.(data := Rows(text)).WireSize(repr) >= |text|
  {
    var pre := [("schema_version", Str(e.schemaVersion)), ("status", Str(StatusText(e.status)))];
    var v, w, post := Obj([]), Obj(Rows(text)), e.Rest()[1..];
    assert e.(data := Rows(text)).ToDict().fields == pre + [("data", w)] + post;
    WireSizeIsBodySize(e.(data := Rows(text)), repr);
    FieldCost("rows", text, repr);
    ReplaceField(pre, "data", v, w, post, WORST, false, repr);
    CostAround("{", "", "}", false);
    CostAround("{", DumpsFields(pre + [("data", v)] + post, WORST, repr), "}", false);
  }

  /** A plan with one step, a section that can be dropped as a whole. */
  function DropSection(): Plan<ShedFrame> {
    [ShedStep(false, (f: ShedFrame) => 1, (f: ShedFrame, d: int) => ShedFrame([], f.limitations))]
  }

  lemma OneCandidate(frame: ShedFrame, k: nat, d: int)
    ensures IsCandidate(DropSection(), frame, k, d) <==> k == 0 && d == 0
    ensures IsCandidate(DropSection(), frame, 0, 0) && SectionShed(DropSection(), frame, 0)
    ensures Candidate(DropSection(), frame, 0, 0) == ShedFrame([], frame.limitations)
  {
    assert DepthsAt(DropSection(), frame, 0) == 1;
  }

  /** An envelope and a plan whose one answer (`EnforceCap` gives it) is over the cap: the section is
      dropped, what remains fits as `ok`, and is sent as `partial`. */
  lemma ShedSectionCanExceedCap(repr: real -> string) returns (e: ResponseEnvelope)
    ensures e.status == OkStatus
    ensures forall r :: Answered(e, DropSection(), repr, r) ==>
              r == e.(status := Partial, data := []) && r.WireSize(repr) > MAX_RESPONSE_BYTES
  {
    EdgeFrame(repr);
    var n: nat :| OnTheEdge(Noisy(OkStatus, Noise(n)), repr);
    var g := Noisy(OkStatus, Noise(n));
    e := g.(data := Rows(Noise(MAX_RESPONSE_BYTES + 1)));
    DataIsPaidFor(g, Noise(MAX_RESPONSE_BYTES + 1), repr);
    forall r | Answered(e, DropSection(), repr, r) ensures r == g.(status := Partial) {
      DroppedSection(e, repr, r);
    }
  }

  lemma DroppedSection(e: ResponseEnvelope, repr: real -> string, r: ResponseEnvelope)
    requires e.WireSize(repr) > MAX_RESPONSE_BYTES && e.(data := []).WireSize(repr) <= MAX_RESPONSE_BYTES
    requires Answered(e, DropSection(), repr, r)
    ensures r == e.(status := Partial, data := [])
  {
    var frame, fits := ShedFrame(e.data, e.limitations), Fits(e, repr);
    OneCandidate(frame, 0, 0);
    assert Rebuild(e, ShedFrame([], e.limitations)) == e.(data := []);
    assert !NothingFits(DropSection(), frame, fits, 1);
    assert Monotone(DropSection(), frame, fits) by {
      forall k: nat, d, c | IsCandidate(DropSection(), frame, k, d) && IsCandidate(DropSection(), frame, k, c)
        ensures d == c
      {
        OneCandidate(frame, k, d);
        OneCandidate(frame, k, c);
      }
    }
    var how :| Answers(e, DropSection(), repr, r, how);
    if how.ShedAt? {
      OneCandidate(frame, how.step, how.depth);
    }
  }
}
