/** The per-user dialogue kept in `context.user_data`: which paid flow the
    user is in, which answer the bot waits for, and what has been collected.
    Each handler is a function from the session and the incoming update to
    the new session, the order writes it issues, the messages it sends and
    the report generations it starts, in order. */
module Session {
  import opened Text
  import opened Json
  import opened Numerology
  import opened Extractors
  import opened Ledger
  import opened Reports

  datatype Flow = NatalFlow | PalmFlow | NumFlow

  /** The `state` values: natal_all, natal_date, natal_time, natal_city,
      palm_photo, palm_ctx, num_input. */
  datatype Stage = NatalAll | NatalDate | NatalTime | NatalCity | PalmPhoto | PalmCtx | NumInput

  datatype UserData = UserData(flow: Option<Flow>, state: Option<Stage>, orderId: Option<int>,
                               palmPhotoFileId: Option<string>, natalDate: Option<string>,
                               natalTime: Option<string>, natalCity: Option<string>)

  /** `ud.clear()` */
  const Cleared: UserData := UserData(None, None, None, None, None, None, None)

  /** The messages of the dialogue; `Report` carries what a generator sends. */
  datatype Reply =
    | AskNatalAll | AskPalmPhoto | AskNumInput | PaymentReceived
    | NatalRejected(error: NatalAllError)
    | NatalAccepted(input: NatalInput)
    | DateFormatHelp | DateInvalid | AskTime | TimeFormatHelp | TimeRangeHelp | AskCity | CityHelp
    | NatalStepsSaved(date: Option<string>, time: Option<string>, city: Option<string>)
    | PhotoMissing | PalmPreparing | PhotoReceived
    | NumFormatHelp | NumDateInvalid
    | NumExpress(name: string, dob: string, lifePath: nat, lines: map<string, int>, matrix: MatrixMeta)
    | Welcome
    | Report(notice: Notice)

  /** A report generation started by a handler, with the inputs it is given. */
  datatype Request =
    | NatalRequest(input: NatalInput)
    | PalmRequest(fullName: string, dominantHand: Option<string>, context: Option<string>, fileId: Option<string>)
    | NumerologyRequest(fullName: string, dob: string, lifePath: nat)

  datatype Step = Step(data: UserData, writes: seq<Write>, replies: seq<Reply>, requests: seq<Request>)

  /** What each report generator would do for this user and order in the
      current world; a step runs at most one of them. */
  datatype Generated = Generated(natal: Effects, palm: Effects, numerology: Effects)

  function Generate(cfg: Config, world: World, user: int, ud: UserData): Generated {
    Generated(NatalEffects(cfg, world, user, ud.orderId),
              PalmEffects(cfg, world, user, ud.palmPhotoFileId, ud.orderId),
              NumerologyEffects(cfg, world, user, ud.orderId))
  }

  /** The generators keep to the session's order. */
  predicate OwnGenerated(g: Generated, ud: UserData) {
    WritesOwnOrder(g.natal.writes, ud.orderId) && WritesOwnOrder(g.palm.writes, ud.orderId)
    && WritesOwnOrder(g.numerology.writes, ud.orderId)
  }

  function Quiet(ud: UserData): Step { Step(ud, [], [], []) }
  function Say(ud: UserData, r: Reply): Step { Step(ud, [], [r], []) }

  function AsReplies(ns: seq<Notice>): (r: seq<Reply>)
    ensures |r| == |ns| && forall i :: 0 <= i < |ns| ==> r[i] == Report(ns[i])
  {
    seq(|ns|, i requires 0 <= i < |ns| => Report(ns[i]))
  }

  /** The end of a flow: `flow` and `state` back to `None`, the rest kept. */
  function Closed(ud: UserData): UserData { ud.(flow := None, state := None) }

  // ------------------------------------------------------------------
  // Payment

  /** `AMOUNT_BY_PAYLOAD`: the price in Telegram Stars of each product. */
  const AmountByPayload: map<string, int> := map["NUM_200" := 90, "PALM_300" := 130, "NATAL_500" := 220]

  function AmountFor(payload: string): (r: int)
    ensures payload in AmountByPayload ==> r == AmountByPayload[payload]
    ensures payload !in AmountByPayload ==> r == 0
  {
    if payload in AmountByPayload then AmountByPayload[payload] else 0
  }

  /** `_begin_flow_after_payment` once the order exists: forget everything
      but the new order and open the paid flow at its first question. */
  function BeginFlow(payload: string, orderId: int): Step {
    var ud := Cleared.(orderId := Some(orderId));
    if payload == "NATAL_500" then Say(ud.(flow := Some(NatalFlow), state := Some(NatalAll)), AskNatalAll)
    else if payload == "PALM_300" then Say(ud.(flow := Some(PalmFlow), state := Some(PalmPhoto)), AskPalmPhoto)
    else if payload == "NUM_200" then Say(ud.(flow := Some(NumFlow), state := Some(NumInput)), AskNumInput)
    else Say(ud, PaymentReceived)
  }

  /** `/cancel` */
  function CancelStep(): Step {
    Say(Cleared, Welcome)
  }

  // ------------------------------------------------------------------
  // Natal chart

  function NatalMeta(d: NatalInput): map<string, Json> {
    map["natal_full_name" := JStr(d.fullName), "natal_date" := JStr(d.date),
        "natal_time" := OptStr(d.time), "natal_city" := JStr(d.city)]
  }

  /** The four-line message: store it, close the order and the flow, then
      generate the report. */
  function NatalAllStep(ud: UserData, text: string, g: Generated): Step {
    NatalAnswer(ud, ParseNatalAll(text), g)
  }

  /** The natal step once the message has been parsed. */
  function NatalAnswer(ud: UserData, parsed: Result<NatalInput, NatalAllError>, g: Generated): Step {
    match parsed
    case Err(e) => Say(ud, NatalRejected(e))
    case Ok(d) =>
      var gen := g.natal;
      Step(Closed(ud), OrderWrite(ud.orderId, Some(Done), NatalMeta(d)) + gen.writes,
           [NatalAccepted(d)] + AsReplies(gen.notices), [NatalRequest(d)])
  }

  function NatalDateStep(ud: UserData, text: string): Step {
    match CheckDate(text)
    case BadDateShape => Say(ud, DateFormatHelp)
    case BadCalendarDate => Say(ud, DateInvalid)
    case DateOk => Say(ud.(natalDate := Some(text), state := Some(NatalTime)), AskTime)
  }

  function NatalTimeStep(ud: UserData, text: string): Step {
    match ParseStrictTime(text)
    case Err(TimeFormat) => Say(ud, TimeFormatHelp)
    case Err(TimeRange) => Say(ud, TimeRangeHelp)
    case Ok(t) => Say(ud.(natalTime := t, state := Some(NatalCity)), AskCity)
  }

  function CityMeta(ud: UserData): map<string, Json> {
    map["natal_date" := OptStr(ud.natalDate), "natal_time" := OptStr(ud.natalTime), "natal_city" := OptStr(ud.natalCity)]
  }

  /** The last answer of the step-by-step entry closes the order with what
      was collected; no report is generated on this path. */
  function NatalCityStep(ud: UserData, text: string): Step {
    if |text| < 2 then Say(ud, CityHelp)
    else
      var ud1 := ud.(natalCity := Some(text));
      Step(Closed(ud1), OrderWrite(ud1.orderId, Some(Done), CityMeta(ud1)),
           [NatalStepsSaved(ud1.natalDate, ud1.natalTime, ud1.natalCity)], [])
  }

  function NatalText(ud: UserData, text: string, g: Generated): Step {
    match ud.state
    case Some(NatalAll) => NatalAllStep(ud, text, g)
    case Some(NatalDate) => NatalDateStep(ud, text)
    case Some(NatalTime) => NatalTimeStep(ud, text)
    case Some(NatalCity) => NatalCityStep(ud, text)
    case _ => Quiet(ud)
  }

  // ------------------------------------------------------------------
  // Palm reading

  /** `photo_router`: in the palm flow, waiting for the photo, the largest
      size (the last one) is kept and the bot asks for context. */
  function PhotoStep(ud: UserData, photos: seq<string>): Step {
    if ud.flow != Some(PalmFlow) || ud.state != Some(PalmPhoto) || photos == [] then Quiet(ud)
    else
      var f := photos[|photos| - 1];
      Step(ud.(palmPhotoFileId := Some(f), state := Some(PalmCtx), flow := Some(PalmFlow)),
           OrderWrite(ud.orderId, Some(AwaitingInput), map["palm_photo_file_id" := JStr(f)]),
           [PhotoReceived], [])
  }

  /** The optional context after the photo: without a stored photo the bot
      asks for it again; otherwise the flow closes and the report is made. */
  function PalmContextStep(ud: UserData, text: string, fullName: string, g: Generated): Step {
    var ctx := PalmContext(text);
    if ud.palmPhotoFileId.None? || ud.palmPhotoFileId.value == [] then Say(ud.(state := Some(PalmPhoto)), PhotoMissing)
    else
      var gen := g.palm;
      Step(Closed(ud), gen.writes, [PalmPreparing] + AsReplies(gen.notices),
           [PalmRequest(fullName, DominantHand(ctx), ctx, ud.palmPhotoFileId)])
  }

  // ------------------------------------------------------------------
  // Numerology

  function LinesJson(lines: map<string, int>): (r: Json)
    ensures r.JObj? && r.fields.Keys == lines.Keys
  {
    JObj(map k | k in lines :: JNum(lines[k]))
  }

  function MatrixJson(m: MatrixMeta): Json {
    JObj(map["missing" := IntList(m.missing), "dominant" := IntList(m.dominant)])
  }

  function NumMeta(dob: string, name: string): map<string, Json> {
    var counts := CountsOf(dob);
    map["num_dob" := JStr(dob), "num_name" := JStr(name), "life_path" := JNum(LifePath(dob)),
        "pythagoras_counts" := DigitKeyed(counts), "pythagoras_lines" := LinesJson(PythagorasLines(counts)),
        "pythagoras_ext" := MatrixJson(ExtendedMatrixMeta(counts))]
  }

  /** `DD.MM.YYYY Name`: the express reading, the order closed with the
      computed figures, then the detailed report. */
  function NumInputStep(ud: UserData, text: string, g: Generated): Step {
    NumAnswer(ud, ParseNumInput(text), g)
  }

  /** The numerology step once the entry has been parsed. */
  function NumAnswer(ud: UserData, parsed: Result<(string, string), NumError>, g: Generated): Step {
    match parsed
    case Err(NumShape) => Say(ud, NumFormatHelp)
    case Err(NumDate) => Say(ud, NumDateInvalid)
    case Ok((dob, name)) =>
      var counts := CountsOf(dob);
      var gen := g.numerology;
      Step(Closed(ud), OrderWrite(ud.orderId, Some(Done), NumMeta(dob, name)) + gen.writes,
           [NumExpress(name, dob, LifePath(dob), PythagorasLines(counts), ExtendedMatrixMeta(counts))] + AsReplies(gen.notices),
           [NumerologyRequest(name, dob, LifePath(dob))])
  }

  // ------------------------------------------------------------------
  // The text router

  /** `text_router`: the stripped message goes to the open flow's current
      step; without a flow, or in a step that expects no text, nothing happens. */
  function TextStepWith(ud: UserData, message: string, fullName: string, g: Generated): Step {
    var text := Strip(message);
    match ud.flow
    case None => Quiet(ud)
    case Some(NatalFlow) => NatalText(ud, text, g)
    case Some(PalmFlow) => if ud.state == Some(PalmCtx) then PalmContextStep(ud, text, fullName, g) else Quiet(ud)
    case Some(NumFlow) => if ud.state == Some(NumInput) then NumInputStep(ud, text, g) else Quiet(ud)
  }

  /** `text_router` for the message of `user` (whose Telegram name is
      `fullName`) under the given settings and world. */
  function TextStep(ud: UserData, message: string, user: int, fullName: string, cfg: Config, world: World): Step {
    TextStepWith(ud, message, fullName, Generate(cfg, world, user, ud))
  }

  // ------------------------------------------------------------------
  // Properties

  /** Payment opens the flow the product names at its first question, with
      only the new order remembered; an unknown product opens none. */
  lemma BeginFlowOpens(payload: string, orderId: int)
    ensures var s := BeginFlow(payload, orderId);
      s.data.orderId == Some(orderId) && s.writes == [] && |s.replies| == 1 && s.requests == []
      && s.data.palmPhotoFileId.None? && s.data.natalDate.None? && s.data.natalTime.None?
      && (payload == "NATAL_500" <==> s.data.state == Some(NatalAll))
      && (payload == "PALM_300" <==> s.data.state == Some(PalmPhoto))
      && (payload == "NUM_200" <==> s.data.state == Some(NumInput))
      && (payload !in AmountByPayload <==> s.data.flow.None?)
  {
  }

  /** Every product that opens a flow has a price, and every price opens a flow. */
  lemma PricedIffFlow(payload: string, orderId: int)
    ensures AmountFor(payload) > 0 <==> BeginFlow(payload, orderId).data.flow.Some?
  {
  }

  /** `/cancel` forgets the flow, the order and everything collected, from any session. */
  lemma CancelForgets()
    ensures CancelStep().data == Cleared && CancelStep().writes == [] && CancelStep().replies == [Welcome]
  {
  }

  /** A text message outside a flow is ignored entirely. */
  lemma NoFlowIgnored(ud: UserData, message: string, fullName: string, g: Generated)
    requires ud.flow.None?
    ensures TextStepWith(ud, message, fullName, g) == Quiet(ud)
  {
  }

  /** The router hands the stripped text to the step the session waits at,
      and ignores text in the palm flow while it waits for the photo. */
  lemma TextDispatch(ud: UserData, message: string, fullName: string, g: Generated)
    ensures var text := Strip(message);
      var s := TextStepWith(ud, message, fullName, g);
      (ud.flow == Some(NatalFlow) ==> s == NatalText(ud, text, g))
      && (ud.flow == Some(PalmFlow) && ud.state == Some(PalmCtx) ==> s == PalmContextStep(ud, text, fullName, g))
      && (ud.flow == Some(PalmFlow) && ud.state != Some(PalmCtx) ==> s == Quiet(ud))
      && (ud.flow == Some(NumFlow) && ud.state == Some(NumInput) ==> s == NumInputStep(ud, text, g))
      && (ud.flow == Some(NumFlow) && ud.state != Some(NumInput) ==> s == Quiet(ud))
  {
    match ud.flow
    case None =>
    case Some(NatalFlow) =>
    case Some(PalmFlow) =>
    case Some(NumFlow) =>
  }

  lemma NatalAnswerOutcome(ud: UserData, parsed: Result<NatalInput, NatalAllError>, g: Generated)
    requires OwnGenerated(g, ud)
    ensures var s := NatalAnswer(ud, parsed, g);
      WritesOwnOrder(s.writes, ud.orderId)
      && (parsed.Err? ==> s == Say(ud, NatalRejected(parsed.error)))
      && (parsed.Ok? ==>
            s.data == Closed(ud) && s.requests == [NatalRequest(parsed.value)]
            && s.replies[0] == NatalAccepted(parsed.value)
            && (HasOrder(ud.orderId) ==> |s.writes| >= 1 && s.writes[0] == Write(ud.orderId.value, Some(Done), NatalMeta(parsed.value))))
  {
    if parsed.Ok? {
      OwnWritesConcat(OrderWrite(ud.orderId, Some(Done), NatalMeta(parsed.value)), g.natal.writes, ud.orderId);
    }
  }

  /** The four-line natal message: a rejected message only gets the reason;
      an accepted one closes the flow, closes the order with the four fields
      first, and starts the natal report. */
  lemma NatalAllOutcome(ud: UserData, text: string, g: Generated)
    requires OwnGenerated(g, ud)
    ensures var s := NatalAllStep(ud, text, g);
      WritesOwnOrder(s.writes, ud.orderId)
      && (ParseNatalAll(text).Err? ==> s == Say(ud, NatalRejected(ParseNatalAll(text).error)))
      && (ParseNatalAll(text).Ok? ==>
            s.data == Closed(ud) && s.requests == [NatalRequest(ParseNatalAll(text).value)]
            && s.replies[0] == NatalAccepted(ParseNatalAll(text).value)
            && (HasOrder(ud.orderId) ==> |s.writes| >= 1 && s.writes[0] == Write(ud.orderId.value, Some(Done), NatalMeta(ParseNatalAll(text).value))))
  {
    NatalAnswerOutcome(ud, ParseNatalAll(text), g);
  }

  /** A well-formed natal input typed as four lines is stored field by field. */
  lemma NatalAllStoresInput(ud: UserData, n: NatalInput, g: Generated)
    requires TypedLine(n.fullName) && TypedLine(n.city) && CityOk(n.city)
    requires CheckDate(n.date) == DateOk
    requires n.time.Some? ==> ValidClock(n.time.value)
    requires HasOrder(ud.orderId) && OwnGenerated(g, ud)
    ensures var s := NatalAllStep(ud, ComposeNatal(n), g);
      |s.writes| >= 1 && s.writes[0] == Write(ud.orderId.value, Some(Done), NatalMeta(n))
      && s.data == Closed(ud) && s.requests == [NatalRequest(n)]
  {
    NatalAllRoundTrip(n);
    NatalAllOutcome(ud, ComposeNatal(n), g);
  }

  /** The numerology entry: a malformed one only gets a hint; an accepted
      one closes the flow and the order with the life path and the matrix of
      the date, then starts the detailed report. */
  lemma NumAnswerOutcome(ud: UserData, parsed: Result<(string, string), NumError>, g: Generated)
    requires OwnGenerated(g, ud)
    ensures var s := NumAnswer(ud, parsed, g);
      WritesOwnOrder(s.writes, ud.orderId)
      && (parsed.Err? ==> s.data == ud && s.writes == [] && |s.replies| == 1 && s.requests == [])
      && (parsed.Ok? ==>
            s.data == Closed(ud)
            && s.requests == [NumerologyRequest(parsed.value.1, parsed.value.0, LifePath(parsed.value.0))]
            && (HasOrder(ud.orderId) ==>
                  |s.writes| >= 1 && s.writes[0] == Write(ud.orderId.value, Some(Done), NumMeta(parsed.value.0, parsed.value.1))))
  {
    if parsed.Ok? {
      NumAnswerAccepted(ud, parsed.value.0, parsed.value.1, g);
    }
  }

  lemma NumAnswerAccepted(ud: UserData, dob: string, name: string, g: Generated)
    requires OwnGenerated(g, ud)
    ensures var s := NumAnswer(ud, Ok((dob, name)), g);
      && s.writes == OrderWrite(ud.orderId, Some(Done), NumMeta(dob, name)) + g.numerology.writes
      && s.data == Closed(ud) && s.requests == [NumerologyRequest(name, dob, LifePath(dob))]
      && WritesOwnOrder(s.writes, ud.orderId)
  {
    OwnWritesConcat(OrderWrite(ud.orderId, Some(Done), NumMeta(dob, name)), g.numerology.writes, ud.orderId);
  }

  lemma NumInputOutcome(ud: UserData, text: string, g: Generated)
    requires OwnGenerated(g, ud)
    ensures var s := NumInputStep(ud, text, g);
      WritesOwnOrder(s.writes, ud.orderId)
      && (ParseNumInput(text).Err? ==> s.data == ud && s.writes == [] && |s.replies| == 1 && s.requests == [])
      && (ParseNumInput(text).Ok? ==>
            s.data == Closed(ud)
            && s.requests == [NumerologyRequest(ParseNumInput(text).value.1, ParseNumInput(text).value.0, LifePath(ParseNumInput(text).value.0))]
            && (HasOrder(ud.orderId) ==>
                  |s.writes| >= 1 && s.writes[0] == Write(ud.orderId.value, Some(Done), NumMeta(ParseNumInput(text).value.0, ParseNumInput(text).value.1))))
  {
    NumAnswerOutcome(ud, ParseNumInput(text), g);
  }

  /** The palm context: without a stored photo the bot goes back to asking
      for it; with one the flow closes and the report is made from that
      photo, and the order is left for the report to close. */
  lemma PalmContextOutcome(ud: UserData, text: string, fullName: string, g: Generated)
    requires OwnGenerated(g, ud)
    ensures var s := PalmContextStep(ud, text, fullName, g);
      WritesOwnOrder(s.writes, ud.orderId)
      && (ud.palmPhotoFileId.None? || ud.palmPhotoFileId == Some([]) ==>
            s == Say(ud.(state := Some(PalmPhoto)), PhotoMissing))
      && (ud.palmPhotoFileId.Some? && ud.palmPhotoFileId.value != [] ==>
            s.data == Closed(ud) && s.replies[0] == PalmPreparing
            && s.requests == [PalmRequest(fullName, DominantHand(PalmContext(text)), PalmContext(text), ud.palmPhotoFileId)]
            && s.writes == g.palm.writes)
  {
  }

  /** The photo handler acts only while the palm flow waits for a photo:
      it keeps the last (largest) size, moves on to the context question and
      records the photo on the order, which stays awaiting input. */
  lemma PhotoOutcome(ud: UserData, photos: seq<string>)
    ensures var s := PhotoStep(ud, photos);
      WritesOwnOrder(s.writes, ud.orderId)
      && (ud.flow != Some(PalmFlow) || ud.state != Some(PalmPhoto) || photos == [] ==> s == Quiet(ud))
      && (ud.flow == Some(PalmFlow) && ud.state == Some(PalmPhoto) && photos != [] ==>
            s.data.palmPhotoFileId == Some(photos[|photos| - 1]) && s.data.state == Some(PalmCtx)
            && s.data.flow == Some(PalmFlow) && s.data.orderId == ud.orderId
            && (HasOrder(ud.orderId) ==>
                  s.writes == [Write(ud.orderId.value, Some(AwaitingInput), map["palm_photo_file_id" := JStr(photos[|photos| - 1])])]))
  {
  }

  /** A photo followed by any context makes the report from that photo. */
  lemma PhotoThenContext(ud: UserData, photos: seq<string>, text: string, fullName: string, g: Generated)
    requires ud.flow == Some(PalmFlow) && ud.state == Some(PalmPhoto) && photos != [] && photos[|photos| - 1] != []
    ensures var s1 := PhotoStep(ud, photos);
      var s2 := PalmContextStep(s1.data, text, fullName, g);
      s2.data.flow.None? && s2.requests[0].fileId == Some(photos[|photos| - 1])
  {
  }

  /** The step-by-step natal entry: each invalid answer gets a hint and
      keeps the session; each valid one moves date, then time, then city. */
  lemma NatalStepsOutcome(ud: UserData, text: string)
    ensures var s := NatalDateStep(ud, text);
      s.writes == [] && |s.replies| == 1
      && (CheckDate(text) != DateOk ==> s.data == ud)
      && (CheckDate(text) == DateOk ==> s.data == ud.(natalDate := Some(text), state := Some(NatalTime)))
    ensures var s := NatalTimeStep(ud, text);
      s.writes == [] && |s.replies| == 1
      && (ParseStrictTime(text).Err? ==> s.data == ud)
      && (ParseStrictTime(text).Ok? ==> s.data == ud.(natalTime := ParseStrictTime(text).value, state := Some(NatalCity)))
    ensures var s := NatalCityStep(ud, text);
      WritesOwnOrder(s.writes, ud.orderId) && s.requests == []
      && (!CityOk(text) ==> s == Say(ud, CityHelp))
      && (CityOk(text) ==> s.data == Closed(ud.(natalCity := Some(text))))
  {
  }

  /** Answering date, time and city in turn closes the order with exactly
      the answers given: the date as typed, the time zero-padded (or none),
      the city. */
  lemma NatalStepsRecordAnswers(ud: UserData, date: string, time: string, city: string)
    requires HasOrder(ud.orderId)
    requires CheckDate(date) == DateOk && ParseStrictTime(time).Ok? && CityOk(city)
    ensures var s1 := NatalDateStep(ud, date);
      var s2 := NatalTimeStep(s1.data, time);
      var s3 := NatalCityStep(s2.data, city);
      s1.data.state == Some(NatalTime) && s2.data.state == Some(NatalCity) && s3.data.flow.None?
      && s1.writes == [] && s2.writes == []
      && s3.writes == [Write(ud.orderId.value, Some(Done), map["natal_date" := JStr(date),
                                                              "natal_time" := OptStr(ParseStrictTime(time).value),
                                                              "natal_city" := JStr(city)])]
  {
    NatalStepsOutcome(ud, date);
  }

  lemma NumInputOwnOrder(ud: UserData, text: string, g: Generated)
    requires OwnGenerated(g, ud)
    ensures WritesOwnOrder(NumInputStep(ud, text, g).writes, ud.orderId)
  {
    NumAnswerOutcome(ud, ParseNumInput(text), g);
  }

  lemma PalmContextOwnOrder(ud: UserData, text: string, fullName: string, g: Generated)
    requires OwnGenerated(g, ud)
    ensures WritesOwnOrder(PalmContextStep(ud, text, fullName, g).writes, ud.orderId)
  {
  }

  lemma NatalTextOwnOrder(ud: UserData, text: string, g: Generated)
    requires OwnGenerated(g, ud)
    ensures WritesOwnOrder(NatalText(ud, text, g).writes, ud.orderId)
  {
    if ud.state == Some(NatalAll) { NatalAnswerOutcome(ud, ParseNatalAll(text), g); }
    else { NatalStepsOutcome(ud, text); }
  }

  /** Every text step writes only to the session's own order. */
  lemma TextStepWithOwnOrder(ud: UserData, message: string, fullName: string, g: Generated)
    requires OwnGenerated(g, ud)
    ensures WritesOwnOrder(TextStepWith(ud, message, fullName, g).writes, ud.orderId)
  {
    var text := Strip(message);
    TextDispatch(ud, message, fullName, g);
    match ud.flow
    case None =>
    case Some(NatalFlow) => NatalTextOwnOrder(ud, text, g);
    case Some(PalmFlow) => PalmContextOwnOrder(ud, text, fullName, g);
    case Some(NumFlow) => NumInputOwnOrder(ud, text, g);
  }

  /** The text router writes only to the session's own order, whatever the
      LLM providers answer. */
  lemma TextStepWritesOwnOrder(ud: UserData, message: string, user: int, fullName: string, cfg: Config, world: World)
    ensures WritesOwnOrder(TextStep(ud, message, user, fullName, cfg, world).writes, ud.orderId)
  {
    GeneratorsWriteOwnOrder(cfg, world, user, ud.palmPhotoFileId, ud.orderId);
    TextStepWithOwnOrder(ud, message, fullName, Generate(cfg, world, user, ud));
  }
}
