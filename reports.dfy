/** The three report generators (`generate_and_send_numerology_report`,
    `generate_and_send_natal_report`, `generate_and_send_palm_report`): ask
    the LLM router, read the content, parse it leniently, store either the
    report or the raw reply in the order's meta, and tell the user.  A
    generator is a function from the configuration and the outside world to
    the writes it issues and the messages it sends, in order. */
module Reports {
  import opened Text
  import opened Json
  import opened JsonRepair
  import opened Router
  import opened Ledger

  datatype ReportKind = NumerologyReport | NatalReport | PalmReport

  /** The meta key of the raw reply kept when parsing fails. */
  function RawKey(kind: ReportKind): string {
    match kind
    case NumerologyReport => "llm_raw"
    case NatalReport => "natal_llm_raw"
    case PalmReport => "palm_llm_raw"
  }

  /** The meta key of the parsed report. */
  function ReportKey(kind: ReportKind): string {
    match kind
    case NumerologyReport => "llm_report"
    case NatalReport => "natal_llm_report"
    case PalmReport => "palm_llm_report"
  }

  /** What a generator sends to the chat. */
  datatype Notice =
    | NoLlmKeys                                   // numerology without OpenAI or Gemini keys
    | Rendered(kind: ReportKind, report: Json)    // the HTML rendering of the report
    | ParseErrorSnippet(kind: ReportKind, snippet: string)  // to the admin only
    | ParseFailed(kind: ReportKind)
    | LlmError(kind: ReportKind, message: string) // to the admin only
    | GenerationFailed(kind: ReportKind)

  datatype Effects = Effects(writes: seq<Write>, notices: seq<Notice>)

  /** The settings a generator reads: which LLM keys are set, the vision
      switches, `ADMIN_ID` as text ("" when unset), `json.loads`, and the
      HTML renderers as far as they can fail: the exception a renderer
      raises on a dict whose fields have the wrong types (`.get` on a
      string, `escape` of a number), or `None` when it renders. */
  datatype Config = Config(keys: Keys, vision: VisionConfig, adminId: string, parse: string -> Option<Json>,
                           renderRaises: RenderRaises)

  type RenderRaises = (ReportKind, map<string, Json>) -> Option<string>

  /** The exception rendering `report` raises, if any: every renderer starts
      with `report.get("title")`, so anything but a dict raises
      AttributeError; a dict fails as `raises` says. */
  function RenderError(raises: RenderRaises, kind: ReportKind, report: Json): (r: Option<string>)
    ensures !report.JObj? ==> r == Some(AttributeErrorText)
    ensures report.JObj? ==> r == raises(kind, report.fields)
  {
    if report.JObj? then raises(kind, report.fields) else Some(AttributeErrorText)
  }

  /** The report renders without raising. */
  predicate Renders(raises: RenderRaises, kind: ReportKind, report: Json) {
    RenderError(raises, kind, report).None?
  }

  /** What the outside world answers during one generation: the k-th router
      request, Telegram's `getFile` and file download (and the file's base64
      text), and the vision request. */
  datatype World = World(net: nat -> Outcome, fileInfo: Outcome, fileBody: Outcome, fileBase64: string, visionReply: Outcome)

  /** `ADMIN_ID and str(user.id) == str(ADMIN_ID)`. */
  predicate IsAdmin(cfg: Config, user: int) {
    cfg.adminId != "" && IntToString(user) == cfg.adminId
  }

  /** `if order_id:` — the handlers pass `None` or the row id. */
  predicate HasOrder(orderId: Option<int>) {
    orderId.Some? && orderId.value != 0
  }

  function OrderWrite(orderId: Option<int>, status: Option<string>, merge: map<string, Json>): (r: seq<Write>)
    ensures HasOrder(orderId) <==> |r| == 1
    ensures HasOrder(orderId) ==> r[0] == Write(orderId.value, status, merge)
  {
    if HasOrder(orderId) then [Write(orderId.value, status, merge)] else []
  }

  /** The `except Exception as e` branch: the admin sees the reason,
      everybody else a generic apology. */
  function Failure(kind: ReportKind, admin: bool, message: string): (r: seq<Notice>)
    ensures |r| == 1
    ensures admin <==> r[0].LlmError?
  {
    if admin then [LlmError(kind, message)] else [GenerationFailed(kind)]
  }

  // ------------------------------------------------------------------
  // Diagnostics on a reply that did not parse

  /** `(content or "")[:4000]`: `None` where slicing raises (a number, a
      boolean or a dict), which the surrounding `try: … except: pass` swallows. */
  function RawValue(content: Json): (r: Option<Json>)
    ensures r.Some? <==> !Truthy(content) || content.JStr? || content.JArr?
    ensures r.Some? && r.value.JStr? ==> |r.value.s| <= 4000
    ensures r.Some? ==> r.value.JStr? || r.value.JArr?
    ensures r.Some? && r.value.JArr? ==> |r.value.items| <= 4000
    ensures content.JStr? ==> r == Some(JStr(Take(content.s, 4000))) && Take(content.s, 4000) <= content.s
    ensures !Truthy(content) ==> r == Some(JStr(""))
  {
    match Or(content, JStr(""))
    case JStr(s) => Some(JStr(Take(s, 4000)))
    case JArr(items) => Some(JArr(Take(items, 4000)))
    case _ => None
  }

  /** The admin's snippet: the first 800 characters, and "…" when cut. */
  function Snippet(s: string): (r: string)
    ensures Take(s, 800) <= r && |r| <= 801
    ensures |s| <= 800 ==> r == s
    ensures |s| > 800 ==> |r| == 801 && r[800] == '…'
  {
    if |s| > 800 then s[..800] + "…" else s
  }

  /** The snippet of the content, or `None` where `len`, slicing or string
      concatenation raises TypeError on a non-string content. */
  function SnippetOf(content: Json): (r: Option<string>)
    ensures r.Some? <==> !Truthy(content) || content.JStr?
    ensures content.JStr? ==> r == Some(Snippet(content.s))
  {
    match Or(content, JStr(""))
    case JStr(s) => Some(Snippet(s))
    case _ => None
  }

  // ------------------------------------------------------------------
  // One generation

  /** The meta a successful report is stored under; the palm report also
      records the photo it was made from and closes the order. */
  function SuccessMerge(kind: ReportKind, report: Json, fileId: Option<string>): map<string, Json> {
    if kind == PalmReport then map[ReportKey(kind) := report, "palm_photo_file_id" := OptStr(fileId)]
    else map[ReportKey(kind) := report]
  }

  function SuccessStatus(kind: ReportKind): Option<string> {
    if kind == PalmReport then Some(Done) else None
  }

  /** A reply that parsed to nothing: keep the raw content (when it can be
      sliced), show the admin a snippet (when it is text), apologise. */
  function Unparsed(kind: ReportKind, content: Json, orderId: Option<int>, admin: bool): Effects {
    var saved := if HasOrder(orderId) && RawValue(content).Some?
                 then [Write(orderId.value, None, map[RawKey(kind) := RawValue(content).value])] else [];
    if !admin then Effects(saved, [ParseFailed(kind)])
    else match SnippetOf(content)
      case Some(s) => Effects(saved, [ParseErrorSnippet(kind, s), ParseFailed(kind)])
      case None => Effects(saved, Failure(kind, admin, TypeErrorText))
  }

  /** A non-empty report: store it, then render it.  A report the renderer
      raises on (anything but a dict, or a dict with ill-typed fields) has
      been stored, and the exception reaches the `except` branch. */
  function StoredReport(kind: ReportKind, report: Json, orderId: Option<int>, admin: bool, fileId: Option<string>,
                        raises: RenderRaises): Effects {
    var stored := OrderWrite(orderId, SuccessStatus(kind), SuccessMerge(kind, report, fileId));
    match RenderError(raises, kind, report)
    case None => Effects(stored, [Rendered(kind, report)])
    case Some(e) => Effects(stored, Failure(kind, admin, e))
  }

  /** Everything after the router call: `reply` is what `_llm_chat_completion`
      returned or the error it raised. */
  function ReportEffects(kind: ReportKind, reply: Result<Json, string>, orderId: Option<int>, admin: bool,
                         parse: string -> Option<Json>, fileId: Option<string>, raises: RenderRaises): Effects
  {
    match reply
    case Err(e) => Effects([], Failure(kind, admin, e))
    case Ok(raw) =>
      match ExtractContent(raw)
      case Err(e) => Effects([], Failure(kind, admin, e))
      case Ok(content) => ParsedEffects(kind, content, TryParseJsonFromText(content, parse), orderId, admin, fileId, raises)
  }

  /** The content parsed to `report` (`{}` when it did not parse). */
  function ParsedEffects(kind: ReportKind, content: Json, report: Json, orderId: Option<int>, admin: bool,
                         fileId: Option<string>, raises: RenderRaises): Effects {
    if Truthy(report) then StoredReport(kind, report, orderId, admin, fileId, raises)
    else Unparsed(kind, content, orderId, admin)
  }

  /** `generate_and_send_numerology_report`: it gives up before any request
      unless an OpenAI or Gemini key is set. */
  function NumerologyEffects(cfg: Config, world: World, user: int, orderId: Option<int>): Effects {
    if !cfg.keys.openai && !cfg.keys.gemini then Effects([], [NoLlmKeys])
    else ReportEffects(NumerologyReport, Route(cfg.keys, world.net).0, orderId, IsAdmin(cfg, user), cfg.parse, None, cfg.renderRaises)
  }

  /** `generate_and_send_natal_report`. */
  function NatalEffects(cfg: Config, world: World, user: int, orderId: Option<int>): Effects {
    ReportEffects(NatalReport, Route(cfg.keys, world.net).0, orderId, IsAdmin(cfg, user), cfg.parse, None, cfg.renderRaises)
  }

  /** The meta the vision path stores. */
  function VisionMerge(report: Json, fileId: Option<string>, model: string): map<string, Json> {
    map["palm_llm_report" := report, "palm_photo_file_id" := OptStr(fileId),
        "vision" := JObj(map["provider" := JStr("mistral"), "model" := JStr(model)])]
  }

  /** The vision path's report, if it yields one: the image is downloaded
      only when the gate is open. */
  function PalmVision(cfg: Config, world: World, fileId: Option<string>): Option<Json> {
    var dataUrl := if VisionEligible(cfg.vision, fileId) then DownloadDataUrl(world.fileInfo, world.fileBody, world.fileBase64) else None;
    VisionReport(cfg.vision, fileId, dataUrl, world.visionReply, cfg.parse)
  }

  /** The text-only path of the palm generator. */
  function PalmText(cfg: Config, world: World, user: int, fileId: Option<string>, orderId: Option<int>): Effects {
    ReportEffects(PalmReport, Route(cfg.keys, world.net).0, orderId, IsAdmin(cfg, user), cfg.parse, fileId, cfg.renderRaises)
  }

  /** How the two paths combine: a vision report is stored with the order
      closed; if it renders, that is all, and if rendering raises the
      exception is caught and the text path runs after the write. */
  function PalmOutcome(vision: Option<Json>, text: Effects, orderId: Option<int>, fileId: Option<string>, model: string,
                       raises: RenderRaises): Effects {
    match vision
    case None => text
    case Some(report) =>
      var stored := OrderWrite(orderId, Some(Done), VisionMerge(report, fileId, model));
      if Renders(raises, PalmReport, report) then Effects(stored, [Rendered(PalmReport, report)])
      else Effects(stored + text.writes, text.notices)
  }

  /** `generate_and_send_palm_report`: the vision path first, the text-only
      path through the router when it yields nothing. */
  function PalmEffects(cfg: Config, world: World, user: int, fileId: Option<string>, orderId: Option<int>): Effects {
    PalmOutcome(PalmVision(cfg, world, fileId), PalmText(cfg, world, user, fileId, orderId), orderId, fileId, cfg.vision.model,
                cfg.renderRaises)
  }

  /** Every write goes to the given order, and there is none without one. */
  predicate WritesOwnOrder(writes: seq<Write>, orderId: Option<int>) {
    forall w :: w in writes ==> HasOrder(orderId) && w.id == orderId.value
  }

  /** Two runs of writes to the own order make one. */
  lemma OwnWritesConcat(a: seq<Write>, b: seq<Write>, orderId: Option<int>)
    requires WritesOwnOrder(a, orderId) && WritesOwnOrder(b, orderId)
    ensures WritesOwnOrder(a + b, orderId)
  {
    forall w | w in a + b ensures HasOrder(orderId) && w.id == orderId.value {
      assert w in a || w in b;
    }
  }

  // ------------------------------------------------------------------
  // Properties

  /** An unparsed reply writes at most the raw content, never a status, and
      at most 4000 characters of it; a user who is not the admin only hears
      that parsing failed. */
  lemma UnparsedKeepsRaw(kind: ReportKind, content: Json, orderId: Option<int>, admin: bool)
    ensures var e := Unparsed(kind, content, orderId, admin);
      |e.writes| <= 1 && (!HasOrder(orderId) ==> e.writes == [])
      && (forall i :: 0 <= i < |e.writes| ==>
            e.writes[i].id == orderId.value && e.writes[i].status.None? && e.writes[i].merge.Keys == {RawKey(kind)}
            && (e.writes[i].merge[RawKey(kind)].JStr? ==> |e.writes[i].merge[RawKey(kind)].s| <= 4000))
      && (!admin ==> e.notices == [ParseFailed(kind)])
      && (forall n :: n in e.notices ==> !n.Rendered?)
  {
  }

  /** A non-empty report is stored (with an order) and rendered exactly when
      the renderer does not raise on it; otherwise the renderer's exception
      is the one failure notice. */
  lemma StoredReportRendered(kind: ReportKind, report: Json, orderId: Option<int>, admin: bool, fileId: Option<string>,
                             raises: RenderRaises, shown: Json)
    ensures var e := StoredReport(kind, report, orderId, admin, fileId, raises);
      e.writes == OrderWrite(orderId, SuccessStatus(kind), SuccessMerge(kind, report, fileId))
      && (Rendered(kind, shown) in e.notices <==> Renders(raises, kind, report) && shown == report)
      && (!Renders(raises, kind, report) ==> e.notices == Failure(kind, admin, RenderError(raises, kind, report).value))
      && |e.notices| == 1
      && ReportKey(kind) in SuccessMerge(kind, report, fileId) && SuccessMerge(kind, report, fileId)[ReportKey(kind)] == report
  {
  }

  /** Once the content is parsed: at most one write, to the own order; a
      user who is not the admin gets one non-technical message; a parse
      failure keeps only the raw content. */
  lemma ParsedEffectsOutcome(kind: ReportKind, content: Json, report: Json, orderId: Option<int>, admin: bool,
                             fileId: Option<string>, raises: RenderRaises)
    ensures var e := ParsedEffects(kind, content, report, orderId, admin, fileId, raises);
      |e.writes| <= 1 && (!HasOrder(orderId) ==> e.writes == [])
      && (forall i :: 0 <= i < |e.writes| ==> e.writes[i].id == orderId.value)
      && (!admin ==> |e.notices| == 1 && !e.notices[0].LlmError? && !e.notices[0].ParseErrorSnippet?)
      && (ParseFailed(kind) in e.notices ==>
            forall i :: 0 <= i < |e.writes| ==>
              e.writes[i].status.None? && e.writes[i].merge.Keys == {RawKey(kind)}
              && (e.writes[i].merge[RawKey(kind)].JStr? ==> |e.writes[i].merge[RawKey(kind)].s| <= 4000))
  {
    if Truthy(report) {
      StoredReportRendered(kind, report, orderId, admin, fileId, raises, report);
    } else {
      UnparsedKeepsRaw(kind, content, orderId, admin);
    }
  }

  /** A generation writes only to its own order, at most once, and not at
      all without an order; a user who is not the admin gets exactly one
      message, never a technical one. */
  lemma ReportWritesOwnOrder(kind: ReportKind, reply: Result<Json, string>, orderId: Option<int>, admin: bool,
                             parse: string -> Option<Json>, fileId: Option<string>, raises: RenderRaises)
    ensures var e := ReportEffects(kind, reply, orderId, admin, parse, fileId, raises);
      |e.writes| <= 1 && (!HasOrder(orderId) ==> e.writes == [])
      && (forall i :: 0 <= i < |e.writes| ==> e.writes[i].id == orderId.value)
      && (!admin ==> |e.notices| == 1 && !e.notices[0].LlmError? && !e.notices[0].ParseErrorSnippet?)
  {
    if reply.Ok? && ExtractContent(reply.value).Ok? {
      var content := ExtractContent(reply.value).value;
      ParsedEffectsOutcome(kind, content, TryParseJsonFromText(content, parse), orderId, admin, fileId, raises);
    }
  }

  /** The report is rendered exactly when the router answered, the content
      parsed to a non-empty value and the renderer does not raise on it; then
      (with an order) it is the one write, under the report key. */
  lemma RenderedIffParsed(kind: ReportKind, reply: Result<Json, string>, orderId: Option<int>, admin: bool,
                          parse: string -> Option<Json>, fileId: Option<string>, raises: RenderRaises, report: Json)
    ensures var e := ReportEffects(kind, reply, orderId, admin, parse, fileId, raises);
      (Rendered(kind, report) in e.notices)
      <==> (reply.Ok? && ExtractContent(reply.value).Ok?
            && report == TryParseJsonFromText(ExtractContent(reply.value).value, parse)
            && Truthy(report) && Renders(raises, kind, report))
    ensures var e := ReportEffects(kind, reply, orderId, admin, parse, fileId, raises);
      Rendered(kind, report) in e.notices && HasOrder(orderId) ==>
        e.writes == [Write(orderId.value, SuccessStatus(kind), SuccessMerge(kind, report, fileId))]
  {
    if reply.Ok? && ExtractContent(reply.value).Ok? {
      var content := ExtractContent(reply.value).value;
      var parsed := TryParseJsonFromText(content, parse);
      if Truthy(parsed) {
        StoredReportRendered(kind, parsed, orderId, admin, fileId, raises, report);
      } else {
        UnparsedKeepsRaw(kind, content, orderId, admin);
      }
    }
  }

  /** A parsed report the renderer raises on has still been stored (with an
      order); the admin then reads the renderer's exception, anybody else the
      apology. */
  lemma RenderFailureAfterStore(kind: ReportKind, content: Json, report: Json, orderId: Option<int>, admin: bool,
                                fileId: Option<string>, raises: RenderRaises)
    requires Truthy(report) && !Renders(raises, kind, report)
    ensures var e := ParsedEffects(kind, content, report, orderId, admin, fileId, raises);
      e.writes == OrderWrite(orderId, SuccessStatus(kind), SuccessMerge(kind, report, fileId))
      && e.notices == (if admin then [LlmError(kind, RenderError(raises, kind, report).value)] else [GenerationFailed(kind)])
  {
  }

  /** A reply that does not parse never changes the order's status and keeps
      at most 4000 characters of the raw content under the raw key. */
  lemma ParseFailureKeepsRaw(kind: ReportKind, reply: Result<Json, string>, orderId: Option<int>, admin: bool,
                             parse: string -> Option<Json>, fileId: Option<string>, raises: RenderRaises)
    ensures var e := ReportEffects(kind, reply, orderId, admin, parse, fileId, raises);
      ParseFailed(kind) in e.notices ==>
        forall i :: 0 <= i < |e.writes| ==>
          e.writes[i].status.None? && e.writes[i].merge.Keys == {RawKey(kind)}
          && (e.writes[i].merge[RawKey(kind)].JStr? ==> |e.writes[i].merge[RawKey(kind)].s| <= 4000)
  {
    if reply.Ok? && ExtractContent(reply.value).Ok? {
      var content := ExtractContent(reply.value).value;
      ParsedEffectsOutcome(kind, content, TryParseJsonFromText(content, parse), orderId, admin, fileId, raises);
    }
  }

  /** A router failure writes nothing; the admin reads the router's message. */
  lemma RouterFailureReported(kind: ReportKind, message: string, orderId: Option<int>,
                              parse: string -> Option<Json>, fileId: Option<string>, raises: RenderRaises)
    ensures ReportEffects(kind, Err(message), orderId, true, parse, fileId, raises) == Effects([], [LlmError(kind, message)])
    ensures ReportEffects(kind, Err(message), orderId, false, parse, fileId, raises) == Effects([], [GenerationFailed(kind)])
  {
  }

  /** A reply whose content cannot be read writes nothing, and the admin
      reads the class of the exception: KeyError when `choices` is a dict,
      TypeError when it is a number or `true`. */
  lemma ContentFailureReported(kind: ReportKind, raw: Json, orderId: Option<int>,
                               parse: string -> Option<Json>, fileId: Option<string>, raises: RenderRaises)
    requires ExtractContent(raw).Err?
    ensures ReportEffects(kind, Ok(raw), orderId, true, parse, fileId, raises)
         == Effects([], [LlmError(kind, ExtractContent(raw).error)])
    ensures raw.JObj? && "choices" in raw.fields && raw.fields["choices"].JObj? ==>
              ReportEffects(kind, Ok(raw), orderId, true, parse, fileId, raises) == Effects([], [LlmError(kind, KeyErrorText)])
    ensures raw.JObj? && "choices" in raw.fields && raw.fields["choices"].JNum? ==>
              ReportEffects(kind, Ok(raw), orderId, true, parse, fileId, raises) == Effects([], [LlmError(kind, TypeErrorText)])
  {
  }

  /** Prose that parsed to nothing: the raw text is kept and the admin sees
      its first 800 characters. */
  lemma UnparsedProse(kind: ReportKind, content: string, orderId: int)
    requires orderId != 0
    ensures Unparsed(kind, JStr(content), Some(orderId), true)
         == Effects([Write(orderId, None, map[RawKey(kind) := JStr(Take(content, 4000))])],
                    [ParseErrorSnippet(kind, Snippet(content)), ParseFailed(kind)])
  {
  }

  /** A chat reply whose content is plain prose is handled as prose. */
  lemma ProseReplyKept(kind: ReportKind, content: string, orderId: int, parse: string -> Option<Json>, raises: RenderRaises)
    requires orderId != 0
    requires !Truthy(TryParseJsonFromText(JStr(content), parse))
    ensures ReportEffects(kind, Ok(ChatReply(JStr(content))), Some(orderId), true, parse, None, raises)
         == Effects([Write(orderId, None, map[RawKey(kind) := JStr(Take(content, 4000))])],
                    [ParseErrorSnippet(kind, Snippet(content)), ParseFailed(kind)])
  {
    ContentOfChatReply(JStr(content));
    UnparsedProse(kind, content, orderId);
  }

  /** Numerology never reaches the router without an OpenAI or Gemini key,
      even when a Mistral key alone would have served it. */
  lemma NumerologyNeedsOpenAiOrGemini(cfg: Config, world: World, user: int, orderId: Option<int>)
    requires !cfg.keys.openai && !cfg.keys.gemini
    ensures NumerologyEffects(cfg, world, user, orderId) == Effects([], [NoLlmKeys])
    ensures cfg.keys.mistral ==> Route(cfg.keys, world.net).1 != []
  {
    if cfg.keys.mistral {
      RouteErrors(cfg.keys, world.net);
    }
  }

  /** Combining the paths keeps every write on the order and adds at most
      the vision write; a rendered report has been stored with the order closed. */
  lemma PalmOutcomeWrites(vision: Option<Json>, text: Effects, orderId: Option<int>, fileId: Option<string>,
                          model: string, raises: RenderRaises, report: Json)
    requires |text.writes| <= 1 && (!HasOrder(orderId) ==> text.writes == [])
    requires forall i :: 0 <= i < |text.writes| ==> text.writes[i].id == orderId.value
    requires Rendered(PalmReport, report) in text.notices && HasOrder(orderId) ==>
               text.writes == [Write(orderId.value, Some(Done), SuccessMerge(PalmReport, report, fileId))]
    ensures var e := PalmOutcome(vision, text, orderId, fileId, model, raises);
      |e.writes| <= 2 && (!HasOrder(orderId) ==> e.writes == [])
      && (forall i :: 0 <= i < |e.writes| ==> e.writes[i].id == orderId.value)
      && (Rendered(PalmReport, report) in e.notices && HasOrder(orderId) ==>
            exists i :: 0 <= i < |e.writes| && e.writes[i].status == Some(Done)
                        && "palm_llm_report" in e.writes[i].merge && e.writes[i].merge["palm_llm_report"] == report)
  {
    var e := PalmOutcome(vision, text, orderId, fileId, model, raises);
    if Rendered(PalmReport, report) in e.notices && HasOrder(orderId) {
      if vision.Some? && !Renders(raises, PalmReport, vision.value) {
        assert e.writes[1] == text.writes[0];
      } else if vision.None? {
        assert e.writes[0] == text.writes[0];
      } else {
        assert e.writes[0].merge["palm_llm_report"] == report;
      }
    }
  }

  /** The text path of the palm generator writes at most once, to its
      order, and a rendered report has been stored with the order closed. */
  lemma PalmTextWrites(cfg: Config, world: World, user: int, fileId: Option<string>, orderId: Option<int>, report: Json)
    ensures var text := PalmText(cfg, world, user, fileId, orderId);
      |text.writes| <= 1 && (!HasOrder(orderId) ==> text.writes == [])
      && (forall i :: 0 <= i < |text.writes| ==> text.writes[i].id == orderId.value)
      && (Rendered(PalmReport, report) in text.notices && HasOrder(orderId) ==>
            text.writes == [Write(orderId.value, Some(Done), SuccessMerge(PalmReport, report, fileId))])
  {
    var reply := Route(cfg.keys, world.net).0;
    ReportWritesOwnOrder(PalmReport, reply, orderId, IsAdmin(cfg, user), cfg.parse, fileId, cfg.renderRaises);
    RenderedIffParsed(PalmReport, reply, orderId, IsAdmin(cfg, user), cfg.parse, fileId, cfg.renderRaises, report);
  }

  /** The palm generator writes only to its own order, at most twice (the
      vision report, then the text path after a failed rendering), and a
      rendered report has been stored with the order closed, whichever path
      made it. */
  lemma PalmWritesOwnOrder(cfg: Config, world: World, user: int, fileId: Option<string>, orderId: Option<int>, report: Json)
    ensures var e := PalmEffects(cfg, world, user, fileId, orderId);
      |e.writes| <= 2 && (!HasOrder(orderId) ==> e.writes == [])
      && (forall i :: 0 <= i < |e.writes| ==> e.writes[i].id == orderId.value)
      && (Rendered(PalmReport, report) in e.notices && HasOrder(orderId) ==>
            exists i :: 0 <= i < |e.writes| && e.writes[i].status == Some(Done)
                        && "palm_llm_report" in e.writes[i].merge && e.writes[i].merge["palm_llm_report"] == report)
  {
    PalmTextWrites(cfg, world, user, fileId, orderId, report);
    PalmOutcomeWrites(PalmVision(cfg, world, fileId), PalmText(cfg, world, user, fileId, orderId), orderId, fileId,
                      cfg.vision.model, cfg.renderRaises, report);
  }

  /** A vision report the palm renderer accepts is the answer: the order is
      closed with it and the router is never consulted. */
  lemma VisionReportIsFinal(cfg: Config, world: World, net2: nat -> Outcome, user: int, fileId: Option<string>,
                            orderId: Option<int>, report: Json)
    requires PalmVision(cfg, world, fileId) == Some(report) && Renders(cfg.renderRaises, PalmReport, report)
    ensures PalmEffects(cfg, world, user, fileId, orderId) == PalmEffects(cfg, world.(net := net2), user, fileId, orderId)
    ensures var e := PalmEffects(cfg, world, user, fileId, orderId);
      e.notices == [Rendered(PalmReport, report)]
      && (HasOrder(orderId) ==> e.writes == [Write(orderId.value, Some(Done), VisionMerge(report, fileId, cfg.vision.model))])
  {
    assert PalmVision(cfg, world.(net := net2), fileId) == PalmVision(cfg, world, fileId);
  }

  /** A vision report the palm renderer raises on has been stored with the
      order closed, and then the text path runs as if there had been no
      vision report, its writes after the vision write. */
  lemma VisionRenderFailureFallsBack(cfg: Config, world: World, user: int, fileId: Option<string>,
                                     orderId: Option<int>, report: Json)
    requires PalmVision(cfg, world, fileId) == Some(report) && !Renders(cfg.renderRaises, PalmReport, report)
    ensures var e := PalmEffects(cfg, world, user, fileId, orderId);
      var text := PalmText(cfg, world, user, fileId, orderId);
      e.notices == text.notices
      && e.writes == OrderWrite(orderId, Some(Done), VisionMerge(report, fileId, cfg.vision.model)) + text.writes
  {
  }

  /** Without the vision gate open the palm generator is the text path. */
  lemma PalmWithoutVision(cfg: Config, world: World, user: int, fileId: Option<string>, orderId: Option<int>)
    requires !VisionEligible(cfg.vision, fileId)
    ensures PalmEffects(cfg, world, user, fileId, orderId) == PalmText(cfg, world, user, fileId, orderId)
  {
  }

  /** None of the three generators writes to an order other than its own. */
  lemma GeneratorsWriteOwnOrder(cfg: Config, world: World, user: int, fileId: Option<string>, orderId: Option<int>)
    ensures WritesOwnOrder(NumerologyEffects(cfg, world, user, orderId).writes, orderId)
    ensures WritesOwnOrder(NatalEffects(cfg, world, user, orderId).writes, orderId)
    ensures WritesOwnOrder(PalmEffects(cfg, world, user, fileId, orderId).writes, orderId)
  {
    var reply := Route(cfg.keys, world.net).0;
    ReportWritesOwnOrder(NumerologyReport, reply, orderId, IsAdmin(cfg, user), cfg.parse, None, cfg.renderRaises);
    ReportWritesOwnOrder(NatalReport, reply, orderId, IsAdmin(cfg, user), cfg.parse, None, cfg.renderRaises);
    PalmWritesOwnOrder(cfg, world, user, fileId, orderId, EmptyObject);
  }
}
