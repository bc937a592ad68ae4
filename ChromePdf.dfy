/**
 * The Chrome PDF task of src/chrome.rs: the paper-format table, the rules that turn a
 * payload into the parameters of `Page.printToPDF`, the choice of navigation target,
 * the handling of the command's reply, and the WebDriver shape of a CDP command.
 * Browser I/O is reduced to its outcomes, passed in as parameters; base64 encoding and
 * decoding are function parameters, since their definition is not modelled.
 */
module ChromePdf {
  import opened Wrappers

  /** The JSON values the task builds and reads. */
  datatype Json =
    | JBool(b: bool)
    | JNumber(n: real)
    | JString(s: string)
    | JObject(fields: map<string, Json>)

  // ---------------------------------------------------------------------------
  // Paper formats
  // ---------------------------------------------------------------------------

  /** A paper size in hundredths of an inch. */
  datatype PaperSize = PaperSize(width: nat, height: nat)

  /**
   * Upper-casing of one character, as far as it can decide a lookup in the format table:
   * ASCII letters, and the dotless i, whose upper case is the ASCII `I`. Every other
   * character upper-cases to something that is not a letter or digit of a table name.
   */
  function UpperChar(c: char): char {
    if 'a' <= c <= 'z' then (c as int - 32) as char
    else if c == 'ı' then 'I'
    else c
  }

  /** ASCII lower-casing, used only to state that the lookup ignores case. */
  function LowerChar(c: char): char {
    if 'A' <= c <= 'Z' then (c as int + 32) as char else c
  }

  /** Upper-cases a format name: every ASCII lower-case letter goes, and no other character that could spell a table key changes. */
  function ToUpper(s: string): (r: string)
    ensures |r| == |s|
    ensures forall i :: 0 <= i < |r| ==> !('a' <= r[i] <= 'z')
    ensures forall i :: 0 <= i < |s| && 'a' <= s[i] <= 'z' ==> r[i] as int == s[i] as int - 32
    ensures forall i :: 0 <= i < |s| && !('a' <= s[i] <= 'z') && s[i] != 'ı' ==> r[i] == s[i]
  {
    seq(|s|, i requires 0 <= i < |s| => UpperChar(s[i]))
  }

  function ToLower(s: string): string {
    seq(|s|, i requires 0 <= i < |s| => LowerChar(s[i]))
  }

  const A4: PaperSize := PaperSize(827, 1170)

  /** The named formats, keyed by their upper-case names. */
  const PaperFormats: map<string, PaperSize> := map[
    "LETTER" := PaperSize(850, 1100),
    "LEGAL" := PaperSize(850, 1400),
    "TABLOID" := PaperSize(1100, 1700),
    "LEDGER" := PaperSize(1700, 1100),
    "A0" := PaperSize(3310, 4680),
    "A1" := PaperSize(2340, 3310),
    "A2" := PaperSize(1650, 2340),
    "A3" := PaperSize(1170, 1650),
    "A4" := A4,
    "A5" := PaperSize(583, 827),
    "A6" := PaperSize(413, 583)
  ]

  /** The size of a named format; a name the table does not know gives A4. */
  function FormatToInches(format: string): (size: PaperSize)
    ensures ToUpper(format) in PaperFormats ==> size == PaperFormats[ToUpper(format)]
    ensures ToUpper(format) !in PaperFormats ==> size == A4
    ensures size in PaperFormats.Values
  {
    var key := ToUpper(format);
    assert PaperFormats["A4"] == A4;
    if key in PaperFormats then PaperFormats[key] else A4
  }

  /** The default format name is the A4 entry. */
  lemma DefaultFormatIsA4()
    ensures FormatToInches("A4") == A4
  {
    assert ToUpper("A4") == "A4";
  }

  /** The lookup ignores case: a name, its upper case and its lower case give the same size. */
  lemma FormatIgnoresCase(format: string)
    ensures FormatToInches(ToUpper(format)) == FormatToInches(format)
    ensures FormatToInches(ToLower(format)) == FormatToInches(format)
  {
    assert ToUpper(ToUpper(format)) == ToUpper(format);
    assert ToUpper(ToLower(format)) == ToUpper(format);
  }

  /** Every format is portrait except LEDGER, which is TABLOID turned on its side. */
  lemma LedgerIsTurnedTabloid()
    ensures PaperFormats["LEDGER"] == PaperSize(PaperFormats["TABLOID"].height, PaperFormats["TABLOID"].width)
    ensures forall name :: name in PaperFormats ==>
      (PaperFormats[name].width > PaperFormats[name].height <==> name == "LEDGER")
  {
  }

  /** Each A size is the one before it halved: its long side is the previous short side. */
  lemma ASeriesHalves()
    ensures PaperFormats["A1"].height == PaperFormats["A0"].width
    ensures PaperFormats["A2"].height == PaperFormats["A1"].width
    ensures PaperFormats["A3"].height == PaperFormats["A2"].width
    ensures PaperFormats["A4"].height == PaperFormats["A3"].width
    ensures PaperFormats["A5"].height == PaperFormats["A4"].width
    ensures PaperFormats["A6"].height == PaperFormats["A5"].width
  {
  }

  // ---------------------------------------------------------------------------
  // The payload and the print parameters
  // ---------------------------------------------------------------------------

  /** The request payload; margins are the payload's floating-point numbers, carried as reals. */
  datatype Payload = Payload(
    url: Option<string>,
    html: Option<string>,
    title: Option<string>,
    author: Option<string>,
    media: Option<string>,
    format: Option<string>,
    width: Option<string>,
    height: Option<string>,
    printRange: Option<string>,
    printBackground: bool,
    landscape: bool,
    marginTop: Option<real>,
    marginRight: Option<real>,
    marginBottom: Option<real>,
    marginLeft: Option<real>,
    displayHeaderFooter: bool,
    headerTemplate: Option<string>,
    footerTemplate: Option<string>,
    waitForResources: Option<bool>,
    waitForEvent: bool)

  /** A length in hundredths of an inch as the JSON number of inches. */
  function Inches(hundredths: nat): Json {
    JNumber(hundredths as real / 100.0)
  }

  /** The keys every parameter map carries. */
  const AlwaysKeys: set<string> := {
    "printBackground", "landscape", "displayHeaderFooter",
    "marginTop", "marginRight", "marginBottom", "marginLeft",
    "paperWidth", "paperHeight"
  }

  /** Adds `key` with the string value when there is one. */
  function WithOptional(params: map<string, Json>, key: string, value: Option<string>): (r: map<string, Json>)
    ensures r.Keys == params.Keys + (if value.Some? then {key} else {})
    ensures forall k :: k in params && k != key ==> r[k] == params[k]
    ensures value.Some? ==> r[key] == JString(value.value)
  {
    if value.Some? then params[key := JString(value.value)] else params
  }

  /** The paper width and height: the payload's own when both are given, else the format's (A4 by default). */
  function PaperDimensions(p: Payload): (dims: (Json, Json))
    ensures p.width.Some? && p.height.Some? ==> dims == (JString(p.width.value), JString(p.height.value))
    ensures !(p.width.Some? && p.height.Some?) ==>
      var size := if p.format.Some? then FormatToInches(p.format.value) else A4;
      dims == (Inches(size.width), Inches(size.height))
  {
    if p.width.Some? && p.height.Some? then
      (JString(p.width.value), JString(p.height.value))
    else
      DefaultFormatIsA4();
      var size := FormatToInches(p.format.UnwrapOr("A4"));
      (Inches(size.width), Inches(size.height))
  }

  /** The keys that do not depend on the paper size or the optional strings. */
  function BaseParams(p: Payload): (base: map<string, Json>)
    ensures base.Keys == AlwaysKeys - {"paperWidth", "paperHeight"}
  {
    map[
      "printBackground" := JBool(p.printBackground),
      "landscape" := JBool(p.landscape),
      "displayHeaderFooter" := JBool(p.headerTemplate.Some? || p.footerTemplate.Some?),
      "marginTop" := JNumber(p.marginTop.UnwrapOr(0.0)),
      "marginRight" := JNumber(p.marginRight.UnwrapOr(0.0)),
      "marginBottom" := JNumber(p.marginBottom.UnwrapOr(0.0)),
      "marginLeft" := JNumber(p.marginLeft.UnwrapOr(0.0))
    ]
  }

  /** The parameters of `Page.printToPDF` built from a payload: the nine fixed keys, and each optional key exactly when its field is set. */
  function PrintParams(p: Payload): (params: map<string, Json>)
    ensures params.Keys == AlwaysKeys
      + (if p.printRange.Some? then {"pageRanges"} else {})
      + (if p.headerTemplate.Some? then {"headerTemplate"} else {})
      + (if p.footerTemplate.Some? then {"footerTemplate"} else {})
  {
    var optional := WithOptional(WithOptional(WithOptional(BaseParams(p),
      "pageRanges", p.printRange),
      "headerTemplate", p.headerTemplate),
      "footerTemplate", p.footerTemplate);
    var (w, h) := PaperDimensions(p);
    optional["paperWidth" := w]["paperHeight" := h]
  }

  /** The optional layers and the paper size leave every key of the base map as it was. */
  lemma BaseParamsKept(p: Payload, key: string)
    requires key in BaseParams(p)
    ensures PrintParams(p)[key] == BaseParams(p)[key]
  {
    var base := BaseParams(p);
    assert key != "pageRanges" && key != "headerTemplate" && key != "footerTemplate";
    assert key != "paperWidth" && key != "paperHeight";
  }

  /** displayHeaderFooter is set exactly when a header or footer template is given; the two flags are copied. */
  lemma PrintParamsFlags(p: Payload)
    ensures PrintParams(p)["displayHeaderFooter"] == JBool(p.headerTemplate.Some? || p.footerTemplate.Some?)
    ensures PrintParams(p)["printBackground"] == JBool(p.printBackground)
    ensures PrintParams(p)["landscape"] == JBool(p.landscape)
  {
    BaseParamsKept(p, "displayHeaderFooter");
    BaseParamsKept(p, "printBackground");
    BaseParamsKept(p, "landscape");
  }

  /** Each margin is the payload's value, or 0 when the payload leaves it out. */
  lemma PrintParamsMargins(p: Payload)
    ensures PrintParams(p)["marginTop"] == JNumber(if p.marginTop.Some? then p.marginTop.value else 0.0)
    ensures PrintParams(p)["marginRight"] == JNumber(if p.marginRight.Some? then p.marginRight.value else 0.0)
    ensures PrintParams(p)["marginBottom"] == JNumber(if p.marginBottom.Some? then p.marginBottom.value else 0.0)
    ensures PrintParams(p)["marginLeft"] == JNumber(if p.marginLeft.Some? then p.marginLeft.value else 0.0)
  {
    BaseParamsKept(p, "marginTop");
    BaseParamsKept(p, "marginRight");
    BaseParamsKept(p, "marginBottom");
    BaseParamsKept(p, "marginLeft");
  }

  /** pageRanges, headerTemplate and footerTemplate carry the payload's strings when set. */
  lemma PrintParamsOptional(p: Payload)
    ensures p.printRange.Some? ==> PrintParams(p)["pageRanges"] == JString(p.printRange.value)
    ensures p.headerTemplate.Some? ==> PrintParams(p)["headerTemplate"] == JString(p.headerTemplate.value)
    ensures p.footerTemplate.Some? ==> PrintParams(p)["footerTemplate"] == JString(p.footerTemplate.value)
  {
  }

  /** The paper size is the payload's width and height when both are set, else its format's (A4 when absent). */
  lemma PrintParamsPaper(p: Payload)
    ensures p.width.Some? && p.height.Some? ==>
      PrintParams(p)["paperWidth"] == JString(p.width.value) && PrintParams(p)["paperHeight"] == JString(p.height.value)
    ensures !(p.width.Some? && p.height.Some?) ==>
      var size := if p.format.Some? then FormatToInches(p.format.value) else A4;
      PrintParams(p)["paperWidth"] == Inches(size.width) && PrintParams(p)["paperHeight"] == Inches(size.height)
  {
  }

  /** The payload's own displayHeaderFooter flag, its navigation fields and its wait options never reach the parameters. */
  lemma ParamsIgnoreUnusedFields(p: Payload, q: Payload)
    requires p.format == q.format && p.width == q.width && p.height == q.height
    requires p.printRange == q.printRange && p.printBackground == q.printBackground && p.landscape == q.landscape
    requires p.marginTop == q.marginTop && p.marginRight == q.marginRight
    requires p.marginBottom == q.marginBottom && p.marginLeft == q.marginLeft
    requires p.headerTemplate == q.headerTemplate && p.footerTemplate == q.footerTemplate
    ensures PrintParams(p) == PrintParams(q)
  {
    assert BaseParams(p) == BaseParams(q);
    assert PaperDimensions(p) == PaperDimensions(q);
  }

  // ---------------------------------------------------------------------------
  // Navigation and the print itself
  // ---------------------------------------------------------------------------

  const DataUrlPrefix: string := "data:text/html;base64,"

  /** Where the page is sent before printing: the url if given, else the html as a data URL, else nowhere. */
  function NavigationTarget(p: Payload, encode: string -> string): (target: Option<string>)
    ensures p.url.Some? ==> target == p.url
    ensures p.url.None? && p.html.Some? ==>
      target.Some? && |target.value| >= |DataUrlPrefix| && target.value[..|DataUrlPrefix|] == DataUrlPrefix &&
      target.value[|DataUrlPrefix|..] == encode(p.html.value)
    ensures target.None? <==> p.url.None? && p.html.None?
  {
    if p.url.Some? then p.url
    else if p.html.Some? then Some(DataUrlPrefix + encode(p.html.value))
    else None
  }

  datatype PdfError = NavigationFailed | PrintFailed | NoPdfData | DecodeFailed

  /** What one run of the task did: where it navigated, which command it issued, what it returned. */
  datatype Attempt = Attempt(visited: Option<string>, issued: Option<CdpCommand>, result: Result<seq<bv8>, PdfError>)

  const PrintToPdf: string := "Page.printToPDF"

  /** The command the task issues for a payload. */
  function PrintCommand(p: Payload): (c: CdpCommand)
    ensures c.cmd == PrintToPdf && c.params.JObject? && c.params.fields == PrintParams(p)
  {
    CdpCommand(PrintToPdf, JObject(PrintParams(p)))
  }

  /** The base64 text in a reply's string `data` field, if there is one. */
  function PdfData(reply: Json): (data: Option<string>)
    ensures data.Some? <==> reply.JObject? && "data" in reply.fields && reply.fields["data"].JString?
    ensures data.Some? ==> reply.fields["data"] == JString(data.value)
  {
    if reply.JObject? && "data" in reply.fields && reply.fields["data"].JString?
    then Some(reply.fields["data"].s) else None
  }

  /**
   * One run of the task. `navigationOk` is whether `goto` succeeded, `reply` the command's
   * reply (None when issuing it failed), `encode` and `decode` the base64 codec.
   */
  function Process(p: Payload, encode: string -> string, decode: string -> Option<seq<bv8>>,
                   navigationOk: bool, reply: Option<Json>): (a: Attempt)
    ensures a.visited == NavigationTarget(p, encode)
    ensures a.visited.Some? && !navigationOk ==> a.issued.None? && a.result == Err(NavigationFailed)
    ensures a.issued.Some? <==> a.visited.None? || navigationOk
    ensures a.issued.Some? ==> a.issued.value == PrintCommand(p)
    ensures a.issued.Some? && reply.None? ==> a.result == Err(PrintFailed)
    ensures a.issued.Some? && reply.Some? && PdfData(reply.value).None? ==> a.result == Err(NoPdfData)
    ensures a.result.Ok? <==>
      a.issued.Some? && reply.Some? && PdfData(reply.value).Some? && decode(PdfData(reply.value).value).Some?
    ensures a.result.Ok? ==> a.result.value == decode(PdfData(reply.value).value).value
  {
    var target := NavigationTarget(p, encode);
    if target.Some? && !navigationOk then
      Attempt(target, None, Err(NavigationFailed))
    else
      var command := PrintCommand(p);
      var result :=
        if reply.None? then Err(PrintFailed)
        else match PdfData(reply.value)
          case None => Err(NoPdfData)
          case Some(data) =>
            match decode(data)
            case None => Err(DecodeFailed)
            case Some(bytes) => Ok(bytes);
      Attempt(target, Some(command), result)
  }

  // ---------------------------------------------------------------------------
  // A CDP command sent over the WebDriver connection
  // ---------------------------------------------------------------------------

  datatype HttpMethod = Get | Post | Delete

  const SessionPrefix: string := "session/"
  const ExecuteSuffix: string := "/goog/cdp/execute"

  datatype CdpCommand = CdpCommand(cmd: string, params: Json) {
    /** The request path, relative to the WebDriver base URL; the session id must be known. */
    function Endpoint(sessionId: Option<string>): (path: string)
      requires sessionId.Some?
      ensures |path| == |SessionPrefix| + |sessionId.value| + |ExecuteSuffix|
      ensures path[..|SessionPrefix|] == SessionPrefix
      ensures path[|SessionPrefix|..|SessionPrefix| + |sessionId.value|] == sessionId.value
      ensures path[|SessionPrefix| + |sessionId.value|..] == ExecuteSuffix
    {
      SessionPrefix + sessionId.value + ExecuteSuffix
    }

    /** A POST whose body is the object {cmd, params}. */
    function MethodAndBody(): (r: (HttpMethod, Option<Json>))
      ensures r.0 == Post
      ensures r.1.Some? && r.1.value.JObject? && r.1.value.fields.Keys == {"cmd", "params"}
      ensures r.1.value.fields["cmd"] == JString(cmd) && r.1.value.fields["params"] == params
    {
      (Post, Some(JObject(map["cmd" := JString(cmd), "params" := params])))
    }

    /** A CDP command runs inside an existing session; it never opens one. */
    function IsNewSession(): (opens: bool)
      ensures !opens
    {
      false
    }
  }

  /** Distinct sessions get distinct endpoints, and no CDP command opens a session. */
  lemma EndpointNamesSession(c: CdpCommand, a: string, b: string)
    ensures c.Endpoint(Some(a)) == c.Endpoint(Some(b)) ==> a == b
    ensures !c.IsNewSession()
  {
  }
}
