/**
 * The OCR card (client/src/components/OCRUploadCard.jsx): sending the
 * selected files for extraction, uploading the extracted CSV, and which
 * message the card shows when either goes wrong.
 */
module OcrCard {

  import opened Wrappers
  import opened Text
  import opened Js
  import Json
  import OcrUpload

  /** How a request ended: `fetch` rejected with a message, or the server answered. */
  datatype Reply =
    | NoReply(message: string)
    | Reply(ok: bool, status: int, statusText: string, contentType: Option<string>, text: string)

  /** `JSON.parse`: a value, or a `SyntaxError` with its message. */
  datatype Parsed = ParsedJson(v: JsVal) | SyntaxError(message: string)

  /**
   * What the browser supplies: `JSON.parse`, `String(v)` for numbers,
   * arrays and objects, and the message of the `TypeError` raised by
   * reading a property of `null`.
   */
  datatype Host = Host(parse: string -> Parsed, show: JsVal -> string, typeError: string)

  /** `err.message || fallback` */
  function Shown(message: string, fallback: string): (r: string)
    ensures message != "" ==> r == message
    ensures message == "" ==> r == fallback
  {
    if message != "" then message else fallback
  }

  function DefaultServerError(status: int, statusText: string): string {
    "Server error: " + IntToString(status) + " " + statusText
  }

  /**
   * The message thrown for a reply that is not OK: the JSON body's `error`,
   * else its `message`, else `Server error: <status> <text>`; a body that
   * does not parse (or parses to `null`) gives its own text, or that default
   * when it is empty.
   */
  function ServerError(status: int, statusText: string, text: string, host: Host): (r: string)
    ensures host.parse(text).SyntaxError? ==> r == Shown(text, DefaultServerError(status, statusText))
    ensures host.parse(text).ParsedJson? && host.parse(text).v.JObj? ==>
      var m := host.parse(text).v.fields;
      && (Truthy(Get(m, "error")) ==> r == ToText(Get(m, "error"), host.show))
      && (!Truthy(Get(m, "error")) && Truthy(Get(m, "message")) ==> r == ToText(Get(m, "message"), host.show))
      && (!Truthy(Get(m, "error")) && !Truthy(Get(m, "message")) ==> r == DefaultServerError(status, statusText))
  {
    var fallback := DefaultServerError(status, statusText);
    match host.parse(text)
    case SyntaxError(_) => Shown(text, fallback)
    case ParsedJson(j) =>
      match (Prop(j, "error"), Prop(j, "message"))
      case (Some(e), Some(m)) => ToText(Or(Or(e, m), JStr(fallback)), host.show)
      case (_, _) => Shown(text, fallback)
  }

  /** A non-empty `error` string wins over any `message`, and over the status line. */
  lemma ErrorFieldWins(status: int, statusText: string, text: string, host: Host, e: string)
    requires e != ""
    requires host.parse(text).ParsedJson? && host.parse(text).v.JObj?
    requires Get(host.parse(text).v.fields, "error") == JStr(e)
    ensures ServerError(status, statusText, text, host) == e
  {
  }

  /** An empty body that is not JSON shows the status line. */
  lemma EmptyBodyShowsStatus(status: int, statusText: string, host: Host)
    requires host.parse("").SyntaxError?
    ensures ServerError(status, statusText, "", host) == "Server error: " + IntToString(status) + " " + statusText
  {
  }

  // ---------------------------------------------------------------------------
  // Extraction
  // ---------------------------------------------------------------------------

  /** The card's state: the two busy flags, the error line and the extracted CSV. */
  datatype CardState = CardState(processing: bool, uploading: bool, error: Option<string>, csv: JsVal)

  /** The files picked: how many images, and whether a PDF is chosen. */
  datatype Selection = Selection(images: nat, pdf: bool)

  datatype Submitted = Submitted(state: CardState, sent: bool)

  const NoFiles: string := "Please select at least one image or a PDF file to upload."
  const ExtractFallback: string := "An unexpected error occurred during extraction."
  const NotJson: string := "Unexpected server response format. Expected JSON."
  const NoCsvReceived: string := "Failed to extract data: No CSV data received."

  /** The JSON body of an extraction reply that the card accepts. */
  predicate ExtractionAccepted(data: JsVal) {
    data.JObj? && Get(data.fields, "status") == JStr("success") && Truthy(Get(data.fields, "csv_data"))
  }

  /** A reply that reaches the JSON branch: OK and labelled `application/json`. */
  predicate JsonReply(reply: Reply) {
    reply.Reply? && reply.ok && reply.contentType.Some? && Contains(reply.contentType.value, "application/json")
  }

  /** `handleSubmit`; `reply` is the answer of `/ocr/extract` when the request is sent. */
  function Submit(st: CardState, files: Selection, reply: Reply, host: Host): (r: Submitted)
    ensures !r.state.processing && !r.state.uploading
    ensures r.sent <==> files.images > 0 || files.pdf
    ensures !r.sent ==> r.state == CardState(false, false, Some(NoFiles), JNull)
    ensures r.state.error.None? <==>
      r.sent && JsonReply(reply) && host.parse(reply.text).ParsedJson? && ExtractionAccepted(host.parse(reply.text).v)
    ensures r.state.error.None? ==> r.state.csv == Get(host.parse(reply.text).v.fields, "csv_data")
    ensures r.state.error.Some? ==> r.state.csv == JNull
  {
    if files.images == 0 && !files.pdf then Submitted(CardState(false, false, Some(NoFiles), JNull), false)
    else
      var failed := (message: string) => Submitted(CardState(false, false, Some(Shown(message, ExtractFallback)), JNull), true);
      match reply
      case NoReply(m) => failed(m)
      case Reply(ok, status, statusText, contentType, text) =>
        if !ok then failed(ServerError(status, statusText, text, host))
        else if !(contentType.Some? && Contains(contentType.value, "application/json")) then failed(NotJson)
        else
          match host.parse(text)
          case SyntaxError(m) => failed(m)
          case ParsedJson(data) =>
            match Prop(data, "status")
            case None => failed(host.typeError)
            case Some(status) =>
              var csv := Prop(data, "csv_data").value;
              if status == JStr("success") && Truthy(csv) then
                Submitted(CardState(false, false, None, csv), true)
              else
                failed(ToText(Or(Prop(data, "error").value, JStr(NoCsvReceived)), host.show))
  }

  /** A JSON reply without CSV data shows the server's `error`, or the fixed message. */
  lemma MissingCsvMessage(st: CardState, files: Selection, reply: Reply, host: Host)
    requires files.images > 0 || files.pdf
    requires JsonReply(reply) && host.parse(reply.text).ParsedJson? && host.parse(reply.text).v.JObj?
    requires !ExtractionAccepted(host.parse(reply.text).v)
    requires !Truthy(Get(host.parse(reply.text).v.fields, "error"))
    ensures Submit(st, files, reply, host).state.error == Some(NoCsvReceived)
  {
  }

  // ---------------------------------------------------------------------------
  // Upload to the database
  // ---------------------------------------------------------------------------

  datatype Uploaded = Uploaded(state: CardState, request: Option<JsObject>, closed: bool)

  const NoCsv: string := "No CSV data to upload. Please extract data first."
  const NoPhone: string := "User phone number not found. Please log in."
  const UploadFallback: string := "An unexpected error occurred during database upload."
  const UploadRefused: string := "Failed to upload CSV data to database."

  /** `handleUploadToDB`; `reply` is the answer of `/api/upload-ocr-data` when the request is sent. */
  function UploadToDb(st: CardState, phone: JsVal, reply: Reply, host: Host): (r: Uploaded)
    ensures !Truthy(st.csv) ==> r == Uploaded(st.(error := Some(NoCsv)), None, false)
    ensures Truthy(st.csv) && !Truthy(phone) ==> r == Uploaded(st.(error := Some(NoPhone)), None, false)
    ensures r.request.Some? <==> Truthy(st.csv) && Truthy(phone)
    ensures r.request.Some? ==> r.request.value == map["phone_number" := phone, "csv_data" := st.csv]
    ensures r.request.Some? ==> !r.state.uploading && r.state.csv == st.csv
    ensures r.closed <==> (r.request.Some? && reply.Reply? && reply.ok && host.parse(reply.text).ParsedJson?
      && host.parse(reply.text).v.JObj? && Get(host.parse(reply.text).v.fields, "status") == JStr("success"))
    ensures r.closed ==> r.state.error.None?
    ensures r.request.Some? && !r.closed ==> r.state.error.Some?
  {
    if !Truthy(st.csv) then Uploaded(st.(error := Some(NoCsv)), None, false)
    else if !Truthy(phone) then Uploaded(st.(error := Some(NoPhone)), None, false)
    else
      var request := map["phone_number" := phone, "csv_data" := st.csv];
      var failed := (message: string) => Uploaded(st.(uploading := false, error := Some(Shown(message, UploadFallback))), Some(request), false);
      match reply
      case NoReply(m) => failed(m)
      case Reply(ok, status, statusText, _, text) =>
        if !ok then failed(ServerError(status, statusText, text, host))
        else
          match host.parse(text)
          case SyntaxError(m) => failed(m)
          case ParsedJson(data) =>
            match Prop(data, "status")
            case None => failed(host.typeError)
            case Some(s) =>
              if s == JStr("success") then Uploaded(st.(uploading := false, error := None), Some(request), true)
              else failed(ToText(Or(Prop(data, "error").value, JStr(UploadRefused)), host.show))
  }

  /** The upload route's 400 answers reach the card word for word. */
  lemma UploadRefusalShown(st: CardState, phone: JsVal, statusText: string, text: string, host: Host,
                           refusal: OcrUpload.UploadResponse)
    requires Truthy(st.csv) && Truthy(phone)
    requires refusal in {OcrUpload.UploadError(400, OcrUpload.PhoneMissing), OcrUpload.UploadError(400, OcrUpload.CsvMissing),
                         OcrUpload.UploadError(400, OcrUpload.NoValidRows)}
    requires host.parse(text) == ParsedJson(FromJson(Json.Obj(map["error" := Json.Str(refusal.error)])))
    ensures UploadToDb(st, phone, Reply(false, 400, statusText, Some("application/json"), text), host).state.error
      == Some(refusal.error)
  {
    var m := FromJson(Json.Obj(map["error" := Json.Str(refusal.error)])).fields;
    assert Get(m, "error") == JStr(refusal.error);
  }

  /** What the card sends is what the upload route reads: the phone number and the CSV text. */
  lemma UploadRequestReadBack(st: CardState, phone: string, csv: string, reply: Reply, host: Host)
    requires phone != "" && csv != "" && st.csv == JStr(csv)
    ensures var request := UploadToDb(st, JStr(phone), reply, host).request;
      request.Some? && ToJson(JObj(request.value)).Some?
      && var body := ToJson(JObj(request.value)).value;
      body.Obj? && Json.PyGet(body.fields, "phone_number") == Json.Str(phone)
      && Json.PyGet(body.fields, "csv_data") == Json.Str(csv)
  {
    var request := UploadToDb(st, JStr(phone), reply, host).request.value;
    assert request["phone_number"] == JStr(phone) && request["csv_data"] == JStr(csv);
    var body := ToJson(JObj(request)).value;
    assert "phone_number" in body.fields && "csv_data" in body.fields;
  }
}
