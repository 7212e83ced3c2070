/**
 * The request rules of the speech-to-text backend: the upload extension
 * check, the order of the upload endpoint's early returns, the language each
 * endpoint passes to the recognizer, the mapping from the recognizer's
 * outcome to an HTTP status and body, and the supported-languages table.
 * The recognizer is an abstract function from the language to an outcome.
 */
module Backend {
  import opened Wrappers
  import opened Strings

  const AllowedExtensions: set<string> := {"wav", "mp3", "flac", "ogg"}

  /** `allowed_file`: a `.` occurs, and the text after the last one, lower-cased, is an allowed extension. */
  function AllowedFile(filename: string): (ok: bool)
    ensures ok ==> 3 <= |AfterLast(filename, '.')| <= 4 && |filename| >= 4
  {
    '.' in filename && Lower(AfterLast(filename, '.')) in AllowedExtensions
  }

  /**
   * Only the last extension counts, in any letter case: a name passes exactly
   * when it has a `.` with no `.` after it and the text after that `.`
   * lower-cases to an allowed extension.
   */
  lemma AllowedFileIff(filename: string)
    ensures AllowedFile(filename) <==>
      exists i :: 0 <= i < |filename| && filename[i] == '.' && '.' !in filename[i + 1..] &&
                  Lower(filename[i + 1..]) in AllowedExtensions
  {
    var ext := AfterLast(filename, '.');
    if '.' in filename {
      var i := |filename| - |ext| - 1;
      assert filename[i + 1..] == ext;
    }
  }

  /** `a.WAV` passes: the extension is lower-cased before the test. */
  lemma UpperCaseExtensionPasses()
    ensures AllowedFile("a.WAV")
  {
    assert AfterLast("a.WAV", '.') == "WAV";
    assert Lower("WAV") == "wav";
  }

  /** `wav` (no dot) and `a.` (empty extension) fail. */
  lemma MissingExtensionFails()
    ensures !AllowedFile("wav")
    ensures !AllowedFile("a.")
  {
    assert AfterLast("a.", '.') == "";
  }

  /** `x.wav.txt` fails: only the last extension counts. */
  lemma LastExtensionCounts()
    ensures !AllowedFile("x.wav.txt")
  {
    assert AfterLast("x.wav.txt", '.') == "txt" by {
      assert AfterLast("x.wav.", '.') == "";
    }
    assert Lower("txt") == "txt";
  }

  /** A JSON response body. */
  datatype Body =
    | Transcript(transcript: string, confidence: real, engine: string)
    | Failure(error: string)
    | Languages(languages: seq<(string, string)>)

  datatype Response = Response(status: nat, body: Body)

  /** How a recognition attempt ends: a transcript, or the exception it raised. */
  datatype Outcome =
    | Recognized(text: string)
    /** `UnknownValueError`: the audio could not be understood. */
    | Unintelligible
    /** `RequestError`: the recognition service could not be reached or refused the request. */
    | RequestFailed(detail: string)
    /** Any other exception, caught by the endpoint's outer handler. */
    | Crashed(detail: string)

  /** The response either endpoint gives for a recognition outcome. */
  function OutcomeResponse(o: Outcome): (r: Response)
    ensures r.status in {200, 400, 500}
    ensures r.status == 200 <==> o.Recognized?
    ensures r.status == 400 <==> o.Unintelligible?
    ensures r.status != 200 <==> r.body.Failure?
    ensures o.Recognized? ==> r.body == Transcript(o.text, 0.95, "google")
  {
    match o
    case Recognized(text) => Response(200, Transcript(text, 0.95, "google"))
    case Unintelligible => Response(400, Failure("Could not understand audio"))
    case RequestFailed(detail) => Response(500, Failure("API error: " + detail))
    case Crashed(detail) => Response(500, Failure("Server error: " + detail))
  }

  /** The language the recognizer is asked for, or the early response. */
  datatype Plan = Reject(response: Response) | Recognize(language: string)

  /** `items` joined with `sep` between them, as `sep.join(items)`. */
  function Join(sep: string, items: seq<string>): string {
    if items == [] then ""
    else if |items| == 1 then items[0]
    else items[0] + sep + Join(sep, items[1..])
  }

  /** `order` lists each allowed extension once: the order in which Python iterates the set. */
  predicate IsListing(order: seq<string>) {
    && |order| == |AllowedExtensions|
    && (forall x :: x in order ==> x in AllowedExtensions)
    && (forall x :: x in AllowedExtensions ==> x in order)
  }

  /** The multipart upload: the `audio` file part (if any) and the `language` form field (if any). */
  datatype UploadRequest = UploadRequest(audioFilename: Option<string>, languageField: Option<string>)

  /** The early returns of the upload endpoint, in order, then the language to recognize in. */
  function PlanUpload(req: UploadRequest, order: seq<string>): (p: Plan)
    requires IsListing(order)
    ensures p.Recognize? <==> req.audioFilename.Some? && req.audioFilename.value != "" && AllowedFile(req.audioFilename.value)
    ensures p.Reject? ==> p.response.status == 400 && p.response.body.Failure?
    ensures p.Recognize? ==> p.language == if req.languageField.Some? then req.languageField.value else "en-US"
  {
    if req.audioFilename.None? then
      Reject(Response(400, Failure("No audio file provided")))
    else if req.audioFilename.value == "" then
      Reject(Response(400, Failure("No file selected")))
    else if !AllowedFile(req.audioFilename.value) then
      Reject(Response(400, Failure("File type not allowed. Allowed: " + Join(", ", order))))
    else
      Recognize(req.languageField.GetOr("en-US"))
  }

  /** What the upload endpoint does: whether it stored the file, and its response. */
  datatype UploadResult = UploadResult(fileSaved: bool, response: Response)

  /** The upload endpoint, given the recognizer's outcome for each language. */
  function TranscribeUpload(req: UploadRequest, order: seq<string>, recognize: string -> Outcome): (r: UploadResult)
    requires IsListing(order)
    ensures r.fileSaved <==> PlanUpload(req, order).Recognize?
    ensures !r.fileSaved ==> r.response.status == 400
    ensures r.response.status in {200, 400, 500}
  {
    match PlanUpload(req, order)
    case Reject(response) => UploadResult(false, response)
    case Recognize(language) => UploadResult(true, OutcomeResponse(recognize(language)))
  }

  /**
   * The checks run in order, each answering 400 before anything is saved:
   * a missing part, then an empty name, then a disallowed extension. A
   * rejection does not depend on the recognizer. Otherwise the file is
   * saved and recognized in the form's language, `en-US` when absent.
   */
  lemma UploadChecksInOrder(req: UploadRequest, order: seq<string>, recognize: string -> Outcome, other: string -> Outcome)
    requires IsListing(order)
    ensures var r := TranscribeUpload(req, order, recognize);
      && (r.fileSaved <==> req.audioFilename.Some? && req.audioFilename.value != "" && AllowedFile(req.audioFilename.value))
      && (!r.fileSaved ==> r.response.status == 400 && r == TranscribeUpload(req, order, other))
      && (req.audioFilename.None? ==> r.response.body == Failure("No audio file provided"))
      && (req.audioFilename == Some("") ==> r.response.body == Failure("No file selected"))
      && (r.fileSaved ==> r.response == OutcomeResponse(recognize(if req.languageField.Some? then req.languageField.value else "en-US")))
  {
  }

  /** The upload endpoint takes the form field as it is, even when it is empty. */
  lemma UploadKeepsEmptyLanguage(filename: string, order: seq<string>)
    requires IsListing(order)
    requires filename != "" && AllowedFile(filename)
    ensures PlanUpload(UploadRequest(Some(filename), Some("")), order) == Recognize("")
    ensures PlanUpload(UploadRequest(Some(filename), None), order) == Recognize("en-US")
  {
  }

  /** The raw-body stream request: its bytes, the `language` query parameter and the `X-STT-Language` header. */
  datatype StreamRequest = StreamRequest(body: seq<bv8>, languageQuery: Option<string>, languageHeader: Option<string>)

  /** `query or header or 'en-US'`: an absent or empty value falls through to the next. */
  function StreamLanguage(query: Option<string>, header: Option<string>): (lang: string)
    ensures lang != ""
    ensures query.Some? && query.value != "" ==> lang == query.value
    ensures !(query.Some? && query.value != "") && header.Some? && header.value != "" ==> lang == header.value
    ensures lang == "en-US" || lang == query.GetOr("") || lang == header.GetOr("")
  {
    if query.Some? && query.value != "" then query.value
    else if header.Some? && header.value != "" then header.value
    else "en-US"
  }

  /** The stream endpoint's early return, then the language to recognize in. */
  function PlanStream(req: StreamRequest): (p: Plan)
    ensures p.Reject? <==> |req.body| == 0
    ensures p.Reject? ==> p.response == Response(400, Failure("No audio data provided"))
    ensures p.Recognize? ==> p.language == StreamLanguage(req.languageQuery, req.languageHeader) && p.language != ""
  {
    if |req.body| == 0 then Reject(Response(400, Failure("No audio data provided")))
    else Recognize(StreamLanguage(req.languageQuery, req.languageHeader))
  }

  /** The stream endpoint, given the recognizer's outcome for each language. */
  function TranscribeStream(req: StreamRequest, recognize: string -> Outcome): (r: Response)
    ensures r.status in {200, 400, 500}
    ensures |req.body| == 0 ==> r.status == 400
    ensures r.status == 200 ==> r.body.Transcript?
  {
    match PlanStream(req)
    case Reject(response) => response
    case Recognize(language) => OutcomeResponse(recognize(language))
  }

  /**
   * An empty body is answered with 400 before the recognizer is consulted;
   * any other body is recognized in a non-empty language.
   */
  lemma StreamRejectsEmptyBody(req: StreamRequest, recognize: string -> Outcome, other: string -> Outcome)
    ensures |req.body| == 0 ==>
      && TranscribeStream(req, recognize) == Response(400, Failure("No audio data provided"))
      && TranscribeStream(req, recognize) == TranscribeStream(req, other)
    ensures |req.body| > 0 ==>
      && PlanStream(req).Recognize?
      && PlanStream(req).language != ""
      && TranscribeStream(req, recognize) == OutcomeResponse(recognize(PlanStream(req).language))
  {
  }

  /** Once past their checks, both endpoints answer a recognition the same way. */
  lemma EndpointsAgree(up: UploadRequest, order: seq<string>, st: StreamRequest, recognize: string -> Outcome)
    requires IsListing(order)
    requires PlanUpload(up, order).Recognize? && PlanStream(st).Recognize?
    requires PlanUpload(up, order).language == PlanStream(st).language
    ensures TranscribeUpload(up, order, recognize).response == TranscribeStream(st, recognize)
  {
  }

  /**
   * The table `supported_languages` returns, in its declaration order. On the
   * wire `jsonify` sorts the keys; that order is not modelled, and the
   * selector's merge does not depend on it.
   */
  const SupportedLanguageTable: seq<(string, string)> := [
    ("en-US", "English"),
    ("kn-IN", "Kannada"),
    ("hi-IN", "Hindi"),
    ("ta-IN", "Tamil"),
    ("te-IN", "Telugu")
  ]

  /** `GET /api/stt/supported-languages`. */
  function SupportedLanguages(): (r: Response)
    ensures r.status == 200 && r.body.Languages?
    ensures |r.body.languages| == 5
    ensures forall i, j :: 0 <= i < j < 5 ==> r.body.languages[i].0 != r.body.languages[j].0
  {
    Response(200, Languages(SupportedLanguageTable))
  }
}
