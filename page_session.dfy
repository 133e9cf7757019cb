/** The prediction page as a state machine: its React state (form, crop, image,
    status, error, result), the transitions its handlers make, and the class that
    holds that state and applies them. `onPredict` is split at its awaits into a
    start step, which runs synchronously on the click, and a complete step, which
    applies the outcome of reading the file and of the request. */
module PageSession {
  import opened Wire
  import opened ImageType
  import opened PageForm

  /** `PredictionState`: "idle" | "loading" | "error" | "result". */
  datatype PredictionState = Idle | Loading | Error | Result

  /** The `result` state. `setResult(data.predicted_yield_kg_ha)` stores whatever
      the field holds, `undefined` when it is missing; a field holding JSON `null`
      stores `null`, the same value the page mounts with. */
  datatype Shown = Null | Undefined | Value(v: Json)

  const RejectMessage: string := "Please ensure all fields are filled and an image is uploaded."

  const FailureMessage: string := "Something went wrong while analyzing your data."

  datatype Session = Session(
    form: SoilForm,
    crop: string,
    image: ImageSlot,
    status: PredictionState,
    error: Option<string>,
    result: Shown)

  /** The state the page mounts with. */
  function Initial(): Session {
    Session(InitialForm, InitialCrop, NoImage, Idle, None, Null)
  }

  /** What every reachable state satisfies: an error view always has a message,
      a preview exists exactly when a file does, and a held file passed the
      dropzone's filter. */
  predicate Valid(s: Session) {
    && (s.status == Error ==> s.error.Some?)
    && (s.image.file.Some? <==> s.image.preview.Some?)
    && (s.image.file.Some? ==>
          AcceptsTypeAndSize(s.image.file.value.mimeType, |s.image.file.value.content|))
  }

  predicate CanSubmit(s: Session) {
    CanPredict(s.form, s.image.file)
  }

  /** The Predict button is clickable: `disabled={!canPredict || status === "loading"}`
      is false. */
  predicate ButtonEnabled(s: Session) {
    !(!CanSubmit(s) || s.status == Loading)
  }

  /** An edit of one number input. */
  function EditField(s: Session, k: SoilField, v: Num): Session {
    s.(form := With(s.form, k, v))
  }

  /** A selection through the dropzone: `onFileSelect` is `setImage`. */
  function SelectFiles(s: Session, files: Option<seq<FileInfo>>, previewUrl: string): Session {
    match DropzoneSelection(files, previewUrl)
    case None => s
    case Some(slot) => s.(image := slot)
  }

  /** The values the `onPredict` closure captured when it was clicked: the
      payload is built from these even if the form changes while it waits. */
  datatype Pending = Pending(form: SoilForm, crop: string, file: FileInfo)

  datatype Started = Started(session: Session, request: Option<Pending>)

  /** The synchronous part of `onPredict`, up to its first await. */
  function Start(s: Session): Started {
    if !CanSubmit(s) || s.image.file.None? then
      Started(s.(error := Some(RejectMessage)), None)
    else
      Started(s.(error := None, status := Loading), Some(Pending(s.form, s.crop, s.image.file.value)))
  }

  /** How the awaited `fileToBase64` promise settled: rejected by the reader's
      `onerror`, or loaded with the reader's data URL. */
  datatype ReadOutcome = ReadRejected | ReadLoaded(dataUrl: string)

  /** The body `fetch('/api/predict')` posts, `None` when no request is made. */
  function RequestBody(p: Pending, read: ReadOutcome): Option<Json> {
    match read
    case ReadRejected => None
    case ReadLoaded(url) => Some(Payload(p.crop, p.form, SecondPiece(url)))
  }

  /** The `result` value a present field stores. */
  function Stored(v: Json): (r: Shown)
    ensures r == Null <==> v.JNull?
    ensures r != Null ==> r == Value(v)
  {
    if v.JNull? then Null else Value(v)
  }

  /** `data.predicted_yield_kg_ha` for a parsed body: the field of an object,
      `undefined` for a missing field or a non-object, and `None` for `null`,
      where the property read throws a `TypeError`. */
  function YieldOf(data: Json): Option<Shown> {
    match data
    case JNull => None
    case JObj(fields) => Some(if "predicted_yield_kg_ha" in fields then Stored(fields["predicted_yield_kg_ha"]) else Undefined)
    case _ => Some(Undefined)
  }

  /** What the `try` block of `onPredict` ends with: the value passed to
      `setResult`, or `None` when it throws into the `catch`. `server` maps the
      posted body to what `fetch` yields. */
  function Exchange(p: Pending, read: ReadOutcome, server: Json -> Fetch): Option<Shown> {
    match RequestBody(p, read)
    case None => None
    case Some(body) =>
      match server(body)
      case Unreachable => None
      case Got(Reply(status, parsed)) =>
        if !IsOk(status) then None
        else
          match parsed
          case None => None
          case Some(data) => YieldOf(data)
  }

  /** The state after the awaits of `onPredict` have settled. */
  function Complete(s: Session, p: Pending, read: ReadOutcome, server: Json -> Fetch): Session {
    match Exchange(p, read, server)
    case None => s.(error := Some(FailureMessage), status := Error)
    case Some(v) => s.(result := v, status := Result)
  }

  lemma InitialIsValid()
    ensures Valid(Initial())
    ensures !CanSubmit(Initial()) && !ButtonEnabled(Initial())
  {
  }

  /** A rejected click only sets the error message: status, result and every
      other part of the state stay, and no request starts. */
  lemma RejectedStartOnlySetsError(s: Session)
    requires !CanSubmit(s)
    ensures Start(s).request.None?
    ensures Start(s).session == s.(error := Some(RejectMessage))
    ensures Start(s).session.status == s.status && Start(s).session.result == s.result
  {
  }

  /** An accepted click clears the error, enters loading, and captures the form,
      the crop and the file as they are at that moment. */
  lemma AcceptedStartEntersLoading(s: Session)
    requires CanSubmit(s)
    ensures Start(s).session == s.(error := None, status := Loading)
    ensures Start(s).request == Some(Pending(s.form, s.crop, s.image.file.value))
  {
  }

  /** What the user can still do on the page while a request is in flight: the
      button is the only control that `loading` disables. */
  datatype UserEvent =
    | EditValue(k: SoilField, v: Num)
    | PickCrop(c: string)
    | DropFiles(files: Option<seq<FileInfo>>, previewUrl: string)

  function Apply(s: Session, e: UserEvent): Session {
    match e
    case EditValue(k, v) => EditField(s, k, v)
    case PickCrop(c) => s.(crop := c)
    case DropFiles(files, previewUrl) => SelectFiles(s, files, previewUrl)
  }

  function ApplyAll(s: Session, es: seq<UserEvent>): Session
    decreases |es|
  {
    if |es| == 0 then s else ApplyAll(Apply(s, es[0]), es[1..])
  }

  /** Edits, crop changes and file drops never touch the prediction's status,
      error or result, and keep the invariant. */
  lemma {:induction false} UserEventsKeepPrediction(s: Session, es: seq<UserEvent>)
    ensures ApplyAll(s, es).status == s.status
    ensures ApplyAll(s, es).error == s.error
    ensures ApplyAll(s, es).result == s.result
    ensures Valid(s) ==> Valid(ApplyAll(s, es))
    decreases |es|
  {
    if |es| > 0 {
      var t := Apply(s, es[0]);
      if Valid(s) {
        match es[0]
        case EditValue(k, v) => EditKeepsValid(s, k, v, s.crop);
        case PickCrop(c) => EditKeepsValid(s, Nitrogen, s.form.nitrogen, c);
        case DropFiles(files, previewUrl) => SelectFilesKeepsValid(s, files, previewUrl);
      }
      UserEventsKeepPrediction(t, es[1..]);
    }
  }

  /** Once a request has started, the button stays disabled whatever the user
      does meanwhile, so the button cannot start a second concurrent request. */
  lemma NoSecondRequestWhileLoading(s: Session, es: seq<UserEvent>)
    requires CanSubmit(s)
    ensures ApplyAll(Start(s).session, es).status == Loading
    ensures !ButtonEnabled(ApplyAll(Start(s).session, es))
  {
    UserEventsKeepPrediction(Start(s).session, es);
  }

  /** The button is enabled exactly when the guard holds and nothing is loading. */
  lemma ButtonEnabledExactly(s: Session)
    ensures ButtonEnabled(s) <==> CanSubmit(s) && s.status != Loading
  {
  }

  /** Every failure (the reader rejects, the fetch throws, a non-ok status, a body
      that is not JSON, or a `null` body) ends in the error view with the one
      generic message, and keeps the previous result. */
  lemma {:induction false} FailureKeepsResult(s: Session, p: Pending, read: ReadOutcome, server: Json -> Fetch)
    requires
      || read.ReadRejected?
      || server(RequestBody(p, read).value).Unreachable?
      || !IsOk(server(RequestBody(p, read).value).reply.status)
      || server(RequestBody(p, read).value).reply.body in {None, Some(JNull)}
    ensures Complete(s, p, read, server) == s.(error := Some(FailureMessage), status := Error)
  {
    if read.ReadLoaded? {
      var body := RequestBody(p, read).value;
      assert RequestBody(p, read) == Some(body);
    }
  }

  /** An ok response with a parsed non-null body shows its yield field; an object
      without the field, or a body that is not an object at all, still moves to
      the result view, with `undefined`. */
  lemma OkResponseShowsResult(s: Session, p: Pending, url: string, server: Json -> Fetch)
    requires var reply := server(RequestBody(p, ReadLoaded(url)).value);
      reply.Got? && IsOk(reply.reply.status) && reply.reply.body.Some? && reply.reply.body.value != JNull
    ensures var data := server(RequestBody(p, ReadLoaded(url)).value).reply.body.value;
      && Complete(s, p, ReadLoaded(url), server).status == Result
      && Complete(s, p, ReadLoaded(url), server).error == s.error
      && (data.JObj? && "predicted_yield_kg_ha" in data.fields ==>
            Complete(s, p, ReadLoaded(url), server).result == Stored(data.fields["predicted_yield_kg_ha"]))
      && ((!data.JObj? || "predicted_yield_kg_ha" !in data.fields) ==>
            Complete(s, p, ReadLoaded(url), server).result == Undefined)
  {
  }

  /** The complete step ends in exactly one of the two outcome views, and touches
      nothing but status, error and result. */
  lemma CompleteEndsInOutcome(s: Session, p: Pending, read: ReadOutcome, server: Json -> Fetch)
    ensures var t := Complete(s, p, read, server);
      && t.status in {Error, Result}
      && t.form == s.form && t.crop == s.crop && t.image == s.image
      && (t.status == Error <==> Exchange(p, read, server).None?)
  {
  }

  /** Success right after an accepted start leaves the error cleared. */
  lemma SuccessAfterStartHasNoError(s: Session, p: Pending, read: ReadOutcome, server: Json -> Fetch)
    requires CanSubmit(s)
    requires Complete(Start(s).session, p, read, server).status == Result
    ensures Complete(Start(s).session, p, read, server).error.None?
  {
  }

  /** Every transition keeps the invariant. */
  lemma EditKeepsValid(s: Session, k: SoilField, v: Num, crop: string)
    requires Valid(s)
    ensures Valid(EditField(s, k, v))
    ensures Valid(s.(crop := crop))
  {
  }

  lemma SelectFilesKeepsValid(s: Session, files: Option<seq<FileInfo>>, previewUrl: string)
    requires Valid(s)
    ensures Valid(SelectFiles(s, files, previewUrl))
  {
    PatternAdmitsExactlyAcceptedTypes(if files.Some? && |files.value| > 0 then files.value[0].mimeType else "");
  }

  lemma StartAndCompleteKeepValid(s: Session, p: Pending, read: ReadOutcome, server: Json -> Fetch)
    requires Valid(s)
    ensures Valid(Start(s).session)
    ensures Valid(Complete(s, p, read, server))
  {
  }

  /** A file that is too large (11 MiB) is ignored by the dropzone, so from the
      initial state the guard stays false and no request can start. */
  lemma OversizedImageBlocksSubmission(mimeType: string, content: seq<Base64.byte>, previewUrl: string)
    requires |content| == 11 * 1024 * 1024
    ensures SelectFiles(Initial(), Some([FileInfo(mimeType, content)]), previewUrl) == Initial()
    ensures !CanSubmit(SelectFiles(Initial(), Some([FileInfo(mimeType, content)]), previewUrl))
    ensures Start(SelectFiles(Initial(), Some([FileInfo(mimeType, content)]), previewUrl)).request.None?
  {
  }

  /** The page's React state, updated through its setters. */
  class PredictionPage {
    var form: SoilForm
    var crop: string
    var image: ImageSlot
    var status: PredictionState
    var error: Option<string>
    var result: Shown

    function Snapshot(): Session
      reads this
    {
      Session(form, crop, image, status, error, result)
    }

    constructor ()
      ensures Snapshot() == Initial()
      ensures Valid(Snapshot())
    {
      form := InitialForm;
      crop := InitialCrop;
      image := NoImage;
      status := Idle;
      error := None;
      result := Null;
    }

    /** The memoised `canPredict`. */
    function CanPredictNow(): (b: bool)
      reads this
      ensures b <==> CanSubmit(Snapshot())
    {
      NonNegative(form.nitrogen) && NonNegative(form.phosphorus) && NonNegative(form.potassium)
        && image.file != None
    }

    /** The Predict button's `disabled` attribute. */
    function ButtonDisabled(): (b: bool)
      reads this
      ensures b <==> !ButtonEnabled(Snapshot())
    {
      !CanPredictNow() || status == Loading
    }

    /** The number input's `onChange` for `key`. */
    method SetField(k: SoilField, v: Num)
      requires Valid(Snapshot())
      modifies this
      ensures Snapshot() == EditField(old(Snapshot()), k, v)
      ensures Valid(Snapshot())
    {
      form := With(form, k, v);
    }

    /** The crop selector's `onChange`. */
    method SetCrop(c: string)
      requires Valid(Snapshot())
      modifies this
      ensures Snapshot() == old(Snapshot()).(crop := c)
      ensures Valid(Snapshot())
    {
      crop := c;
    }

    /** `LeafDropzone.handleFiles` with `onFileSelect = setImage`. */
    method HandleFiles(files: Option<seq<FileInfo>>, previewUrl: string)
      requires Valid(Snapshot())
      modifies this
      ensures Snapshot() == SelectFiles(old(Snapshot()), files, previewUrl)
      ensures Valid(Snapshot())
    {
      if files.None? || |files.value| == 0 {
        return;
      }
      var file := files.value[0];
      if !MatchesImagePattern(file.mimeType) || |file.content| > MaxUploadBytes {
        return;
      }
      image := ImageSlot(Some(previewUrl), Some(file));
      PatternAdmitsExactlyAcceptedTypes(file.mimeType);
    }

    /** `onPredict` up to its first await. */
    method OnPredictStart() returns (request: Option<Pending>)
      requires Valid(Snapshot())
      modifies this
      ensures Started(Snapshot(), request) == Start(old(Snapshot()))
      ensures Valid(Snapshot())
    {
      if !CanPredictNow() || image.file.None? {
        error := Some(RejectMessage);
        return None;
      }
      error := None;
      status := Loading;
      request := Some(Pending(form, crop, image.file.value));
    }

    /** The rest of `onPredict` once the awaits have settled; returns the body it
        posted, `None` when it made no request. */
    method OnPredictComplete(p: Pending, read: ReadOutcome, server: Json -> Fetch) returns (sent: Option<Json>)
      requires Valid(Snapshot())
      modifies this
      ensures Snapshot() == Complete(old(Snapshot()), p, read, server)
      ensures sent == RequestBody(p, read)
      ensures Valid(Snapshot())
    {
      if read.ReadRejected? {
        error := Some(FailureMessage);
        status := Error;
        return None;
      }
      var imageBase64 := SecondPiece(read.dataUrl);
      var payload := Payload(p.crop, p.form, imageBase64);
      sent := Some(payload);
      var response := server(payload);
      if response.Unreachable? || !IsOk(response.reply.status) || response.reply.body.None? {
        error := Some(FailureMessage);
        status := Error;
        return;
      }
      var data := response.reply.body.value;
      if data.JNull? {
        error := Some(FailureMessage);
        status := Error;
        return;
      }
      result := if data.JObj? && "predicted_yield_kg_ha" in data.fields
                then Stored(data.fields["predicted_yield_kg_ha"]) else Undefined;
      status := Result;
    }
  }
}
