/** The whole request path composed: the page posts its payload to the relay
    route, the relay forwards it to the Flask backend, and the outcome flows back
    into the page's state. */
module Pipeline {
  import opened Wire
  import opened Base64
  import opened ImageType
  import opened PageForm
  import opened PageSession
  import PredictRoute
  import Backend
  import LeafUploadCard

  /** What the page's `fetch('/api/predict')` yields when the relay runs in front
      of `backend`. The relay's `req.json()` always succeeds here, since the page
      posts the output of `JSON.stringify`. */
  function ViaRelay(backend: Json -> Fetch): Json -> Fetch {
    body => PredictRoute.AsSeenByClient(PredictRoute.Post(Some(body), backend).response)
  }

  /** Whatever the backend does, the page's `fetch` reaches the relay and gets a
      JSON body back, with a status the relay could build a response with. */
  lemma RelayAlwaysAnswersJson(backend: Json -> Fetch, body: Json)
    ensures ViaRelay(backend)(body).Got?
    ensures ViaRelay(backend)(body).reply.body.Some?
    ensures PredictRoute.JsonResponseAllowed(ViaRelay(backend)(body).reply.status)
  {
    PredictRoute.ResponseStatusAllowed(Some(body), backend);
  }

  /** The Flask backend reachable at the relay's fixed URL. */
  function Flask(infer: Backend.Inference): Json -> Fetch {
    body => Got(Backend.PredictYield(Some(body), infer))
  }

  /** Any backend failure (a non-ok status such as 400 or 500, an unreachable
      backend, or a body the relay cannot parse) leaves the page in the error view
      with the generic message and the previous result. */
  lemma {:induction false} BackendFailureEndsInError(s: Session, p: Pending, url: string, backend: Json -> Fetch)
    requires var reply := backend(RequestBody(p, ReadLoaded(url)).value);
      reply.Unreachable? || !IsOk(reply.reply.status) || reply.reply.body.None?
    ensures Complete(s, p, ReadLoaded(url), ViaRelay(backend)) ==
      s.(error := Some(FailureMessage), status := Error)
  {
    var body := RequestBody(p, ReadLoaded(url)).value;
    var relayed := PredictRoute.Post(Some(body), backend);
    PredictRoute.OkOnlyFromOkBackend(Some(body), backend);
    assert !IsOk(relayed.response.status);
    assert ViaRelay(backend)(body) == Got(Reply(relayed.response.status, Some(relayed.response.body)));
    FailureKeepsResult(s, p, ReadLoaded(url), ViaRelay(backend));
  }

  /** In particular every 400 or 500 from `predict_yield` ends in the error view. */
  lemma FlaskErrorEndsInError(s: Session, p: Pending, url: string, infer: Backend.Inference)
    requires Backend.PredictYield(Some(RequestBody(p, ReadLoaded(url)).value), infer).status != 200
    ensures Complete(s, p, ReadLoaded(url), ViaRelay(Flask(infer))) ==
      s.(error := Some(FailureMessage), status := Error)
  {
    BackendFailureEndsInError(s, p, url, Flask(infer));
  }

  /** A data URL without a comma leaves `image_data` undefined; the key is dropped
      from the body, the backend answers 400, and the page shows the error. */
  lemma {:induction false} CommaFreeUrlEndsInError(s: Session, p: Pending, url: string, infer: Backend.Inference)
    requires ',' !in url
    ensures Backend.PredictYield(Some(RequestBody(p, ReadLoaded(url)).value), infer).status == 400
    ensures Complete(s, p, ReadLoaded(url), ViaRelay(Flask(infer))) ==
      s.(error := Some(FailureMessage), status := Error)
  {
    var body := RequestBody(p, ReadLoaded(url)).value;
    assert body == Payload(p.crop, p.form, None);
    PayloadWithoutImage(p.crop, p.form);
    assert "image_data" !in body.fields;
    Backend.MissingKeyIs400(body.fields, "image_data", infer);
    FlaskErrorEndsInError(s, p, url, infer);
  }

  /** When the relay itself cannot be reached, `fetch` throws: error view. */
  lemma RelayDownEndsInError(s: Session, p: Pending, read: ReadOutcome)
    ensures Complete(s, p, read, _ => Unreachable) == s.(error := Some(FailureMessage), status := Error)
  {
    FailureKeepsResult(s, p, read, _ => Unreachable);
  }

  /** The backend's reply to the page's payload built from a file's data URL:
      the image text decodes to exactly the file's bytes, which reach the model
      after the series and the soil object. */
  lemma {:induction false} PayloadReachesModel(p: Pending, y: real, infer: Backend.Inference)
    requires MatchesImagePattern(p.file.mimeType)
    requires infer(EnvironmentalData(), SoilData(p.crop, p.form), p.file.content) == Some(Finite(y))
    ensures RequestBody(p, ReadLoaded(DataUrl(p.file.mimeType, p.file.content))) ==
      Some(Payload(p.crop, p.form, Some(Encode(p.file.content))))
    ensures Backend.PredictYield(Some(Payload(p.crop, p.form, Some(Encode(p.file.content)))), infer) ==
      Reply(200, Some(JObj(map[Backend.YieldKey := JNum(y)])))
  {
    AdmittedTypeHasNoComma(p.file.mimeType);
    SecondPieceOfDataUrl(p.file.mimeType, p.file.content);
    var body := Payload(p.crop, p.form, Some(Encode(p.file.content)));
    PayloadKeys(p.crop, p.form, Encode(p.file.content));
    RoundTrip(p.file.content);
    assert Backend.AllKeysPresent(body) == Some(true);
  }

  /** A NaN or infinite prediction is answered with 200 but a body the relay
      cannot parse; the relay answers 500 and the page shows the error. */
  lemma {:induction false} NonFinitePredictionEndsInError(s: Session, p: Pending, y: Num, infer: Backend.Inference)
    requires MatchesImagePattern(p.file.mimeType)
    requires !y.Finite?
    requires infer(EnvironmentalData(), SoilData(p.crop, p.form), p.file.content) == Some(y)
    ensures Complete(s, p, ReadLoaded(DataUrl(p.file.mimeType, p.file.content)), ViaRelay(Flask(infer))) ==
      s.(error := Some(FailureMessage), status := Error)
  {
    var url := DataUrl(p.file.mimeType, p.file.content);
    AdmittedTypeHasNoComma(p.file.mimeType);
    SecondPieceOfDataUrl(p.file.mimeType, p.file.content);
    var body := Payload(p.crop, p.form, Some(Encode(p.file.content)));
    assert RequestBody(p, ReadLoaded(url)) == Some(body);
    PayloadKeys(p.crop, p.form, Encode(p.file.content));
    RoundTrip(p.file.content);
    Backend.NonFiniteYieldIsNotJson(body.fields, infer);
    BackendFailureEndsInError(s, p, url, Flask(infer));
  }

  /** The relay passes a backend's 200 reply through to the page unchanged. */
  lemma RelayPassesSuccess(body: Json, data: Json, backend: Json -> Fetch)
    requires backend(body) == Got(Reply(200, Some(data)))
    ensures ViaRelay(backend)(body) == Got(Reply(200, Some(data)))
  {
    PredictRoute.OkPassesThrough(body, backend);
  }

  /** A click's captured request, read normally and predicted successfully,
      shows exactly the model's yield. */
  lemma {:induction false} PendingSuccessShowsYield(s: Session, p: Pending, y: real, infer: Backend.Inference)
    requires MatchesImagePattern(p.file.mimeType)
    requires infer(EnvironmentalData(), SoilData(p.crop, p.form), p.file.content) == Some(Finite(y))
    ensures Complete(s, p, ReadLoaded(DataUrl(p.file.mimeType, p.file.content)), ViaRelay(Flask(infer)))
      == s.(status := Result, result := Value(JNum(y)))
  {
    var url := DataUrl(p.file.mimeType, p.file.content);
    PayloadReachesModel(p, y, infer);
    var body := RequestBody(p, ReadLoaded(url)).value;
    var data := JObj(map[Backend.YieldKey := JNum(y)]);
    RelayPassesSuccess(body, data, Flask(infer));
    OkResponseShowsResult(s, p, url, ViaRelay(Flask(infer)));
    CompleteEndsInOutcome(s, p, ReadLoaded(url), ViaRelay(Flask(infer)));
  }

  /** From any valid state where the guard holds, a click followed by a normal
      read and a successful prediction shows exactly the model's yield, with the
      error cleared. */
  lemma {:induction false} EndToEndSuccess(s: Session, y: real, infer: Backend.Inference)
    requires Valid(s) && CanSubmit(s)
    requires infer(EnvironmentalData(), SoilData(s.crop, s.form), s.image.file.value.content) == Some(Finite(y))
    ensures var st := Start(s);
      var p := st.request.value;
      Complete(st.session, p, ReadLoaded(DataUrl(p.file.mimeType, p.file.content)), ViaRelay(Flask(infer)))
        == s.(error := None, status := Result, result := Value(JNum(y)))
  {
    AcceptedStartEntersLoading(s);
    var p := Start(s).request.value;
    assert MatchesImagePattern(p.file.mimeType);
    PendingSuccessShowsYield(Start(s).session, p, y, infer);
  }

  /** The card's own drop handler and the page's dropzone apply the same filter:
      the card calls its handler exactly when the page would select the file. */
  lemma FiltersAgree(files: Option<seq<FileInfo>>, objectUrl: string, previewUrl: string)
    ensures |LeafUploadCard.OnFiles(files, objectUrl)| == 1 <==> DropzoneSelection(files, previewUrl).Some?
  {
  }

  /** Dropping a 50 KB JPEG on the freshly mounted page selects it. */
  lemma JpegSelected(content: seq<byte>, previewUrl: string)
    requires |content| == 50 * 1024
    ensures SelectFiles(Initial(), Some([FileInfo("image/jpeg", content)]), previewUrl) ==
      Initial().(image := ImageSlot(Some(previewUrl), Some(FileInfo("image/jpeg", content))))
  {
    PatternAdmitsExactlyAcceptedTypes("image/jpeg");
    assert FoldAll("image/jpeg") == "image/jpeg";
  }

  /** The worked example: a Banana sample with a 50 KB JPEG, for which the model
      predicts 18250 kg/ha, ends in the result view showing 18250. */
  lemma {:induction false} BananaExample(content: seq<byte>, previewUrl: string, infer: Backend.Inference)
    requires |content| == 50 * 1024
    requires infer(EnvironmentalData(), SoilData("Banana", InitialForm), content) == Some(Finite(18250.0))
    ensures var s := SelectFiles(Initial(), Some([FileInfo("image/jpeg", content)]), previewUrl);
      && CanSubmit(s)
      && Complete(Start(s).session, Start(s).request.value, ReadLoaded(DataUrl("image/jpeg", content)),
                  ViaRelay(Flask(infer)))
         == s.(status := Result, result := Value(JNum(18250.0)))
  {
    var file := FileInfo("image/jpeg", content);
    var s := SelectFiles(Initial(), Some([file]), previewUrl);
    JpegSelected(content, previewUrl);
    assert s == Initial().(image := ImageSlot(Some(previewUrl), Some(file)));
    InitialIsValid();
    SelectFilesKeepsValid(Initial(), Some([file]), previewUrl);
    assert Valid(s) && CanSubmit(s);
    AcceptedStartEntersLoading(s);
    assert Start(s).request.value == Pending(InitialForm, "Banana", file);
    EndToEndSuccess(s, 18250.0, infer);
  }
}
