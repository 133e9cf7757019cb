# AgriFusion prediction pipeline, modelled in Dafny

This project models the request path of the AgriFusion yield predictor, which has four parts:

- **The prediction page** (`my-app/app/page.tsx`). It holds:
  - the soil form;
  - the crop;
  - the selected leaf image;
  - the prediction status, error message and result.

  It guards the Predict button with `canPredict` and filters dropped files by MIME type and size. On a click it reads the image as a base64 data URL, builds the JSON payload and posts it to its own API route.
- **The leaf upload card** (`my-app/components/leaf-upload-card.tsx`). It applies the same file filter and hands an object URL to its callback.
- **The API route** `POST /api/predict` (`my-app/app/api/predict/route.ts`). It forwards the body to the Flask backend and classifies the reply.
- **The Flask backend's routes** (`mixed-cropping-ai/backend/app.py`):
  - `predict_yield` checks for three keys, decodes the image and maps every exception to a 500;
  - `index` is the status check.

The model consists of nine modules:

| module | file | contents |
|---|---|---|
| `Wire` | `wire.dfy` | JSON values, JavaScript numbers (including NaN and the infinities), how `JSON.stringify` writes them, `Response.ok`, and what a `fetch` yields |
| `Base64` | `base64.dfy` | the base64 codec of section 4 of RFC 4648, standing in for `FileReader.readAsDataURL` on one side and `base64.b64decode` on the other |
| `ImageType` | `image_type.dfy` | the accept rule `/^image\/(png\|jpe?g)$/i` with the 10 MiB bound, modelled by the structure of the regular expression under ASCII case folding |
| `LeafUploadCard` | `leaf_upload_card.dfy` | `onFiles` |
| `PageForm` | `page_form.dfy` | the pure parts of the page: the form and its update, `canPredict`, `split(',')[1]`, the payload and `handleFiles` |
| `PageSession` | `page_session.dfy` | the page state as a state machine, and the class `PredictionPage` |
| `PredictRoute` | `route.dfy` | the relay route |
| `Backend` | `backend.dfy` | `predict_yield` and `index` |
| `Pipeline` | `pipeline.dfy` | the three parts composed end to end |

In `PredictionPage`, the fields are the React state, each handler is a method that changes them, and every method is proved against a transition function of `PageSession`. `onPredict` is async, so it is split at its awaits into two steps:

- `OnPredictStart` is the synchronous part up to the first await.
- `OnPredictComplete` is the rest, applied once the awaits have settled.

Parts the model never sees are parameters:

- how the file reader settles;
- what a `fetch` returns;
- the model's inference.

The model follows the code as written, including its quirks:

- `canPredict` checks only nitrogen, phosphorus and potassium, plus the presence of an image.
  - A NaN in any of the three makes it false.
  - The other three fields are never checked.
- A rejected click sets the message but leaves `status` unchanged.
- Every failure shows the same message, "Something went wrong while analyzing your data.". No failure is distinguished by kind.
- An ok response whose body is JSON `null` throws when `.predicted_yield_kg_ha` is read, which leads to the error view.
- An ok response whose body lacks the field stores `undefined` as the result and shows the result view.
- `split(',')[1]` is `undefined` when the data URL has no comma, and `JSON.stringify` then drops `image_data` from the body. The backend answers such a body with a 400.
- `k in data` is not only a dict membership test:
  - for a JSON list or string body it is list membership or a substring test, and it gives a 400 when a key is absent;
  - `null`, a number or a boolean body makes it raise, which gives a 500.
- On success the relay answers with status 200, not the backend's own 2xx status.
- A non-ok backend status of 304, or any status outside 200..599, makes `NextResponse.json` throw inside the relay's `try`, so the page gets a 500 rather than that status. A 204 or 205 is an ok status with an empty body, so it reaches the same 500 through `response.json()` instead.
- A NaN or infinite yield is written by `jsonify` as a bare `NaN` or `Infinity`, which is not JSON. The relay's `response.json()` rejects it, the relay answers 500, and the page shows the error.
- Nothing inside `onPredict` stops a second request during loading. Only the button's `disabled` rule does.
- The form and crop posted are those captured at the click, even if the form changes while the request runs.
- There is no request timeout, no crop validation and no check on the series length. None of these exists in the code.

## Model

| member | source | states |
|---|---|---|
| Wire.NumToJsonMergesOnlyNonFinite | my-app/app/page.tsx:88 | `JSON.stringify` writes a number as a JSON number exactly when it is finite; two values are written alike exactly when they are equal or both non-finite, so NaN and the infinities all become `null` and nothing else is lost |
| Wire.ErrorBody | my-app/app/api/predict/route.ts:24-27 | an error body is an object whose only key is `error`, holding the message |
| Base64.Encode | my-app/app/page.tsx:49 | encoded text is a whole number of 4-character groups, four characters for every three bytes begun |
| Base64.RoundTrip | mixed-cropping-ai/backend/app.py:63 | decoding the encoding of any byte sequence gives back exactly that sequence |
| Base64.EncodeInjective | my-app/app/page.tsx:49 | two byte sequences with the same encoding are equal |
| Base64.EncodedTextInAlphabet | my-app/app/page.tsx:49 | every character of encoded text is a base64 alphabet character or the pad `=` |
| Base64.NoCommaInEncoding | my-app/app/page.tsx:52 | encoded text never contains a comma |
| ImageType.PatternAdmitsExactlyAcceptedTypes | my-app/app/page.tsx:181 | the regular expression admits a type exactly when its ASCII lower-case form is `image/png`, `image/jpg` or `image/jpeg` |
| ImageType.UpperCaseJpegAdmitted | my-app/components/leaf-upload-card.tsx:22 | the `i` flag admits `IMAGE/JPEG` |
| ImageType.GifRejected | my-app/components/leaf-upload-card.tsx:22 | `image/gif` is rejected |
| ImageType.LongerTypeRejected | my-app/components/leaf-upload-card.tsx:22 | the `$` anchor rejects `image/jpegx` |
| ImageType.EmptyTypeRejected | my-app/components/leaf-upload-card.tsx:22 | an empty type is rejected |
| ImageType.AdmittedTypeHasNoComma | my-app/app/page.tsx:52 | an admitted type contains no comma |
| ImageType.SizeBoundary | my-app/app/page.tsx:181 | the size bound is inclusive: 10485760 bytes pass and 10485761 do not |
| LeafUploadCard.OnFiles | my-app/components/leaf-upload-card.tsx:18-30 | at most one callback call, always with the object URL; a call happens exactly when the list is non-null and non-empty and its first file has an accepted type and at most 10 MiB |
| LeafUploadCard.NoCallWithoutFiles | my-app/components/leaf-upload-card.tsx:20 | a null or empty file list makes no call |
| LeafUploadCard.OnlyFirstFileInspected | my-app/components/leaf-upload-card.tsx:21 | files after the first never change the outcome |
| LeafUploadCard.InvalidFileIgnored | my-app/components/leaf-upload-card.tsx:22-25 | a first file with a wrong type or over 10 MiB makes no call |
| LeafUploadCard.ValidFileCallsOnce | my-app/components/leaf-upload-card.tsx:26-27 | a valid first file makes exactly one call, carrying the object URL |
| PageForm.With | my-app/app/page.tsx:139 | an edit sets its key to the new value and leaves the other five keys as they were |
| PageForm.CanPredictExactly | my-app/app/page.tsx:41-43 | the guard holds exactly when N, P and K are each finite and non-negative or +∞, and a file is present; a NaN makes it false |
| PageForm.CanPredictIgnoresOtherFields | my-app/app/page.tsx:42 | changing organic carbon or a microbe count never changes the guard |
| PageForm.NoImageNoPrediction | my-app/app/page.tsx:42 | without a file the guard is false, whatever the form holds |
| PageForm.SplitOnComma | my-app/app/page.tsx:52 | the split yields at least one piece, and no piece contains a comma |
| PageForm.SplitThenJoin | my-app/app/page.tsx:52 | joining the pieces with commas restores the text |
| PageForm.SplitWithoutComma | my-app/app/page.tsx:52 | text without a comma splits into itself alone |
| PageForm.SplitAfterHead | my-app/app/page.tsx:52 | a comma-free head followed by a comma splits off as the first piece |
| PageForm.PieceCount | my-app/app/page.tsx:52 | the split yields at least two pieces exactly when the text contains a comma |
| PageForm.CommaMeansTwoPieces | my-app/app/page.tsx:52 | a text with a comma splits into at least two pieces |
| PageForm.SecondPiece | my-app/app/page.tsx:52 | `split(',')[1]` is defined exactly when the text contains a comma, and then it contains no comma itself |
| PageForm.SecondPieceOfDataUrl | my-app/app/page.tsx:49-52 | for a comma-free type, the second piece of the data URL is exactly the base64 text of the file |
| PageForm.PayloadKeys | my-app/app/page.tsx:73-80 | the payload has exactly the three keys, with the series, the soil object and the image text |
| PageForm.EnvironmentalSeriesShape | my-app/app/page.tsx:74 | the series has 168 entries, each `[28, 75, 60, 6.5]` |
| PageForm.SoilDataShape | my-app/app/page.tsx:75-78 | the soil object has exactly `primary_crop` and the six form keys, each holding the current value as `JSON.stringify` writes it |
| PageForm.PayloadWithoutImage | my-app/app/page.tsx:79-88 | when the split gave `undefined`, the body has no `image_data` key |
| PageForm.DropzoneSelection | my-app/app/page.tsx:178-184 | a selection passes exactly when there is a first file with an accepted type and at most 10 MiB, and then it is that file with the preview URL |
| PageSession.InitialIsValid | my-app/app/page.tsx:21-39 | the initial state keeps the invariant, and the guard and button are off without an image |
| PageSession.RejectedStartOnlySetsError | my-app/app/page.tsx:60-63 | a rejected click sets only the message; status, result and the rest stay and no request starts |
| PageSession.AcceptedStartEntersLoading | my-app/app/page.tsx:65-80 | an accepted click clears the error, enters loading, and captures the form, crop and file |
| PageSession.UserEventsKeepPrediction | my-app/app/page.tsx:128-184 | any sequence of form edits, crop changes and file drops leaves status, error message and result unchanged, and keeps the invariant |
| PageSession.NoSecondRequestWhileLoading | my-app/app/page.tsx:166 | after an accepted click the page stays in loading with the button disabled through any sequence of edits, crop changes and file drops, until completion |
| PageSession.ButtonEnabledExactly | my-app/app/page.tsx:166 | the button is enabled exactly when the guard holds and nothing is loading |
| PageSession.FailureKeepsResult | my-app/app/page.tsx:101-104 | a rejected read, an unreachable server, a non-ok status, an unparsable body or a `null` body each give the error view with the generic message, and keep the previous result |
| PageSession.OkResponseShowsResult | my-app/app/page.tsx:95-99 | an ok response with a non-null JSON body shows the result view, keeps the message, and stores the field (`null` for a `null` field, the same value the page mounts with); if the body is not an object or lacks the field it stores `undefined` |
| PageSession.CompleteEndsInOutcome | my-app/app/page.tsx:68-105 | completion ends in error or result, leaves form, crop and image untouched, and errs exactly when the exchange failed |
| PageSession.SuccessAfterStartHasNoError | my-app/app/page.tsx:65-99 | a success after an accepted click shows no error message |
| PageSession.EditKeepsValid | my-app/app/page.tsx:139 | edits of the form and the crop keep the invariant |
| PageSession.SelectFilesKeepsValid | my-app/app/page.tsx:178-184 | a file selection keeps the invariant |
| PageSession.StartAndCompleteKeepValid | my-app/app/page.tsx:59-106 | both steps of `onPredict` keep the invariant |
| PageSession.OversizedImageBlocksSubmission | my-app/app/page.tsx:181 | on a freshly mounted page an 11 MiB file is not taken, so the page cannot submit |
| PageSession.PredictionPage.constructor | my-app/app/page.tsx:21-39 | the page mounts with the defaults 300, 45, 250, 1.5, 500000, 400000 and "Banana", no image, idle, no error and a `null` result |
| PageSession.PredictionPage.CanPredictNow | my-app/app/page.tsx:41-43 | the memoised guard equals the guard on the current state |
| PageSession.PredictionPage.ButtonDisabled | my-app/app/page.tsx:166 | `disabled` is the negation of the button being enabled |
| PageSession.PredictionPage.SetField | my-app/app/page.tsx:139 | the new state is the edit of the old one, and the invariant holds |
| PageSession.PredictionPage.SetCrop | my-app/app/page.tsx:128 | only the crop changes, and the invariant holds |
| PageSession.PredictionPage.HandleFiles | my-app/app/page.tsx:178-184 | the new state is the dropzone's selection applied to the old one, and the invariant holds |
| PageSession.PredictionPage.OnPredictStart | my-app/app/page.tsx:59-66 | the new state and the captured request are those of the start step, and the invariant holds |
| PageSession.PredictionPage.OnPredictComplete | my-app/app/page.tsx:68-105 | the new state is the completion of the old one, the posted body is the payload built from the read, and the invariant holds |
| PredictRoute.Post | my-app/app/api/predict/route.ts:4-43 | at most one forward, made exactly when the body parses: a POST of that body as JSON to the fixed backend URL |
| PredictRoute.ResponseStatusAllowed | my-app/app/api/predict/route.ts:22-42 | the route's status is one `NextResponse.json` accepts, and is 200, 500 or the backend's own status |
| PredictRoute.UnsendableStatusIs500 | my-app/app/api/predict/route.ts:24-27 | a backend status 304 or above 599 makes building the error response throw, so the route answers 500 with the internal-error message |
| PredictRoute.NonOkStatusPreserved | my-app/app/api/predict/route.ts:22-28 | a non-ok backend status that a JSON response may carry (one within 200..599 other than 304) is passed on with the fixed failure body |
| PredictRoute.OkPassesThrough | my-app/app/api/predict/route.ts:31-34 | an ok backend reply with JSON is returned unchanged, with status 200 |
| PredictRoute.ExceptionsAre500 | my-app/app/api/predict/route.ts:36-42 | an unparsable request, an unreachable backend, an unparsable ok reply or a non-ok status no JSON response may carry gives a 500 with the fixed message |
| PredictRoute.OkOnlyFromOkBackend | my-app/app/api/predict/route.ts:22-34 | the route answers 2xx exactly when the backend answered 2xx with a JSON body |
| Backend.Contains | mixed-cropping-ai/backend/app.py:96 | `k in data` raises exactly for null, numbers and booleans; otherwise it is key membership for an object, element membership for a list, and for a string whether the key occurs at some position |
| Backend.SubstringExactly | mixed-cropping-ai/backend/app.py:96 | the recursive substring test holds exactly when the needle occurs at some index of the text |
| Backend.PredictYield | mixed-cropping-ai/backend/app.py:86-122 | the status is 200, 400 or 500; 400 exactly when the membership test finds a key missing; the 400 and 500 bodies are the fixed messages; a 200 comes only from an object body holding all three keys; a 200 body, when it is JSON, is an object with the single numeric key `predicted_yield_kg_ha` |
| Backend.MissingKeyIs400 | mixed-cropping-ai/backend/app.py:96-97 | an object lacking one of the three keys gets the 400 reply |
| Backend.ExtraKeysAllowed | mixed-cropping-ai/backend/app.py:96 | extra keys never cause the 400 |
| Backend.FailuresAfterKeyCheckAre500 | mixed-cropping-ai/backend/app.py:120-122 | once the key check passes or raises, every failure is the 500 reply |
| Backend.NonObjectBodies | mixed-cropping-ai/backend/app.py:96 | null, every number and every boolean give 500; an empty list gives 400, and a list of the three key names gives 500 |
| Backend.NonObjectNeverSucceeds | mixed-cropping-ai/backend/app.py:96-122 | a body that is not an object never gets 200: it gets 400 when the membership test finds a key missing, and 500 otherwise |
| Backend.SuccessShape | mixed-cropping-ai/backend/app.py:99-118 | a 200 means all three keys were present, the image decoded and the model gave a value for the series, the soil object and the bytes, in that order; the body is JSON exactly when that value is finite, and is then the single key `predicted_yield_kg_ha` holding it |
| Backend.NonFiniteYieldIsNotJson | mixed-cropping-ai/backend/app.py:112-118 | a NaN or infinite prediction is answered with 200 and a body that is not JSON |
| Backend.ImageBytesReachModel | mixed-cropping-ai/backend/app.py:99-110 | base64 text of some bytes reaches the model as exactly those bytes |
| Backend.Index | mixed-cropping-ai/backend/app.py:77-83 | the status route answers 200 with `status: "online"` and a message |
| Pipeline.BackendFailureEndsInError | my-app/app/page.tsx:91-104 | a backend that is unreachable, answers non-ok, or sends no JSON leaves the page in the error view with the generic message and the previous result |
| Pipeline.FlaskErrorEndsInError | mixed-cropping-ai/backend/app.py:96-122 | every 400 or 500 from `predict_yield` ends in the page's error view |
| Pipeline.CommaFreeUrlEndsInError | my-app/app/page.tsx:52 | a data URL without a comma makes the backend answer 400 and the page show the error |
| Pipeline.RelayDownEndsInError | my-app/app/page.tsx:83-104 | when the relay cannot be reached, the page shows the error |
| Pipeline.PayloadReachesModel | mixed-cropping-ai/backend/app.py:99-118 | the page's payload for an accepted file reaches the model with exactly that file's bytes, and the backend answers 200 with the yield |
| Pipeline.NonFinitePredictionEndsInError | my-app/app/api/predict/route.ts:31 | a NaN or infinite prediction for an accepted file ends in the page's error view, because the relay cannot parse the backend's body |
| Pipeline.RelayAlwaysAnswersJson | my-app/app/api/predict/route.ts:4-43 | whatever the backend does, the page's fetch gets a reply with a JSON body and a status a JSON response may carry |
| Pipeline.RelayPassesSuccess | my-app/app/api/predict/route.ts:31-34 | a backend 200 reaches the page unchanged |
| Pipeline.PendingSuccessShowsYield | my-app/app/page.tsx:95-99 | a captured request with a successful prediction ends in the result view with exactly the predicted yield |
| Pipeline.EndToEndSuccess | my-app/app/page.tsx:59-106 | from any valid state where the guard holds, a click, a normal read and a successful prediction show the model's yield with no error |
| Pipeline.FiltersAgree | my-app/components/leaf-upload-card.tsx:18-30 | the upload card calls its handler exactly when the page's dropzone would select the file |
| Pipeline.JpegSelected | my-app/app/page.tsx:181 | dropping a 50 KB JPEG on the new page selects it |
| Pipeline.BananaExample | my-app/app/page.tsx:21-29 | with the default Banana form and a 50 KB JPEG, a prediction of 18250 shows 18250 |

## Left out

- Presentation is not modelled: layout, animation, icons, the soil-form and prediction cards, and the preview image element.
- `FileReader`, `fetch`, `URL.createObjectURL` and the Flask request parser are parameters, since they are browser and server I/O:
  - a read outcome;
  - a function from posted body to fetch outcome;
  - a preview URL string;
  - an optional parsed body.
- Concurrency between the two steps of `onPredict` is not modelled. They are separate transitions, and nothing else runs between them except the user's edits.
- Model loading, scaling, image decoding with PIL, resizing, `fusion_model.predict`, `float` and `round(..., 2)` are not modelled, because they are numeric library code. They form one `infer` parameter, which gives the rounded Python float, NaN and the infinities included, or `None` for any exception raised.
- The backend log lines, `console.error` calls and the `__main__` block are not modelled, because they are I/O.
- Base64.Decode is strict. Python's `b64decode` by default discards characters outside the alphabet, so the two can differ only on text that was not produced by `Encode`. The page only ever sends `Encode` output, so the pipeline never reaches that difference.
- Base64: `FileReader.readAsDataURL` is taken to write standard padded base64, with the MIME type in the header.
- ImageType.MatchesImagePattern folds case for ASCII letters only. This matches a JavaScript regular expression with `i` and without `u` for the letters in the pattern. Folding of non-ASCII characters is not modelled.
- Wire.Json numbers are exact reals. IEEE double rounding is not modelled.
- Wire.Json objects are maps, so the order of an object's keys is not modelled. The page writes `primary_crop` first and then the six form keys in declaration order, and the backend's `pd.DataFrame([soil_data])` takes its column order from that key order.
- Backend.PredictYield checks the image before calling `infer`, while the code preprocesses the series and the soil object first. It differs only in which exception is raised, and every exception ends in the same 500.
- PredictRoute.Post models `NextResponse.json(predictionResult)` as status 200. Headers are not modelled.
