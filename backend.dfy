/** The Flask inference backend's two routes: `GET /`, a status check, and
    `POST /predict` (`predict_yield`), which checks the request's shape, decodes
    the image and maps every exception to a 500 reply. Model loading and the
    numeric preprocessing are outside this module: `infer` stands for
    preprocessing the three inputs, running the fusion model and rounding its
    output, and `None` for any exception raised along the way. */
module Backend {
  import opened Wire
  import Base64

  const RequiredKeys: seq<string> := ["environmental_data", "soil_data", "image_data"]

  const MissingKeysMessage: string :=
    "Missing one or more required keys: environmental_data, soil_data, image_data"

  const InternalErrorMessage: string := "An internal error occurred. Check the server logs."

  const YieldKey: string := "predicted_yield_kg_ha"

  /** Preprocessing the series, the soil object and the image bytes, running the
      fusion model and rounding its output: the predicted yield as a Python float
      (possibly NaN or an infinity), or `None` for any exception raised. */
  type Inference = (Json, Json, seq<Base64.byte>) -> Option<Num>

  /** Python's `needle in hay` on two strings, scanning for a prefix match. */
  predicate Substring(needle: string, hay: string)
    decreases |hay|
  {
    needle <= hay || (|hay| > 0 && Substring(needle, hay[1..]))
  }

  /** `needle` occurs in `hay` starting at index `i`. */
  predicate OccursAt(needle: string, hay: string, i: nat) {
    i + |needle| <= |hay| && hay[i..i + |needle|] == needle
  }

  lemma {:induction false} OccursAtStart(needle: string, hay: string)
    ensures OccursAt(needle, hay, 0) <==> needle <= hay
  {
    if needle <= hay {
      assert hay[0..|needle|] == needle;
    }
  }

  lemma {:induction false} OccursAfterHead(needle: string, hay: string, i: nat)
    requires |hay| > 0
    ensures OccursAt(needle, hay[1..], i) <==> OccursAt(needle, hay, i + 1)
  {
    if i + 1 + |needle| <= |hay| {
      assert hay[1..][i..i + |needle|] == hay[i + 1..i + 1 + |needle|];
    }
  }

  /** The scan finds `needle` exactly when it occurs at some index of `hay`. */
  lemma {:induction false} SubstringExactly(needle: string, hay: string)
    ensures Substring(needle, hay) <==> exists i: nat :: OccursAt(needle, hay, i)
    decreases |hay|
  {
    OccursAtStart(needle, hay);
    if needle <= hay {
      assert OccursAt(needle, hay, 0);
    } else if |hay| == 0 {
      forall i: nat ensures !OccursAt(needle, hay, i) {
      }
    } else {
      SubstringExactly(needle, hay[1..]);
      if Substring(needle, hay[1..]) {
        var i: nat :| OccursAt(needle, hay[1..], i);
        OccursAfterHead(needle, hay, i);
      } else {
        forall i: nat ensures !OccursAt(needle, hay, i) {
          if i > 0 {
            OccursAfterHead(needle, hay, i - 1);
          }
        }
      }
    }
  }

  /** Python's `k in data` for a decoded JSON value: key membership for a dict,
      element membership for a list, a substring test for a str; `None` where
      Python raises `TypeError` (null, numbers and booleans are not containers). */
  function Contains(data: Json, k: string): (r: Option<bool>)
    ensures r.None? <==> data.JNull? || data.JNum? || data.JBool?
    ensures data.JObj? ==> r == Some(k in data.fields)
    ensures data.JArr? ==> r == Some(exists i | 0 <= i < |data.items| :: data.items[i] == JStr(k))
    ensures data.JStr? ==> r == Some(exists i: nat :: OccursAt(k, data.s, i))
  {
    if data.JStr? then SubstringExactly(k, data.s); Some(Substring(k, data.s))
    else
    match data
    case JObj(fields) => Some(k in fields)
    case JArr(items) => Some(JStr(k) in items)
    case _ => None
  }

  /** `all(k in data for k in [...])`, `None` when the membership test raises. */
  function AllKeysPresent(data: Json): Option<bool> {
    match Contains(data, RequiredKeys[0])
    case None => None
    case Some(false) => Some(false)
    case Some(true) =>
      match Contains(data, RequiredKeys[1])
      case None => None
      case Some(false) => Some(false)
      case Some(true) => Contains(data, RequiredKeys[2])
  }

  /** The 500 reply of the `except Exception` handler. */
  function InternalError(): Reply {
    Reply(500, Some(ErrorBody(InternalErrorMessage)))
  }

  /** `predict_yield`. `data` is what `request.get_json()` returns, `None` when the
      body does not parse (Flask then raises, inside the `try`). */
  function PredictYield(data: Option<Json>, infer: Inference): (r: Reply)
    ensures r.status in {200, 400, 500}
    ensures r.status != 200 ==> r.body.Some?
    ensures r.status == 400 <==> data.Some? && AllKeysPresent(data.value) == Some(false)
    ensures r.status == 400 ==> r.body.value == ErrorBody(MissingKeysMessage)
    ensures r.status == 500 ==> r.body.value == ErrorBody(InternalErrorMessage)
    ensures r.status == 200 ==>
      data.Some? && data.value.JObj? && forall k | k in RequiredKeys :: k in data.value.fields
    ensures r.status == 200 && r.body.Some? ==>
      && r.body.value.JObj? && r.body.value.fields.Keys == {YieldKey}
      && r.body.value.fields[YieldKey].JNum?
  {
    match data
    case None => InternalError()
    case Some(d) =>
      match AllKeysPresent(d)
      case None => InternalError()
      case Some(false) => Reply(400, Some(ErrorBody(MissingKeysMessage)))
      case Some(true) =>
        if !d.JObj? then
          // subscripting a list or a str with a str key raises TypeError
          InternalError()
        else
          var env, soil, image := d.fields["environmental_data"], d.fields["soil_data"], d.fields["image_data"];
          if !image.JStr? then InternalError()
          else
            match Base64.Decode(image.s)
            case None => InternalError()
            case Some(bytes) =>
              match infer(env, soil, bytes)
              case None => InternalError()
              case Some(Finite(y)) => Reply(200, Some(JObj(map[YieldKey := JNum(y)])))
              case Some(_) =>
                // `jsonify` writes the bare token NaN or Infinity, which is not JSON
                Reply(200, None)
  }

  /** An object body without one of the three keys gets the 400 reply, whatever
      the inference would have done. */
  lemma MissingKeyIs400(fields: map<string, Json>, k: string, infer: Inference)
    requires k in RequiredKeys && k !in fields
    ensures PredictYield(Some(JObj(fields)), infer) == Reply(400, Some(ErrorBody(MissingKeysMessage)))
  {
  }

  /** Keys beyond the three never cause the 400 reply. */
  lemma ExtraKeysAllowed(fields: map<string, Json>, extra: string, v: Json,
                         infer: Inference)
    requires forall k | k in RequiredKeys :: k in fields
    ensures PredictYield(Some(JObj(fields[extra := v])), infer).status != 400
    ensures PredictYield(Some(JObj(fields)), infer).status != 400
  {
  }

  /** Once the keys are present, every failure is a 500: an unparsable body, a
      body that is not a JSON object, an `image_data` that is not base64 text,
      or an exception in preprocessing or prediction. */
  lemma FailuresAfterKeyCheckAre500(data: Option<Json>, infer: Inference)
    requires data.None? || AllKeysPresent(data.value) != Some(false)
    requires PredictYield(data, infer).status != 200
    ensures PredictYield(data, infer) == InternalError()
  {
  }

  /** Null, numbers and booleans make the membership test itself raise: 500. A
      list or a string does not: it gets 400 unless it mentions all three keys. */
  lemma NonObjectBodies(x: real, flag: bool, infer: Inference)
    ensures PredictYield(Some(JNull), infer).status == 500
    ensures PredictYield(Some(JNum(x)), infer).status == 500
    ensures PredictYield(Some(JBool(flag)), infer).status == 500
    ensures PredictYield(Some(JArr([])), infer).status == 400
    ensures PredictYield(Some(JArr([JStr("environmental_data"), JStr("soil_data"), JStr("image_data")])), infer).status == 500
  {
    var l := [JStr("environmental_data"), JStr("soil_data"), JStr("image_data")];
    assert l[0] == JStr(RequiredKeys[0]) && l[1] == JStr(RequiredKeys[1]) && l[2] == JStr(RequiredKeys[2]);
  }

  /** A body that is not an object never succeeds: it gets 400 when the membership
      test finds a key missing, and 500 otherwise. */
  lemma NonObjectNeverSucceeds(d: Json, infer: Inference)
    requires !d.JObj?
    ensures PredictYield(Some(d), infer).status in {400, 500}
    ensures PredictYield(Some(d), infer).status == 500 <==> AllKeysPresent(d) != Some(false)
  {
  }

  /** A successful reply is a 200 whose body has the single key
      `predicted_yield_kg_ha`, holding what the model produced from the
      environmental series, the soil object and the decoded image bytes, passed
      in that order. */
  lemma SuccessShape(fields: map<string, Json>, infer: Inference)
    requires PredictYield(Some(JObj(fields)), infer).status == 200
    ensures forall k | k in RequiredKeys :: k in fields
    ensures fields["image_data"].JStr? && Base64.Decode(fields["image_data"].s).Some?
    ensures var r := PredictYield(Some(JObj(fields)), infer);
      var y := infer(fields["environmental_data"], fields["soil_data"], Base64.Decode(fields["image_data"].s).value);
      && y.Some?
      && (r.body.Some? <==> y.value.Finite?)
      && (r.body.Some? ==> r.body.value == JObj(map[YieldKey := JNum(y.value.r)]))
  {
  }

  /** A NaN or infinite prediction still gets status 200, but its body is not
      JSON that a standard parser accepts. */
  lemma NonFiniteYieldIsNotJson(fields: map<string, Json>, infer: Inference)
    requires forall k | k in RequiredKeys :: k in fields
    requires fields["image_data"].JStr? && Base64.Decode(fields["image_data"].s).Some?
    requires var y := infer(fields["environmental_data"], fields["soil_data"], Base64.Decode(fields["image_data"].s).value);
      y.Some? && !y.value.Finite?
    ensures PredictYield(Some(JObj(fields)), infer) == Reply(200, None)
  {
    assert AllKeysPresent(JObj(fields)) == Some(true);
  }

  /** The image arrives as the bytes the client encoded: base64 text of `content`
      decodes back to exactly `content` before it reaches the model. */
  lemma ImageBytesReachModel(env: Json, soil: Json, content: seq<Base64.byte>, y: real,
                             infer: Inference)
    requires infer(env, soil, content) == Some(Finite(y))
    ensures PredictYield(Some(JObj(map["environmental_data" := env, "soil_data" := soil,
                                        "image_data" := JStr(Base64.Encode(content))])), infer)
            == Reply(200, Some(JObj(map[YieldKey := JNum(y)])))
  {
    Base64.RoundTrip(content);
  }

  /** `GET /`: the status check reports the service online. */
  function Index(): (r: Reply)
    ensures r.status == 200
    ensures r.body.Some? && r.body.value.JObj? && r.body.value.fields.Keys == {"status", "message"}
    ensures r.body.value.fields["status"] == JStr("online")
  {
    Reply(200, Some(JObj(map[
      "status" := JStr("online"),
      "message" := JStr("AgriFusion AI Backend is running and ready for requests.")])))
  }
}
