/** The pure parts of the prediction page: the soil form and its update rule, the
    `canPredict` guard, the split of a data URL in `fileToBase64`, the request
    payload, and the dropzone's file filter. */
module PageForm {
  import opened Wire
  import opened Base64
  import opened ImageType

  /** The six numeric keys of the page's `form` object, in declaration order. */
  datatype SoilField =
    | Nitrogen | Phosphorus | Potassium | OrganicCarbon | Trichoderma | Pseudomonas

  const AllFields: seq<SoilField> :=
    [Nitrogen, Phosphorus, Potassium, OrganicCarbon, Trichoderma, Pseudomonas]

  /** The wire name of each field, as the backend's preprocessor expects it. */
  function FieldKey(k: SoilField): string {
    match k
    case Nitrogen => "nitrogen_kg_ha"
    case Phosphorus => "phosphorus_kg_ha"
    case Potassium => "potassium_kg_ha"
    case OrganicCarbon => "organic_carbon_percent"
    case Trichoderma => "microbe_trichoderma_cfu_g"
    case Pseudomonas => "microbe_pseudomonas_cfu_g"
  }

  /** The `form` state: `FormState` without `primary_crop`, which the page keeps
      in a state of its own. */
  datatype SoilForm = SoilForm(
    nitrogen: Num, phosphorus: Num, potassium: Num,
    organicCarbon: Num, trichoderma: Num, pseudomonas: Num)

  function Get(f: SoilForm, k: SoilField): Num {
    match k
    case Nitrogen => f.nitrogen
    case Phosphorus => f.phosphorus
    case Potassium => f.potassium
    case OrganicCarbon => f.organicCarbon
    case Trichoderma => f.trichoderma
    case Pseudomonas => f.pseudomonas
  }

  /** `{ ...prev, [key]: value }`, the update the number inputs apply. */
  function With(f: SoilForm, k: SoilField, v: Num): (r: SoilForm)
    ensures Get(r, k) == v
    ensures forall g | g != k :: Get(r, g) == Get(f, g)
  {
    match k
    case Nitrogen => f.(nitrogen := v)
    case Phosphorus => f.(phosphorus := v)
    case Potassium => f.(potassium := v)
    case OrganicCarbon => f.(organicCarbon := v)
    case Trichoderma => f.(trichoderma := v)
    case Pseudomonas => f.(pseudomonas := v)
  }

  /** The defaults the page starts with. */
  const InitialForm: SoilForm := SoilForm(
    Finite(300.0), Finite(45.0), Finite(250.0), Finite(1.5), Finite(500000.0), Finite(400000.0))

  const InitialCrop: string := "Banana"

  /** The `image` state: an object URL for the preview and the selected file. */
  datatype ImageSlot = ImageSlot(preview: Option<string>, file: Option<FileInfo>)

  const NoImage: ImageSlot := ImageSlot(None, None)

  /** `canPredict`: the three macronutrients are `>= 0` and a file is selected. */
  predicate CanPredict(f: SoilForm, file: Option<FileInfo>) {
    NonNegative(f.nitrogen) && NonNegative(f.phosphorus) && NonNegative(f.potassium) && file.Some?
  }

  /** The guard holds exactly when nitrogen, phosphorus and potassium read as
      non-negative finite values or positive infinity, and a file is present; a
      NaN in any of the three makes it false. */
  lemma CanPredictExactly(f: SoilForm, file: Option<FileInfo>)
    ensures CanPredict(f, file) <==>
      && (forall k | k in [Nitrogen, Phosphorus, Potassium] ::
            Get(f, k) == PosInf || (Get(f, k).Finite? && Get(f, k).r >= 0.0))
      && file.Some?
    ensures Get(f, Nitrogen) == NaN || Get(f, Phosphorus) == NaN || Get(f, Potassium) == NaN
      ==> !CanPredict(f, file)
  {
    assert Nitrogen in [Nitrogen, Phosphorus, Potassium];
    assert Phosphorus in [Nitrogen, Phosphorus, Potassium];
    assert Potassium in [Nitrogen, Phosphorus, Potassium];
  }

  /** Organic carbon and the two microbe counts are never consulted. */
  lemma CanPredictIgnoresOtherFields(f: SoilForm, file: Option<FileInfo>, k: SoilField, v: Num)
    requires k !in [Nitrogen, Phosphorus, Potassium]
    ensures CanPredict(With(f, k, v), file) == CanPredict(f, file)
  {
  }

  /** Without an image the guard is false whatever the numbers are. */
  lemma NoImageNoPrediction(f: SoilForm)
    ensures !CanPredict(f, None)
  {
  }

  /** JavaScript's `String.prototype.split(',')`. */
  function SplitOnComma(s: string): (pieces: seq<string>)
    ensures |pieces| >= 1
    ensures forall i | 0 <= i < |pieces| :: ',' !in pieces[i]
    decreases |s|
  {
    if |s| == 0 then [""]
    else if s[0] == ',' then [""] + SplitOnComma(s[1..])
    else
      var rest := SplitOnComma(s[1..]);
      [[s[0]] + rest[0]] + rest[1..]
  }

  /** `Array.prototype.join(',')`, the inverse of the split. */
  function JoinWithComma(pieces: seq<string>): string
    requires |pieces| >= 1
    decreases |pieces|
  {
    if |pieces| == 1 then pieces[0] else pieces[0] + "," + JoinWithComma(pieces[1..])
  }

  /** Prefixing a character to the first piece prefixes it to the joined text. */
  lemma {:induction false} JoinAfterHeadChar(c: char, rest: seq<string>)
    requires |rest| >= 1
    ensures JoinWithComma([[c] + rest[0]] + rest[1..]) == [c] + JoinWithComma(rest)
  {
    var pieces := [[c] + rest[0]] + rest[1..];
    if |rest| > 1 {
      assert pieces[1..] == rest[1..];
      var tail := JoinWithComma(rest[1..]);
      assert JoinWithComma(pieces) == ([c] + rest[0]) + "," + tail;
      assert JoinWithComma(rest) == rest[0] + "," + tail;
    } else {
      assert pieces == [[c] + rest[0]];
    }
  }

  /** Splitting loses nothing: joining the pieces again restores the text. */
  lemma {:induction false} SplitThenJoin(s: string)
    ensures JoinWithComma(SplitOnComma(s)) == s
    decreases |s|
  {
    if |s| == 0 {
    } else if s[0] == ',' {
      SplitThenJoin(s[1..]);
      var rest := SplitOnComma(s[1..]);
      assert SplitOnComma(s) == [""] + rest;
      assert ([""] + rest)[1..] == rest;
      assert s == "" + "," + s[1..];
    } else {
      SplitThenJoin(s[1..]);
      JoinAfterHeadChar(s[0], SplitOnComma(s[1..]));
      assert s == [s[0]] + s[1..];
    }
  }

  /** Text without a comma splits into itself alone. */
  lemma {:induction false} SplitWithoutComma(s: string)
    requires ',' !in s
    ensures SplitOnComma(s) == [s]
    decreases |s|
  {
    if |s| > 0 {
      SplitWithoutComma(s[1..]);
      assert [s[0]] + s[1..] == s;
    }
  }

  /** A comma-free head followed by a comma splits off as the first piece. */
  lemma {:induction false} SplitAfterHead(head: string, tail: string)
    requires ',' !in head
    ensures SplitOnComma(head + "," + tail) == [head] + SplitOnComma(tail)
    decreases |head|
  {
    if |head| == 0 {
      assert head + "," + tail == [','] + tail;
      assert ([','] + tail)[1..] == tail;
    } else {
      var s := head + "," + tail;
      assert s[0] == head[0];
      assert s[1..] == head[1..] + "," + tail;
      SplitAfterHead(head[1..], tail);
      assert [head[0]] + head[1..] == head;
    }
  }

  /** The split yields a second piece exactly when the text has a comma. */
  lemma {:induction false} PieceCount(s: string)
    ensures |SplitOnComma(s)| >= 2 <==> ',' in s
  {
    if ',' in s {
      CommaMeansTwoPieces(s);
    } else {
      SplitWithoutComma(s);
    }
  }

  lemma {:induction false} CommaMeansTwoPieces(s: string)
    requires ',' in s
    ensures |SplitOnComma(s)| >= 2
  {
    if |SplitOnComma(s)| == 1 {
      SplitThenJoin(s);
    }
  }

  /** `result.split(',')[1]`: the second piece, or `undefined` (`None`) when
      the split has only one. */
  function SecondPiece(dataUrl: string): (b: Option<string>)
    ensures b.Some? <==> ',' in dataUrl
    ensures b.Some? ==> ',' !in b.value
  {
    var pieces := SplitOnComma(dataUrl);
    PieceCount(dataUrl);
    if |pieces| < 2 then None else Some(pieces[1])
  }

  /** The data URL `FileReader.readAsDataURL` produces: `data:<type>;base64,<text>`. */
  function DataUrl(mimeType: string, content: seq<byte>): string {
    "data:" + mimeType + ";base64," + Encode(content)
  }

  /** For a MIME type without a comma the split yields exactly the base64 text,
      since the base64 alphabet has no comma either. */
  lemma {:induction false} SecondPieceOfDataUrl(mimeType: string, content: seq<byte>)
    requires ',' !in mimeType
    ensures SecondPiece(DataUrl(mimeType, content)) == Some(Encode(content))
  {
    var head := "data:" + mimeType + ";base64";
    var text := Encode(content);
    assert DataUrl(mimeType, content) == head + "," + text;
    NoCommaInEncoding(content);
    SplitAfterHead(head, text);
    SplitWithoutComma(text);
  }

  /** The mock environmental series: 168 hourly rows, each `[28, 75, 60, 6.5]`. */
  const EnvironmentalRow: Json := JArr([JNum(28.0), JNum(75.0), JNum(60.0), JNum(6.5)])

  function EnvironmentalData(): Json {
    JArr(seq(168, _ => EnvironmentalRow))
  }

  /** `{ primary_crop: crop, ...form }`, as `JSON.stringify` writes it. */
  function SoilData(crop: string, f: SoilForm): Json {
    JObj(map[
      "primary_crop" := JStr(crop),
      FieldKey(Nitrogen) := NumToJson(f.nitrogen),
      FieldKey(Phosphorus) := NumToJson(f.phosphorus),
      FieldKey(Potassium) := NumToJson(f.potassium),
      FieldKey(OrganicCarbon) := NumToJson(f.organicCarbon),
      FieldKey(Trichoderma) := NumToJson(f.trichoderma),
      FieldKey(Pseudomonas) := NumToJson(f.pseudomonas)])
  }

  /** The request body as `JSON.stringify(payload)` writes it. When the split left
      `image_data` undefined, the key is dropped from the text. */
  function Payload(crop: string, f: SoilForm, imageBase64: Option<string>): Json {
    var common := map["environmental_data" := EnvironmentalData(), "soil_data" := SoilData(crop, f)];
    match imageBase64
    case Some(b) => JObj(common["image_data" := JStr(b)])
    case None => JObj(common)
  }

  /** The payload has exactly the three keys, and `image_data` is the text the
      split produced. */
  lemma PayloadKeys(crop: string, f: SoilForm, b: string)
    ensures Payload(crop, f, Some(b)).JObj?
    ensures Payload(crop, f, Some(b)).fields.Keys == {"environmental_data", "soil_data", "image_data"}
    ensures Payload(crop, f, Some(b)).fields["image_data"] == JStr(b)
    ensures Payload(crop, f, Some(b)).fields["environmental_data"] == EnvironmentalData()
    ensures Payload(crop, f, Some(b)).fields["soil_data"] == SoilData(crop, f)
  {
  }

  /** The environmental series has exactly 168 entries, each `[28, 75, 60, 6.5]`. */
  lemma EnvironmentalSeriesShape()
    ensures EnvironmentalData().JArr?
    ensures |EnvironmentalData().items| == 168
    ensures forall i | 0 <= i < 168 ::
      EnvironmentalData().items[i] == JArr([JNum(28.0), JNum(75.0), JNum(60.0), JNum(6.5)])
  {
  }

  /** The soil object holds `primary_crop` and exactly the six form fields under
      their wire names, each with its current value. */
  lemma SoilDataShape(crop: string, f: SoilForm)
    ensures SoilData(crop, f).JObj?
    ensures SoilData(crop, f).fields.Keys ==
      {"primary_crop", "nitrogen_kg_ha", "phosphorus_kg_ha", "potassium_kg_ha",
       "organic_carbon_percent", "microbe_trichoderma_cfu_g", "microbe_pseudomonas_cfu_g"}
    ensures SoilData(crop, f).fields["primary_crop"] == JStr(crop)
    ensures forall k | k in AllFields :: SoilData(crop, f).fields[FieldKey(k)] == NumToJson(Get(f, k))
  {
    var m := SoilData(crop, f).fields;
    assert m.Keys == {"primary_crop", FieldKey(Nitrogen), FieldKey(Phosphorus), FieldKey(Potassium),
                      FieldKey(OrganicCarbon), FieldKey(Trichoderma), FieldKey(Pseudomonas)};
    forall k | k in AllFields
      ensures m[FieldKey(k)] == NumToJson(Get(f, k))
    {
      match k
      case Nitrogen =>
      case Phosphorus =>
      case Potassium =>
      case OrganicCarbon =>
      case Trichoderma =>
      case Pseudomonas =>
    }
  }

  /** When the data URL had no comma, the body has no `image_data` key. */
  lemma PayloadWithoutImage(crop: string, f: SoilForm)
    ensures Payload(crop, f, None).JObj?
    ensures Payload(crop, f, None).fields.Keys == {"environmental_data", "soil_data"}
  {
  }

  /** `LeafDropzone.handleFiles`: the value it passes to `onFileSelect`, or `None`
      when it returns early. `previewUrl` is what `URL.createObjectURL` returns. */
  function DropzoneSelection(files: Option<seq<FileInfo>>, previewUrl: string): (sel: Option<ImageSlot>)
    ensures sel.Some? <==>
      && files.Some? && |files.value| > 0
      && FoldAll(files.value[0].mimeType) in AcceptedTypes
      && |files.value[0].content| <= MaxUploadBytes
    ensures sel.Some? ==> sel.value == ImageSlot(Some(previewUrl), Some(files.value[0]))
  {
    PatternAdmitsExactlyAcceptedTypes(if files.Some? && |files.value| > 0 then files.value[0].mimeType else "");
    if files.None? || |files.value| == 0 then None
    else
      var file := files.value[0];
      if !MatchesImagePattern(file.mimeType) || |file.content| > MaxUploadBytes then None
      else Some(ImageSlot(Some(previewUrl), Some(file)))
  }
}
