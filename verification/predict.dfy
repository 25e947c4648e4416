/** The `/predict` endpoint of app.py: request validation, the fixed feature order, and the
    decoding of the classifier's label into a crop name through the inverted `crop_dict`.
    The MinMax scaler and the trained classifier together are one foreign function. */
module Predict {
  import opened Wrappers

  /** The `crop_dict` literal, entry by entry, in the order written. */
  const CropPairs: seq<(string, int)> := [
    ("rice", 1), ("maize", 2), ("chickpea", 3), ("kidneybeans", 4), ("pigeonpeas", 5),
    ("mothbeans", 6), ("mungbean", 7), ("blackgram", 8), ("lentil", 9), ("pomegranate", 10),
    ("banana", 11), ("mango", 12), ("grapes", 13), ("watermelon", 14), ("muskmelon", 15),
    ("apple", 16), ("orange", 17), ("papaya", 18), ("coconut", 19), ("cotton", 20),
    ("jute", 21), ("coffee", 22)
  ]

  /** A Python dict built from pairs in order: a later pair for the same key overrides. */
  function ToMap(pairs: seq<(string, int)>): (m: map<string, int>)
    ensures m.Keys == set i | 0 <= i < |pairs| :: pairs[i].0
  {
    if |pairs| == 0 then map[]
    else ToMap(pairs[..|pairs| - 1])[pairs[|pairs| - 1].0 := pairs[|pairs| - 1].1]
  }

  /** `{v: k for k, v in d.items()}` over the pairs in order: a later pair for the same value overrides. */
  function Invert(pairs: seq<(string, int)>): (m: map<int, string>)
    ensures m.Keys == set i | 0 <= i < |pairs| :: pairs[i].1
  {
    if |pairs| == 0 then map[]
    else Invert(pairs[..|pairs| - 1])[pairs[|pairs| - 1].1 := pairs[|pairs| - 1].0]
  }

  predicate DistinctNames(pairs: seq<(string, int)>) {
    forall i, j :: 0 <= i < j < |pairs| ==> pairs[i].0 != pairs[j].0
  }

  predicate DistinctLabels(pairs: seq<(string, int)>) {
    forall i, j :: 0 <= i < j < |pairs| ==> pairs[i].1 != pairs[j].1
  }

  /** With distinct names, the dict maps each name to the label written beside it. */
  lemma {:induction false} ToMapLookup(pairs: seq<(string, int)>, i: nat)
    requires DistinctNames(pairs) && i < |pairs|
    ensures ToMap(pairs)[pairs[i].0] == pairs[i].1
  {
    var n := |pairs| - 1;
    if i < n {
      ToMapLookup(pairs[..n], i);
    }
  }

  /** With distinct labels, the inverted dict maps each label back to the name written beside it. */
  lemma {:induction false} InvertLookup(pairs: seq<(string, int)>, i: nat)
    requires DistinctLabels(pairs) && i < |pairs|
    ensures Invert(pairs)[pairs[i].1] == pairs[i].0
  {
    var n := |pairs| - 1;
    if i < n {
      InvertLookup(pairs[..n], i);
    }
  }

  /** With distinct names and distinct labels, the dict and its inversion are mutually inverse. */
  lemma InvertInverts(pairs: seq<(string, int)>)
    requires DistinctNames(pairs) && DistinctLabels(pairs)
    ensures forall c :: c in ToMap(pairs) ==> ToMap(pairs)[c] in Invert(pairs) && Invert(pairs)[ToMap(pairs)[c]] == c
    ensures forall l :: l in Invert(pairs) ==> Invert(pairs)[l] in ToMap(pairs) && ToMap(pairs)[Invert(pairs)[l]] == l
  {
    forall c | c in ToMap(pairs) ensures ToMap(pairs)[c] in Invert(pairs) && Invert(pairs)[ToMap(pairs)[c]] == c {
      var i :| 0 <= i < |pairs| && pairs[i].0 == c;
      ToMapLookup(pairs, i);
      InvertLookup(pairs, i);
    }
    forall l | l in Invert(pairs) ensures Invert(pairs)[l] in ToMap(pairs) && ToMap(pairs)[Invert(pairs)[l]] == l {
      var i :| 0 <= i < |pairs| && pairs[i].1 == l;
      ToMapLookup(pairs, i);
      InvertLookup(pairs, i);
    }
  }

  /** `crop_dict`. Its 22 names are distinct, so iterating `items()` visits the literal's pairs in order. */
  const CropDict: map<string, int> := ToMap(CropPairs)

  /** `label_to_crop`. */
  const LabelToCrop: map<int, string> := Invert(CropPairs)

  /** The crop at position `i` of the literal has label `i + 1`. */
  lemma CropLabelsArePositions()
    ensures |CropPairs| == 22
    ensures forall i :: 0 <= i < |CropPairs| ==> CropPairs[i].1 == i + 1
  {
  }

  /** The position of a crop name in the literal, found by comparing it with each name in turn. */
  function PositionOf(name: string): int {
    if name == "rice" then 0 else if name == "maize" then 1 else if name == "chickpea" then 2
    else if name == "kidneybeans" then 3 else if name == "pigeonpeas" then 4
    else if name == "mothbeans" then 5 else if name == "mungbean" then 6
    else if name == "blackgram" then 7 else if name == "lentil" then 8
    else if name == "pomegranate" then 9 else if name == "banana" then 10
    else if name == "mango" then 11 else if name == "grapes" then 12
    else if name == "watermelon" then 13 else if name == "muskmelon" then 14
    else if name == "apple" then 15 else if name == "orange" then 16
    else if name == "papaya" then 17 else if name == "coconut" then 18
    else if name == "cotton" then 19 else if name == "jute" then 20
    else if name == "coffee" then 21 else -1
  }

  /** Each name of the literal determines its position, so no name occurs twice. */
  lemma CropNamesDistinct()
    ensures forall i :: 0 <= i < |CropPairs| ==> PositionOf(CropPairs[i].0) == i
    ensures DistinctNames(CropPairs)
  {
    forall i | 0 <= i < |CropPairs| ensures PositionOf(CropPairs[i].0) == i {
    }
  }

  /** `label_to_crop` inverts `crop_dict` in both directions, and its labels are exactly 1..22. */
  lemma LabelToCropInvertsCropDict()
    ensures forall c :: c in CropDict ==> CropDict[c] in LabelToCrop && LabelToCrop[CropDict[c]] == c
    ensures forall l :: l in LabelToCrop ==> LabelToCrop[l] in CropDict && CropDict[LabelToCrop[l]] == l
    ensures forall l :: l in LabelToCrop <==> 1 <= l <= 22
  {
    CropLabelsArePositions();
    CropNamesDistinct();
    InvertInverts(CropPairs);
    forall l | 1 <= l <= 22 ensures l in LabelToCrop {
      assert CropPairs[l - 1].1 == l;
    }
  }

  const UnknownCrop := "Unknown"

  /** `label_to_crop.get(predicted_label, "Unknown")`: a label in 1..22 decodes to the crop that
      `crop_dict` gives that label; any other label decodes to "Unknown", which is no crop. */
  function CropName(predicted: int): (name: string)
    ensures 1 <= predicted <= 22 ==> name in CropDict && CropDict[name] == predicted
    ensures !(1 <= predicted <= 22) ==> name == UnknownCrop
    ensures name == UnknownCrop <==> !(1 <= predicted <= 22)
  {
    LabelToCropInvertsCropDict();
    assert UnknownCrop !in CropDict by {
      CropNamesDistinct();
      assert PositionOf(UnknownCrop) == -1;
    }
    if predicted in LabelToCrop then LabelToCrop[predicted] else UnknownCrop
  }

  /** A JSON value of the request body. */
  datatype Json = Number(n: real) | Text(s: string) | Boolean(b: bool) | Null | Compound

  /** What `request.get_json()` yields: a JSON object, or an exception (a body that is not JSON,
      a wrong content type) carrying its message. */
  datatype Body = Object(fields: map<string, Json>) | Unreadable(message: string)

  /** The JSON payload of a response. */
  datatype Payload = PredictedCrop(crop: string) | ErrorMessage(error: string)

  datatype Response = Response(status: int, payload: Payload)

  /** `expected_features`, in order. */
  const ExpectedFeatures: seq<string> := ["N", "P", "K", "temperature", "humidity", "ph", "rainfall"]

  /** The 400 message: the f-string renders `expected_features` with Python's list repr. */
  const MissingFieldsError :=
    "Missing one or more required fields: ['N', 'P', 'K', 'temperature', 'humidity', 'ph', 'rainfall']"

  /** The scaler followed by the classifier: the predicted label, or the message of the exception
      either raised. */
  type Classifier = seq<Json> -> Result<int, string>

  predicate HasAllFeatures(fields: map<string, Json>) {
    forall i :: 0 <= i < |ExpectedFeatures| ==> ExpectedFeatures[i] in fields
  }

  /** `[data[feature] for feature in expected_features]`: the seven values in the fixed order. */
  function Features(fields: map<string, Json>): (xs: seq<Json>)
    requires HasAllFeatures(fields)
    ensures "N" in fields && "P" in fields && "K" in fields && "temperature" in fields
            && "humidity" in fields && "ph" in fields && "rainfall" in fields
    ensures xs == [fields["N"], fields["P"], fields["K"], fields["temperature"],
                   fields["humidity"], fields["ph"], fields["rainfall"]]
  {
    assert ExpectedFeatures[0] in fields && ExpectedFeatures[1] in fields && ExpectedFeatures[2] in fields
           && ExpectedFeatures[3] in fields && ExpectedFeatures[4] in fields && ExpectedFeatures[5] in fields
           && ExpectedFeatures[6] in fields;
    seq(|ExpectedFeatures|, i requires 0 <= i < |ExpectedFeatures| => fields[ExpectedFeatures[i]])
  }

  /** `predict()`: 400 when a field is missing, 500 with the exception's message when reading
      the body or classifying raises, otherwise 200 with the decoded crop name. */
  function Predict(body: Body, classify: Classifier): (r: Response)
    ensures r.status == 200 || r.status == 400 || r.status == 500
    ensures r.status == 400 <==> body.Object? && !HasAllFeatures(body.fields)
    ensures r.status == 400 ==> r.payload == ErrorMessage(MissingFieldsError)
    ensures r.status == 200 <==>
              body.Object? && HasAllFeatures(body.fields) && classify(Features(body.fields)).Success?
    ensures r.status == 200 ==>
              r.payload == PredictedCrop(CropName(classify(Features(body.fields)).value))
    ensures body.Unreadable? ==> r == Response(500, ErrorMessage(body.message))
    ensures body.Object? && r.status == 500 ==>
              HasAllFeatures(body.fields) && r.payload == ErrorMessage(classify(Features(body.fields)).error)
  {
    match body
    case Unreadable(message) => Response(500, ErrorMessage(message))
    case Object(data) =>
      if !HasAllFeatures(data) then Response(400, ErrorMessage(MissingFieldsError))
      else
        match classify(Features(data))
        case Failure(e) => Response(500, ErrorMessage(e))
        case Success(predictedLabel) => Response(200, PredictedCrop(CropName(predictedLabel)))
  }

  /** A request missing a field is answered the same way whatever the classifier would do: the
      classifier is never consulted. */
  lemma MissingFieldNeverClassifies(fields: map<string, Json>, c1: Classifier, c2: Classifier)
    requires !HasAllFeatures(fields)
    ensures Predict(Object(fields), c1) == Predict(Object(fields), c2)
  {
  }

  /** Keys other than the seven features never change the response. */
  lemma ExtraKeysIgnored(a: map<string, Json>, b: map<string, Json>, classify: Classifier)
    requires forall i :: 0 <= i < |ExpectedFeatures| ==>
               (ExpectedFeatures[i] in a <==> ExpectedFeatures[i] in b)
               && (ExpectedFeatures[i] in a ==> a[ExpectedFeatures[i]] == b[ExpectedFeatures[i]])
    ensures Predict(Object(a), classify) == Predict(Object(b), classify)
  {
    if HasAllFeatures(a) {
      assert Features(a) == Features(b);
    }
  }
}
