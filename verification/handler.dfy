/** The `/diagnose` request handler (app.py:80-139) with the form, the
    classifier's output and the clock reading as inputs and the history as
    a value passed in and returned. */
module Handler {
  import opened Outcome
  import opened Seqs
  import opened Decimal
  import opened Percent
  import opened Assessment
  import opened Ranking
  import opened History

  /** An uploaded file; only its name matters to the handler. */
  datatype Upload = Upload(filename: string)

  /** The submitted form. An absent `mode` field is `None`; `lang` and
      `symptoms` are read but do not affect the diagnosis. */
  datatype Form = Form(lang: string, mode: Option<string>, crop: string, symptoms: string, image: Option<Upload>)

  /** app.py:93: the image branch runs when the mode is "image" and a file
      with a non-empty name was uploaded (a file object is truthy exactly
      when its name is non-empty). */
  function ImageMode(f: Form): (b: bool)
    ensures f.mode != Some("image") ==> !b
    ensures f.image.None? ==> !b
    ensures f.image == Some(Upload("")) ==> !b
    ensures f.mode == Some("image") && f.image.Some? && |f.image.value.filename| > 0 ==> b
  {
    f.mode == Some("image") && f.image.Some? && f.image.value.filename != ""
  }

  /** The confidence reported by the symptom fallback. */
  const FallbackConfidence: Confidence := Whole(75)

  /** The disease text reported by the symptom fallback. */
  function FallbackDisease(crop: string): string
  {
    crop + " - Symptom Based Diagnosis"
  }

  datatype Diagnosis = Diagnosis(disease: string, confidence: Confidence, predictions: seq<Prediction>)

  /** app.py:88-117. `probs` is what the classifier returns for the uploaded
      image; it is ignored outside image mode. */
  function Diagnose(form: Form, probs: seq<real>): (r: Result<Diagnosis, RankError>)
    requires IsProbabilityVector(probs)
    ensures !ImageMode(form) ==> r == Ok(Diagnosis(FallbackDisease(form.crop), FallbackConfidence, []))
    ensures ImageMode(form) ==> (r.Ok? <==> Rank(probs).Ok?)
    ensures ImageMode(form) && r.Err? ==> r.error == Rank(probs).error
    ensures ImageMode(form) && r.Ok? ==> r.value.predictions == Rank(probs).value
    ensures ImageMode(form) && r.Ok? ==>
      && |r.value.predictions| >= 1
      && r.value.disease == Name(r.value.predictions[0])
      && r.value.confidence == r.value.predictions[0].confidence
  {
    if ImageMode(form) then
      match Rank(probs)
      case Err(e) => Err(e)
      case Ok(preds) => Ok(Diagnosis(Name(preds[0]), preds[0].confidence, preds))
    else
      Ok(Diagnosis(FallbackDisease(form.crop), FallbackConfidence, []))
  }

  /** The rendered result page's data. */
  datatype Response = Response(
    disease: string,
    confidence: string,
    severity: string,
    treatment: string,
    prevention: string,
    predictions: seq<Prediction>)

  /** The whole request: diagnose, then record it in the history and
      respond. A failure in the image branch happens before the history is
      touched, so the history is returned unchanged. */
  function Handle(history: seq<Entry>, form: Form, probs: seq<real>, time: string): (r: (Result<Response, RankError>, seq<Entry>))
    requires IsProbabilityVector(probs)
    ensures r.0.Ok? <==> Diagnose(form, probs).Ok?
    ensures r.0.Err? ==> r.1 == history && r.0.error == Diagnose(form, probs).error
    ensures r.0.Ok? ==> r.1 == Push(history, Entry(time, form.crop, r.0.value.disease, r.0.value.confidence))
    ensures r.0.Ok? ==>
      var d := Diagnose(form, probs).value;
      && r.0.value.disease == d.disease
      && PercentShape(r.0.value.confidence)
      && ParsePercent(r.0.value.confidence) == Some(d.confidence)
      && r.0.value.severity == Severity(Value(d.confidence))
      && Advice(r.0.value.treatment, r.0.value.prevention) == TreatmentInfo(d.disease)
      && r.0.value.predictions == d.predictions
  {
    match Diagnose(form, probs)
    case Err(e) => (Err(e), history)
    case Ok(d) =>
      var text := PercentText(d.confidence);
      var advice := TreatmentInfo(d.disease);
      var response := Response(d.disease, text, Severity(Value(d.confidence)),
                               advice.treatment, advice.prevention, d.predictions);
      (Ok(response), Push(history, Entry(time, form.crop, d.disease, text)))
  }

  /** Outside image mode the response is the fixed placeholder: confidence
      "75%", severity "Medium", no predictions, and the same record heads
      the history. */
  lemma FallbackResponse(history: seq<Entry>, form: Form, probs: seq<real>, time: string)
    requires IsProbabilityVector(probs)
    requires !ImageMode(form)
    ensures var r := Handle(history, form, probs, time);
      && r.0.Ok?
      && r.0.value.disease == form.crop + " - Symptom Based Diagnosis"
      && r.0.value.confidence == "75%"
      && r.0.value.severity == "Medium"
      && r.0.value.predictions == []
      && r.1[0] == Entry(time, form.crop, r.0.value.disease, "75%")
  {
    assert Render(FallbackConfidence) == NatToString(75);
    assert NatToString(75) == "75";
  }

  /** In image mode the reported diagnosis is the most likely class: its
      confidence is at least the rounded confidence of every class, the
      predictions are at most three, in non-increasing confidence order,
      with distinct names and confidences in [0, 100]. */
  lemma ImageDiagnosisRanked(form: Form, probs: seq<real>)
    requires IsProbabilityVector(probs)
    requires ImageMode(form) && Diagnose(form, probs).Ok?
    ensures var d := Diagnose(form, probs).value;
      && 1 <= |d.predictions| <= TopCount
      && (forall i, j :: 0 <= i < j < |d.predictions| ==> Name(d.predictions[i]) != Name(d.predictions[j]))
      && (forall i, j :: 0 <= i < j < |d.predictions| ==>
            InHundredths(d.predictions[i].confidence) >= InHundredths(d.predictions[j].confidence))
      && (forall i :: 0 <= i < |d.predictions| ==> InHundredths(d.predictions[i].confidence) <= 10000)
      && (forall j :: 0 <= j < |probs| ==> ScaledProbability(probs[j]) <= InHundredths(d.confidence))
  {
    var idx := TopIndices(probs, TopCount);
    var preds := RankTop(probs, TopCount).value;
    LabelledNamesDistinct(probs, idx, preds);
    LabelledConfidencesRanked(probs, TopCount, idx, preds);
  }

  /** With the classifier's 15 probabilities, image mode always succeeds and
      reports exactly three predictions. */
  lemma ImageDiagnosisOnClassifierOutput(form: Form, probs: seq<real>)
    requires IsProbabilityVector(probs) && |probs| == ClassCount
    requires ImageMode(form)
    ensures Diagnose(form, probs).Ok?
    ensures |Diagnose(form, probs).value.predictions| == TopCount
  {
    ClassifierOutputRanks(probs);
  }

  /** A history of at most five records stays within five after a request,
      and a recorded request keeps the older records in order behind the
      new one. */
  lemma HandleKeepsHistoryBounded(history: seq<Entry>, form: Form, probs: seq<real>, time: string)
    requires IsProbabilityVector(probs)
    requires |history| <= Capacity
    ensures |Handle(history, form, probs, time).1| <= Capacity
    ensures Handle(history, form, probs, time).0.Ok? ==>
      Handle(history, form, probs, time).1[1..] == history[..Min(|history|, Capacity - 1)]
  {
  }
}
