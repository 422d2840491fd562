# Plant disease diagnosis handler — Dafny model

This project models the decision logic of a small plant-disease web app. A
user submits a form for a crop, either with a leaf photo ("image" mode) or with
symptom text. In image mode the classifier's 15 class probabilities are
ranked. The three most likely classes are reported, and the first is the
diagnosis, with its probability ×100 rounded to two decimals as the
confidence. Otherwise the app reports the placeholder
`"<crop> - Symptom Based Diagnosis"` with confidence 75. The confidence is
bucketed into a severity ("High" from 85, "Medium" from 70, otherwise "Low").
The advice text is the same for every disease. Each diagnosis is pushed to
the front of an in-memory history that keeps the last five.

Modules, one per component of `app.py`:

- `Outcome`: `Option` and `Result`.
- `Seqs`: `Min`, `Distinct`, `Range` and a pigeonhole lemma.
- `Decimal`: decimal digit strings for non-negative integers.
- `Percent`: the confidence value (`Whole` for the int 75, `Hundredths`
  for the image-mode float), its rounding from a probability, its text
  `"<c>%"` and a parser for that text.
- `Assessment`: `severity` and `treatment_info`.
- `Ranking`: the class-label table, the top-k selection and its labelling.
- `History`: the bounded newest-first history.
- `Handler`: the form, the mode dispatch, and the whole request with the
  history passed in and returned as a value.

A prediction is held as its class index and its confidence. Its "name" is
`Ranking.Name`, the label at that index. Both image-mode failures are Python
`IndexError`s. They are modelled as the two constructors of `RankError`.

Inputs the source obtains from outside become parameters: the classifier's
probability vector, the clock reading (an opaque string) and the current
history.

Details of `app.py` that the model follows:

- The image branch also needs a non-empty file name, not only a file.
- The number of predictions is `min(3, n)` for an `n`-entry vector. It is
  exactly 3 for every vector of at least three entries whose top three
  classes have labels, and always for the classifier's 15-entry output
  (`ClassifierOutputRanks`).
- An empty vector fails at `top_predictions[0]`. An index past the label
  table fails at `class_names[i]`. Both failures happen before the history
  is touched.

## Model

| member | source | states |
|---|---|---|
| Assessment.Severity | app.py:62-67 | exactly one of "High", "Medium", "Low"; "High" iff conf ≥ 85, "Medium" iff 70 ≤ conf < 85, "Low" iff conf < 70 |
| Assessment.SeverityMonotone | app.py:62-67 | a higher confidence never gives a lower severity |
| Assessment.AdviceIgnoresDisease | app.py:69-73 | `TreatmentInfo`: any two diseases receive the same treatment/prevention pair |
| Percent.ScaledProbability | app.py:107 | the confidence in hundredths is within half a hundredth of p×100 |
| Percent.ScaledMonotone | app.py:107 | rounding preserves the order of two probabilities |
| Percent.ScaledInPercentRange | app.py:107 | a probability in [0, 1] gives a confidence of at most 10000 hundredths, i.e. within [0, 100] |
| Percent.Render | app.py:126 | `str` of the confidence: an int prints as digits with no leading zero; a float prints as such an integer part, a '.', then one digit or two digits of which the last is not 0 (`90.0`, `87.5`, `87.53`, never `90.00`) |
| Percent.RenderRoundTrip | app.py:126 | reading back the rendered number gives the confidence again |
| Percent.PercentText | app.py:126-134 | the text is a rendered number followed by '%', and it parses back to the confidence |
| Percent.PercentTextCanonical | app.py:126-134 | a text of that shape that reads back as c is exactly the text of c, so every confidence has one spelling |
| Percent.PercentTextInjective | app.py:134 | two different confidences never produce the same text |
| Ranking.BestIndex | app.py:103 | picks an unselected index that ranks above every other unselected one (more likely, or equally likely with a higher index); none only when all are selected |
| Ranking.ExtendTop | app.py:103 | extending a valid partial selection by the best remaining class, one at a time, yields a valid selection of min(k, n) classes in stable order |
| Ranking.TopIndices | app.py:103 | min(k, n) distinct valid indices in non-increasing probability order; each selected class is at least as likely as every unselected one; ties are ordered as a stable ascending sort read backwards (higher index first) |
| Ranking.TopProbabilitiesDetermined | app.py:103 | any two valid top-k answers, whatever their tie order, have the same probabilities rank by rank |
| Ranking.StableTopUnique | app.py:103 | two top-k answers that both break ties towards the higher index are equal |
| Ranking.TopIndicesUnique | app.py:103 | every top-k answer in that stable order is the one `TopIndices` returns |
| Ranking.PredictionFor | app.py:105-108 | the prediction for class i names class i (its label is `Ranking.Name`, `class_names[i]`) and carries p[i]×100 rounded to two decimals, at most 100 |
| Ranking.Label | app.py:104-108 | succeeds iff every selected index has a class name, and then yields one prediction per selected class, in order, carrying its rounded confidence; otherwise fails with the label-index error |
| Ranking.RankTop | app.py:103-111 | succeeds iff the vector is non-empty and every selected index has a label; then it returns min(k, n) ≥ 1 predictions labelling the top-k selection |
| Ranking.Rank | app.py:103-111 | on success, between one and three predictions |
| Ranking.ClassNamesDistinct | app.py:15-31 | the fifteen class labels are pairwise different |
| Ranking.LabelledNamesDistinct | app.py:104-108 | predictions of distinct classes carry distinct names |
| Ranking.LabelledConfidencesRanked | app.py:103-108 | prediction confidences are in [0, 100] and non-increasing, and the first is at least every class's rounded confidence |
| Ranking.RankTopTieIndependent | app.py:103-108 | the reported confidences equal those of any valid top-k choice, whatever its tie order (the names need not) |
| Ranking.ClassifierOutputRanks | app.py:101-111 | on a 15-entry vector the ranking succeeds with exactly three predictions |
| History.Push | app.py:122-128 | the new record is first, older records follow in their order, and the length is min(old length + 1, 5) |
| History.PushEvictsOldest | app.py:128 | a full history loses exactly its oldest record |
| History.RecordAllNewestFirst | app.py:122-128 | after a series of diagnoses the history holds the newest ones newest first, then as many earlier records as fit |
| History.NewestFirstFromEmpty | app.py:59 | from the empty history, after n diagnoses the history holds the last min(n, 5) of them in reverse order |
| Handler.ImageMode | app.py:93 | the image branch is taken only with mode "image" and an uploaded file whose name is non-empty, and always then |
| Handler.Diagnose | app.py:88-117 | outside image mode: the placeholder disease `FallbackDisease(crop)`, confidence 75, no predictions; in image mode: fails exactly when the ranking fails, with its error, else reports the first prediction's class name and confidence and all predictions |
| Handler.Handle | app.py:119-139 | on failure the history is unchanged; on success the history is the pushed record with the response's crop, disease and confidence text; the text has the shape `str` gives and parses back to the diagnosis confidence, so it is the one spelling of that confidence; severity and advice follow the diagnosis |
| Handler.FallbackResponse | app.py:113-127 | text mode (or no usable file) responds with the placeholder disease, "75%", "Medium" and no predictions, and records the same values |
| Handler.ImageDiagnosisRanked | app.py:103-111 | an image diagnosis has 1 to 3 distinct, non-increasing predictions in [0, 100], and its confidence is at least every class's rounded confidence |
| Handler.ImageDiagnosisOnClassifierOutput | app.py:93-111 | with a usable upload and 15 probabilities the diagnosis succeeds with exactly three predictions |
| Handler.HandleKeepsHistoryBounded | app.py:122-128 | a history of at most five stays within five, and older records stay in order behind the new one |

## Left out

- Flask routing, template rendering, form parsing, and the `index` and `view_history` routes. The latter only returns the history value. The form is the `Form` record.
- Loading the classifier and `model.predict`. The probability vector is an input.
- Decoding the image, resizing it to 128×128 and scaling it by 1/255. This is floating-point work inside libraries. An unreadable image raises there, before the history is touched, just like the two modelled `IndexError`s.
- Saving the upload to `uploads/` and creating that directory. These are filesystem side effects.
- The `datetime.now()` timestamp. It is an opaque string parameter.
- `LABELS[lang]`. An unknown language fails that lookup after the history has already been updated. The model treats the render step as always succeeding.
- Unsynchronised access to the global history by concurrent requests. History is a single-threaded value.
- Percent.ScaledProbability: rounds exact reals, halves upward. Python's `round` works on the binary double (float32 product widened to float64) and rounds exact ties to even. Values can differ by one hundredth at such ties, and also whenever p×100 lies within float32 rounding error of a half-hundredth: the float32 product can fall on the other side of it than the exact one (p = 0.8701500296592712 gives 8701.5003 hundredths exactly, so "87.02%" here, while its float32 product 87.01499938964844 rounds to "87.01%").
- Percent.Render: models Python's float text only for values below 1e16. These are the only ones a probability in [0, 1] can produce.
- Ranking.TopIndices: among equally likely classes the higher index comes first. That is what numpy's stable small-array sort gives for 16 or fewer entries once reversed, but numpy does not promise a tie order for its default sort, and other sort paths may order ties differently. On such ties the reported names can differ from the source, and so can success when a tie straddles the end of the label table. Only the confidences are independent of tie order (`RankTopTieIndependent`).
- Handler.Diagnose: requires every probability to lie in [0, 1]. The classifier's output is assumed to be probabilities in [0, 1]; its last layer is not part of this model. NaN and negative values are not modelled.
- Handler.Diagnose: does not model the `CROPS` list or the `symptoms` text. The source never consults them when diagnosing.
