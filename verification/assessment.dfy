/** The severity bucket and the advice shown beside a diagnosis
    (app.py:62-73). */
module Assessment {

  const HighThreshold: real := 85.0
  const MediumThreshold: real := 70.0

  /** `severity(conf)`: "High" from 85 up, "Medium" from 70 up to 85,
      "Low" below 70. Exactly one of the three labels applies. */
  function Severity(conf: real): (s: string)
    ensures s == "High" || s == "Medium" || s == "Low"
    ensures s == "High" <==> conf >= HighThreshold
    ensures s == "Medium" <==> MediumThreshold <= conf < HighThreshold
    ensures s == "Low" <==> conf < MediumThreshold
  {
    if conf >= HighThreshold then "High"
    else if conf >= MediumThreshold then "Medium"
    else "Low"
  }

  /** Position of a severity label on the scale Low < Medium < High. */
  function Level(s: string): nat
  {
    if s == "High" then 2 else if s == "Medium" then 1 else 0
  }

  /** A higher confidence never yields a lower severity. */
  lemma SeverityMonotone(c: real, d: real)
    requires c <= d
    ensures Level(Severity(c)) <= Level(Severity(d))
  {
  }

  /** The two advice texts of `treatment_info`. */
  datatype Advice = Advice(treatment: string, prevention: string)

  /** `treatment_info(disease)`: the advice is fixed text; the disease is
      accepted but not consulted. */
  function TreatmentInfo(disease: string): Advice
  {
    Advice("Use recommended fungicide or pesticide",
           "Remove infected leaves, crop rotation, proper irrigation")
  }

  /** Every disease gets the same advice. */
  lemma AdviceIgnoresDisease(d: string, e: string)
    ensures TreatmentInfo(d) == TreatmentInfo(e)
  {
  }
}
