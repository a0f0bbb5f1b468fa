/** The mock violence detection service: the workflow statuses, the shape
    of a verdict and the verdict the mock computes from its random draws. */
module MockService {
  import opened Browser

  /** The five statuses of a detection run. */
  datatype DetectionStatus = Idle | Uploading | Detecting | Completed | Error

  /** The string value each status carries in the enum. */
  function StatusValue(s: DetectionStatus): string
  {
    match s
    case Idle => "idle"
    case Uploading => "uploading"
    case Detecting => "detecting"
    case Completed => "completed"
    case Error => "error"
  }

  /** No two statuses share a value, so the enum has exactly five values. */
  lemma StatusValuesDistinct(s: DetectionStatus, t: DetectionStatus)
    ensures StatusValue(s) == StatusValue(t) <==> s == t
  {
  }

  /** The verdict for one detection run. `confidence` is a JavaScript number,
      modelled as a real. */
  datatype ViolenceDetectionResult = ViolenceDetectionResult(isViolent: bool, confidence: real, message: string)

  /** Message of a violent verdict ("violence was found in the uploaded video"). */
  const ViolentMessage: string := "אותרה אלימות בסרטון שהועלה"
  /** Message of a non-violent verdict ("no violence was found in the uploaded video"). */
  const UnviolentMessage: string := "לא אותרה אלימות בסרטון שהועלה"

  /** `detectViolence` once its timer fires. `violenceDraw` and `confidenceDraw`
      are the two `Math.random()` values drawn for the verdict, in that order.
      The files are not looked at, and one verdict is produced however many
      files are passed. The promise never rejects, so the result is total. */
  function DetectViolence(videoFiles: seq<File>, violenceDraw: real, confidenceDraw: real): (r: ViolenceDetectionResult)
    ensures r.isViolent <==> violenceDraw > 0.5
    ensures r.confidence == 0.7 + confidenceDraw * 0.25
    ensures 0.0 <= confidenceDraw < 1.0 ==> 0.7 <= r.confidence < 0.95
    ensures r.message == ViolentMessage <==> r.isViolent
    ensures r.message == UnviolentMessage <==> !r.isViolent
  {
    var isViolent := violenceDraw > 0.5;
    var confidence := 0.7 + confidenceDraw * 0.25;
    ViolenceDetectionResult(isViolent, confidence, if isViolent then ViolentMessage else UnviolentMessage)
  }

  /** A draw of exactly one half gives a non-violent verdict. */
  lemma HalfDrawIsNotViolent(videoFiles: seq<File>, confidenceDraw: real)
    ensures !DetectViolence(videoFiles, 0.5, confidenceDraw).isViolent
  {
  }

  /** The verdict depends on the draws only: any two file lists give the same one. */
  lemma DetectViolenceIgnoresFiles(a: seq<File>, b: seq<File>, violenceDraw: real, confidenceDraw: real)
    ensures DetectViolence(a, violenceDraw, confidenceDraw) == DetectViolence(b, violenceDraw, confidenceDraw)
  {
  }
}
