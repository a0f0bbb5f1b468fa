/** The index page: the detection workflow over the page's five state cells. */
module IndexPage {
  import opened Nullable
  import opened Browser
  import opened MockService

  const UploadTab: string := "upload"
  const ResultsTab: string := "results"

  /** The toasts the page shows, by kind (their copy is left out). */
  datatype Notice =
    | NoVideoSelected
    | UploadStarted
    | DetectionStarted
    | CompletedViolent
    | CompletedUnviolent
    | DetectionFailed

  /** How the awaited detection call settles: it resolves with the verdicts,
      one per entry as the page reads them, or it rejects. */
  datatype DetectionOutcome = Resolved(results: seq<ViolenceDetectionResult>) | Rejected

  /** The page's five state cells, as one value. */
  datatype Page = Page(
    activeTab: string,
    selectedVideos: Option<seq<File>>,
    previewUrls: Option<seq<ObjectUrl>>,
    detectionStatus: DetectionStatus,
    detectionResult: Option<seq<ViolenceDetectionResult>>)

  /** The cells' initial values. */
  const InitialPage: Page := Page(UploadTab, None, None, Idle, None)

  /** `isProcessing`: the page is processing in the two statuses between
      starting a check and its outcome. */
  predicate IsProcessing(s: DetectionStatus)
  {
    s == Uploading || s == Detecting
  }

  /** The status changes the page's handlers make: a check starts from a
      settled status and runs UPLOADING, DETECTING, then COMPLETED or ERROR;
      a reset returns a settled page to IDLE. */
  predicate StatusStep(from: DetectionStatus, to: DetectionStatus)
  {
    match to
    case Uploading => !IsProcessing(from)
    case Detecting => from == Uploading
    case Completed => from == Detecting
    case Error => from == Detecting
    case Idle => !IsProcessing(from)
  }

  /** A history of statuses that starts at IDLE and moves only by `StatusStep`. */
  ghost predicate IsStatusWalk(h: seq<DetectionStatus>)
  {
    && |h| > 0 && h[0] == Idle
    && forall j :: 0 < j < |h| ==> StatusStep(h[j - 1], h[j])
  }

  /** In such a history every outcome comes straight after DETECTING, which
      comes straight after UPLOADING. */
  lemma OutcomeFollowsDetection(h: seq<DetectionStatus>, i: int)
    requires IsStatusWalk(h)
    requires 0 <= i < |h| && (h[i] == Completed || h[i] == Error)
    ensures 2 <= i && h[i - 1] == Detecting && h[i - 2] == Uploading
  {
  }

  /** `results.some(result => result.isViolent)`. */
  function AnyViolent(results: seq<ViolenceDetectionResult>): (b: bool)
    ensures b <==> exists i :: 0 <= i < |results| && results[i].isViolent
  {
    if results == [] then false
    else results[0].isViolent || AnyViolent(results[1..])
  }

  /** The toast shown when detection completes: the violent variant exactly
      when some verdict is violent. */
  function CompletionNotice(results: seq<ViolenceDetectionResult>): (n: Notice)
    ensures n == CompletedViolent || n == CompletedUnviolent
    ensures n == CompletedViolent <==> exists i :: 0 <= i < |results| && results[i].isViolent
  {
    if AnyViolent(results) then CompletedViolent else CompletedUnviolent
  }

  class Index {
    var activeTab: string
    var selectedVideos: Option<seq<File>>
    var previewUrls: Option<seq<ObjectUrl>>
    var detectionStatus: DetectionStatus
    var detectionResult: Option<seq<ViolenceDetectionResult>>
    /** Every toast shown, in order. */
    var toasts: seq<Notice>
    /** The argument of every call made to `detectViolence`, in order. */
    var detectionRequests: seq<seq<File>>
    /** Every value written to `detectionStatus`, starting with the initial one. */
    ghost var statusHistory: seq<DetectionStatus>
    /** How many runs of `handleCheckVideo` are suspended at their `await`. */
    ghost var pendingChecks: nat

    function Cells(): Page
      reads this
    {
      Page(activeTab, selectedVideos, previewUrls, detectionStatus, detectionResult)
    }

    /** At most one check is in flight, and one is in flight exactly while
        the status is DETECTING: UPLOADING is written and overwritten in the
        same synchronous run, so no handler ever starts in it. The statuses held so far form a walk of the
        workflow that ends in the current status. */
    ghost predicate Valid()
      reads this
    {
      && pendingChecks <= 1
      && (pendingChecks == 1 <==> detectionStatus == Detecting)
      && detectionStatus != Uploading
      && IsStatusWalk(statusHistory)
      && statusHistory[|statusHistory| - 1] == detectionStatus
    }

    /** The check button's enable condition. On a valid page it holds
        exactly when a selection exists and no check is pending, so a click
        meets `HandleCheckVideo`'s precondition, takes its awaiting branch
        and starts one detection call, never a second one beside a pending one. */
    function CheckButtonEnabled(): (enabled: bool)
      reads this
      ensures Valid() ==> (enabled <==> selectedVideos.Some? && pendingChecks == 0)
    {
      !(selectedVideos.None? || IsProcessing(detectionStatus))
    }

    /** The reset button's enable condition. On a valid page it holds
        exactly when no check is pending, which is `HandleReset`'s precondition. */
    function ResetButtonEnabled(): (enabled: bool)
      reads this
      ensures Valid() ==> (enabled <==> pendingChecks == 0)
    {
      !IsProcessing(detectionStatus)
    }

    constructor ()
      ensures Valid()
      ensures Cells() == InitialPage
      ensures toasts == [] && detectionRequests == [] && pendingChecks == 0
      ensures statusHistory == [Idle]
    {
      activeTab := UploadTab;
      selectedVideos := None;
      previewUrls := None;
      detectionStatus := Idle;
      detectionResult := None;
      toasts := [];
      detectionRequests := [];
      statusHistory := [Idle];
      pendingChecks := 0;
    }

    /** `handleVideoSelected`: replaces the selection and clears the verdicts. */
    method HandleVideoSelected(files: seq<File>)
      requires Valid()
      modifies this`selectedVideos, this`detectionResult
      ensures Valid()
      ensures selectedVideos == Some(files) && detectionResult == None
    {
      selectedVideos := Some(files);
      detectionResult := None;
    }

    /** The tab list's `onValueChange`: the user picks a tab. */
    method ChangeTab(value: string)
      requires Valid()
      modifies this`activeTab
      ensures Valid()
      ensures activeTab == value
    {
      activeTab := value;
    }

    /** `handleCheckVideo` up to its `await`. Its only caller is the check
        button, which is disabled while processing. Without a selection it
        shows a toast and stops: no status change and no detection call. With
        one (even an empty list, which JavaScript treats as present) it goes
        through UPLOADING to DETECTING, calls `detectViolence` with the
        selection and suspends; `awaiting` says which. */
    method HandleCheckVideo() returns (awaiting: bool)
      requires Valid() && !IsProcessing(detectionStatus)
      modifies this`detectionStatus, this`toasts, this`detectionRequests, this`statusHistory, this`pendingChecks
      ensures Valid()
      ensures awaiting <==> old(selectedVideos).Some?
      ensures !awaiting ==>
        && detectionStatus == old(detectionStatus)
        && toasts == old(toasts) + [NoVideoSelected]
        && detectionRequests == old(detectionRequests)
        && statusHistory == old(statusHistory) && pendingChecks == old(pendingChecks)
      ensures awaiting ==>
        && detectionStatus == Detecting
        && statusHistory == old(statusHistory) + [Uploading, Detecting]
        && toasts == old(toasts) + [UploadStarted, DetectionStarted]
        && detectionRequests == old(detectionRequests) + [selectedVideos.value]
        && pendingChecks == old(pendingChecks) + 1
    {
      if selectedVideos.None? {
        toasts := toasts + [NoVideoSelected];
        return false;
      }
      detectionStatus := Uploading;
      statusHistory := statusHistory + [Uploading];
      toasts := toasts + [UploadStarted];

      detectionStatus := Detecting;
      statusHistory := statusHistory + [Detecting];
      toasts := toasts + [DetectionStarted];

      detectionRequests := detectionRequests + [selectedVideos.value];
      pendingChecks := pendingChecks + 1;
      awaiting := true;
    }

    /** The rest of `handleCheckVideo` once the awaited call settles. On
        success the verdicts are stored, the status is COMPLETED and the
        results tab is shown; on failure only the status becomes ERROR. */
    method ResumeCheckVideo(outcome: DetectionOutcome)
      requires Valid() && pendingChecks == 1
      modifies this`detectionResult, this`detectionStatus, this`activeTab, this`toasts, this`statusHistory, this`pendingChecks
      ensures Valid()
      ensures pendingChecks == 0 && !IsProcessing(detectionStatus)
      ensures outcome.Resolved? ==>
        && detectionResult == Some(outcome.results)
        && detectionStatus == Completed
        && activeTab == ResultsTab
        && statusHistory == old(statusHistory) + [Completed]
        && toasts == old(toasts) + [CompletionNotice(outcome.results)]
      ensures outcome.Rejected? ==>
        && detectionResult == old(detectionResult)
        && detectionStatus == Error
        && activeTab == old(activeTab)
        && statusHistory == old(statusHistory) + [Error]
        && toasts == old(toasts) + [DetectionFailed]
    {
      pendingChecks := pendingChecks - 1;
      match outcome
      case Resolved(results) =>
        detectionResult := Some(results);
        detectionStatus := Completed;
        statusHistory := statusHistory + [Completed];
        activeTab := ResultsTab;
        toasts := toasts + [CompletionNotice(results)];
      case Rejected =>
        detectionStatus := Error;
        statusHistory := statusHistory + [Error];
        toasts := toasts + [DetectionFailed];
    }

    /** `handleReset`: every cell goes back to its initial value, so the page
        looks as it did when first shown and a second reset changes nothing.
        Its callers are the page's reset button, disabled while processing,
        and the result panel's reset button, which is shown only when not
        loading (and, as the props are written, never renders at all). */
    method HandleReset()
      requires Valid() && !IsProcessing(detectionStatus)
      modifies this`activeTab, this`selectedVideos, this`previewUrls, this`detectionStatus, this`detectionResult, this`statusHistory
      ensures Valid()
      ensures Cells() == InitialPage
      ensures statusHistory == old(statusHistory) + [Idle]
    {
      previewUrls := None;
      selectedVideos := None;
      detectionResult := None;
      detectionStatus := Idle;
      statusHistory := statusHistory + [Idle];
      activeTab := UploadTab;
    }

    /** A whole check with nothing else happening during the `await`. */
    method CheckVideo(outcome: DetectionOutcome)
      requires Valid() && !IsProcessing(detectionStatus)
      modifies this
      ensures Valid() && !IsProcessing(detectionStatus)
      ensures selectedVideos == old(selectedVideos) && previewUrls == old(previewUrls)
      ensures old(selectedVideos).None? ==>
        && Cells() == old(Cells()) && detectionRequests == old(detectionRequests)
        && toasts == old(toasts) + [NoVideoSelected] && statusHistory == old(statusHistory)
      ensures old(selectedVideos).Some? ==>
        && detectionRequests == old(detectionRequests) + [old(selectedVideos).value]
        && statusHistory == old(statusHistory) + [Uploading, Detecting, if outcome.Resolved? then Completed else Error]
        && toasts == old(toasts) + [UploadStarted, DetectionStarted, if outcome.Resolved? then CompletionNotice(outcome.results) else DetectionFailed]
      ensures old(selectedVideos).Some? && outcome.Resolved? ==>
        detectionResult == Some(outcome.results) && detectionStatus == Completed && activeTab == ResultsTab
      ensures old(selectedVideos).Some? && outcome.Rejected? ==>
        detectionResult == old(detectionResult) && detectionStatus == Error && activeTab == old(activeTab)
    {
      var awaiting := HandleCheckVideo();
      if awaiting {
        ResumeCheckVideo(outcome);
      }
    }
  }
}
