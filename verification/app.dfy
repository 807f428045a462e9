/** The workbench's view state and its transitions: choosing a file, running
    a detection (start, then success or failure), and clearing; plus the
    guards that decide what is shown and enabled, and the results list. */
module App {
  import opened Outcomes
  import opened Types
  import JsMath
  import ConfidenceSort
  import DetectionClient

  /** The message shown after any failed detection. */
  const FailureMessage: string := "Failed to detect objects. Please try again or check your API key."

  /** `state.image` is truthy: present and not the empty string. */
  predicate HasImage(s: AppState)
    ensures HasImage(s) ==> s.image.Some?
    ensures s.image == Some("") ==> !HasImage(s)
    ensures s.image.Some? && s.image.value != "" ==> HasImage(s)
  {
    s.image.Some? && s.image.value != ""
  }

  /** A file was chosen and read as a data URL (`None` when the picker
      closed without a file). A chosen file replaces the whole state. */
  function Upload(s: AppState, dataUrl: Option<string>): (r: AppState)
    ensures dataUrl.None? ==> r == s
    ensures dataUrl.Some? ==>
      && r.image == dataUrl
      && r.detections == []
      && !r.isLoading
      && r.error.None?
    ensures dataUrl.Some? && dataUrl.value != "" ==> AnalyzeEnabled(r)
  {
    match dataUrl
    case None => s
    case Some(url) => AppState(Some(url), [], false, None)
  }

  /** The state after a chosen file does not depend on the state before. */
  lemma UploadForgetsPriorState(s: AppState, t: AppState, url: string)
    ensures Upload(s, Some(url)) == Upload(t, Some(url))
  {
  }

  /** A run begins: nothing happens without an image; otherwise the loading
      flag is raised and the error cleared. */
  function RunStart(s: AppState): (r: AppState)
    ensures !HasImage(s) ==> r == s
    ensures HasImage(s) ==>
      && r.isLoading && r.error.None?
      && r.image == s.image && r.detections == s.detections
  {
    if !HasImage(s) then s else s.(isLoading := true, error := None)
  }

  /** A run succeeded: the results replace the detections wholesale and the
      loading flag drops; image and error stay. */
  function RunSucceeded(s: AppState, results: seq<Detection>): (r: AppState)
    ensures r.detections == results
    ensures !r.isLoading
    ensures r.image == s.image && r.error == s.error
  {
    s.(detections := results, isLoading := false)
  }

  /** A run failed: the loading flag drops and the fixed message is shown;
      the earlier detections and the image stay. */
  function RunFailed(s: AppState): (r: AppState)
    ensures r.error == Some(FailureMessage)
    ensures !r.isLoading
    ensures r.image == s.image && r.detections == s.detections
  {
    s.(isLoading := false, error := Some(FailureMessage))
  }

  /** The awaited detection call settles. It applies to a state with a run
      in flight, whose image is the one the run was started with: success
      stores the results, failure shows the message. Any other state is
      left alone. */
  function Finish(
    s: AppState,
    service: DetectionClient.Request -> DetectionClient.Reply,
    parse: string -> Result<seq<Detection>, string>): (r: AppState)
    ensures !(s.isLoading && HasImage(s)) ==> r == s
    ensures s.isLoading && HasImage(s) ==>
      && !r.isLoading && r.image == s.image
      && match DetectionClient.Detect(s.image.value, service, parse)
         case Ok(results) => r.detections == results && r.error == s.error
         case Err(_) => r.detections == s.detections && r.error == Some(FailureMessage)
  {
    if !(s.isLoading && HasImage(s)) then s
    else
      match DetectionClient.Detect(s.image.value, service, parse)
      case Ok(results) => RunSucceeded(s, results)
      case Err(_) => RunFailed(s)
  }

  /** The settle step as the code writes it: the call was made with the
      image captured when the run started, and its outcome is applied to
      whatever state is current when it settles, in flight or not. */
  function SettleAsWritten(
    s: AppState,
    image: string,
    service: DetectionClient.Request -> DetectionClient.Reply,
    parse: string -> Result<seq<Detection>, string>): (r: AppState)
    ensures !r.isLoading && r.image == s.image
    ensures match DetectionClient.Detect(image, service, parse)
      case Ok(results) => r.detections == results && r.error == s.error
      case Err(_) => r.detections == s.detections && r.error == Some(FailureMessage)
  {
    match DetectionClient.Detect(image, service, parse)
    case Ok(results) => RunSucceeded(s, results)
    case Err(_) => RunFailed(s)
  }

  /** While the run is still in flight, `Finish` is exactly the code's
      settle step. */
  lemma FinishAgreesInFlight(
    s: AppState,
    service: DetectionClient.Request -> DetectionClient.Reply,
    parse: string -> Result<seq<Detection>, string>)
    requires s.isLoading && HasImage(s)
    ensures Finish(s, service, parse) == SettleAsWritten(s, s.image.value, service, parse)
  {
  }

  /** A reply with detections that arrives after Clear: the code's settle
      step stores them with no image, so Export is enabled with nothing
      shown and the state is not coherent; `Finish` drops the reply. */
  lemma LateReplyAfterClear(
    url: string,
    service: DetectionClient.Request -> DetectionClient.Reply,
    parse: string -> Result<seq<Detection>, string>)
    requires url != ""
    requires DetectionClient.Detect(url, service, parse).Ok?
    requires DetectionClient.Detect(url, service, parse).value != []
    ensures var cleared := Reset(RunStart(Upload(InitialState, Some(url))));
      var s := SettleAsWritten(cleared, url, service, parse);
      && !HasImage(s) && !s.isLoading && ExportEnabled(s) && !OverlayShown(s)
      && !Coherent(s)
      && Finish(cleared, service, parse) == InitialState
  {
  }

  /** A failed reply that arrives after Clear: the code's settle step shows
      the failure message with no image. */
  lemma LateFailureAfterClear(
    url: string,
    service: DetectionClient.Request -> DetectionClient.Reply,
    parse: string -> Result<seq<Detection>, string>)
    requires url != ""
    requires DetectionClient.Detect(url, service, parse).Err?
    ensures var cleared := Reset(RunStart(Upload(InitialState, Some(url))));
      var s := SettleAsWritten(cleared, url, service, parse);
      && !HasImage(s) && s.error == Some(FailureMessage) && !Coherent(s)
      && Finish(cleared, service, parse) == InitialState
  {
  }

  /** A whole run, taken as one step: start, one call to the detection
      client with the stored image, then success or failure. */
  function Run(
    s: AppState,
    service: DetectionClient.Request -> DetectionClient.Reply,
    parse: string -> Result<seq<Detection>, string>): (r: AppState)
    ensures r.image == s.image
    ensures !HasImage(s) ==> r == s
    ensures HasImage(s) ==> !r.isLoading
    ensures HasImage(s) ==>
      match DetectionClient.Detect(s.image.value, service, parse)
      case Ok(results) => r.detections == results && r.error.None?
      case Err(_) => r.detections == s.detections && r.error == Some(FailureMessage)
  {
    if !HasImage(s) then s
    else
      var started := RunStart(s);
      match DetectionClient.Detect(s.image.value, service, parse)
      case Ok(results) => RunSucceeded(started, results)
      case Err(_) => RunFailed(started)
  }

  /** A whole run is a start followed by the call settling. */
  lemma RunIsStartThenFinish(
    s: AppState,
    service: DetectionClient.Request -> DetectionClient.Reply,
    parse: string -> Result<seq<Detection>, string>)
    ensures Run(s, service, parse) == Finish(RunStart(s), service, parse)
  {
  }

  /** Clear: back to the initial state, whatever came before. */
  function Reset(s: AppState): (r: AppState)
    ensures r.image.None? && r.detections == [] && !r.isLoading && r.error.None?
  {
    InitialState
  }

  /** Clearing twice is clearing once. */
  lemma ResetIdempotent(s: AppState)
    ensures Reset(Reset(s)) == Reset(s)
    ensures Reset(s) == InitialState
  {
  }

  /** The overlay is drawn inside the image view, when not loading and
      there is something to draw; Analyze and Export are then both live. */
  predicate OverlayShown(s: AppState)
    ensures OverlayShown(s) ==> AnalyzeEnabled(s) && ExportEnabled(s)
  {
    HasImage(s) && !s.isLoading && |s.detections| > 0
  }

  /** The Analyze button is enabled: there is an image and no run in flight,
      so pressing it starts one. */
  predicate AnalyzeEnabled(s: AppState)
    ensures AnalyzeEnabled(s) ==> !s.isLoading && RunStart(s).isLoading
    ensures !HasImage(s) ==> !AnalyzeEnabled(s)
  {
    HasImage(s) && !s.isLoading
  }

  /** The Export button is enabled exactly when the results list has rows. */
  predicate ExportEnabled(s: AppState)
    ensures ExportEnabled(s) <==> |ResultsList(s)| > 0
  {
    |s.detections| > 0
  }

  /** While a run is in flight, Analyze is disabled and the overlay hidden;
      the stored detections remain exportable. */
  lemma InFlightGuards(s: AppState)
    requires HasImage(s)
    ensures !AnalyzeEnabled(RunStart(s)) && !OverlayShown(RunStart(s))
    ensures ExportEnabled(RunStart(s)) <==> ExportEnabled(s)
  {
  }

  /** User actions and the settling of a run: pressing Analyze starts a
      run, and the awaited call settles later as a step of its own. */
  datatype Action =
    | Choose(dataUrl: Option<string>)
    | Start
    | Settle(
        service: DetectionClient.Request -> DetectionClient.Reply,
        parse: string -> Result<seq<Detection>, string>)
    | Clear

  function Step(s: AppState, a: Action): AppState {
    match a
    case Choose(url) => Upload(s, url)
    case Start => RunStart(s)
    case Settle(service, parse) => Finish(s, service, parse)
    case Clear => Reset(s)
  }

  /** The state after a sequence of actions. */
  function Replay(s: AppState, actions: seq<Action>): AppState
    decreases |actions|
  {
    if actions == [] then s else Replay(Step(s, actions[0]), actions[1..])
  }

  /** What holds in every reachable state: a run is only in flight for a
      present image and with no error shown, detections are only held for a
      present image, and an error is only the failure message. */
  predicate Coherent(s: AppState) {
    && (s.isLoading ==> HasImage(s) && s.error.None?)
    && (|s.detections| > 0 ==> HasImage(s))
    && (s.error.Some? ==> HasImage(s) && s.error == Some(FailureMessage))
  }

  lemma StepCoherent(s: AppState, a: Action)
    requires Coherent(s)
    ensures Coherent(Step(s, a))
  {
  }

  /** Every sequence of actions from a coherent state ends coherent. */
  lemma {:induction false} ReplayCoherent(s: AppState, actions: seq<Action>)
    requires Coherent(s)
    ensures Coherent(Replay(s, actions))
    decreases |actions|
  {
    if actions != [] {
      StepCoherent(s, actions[0]);
      ReplayCoherent(Step(s, actions[0]), actions[1..]);
    }
  }

  /** In every state reachable when a reply settles only while its run is
      in flight (see `LateReplyAfterClear` for what the code does
      otherwise): the overlay is shown exactly when no run is in flight and
      there are detections; a run is only in flight for a present image;
      Export is only enabled for a present image; and a shown error is the
      failure message. The Analyze clause is `AnalyzeEnabled`'s definition,
      restated here so that all three guards appear together. */
  lemma ReachableGuards(actions: seq<Action>)
    ensures var s := Replay(InitialState, actions);
      && (OverlayShown(s) <==> !s.isLoading && |s.detections| > 0)
      && (AnalyzeEnabled(s) <==> HasImage(s) && !s.isLoading)
      && (s.isLoading ==> HasImage(s))
      && (ExportEnabled(s) ==> HasImage(s))
      && (s.error.Some? ==> s.error == Some(FailureMessage) && !s.isLoading)
  {
    ReplayCoherent(InitialState, actions);
  }

  /** The order the results list shows: the stored detections, reordered
      by non-increasing confidence, ties in stored order. */
  function ListedDetections(s: AppState): (listed: seq<Detection>)
    ensures multiset(listed) == multiset(s.detections)
    ensures |listed| == |s.detections|
    ensures ConfidenceSort.NonIncreasing(listed)
    ensures forall c :: ConfidenceSort.WithConfidence(listed, c) == ConfidenceSort.WithConfidence(s.detections, c)
  {
    var listed := ConfidenceSort.SortByConfidence(s.detections);
    assert |listed| == |multiset(listed)| == |multiset(s.detections)| == |s.detections|;
    forall c
      ensures ConfidenceSort.WithConfidence(listed, c) == ConfidenceSort.WithConfidence(s.detections, c)
    {
      ConfidenceSort.SortIsStable(s.detections, c);
    }
    listed
  }

  /** One row of the results list. */
  datatype ListEntry = ListEntry(labelText: string, percent: int)

  /** The results list: each listed detection with its rounded percentage;
      the percentages never increase down the list. */
  function ResultsList(s: AppState): (rows: seq<ListEntry>)
    ensures |rows| == |s.detections|
    ensures forall i :: 0 <= i < |rows| ==>
      && rows[i].labelText == ListedDetections(s)[i].labelText
      && rows[i].percent == JsMath.Percent(ListedDetections(s)[i].confidence)
    ensures forall i, j :: 0 <= i < j < |rows| ==> rows[i].percent >= rows[j].percent
  {
    var listed := ListedDetections(s);
    forall i, j | 0 <= i < j < |listed|
      ensures JsMath.Percent(listed[i].confidence) >= JsMath.Percent(listed[j].confidence)
    {
      JsMath.PercentMonotone(listed[j].confidence, listed[i].confidence);
    }
    seq(|listed|, i requires 0 <= i < |listed| => ListEntry(listed[i].labelText, JsMath.Percent(listed[i].confidence)))
  }
}
