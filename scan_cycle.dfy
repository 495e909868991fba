/**
  * The scan-to-lookup controller of the scanner screen as values: the
  * screen's state slots, what each handler leaves in them, and runs of
  * events.  The class in module BarcodeScanner updates the same slots in
  * place and is specified by these functions.
  *
  * Each slot is set on its own: a scan pauses scanning (`scanned`), a
  * lookup raises `loading`, its answer fills `itemDetails` or raises an
  * alert, and "Tap to Scan Again" re-opens scanning without waiting for a
  * lookup still in flight.
  */
module ScanCycle {
  import opened Wrappers
  import opened JsNumber
  import opened LookupRequest
  import opened LookupResponse

  /** The screen's state slots (camera permission is not modelled). */
  datatype Screen = Screen(
    scanned: bool,
    scannedId: Option<int>,
    itemDetails: Option<Json>,
    loading: bool,
    error: Option<string>,
    showModal: bool,
    modalMessage: string)

  /** The slots when the screen first renders. */
  const Initial: Screen := Screen(false, None, None, false, None, false, "")

  const InvalidCodeMessage: string := "Invalid QR code scanned"
  const NoDataMessage: string := "No data found for the scanned ID"
  const FetchErrorText: string := "Failed to fetch item details."
  const FetchAlertPrefix: string := "Failed to fetch item details. "

  /** `showCustomAlert(message)`. */
  function ShowAlert(s: Screen, message: string): Screen {
    s.(modalMessage := message, showModal := true)
  }

  /** The part of `fetchItemDetails` that runs before the request is
      awaited. */
  function BeginStep(s: Screen): Screen {
    s.(loading := true, error := None)
  }

  /** `handleBarCodeScanned`: pause scanning, clear the previous id, item
      and error, then either alert on a payload without a number or record
      the id and start its lookup. */
  function ScanStep(s: Screen, payload: string): Screen {
    var cleared := s.(scanned := true, scannedId := None, itemDetails := None, error := None);
    match ParseInt(payload)
    case None => ShowAlert(cleared, InvalidCodeMessage)
    case Some(id) => BeginStep(cleared.(scannedId := Some(id)))
  }

  /** The request a scan of `payload` sends, if any. */
  function ScanRequest(payload: string): Option<string> {
    match ParseInt(payload)
    case None => None
    case Some(id) => Some(LookupUrl(id))
  }

  /** A JSON value put into a slot that holds a value or `null`: JSON
      `null` is the slot's own null. */
  function Nullable(v: Json): (r: Option<Json>)
    ensures (r == None) == (v == JNull)
    ensures r.Some? ==> r.value == v
  {
    if v.JNull? then None else Some(v)
  }

  /** The rest of `fetchItemDetails`, once the lookup has an outcome; the
      `finally` clause lowers `loading` whatever the outcome. */
  function CompleteStep(s: Screen, outcome: FetchOutcome): Screen {
    var settled :=
      match Classify(outcome)
      case Found(item) => s.(itemDetails := Nullable(item))
      case NoData => ShowAlert(s, NoDataMessage).(itemDetails := None)
      case Failed(message) => ShowAlert(s.(error := Some(FetchErrorText)), FetchAlertPrefix + message);
    settled.(loading := false)
  }

  /** The "Tap to Scan Again" button. */
  function ScanAgainStep(s: Screen): Screen {
    s.(scanned := false, itemDetails := None, scannedId := None, error := None)
  }

  /** The "Tap to Scan Again" button is only rendered while `scanned` is
      true: pressing it is possible only while scanning is paused. */
  function PressScanAgain(s: Screen): Screen {
    if s.scanned then ScanAgainStep(s) else s
  }

  /** Closing the alert, by its OK button or by the system's back action. */
  function DismissStep(s: Screen): Screen {
    s.(showModal := false)
  }

  /** The camera's scan handler is only installed while `scanned` is
      false: a code detected while scanning is paused is dropped. */
  function Deliver(s: Screen, payload: string): Screen {
    if s.scanned then s else ScanStep(s, payload)
  }

  function DeliverRequest(s: Screen, payload: string): Option<string> {
    if s.scanned then None else ScanRequest(payload)
  }

  /** What can happen to the screen. */
  datatype Event =
    | Detect(payload: string)
    | Complete(outcome: FetchOutcome)
    | TapScanAgain
    | Dismiss

  function Apply(s: Screen, e: Event): Screen {
    match e
    case Detect(payload) => Deliver(s, payload)
    case Complete(outcome) => CompleteStep(s, outcome)
    case TapScanAgain => PressScanAgain(s)
    case Dismiss => DismissStep(s)
  }

  /** The request an event sends, if any. */
  function Sent(s: Screen, e: Event): Option<string> {
    if e.Detect? then DeliverRequest(s, e.payload) else None
  }

  function SentList(s: Screen, e: Event): seq<string> {
    Sent(s, e).ToSeq()
  }

  /** The screen after a run of events. */
  function Run(s: Screen, events: seq<Event>): Screen
    decreases |events|
  {
    if events == [] then s else Run(Apply(s, events[0]), events[1..])
  }

  /** The requests a run of events sends, in order. */
  function Requests(s: Screen, events: seq<Event>): seq<string>
    decreases |events|
  {
    if events == [] then []
    else SentList(s, events[0]) + Requests(Apply(s, events[0]), events[1..])
  }

  /** A message the screen's alert can show. */
  predicate IsAlertMessage(m: string) {
    m == InvalidCodeMessage || m == NoDataMessage ||
    FetchAlertPrefix <= m
  }

  /** What holds of the slots in every reachable screen. */
  predicate Consistent(s: Screen) {
    (s.scannedId.Some? ==> s.scanned) &&
    (s.error.Some? ==> s.error == Some(FetchErrorText)) &&
    (s.modalMessage == "" || IsAlertMessage(s.modalMessage)) &&
    (s.showModal ==> IsAlertMessage(s.modalMessage))
  }

  // ----- single steps -----

  /** While scanning is paused a detected code changes no slot and sends
      no request. */
  lemma GateDropsScans(s: Screen, payload: string)
    requires s.scanned
    ensures Deliver(s, payload) == s
    ensures DeliverRequest(s, payload) == None
  {
  }

  /** A delivered scan always pauses scanning and clears the item and the
      error, and keeps the alert unless the payload has no number. */
  lemma ScanPausesAndClears(s: Screen, payload: string)
    ensures ScanStep(s, payload).scanned
    ensures ScanStep(s, payload).itemDetails == None
    ensures ScanStep(s, payload).error == None
    ensures ParseInt(payload).Some? ==>
      ScanStep(s, payload).showModal == s.showModal &&
      ScanStep(s, payload).modalMessage == s.modalMessage
  {
  }

  /** A payload in which parseInt finds no number raises the invalid-code
      alert, leaves no id, sends no request, and leaves scanning paused
      and `loading` as it was. */
  lemma InvalidPayload(s: Screen, payload: string)
    requires NoLeadingInteger(payload)
    ensures ScanStep(s, payload) ==
      s.(scanned := true, scannedId := None, itemDetails := None, error := None,
         showModal := true, modalMessage := InvalidCodeMessage)
    ensures ScanRequest(payload) == None
  {
    ParseIntNaN(payload);
  }

  /** A payload with a number records it as the id, raises `loading` and
      sends exactly one request, for that id. */
  lemma ValidPayload(s: Screen, payload: string, id: int)
    requires ParseInt(payload) == Some(id)
    ensures ScanStep(s, payload) ==
      s.(scanned := true, scannedId := Some(id), itemDetails := None, error := None,
         loading := true)
    ensures ScanRequest(payload) == Some(LookupUrl(id))
    ensures QueryParams(LookupUrl(id)) == LookupParams(id)
  {
    LookupUrlParams(id);
  }

  /** An open screen handed the text of an id looks that id up. */
  lemma ScanOfId(s: Screen, id: int)
    requires !s.scanned
    ensures Deliver(s, NumberToString(id)) ==
      s.(scanned := true, scannedId := Some(id), itemDetails := None, error := None,
         loading := true)
    ensures DeliverRequest(s, NumberToString(id)) == Some(LookupUrl(id))
  {
    ParseIntOfText(id);
    ValidPayload(s, NumberToString(id), id);
  }

  /** A non-empty array answer stores its first element and raises no
      alert; every outcome lowers `loading`. */
  lemma CompleteFound(s: Screen, outcome: FetchOutcome)
    requires HoldsItems(outcome)
    ensures CompleteStep(s, outcome) ==
      s.(itemDetails := Nullable(outcome.body.value.items[0]), loading := false)
  {
    ClassifyCases(outcome);
  }

  /** An empty array or a JSON value that is not an array raises the
      no-data alert and leaves no item. */
  lemma CompleteNoData(s: Screen, outcome: FetchOutcome)
    requires HoldsNoItems(outcome)
    ensures CompleteStep(s, outcome) ==
      s.(itemDetails := None, loading := false, showModal := true, modalMessage := NoDataMessage)
  {
    ClassifyCases(outcome);
  }

  /** A failed request, a non-ok status or a body that is not JSON sets the
      error text, raises an alert with the failure's message and lowers
      `loading`; every other slot is kept. */
  lemma CompleteFailed(s: Screen, outcome: FetchOutcome)
    requires outcome.NetworkFailure? || !IsOk(outcome.status) || outcome.body.Malformed?
    ensures CompleteStep(s, outcome) ==
      s.(error := Some(FetchErrorText), showModal := true,
         modalMessage := FetchAlertPrefix + Classify(outcome).message, loading := false)
    ensures outcome.NetworkFailure? ==>
      CompleteStep(s, outcome).modalMessage == FetchAlertPrefix + outcome.reason
    ensures outcome.Responded? && !IsOk(outcome.status) ==>
      CompleteStep(s, outcome).modalMessage ==
        FetchAlertPrefix + StatusError(outcome.status, outcome.text)
    ensures outcome.Responded? && IsOk(outcome.status) && outcome.body.Malformed? ==>
      CompleteStep(s, outcome).modalMessage == FetchAlertPrefix + outcome.body.reason
  {
    ClassifyCases(outcome);
  }

  /** `loading` goes up when a lookup starts and down after its answer,
      whatever the answer is. */
  lemma LoadingSpansLookup(s: Screen, payload: string, outcome: FetchOutcome)
    requires ParseInt(payload).Some?
    ensures ScanStep(s, payload).loading
    ensures !CompleteStep(ScanStep(s, payload), outcome).loading
    ensures !CompleteStep(s, outcome).loading
  {
  }

  /** Scan Again re-opens scanning and clears the id, the item and the
      error; the alert and `loading` stay as they were, and pressing it
      twice is pressing it once. */
  lemma ScanAgainResets(s: Screen)
    ensures ScanAgainStep(s) ==
      Screen(false, None, None, s.loading, None, s.showModal, s.modalMessage)
    ensures ScanAgainStep(ScanAgainStep(s)) == ScanAgainStep(s)
  {
  }

  /** On a screen that is scanning there is no Scan Again button, so
      nothing a press would clear can be cleared. */
  lemma NoScanAgainWhileOpen(s: Screen)
    requires !s.scanned
    ensures PressScanAgain(s) == s
  {
  }

  /** Closing the alert hides it and changes nothing else. */
  lemma DismissHidesAlert(s: Screen)
    ensures DismissStep(s) ==
      Screen(s.scanned, s.scannedId, s.itemDetails, s.loading, s.error, false, s.modalMessage)
    ensures DismissStep(DismissStep(s)) == DismissStep(s)
  {
  }

  // ----- runs of events -----

  lemma FailureAlert(message: string)
    ensures IsAlertMessage(FetchAlertPrefix + message)
  {
    assert (FetchAlertPrefix + message)[..|FetchAlertPrefix|] == FetchAlertPrefix;
  }

  lemma CompleteConsistent(s: Screen, outcome: FetchOutcome)
    requires Consistent(s)
    ensures Consistent(CompleteStep(s, outcome))
  {
    match Classify(outcome)
    case Found(_) =>
    case NoData =>
    case Failed(message) => FailureAlert(message);
  }

  lemma ApplyConsistent(s: Screen, e: Event)
    requires Consistent(s)
    ensures Consistent(Apply(s, e))
  {
    if e.Complete? {
      CompleteConsistent(s, e.outcome);
    }
  }

  /** Every run of events from a consistent screen ends in a consistent
      one: an id is only held while scanning is paused, the error is always
      the fixed text, and the alert only ever shows one of its messages. */
  /** The screen as first rendered is consistent. */
  lemma InitialConsistent()
    ensures Consistent(Initial)
  {
  }

  lemma {:induction false} RunConsistent(s: Screen, events: seq<Event>)
    requires Consistent(s)
    ensures Consistent(Run(s, events))
    decreases |events|
  {
    if events != [] {
      ApplyConsistent(s, events[0]);
      RunConsistent(Apply(s, events[0]), events[1..]);
    }
  }

  /** One event other than Scan Again: a paused screen sends nothing and
      keeps its id; an open one sends at most the lookup of the id it
      then holds, and a request pauses it. */
  lemma StepSends(s: Screen, e: Event)
    requires e != TapScanAgain
    ensures |SentList(s, e)| <= (if s.scanned then 0 else 1)
    ensures s.scanned ==> Apply(s, e).scannedId == s.scannedId
    ensures SentList(s, e) != [] ==>
      Apply(s, e).scanned && Apply(s, e).scannedId.Some? &&
      SentList(s, e) == [LookupUrl(Apply(s, e).scannedId.value)]
  {
    if !s.scanned && e.Detect? {
      match ParseInt(e.payload)
      case None =>
      case Some(id) =>
        assert Sent(s, e) == Some(LookupUrl(id));
        assert Apply(s, e).scannedId == Some(id);
    }
  }

  /** Between two presses of Scan Again at most one request is sent, none
      at all once scanning is paused, and a request sent is the lookup of
      the id the screen holds at the end. */
  lemma {:induction false} OneLookupPerScan(s: Screen, events: seq<Event>)
    requires TapScanAgain !in events
    ensures |Requests(s, events)| <= (if s.scanned then 0 else 1)
    ensures s.scanned ==> Run(s, events).scannedId == s.scannedId
    ensures Requests(s, events) != [] ==>
      Run(s, events).scannedId.Some? &&
      Requests(s, events) == [LookupUrl(Run(s, events).scannedId.value)]
    decreases |events|
  {
    if events != [] {
      var e, t := events[0], Apply(s, events[0]);
      assert TapScanAgain !in events[1..];
      StepSends(s, e);
      OneLookupPerScan(t, events[1..]);
      assert Requests(s, events) == SentList(s, e) + Requests(t, events[1..]);
      assert Run(s, events) == Run(t, events[1..]);
    }
  }

  /** A run unfolds into its first event and the rest. */
  lemma RunCons(s: Screen, events: seq<Event>)
    requires events != []
    ensures Run(s, events) == Run(Apply(s, events[0]), events[1..])
    ensures Requests(s, events) == SentList(s, events[0]) + Requests(Apply(s, events[0]), events[1..])
  {
  }

  lemma RunOne(s: Screen, e: Event)
    ensures Run(s, [e]) == Apply(s, e)
    ensures Requests(s, [e]) == SentList(s, e)
  {
    assert [e][1..] == [];
    assert SentList(s, e) + [] == SentList(s, e);
  }

  lemma RunTwo(s: Screen, a: Event, b: Event)
    ensures Run(s, [a, b]) == Apply(Apply(s, a), b)
    ensures Requests(s, [a, b]) == SentList(s, a) + SentList(Apply(s, a), b)
  {
    assert [a, b][1..] == [b];
    RunOne(Apply(s, a), b);
  }

  /** Scan Again does not wait for the lookup in flight: its late answer
      still fills the item slot of a screen that is scanning again. */
  lemma LateAnswerAfterScanAgain(payload: string, id: int, item: Json)
    requires ParseInt(payload) == Some(id)
    ensures var events := [Detect(payload), TapScanAgain, Complete(Responded(200, "", Parsed(JArray([item]))))];
      var s := Run(Initial, events);
      !s.scanned && s.scannedId == None && s.itemDetails == Nullable(item) &&
      Requests(Initial, events) == [LookupUrl(id)]
  {
    var answer := Responded(200, "", Parsed(JArray([item])));
    var events := [Detect(payload), TapScanAgain, Complete(answer)];
    ValidPayload(Initial, payload, id);
    var s1 := Apply(Initial, Detect(payload));
    assert s1 == Initial.(scanned := true, scannedId := Some(id), loading := true);
    var s2 := ScanAgainStep(s1);
    assert HoldsItems(answer);
    CompleteFound(s2, answer);
    assert events[1..] == [TapScanAgain, Complete(answer)];
    RunTwo(s1, TapScanAgain, Complete(answer));
    assert Run(Initial, events) == Run(s1, events[1..]);
    assert Requests(s1, events[1..]) == [];
    assert SentList(Initial, events[0]) == [LookupUrl(id)];
  }

  /** Scan Again on a paused screen, a scan of `a2`, then an answer that
      holds items: the screen holds the id of `a2` and the answer's first
      item, `loading` is lowered, and only the lookup of `a2` is sent. */
  lemma RescanThenAnswer(s: Screen, a2: string, id2: int, answer: FetchOutcome)
    requires s.scanned && ParseInt(a2) == Some(id2) && HoldsItems(answer)
    ensures Run(s, [TapScanAgain, Detect(a2), Complete(answer)]) ==
      s.(scannedId := Some(id2), itemDetails := Nullable(answer.body.value.items[0]),
         error := None, loading := false)
    ensures Requests(s, [TapScanAgain, Detect(a2), Complete(answer)]) == [LookupUrl(id2)]
  {
    var events := [TapScanAgain, Detect(a2), Complete(answer)];
    var s2 := ScanAgainStep(s);
    ValidPayload(s2, a2, id2);
    var s3 := s2.(scanned := true, scannedId := Some(id2), itemDetails := None, error := None, loading := true);
    CompleteFound(s3, answer);
    RunTwo(s2, Detect(a2), Complete(answer));
    assert events[1..] == [Detect(a2), Complete(answer)];
    RunCons(s, events);
  }

  /** Overlapping lookups: scan `a1`, press Scan Again, scan `a2`, then the
      answer to `a1` arrives.  Two requests have been sent, and the screen
      holds the id of `a2` beside the item found for `a1`, with `loading`
      already lowered while the lookup of `a2` is still in flight. */
  lemma OverlappingLookups(a1: string, id1: int, a2: string, id2: int, item: Json)
    requires ParseInt(a1) == Some(id1) && ParseInt(a2) == Some(id2)
    ensures var answer := Responded(200, "", Parsed(JArray([item])));
      var events := [Detect(a1), TapScanAgain, Detect(a2), Complete(answer)];
      var s := Run(Initial, events);
      s.scanned && s.scannedId == Some(id2) && s.itemDetails == Nullable(item) && !s.loading &&
      Requests(Initial, events) == [LookupUrl(id1), LookupUrl(id2)]
  {
    var answer := Responded(200, "", Parsed(JArray([item])));
    var events := [Detect(a1), TapScanAgain, Detect(a2), Complete(answer)];
    ValidPayload(Initial, a1, id1);
    var s1 := Initial.(scanned := true, scannedId := Some(id1), loading := true);
    assert HoldsItems(answer);
    RescanThenAnswer(s1, a2, id2, answer);
    assert events[1..] == [TapScanAgain, Detect(a2), Complete(answer)];
    RunCons(Initial, events);
  }
}
