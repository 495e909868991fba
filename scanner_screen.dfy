/**
  * The scanner screen's controller as the component runs it: the state
  * slots are fields, each handler is a method that sets them one after
  * another, and each method is specified by the matching step of module
  * ScanCycle.  Handlers run one at a time, each to completion; a lookup is
  * split into the part before its request is awaited (BeginFetch) and the
  * part after the answer arrives (CompleteFetch), so other events can come
  * in between.
  */
module BarcodeScanner {
  import opened Wrappers
  import opened JsNumber
  import opened LookupRequest
  import opened LookupResponse
  import opened ScanCycle

  class ScannerScreen {
    var scanned: bool
    var scannedId: Option<int>
    var itemDetails: Option<Json>
    var loading: bool
    var error: Option<string>
    var showModal: bool
    var modalMessage: string

    /** Lookups sent whose answer has not been handled yet. */
    ghost var pending: nat

    /** The slots as one value. */
    function Snapshot(): Screen
      reads this
    {
      Screen(scanned, scannedId, itemDetails, loading, error, showModal, modalMessage)
    }

    constructor ()
      ensures Snapshot() == Initial && pending == 0
    {
      scanned := false;
      scannedId := None;
      itemDetails := None;
      loading := false;
      error := None;
      showModal := false;
      modalMessage := "";
      pending := 0;
    }

    /** `showCustomAlert`. */
    method ShowCustomAlert(message: string)
      modifies this
      ensures Snapshot() == ShowAlert(old(Snapshot()), message)
      ensures pending == old(pending)
    {
      modalMessage := message;
      showModal := true;
    }

    /** The camera's barcode callback: installed only while `scanned` is
        false, so a code detected while scanning is paused is dropped. */
    method OnBarcodeScanned(payload: string) returns (request: Option<string>)
      modifies this
      ensures Snapshot() == Deliver(old(Snapshot()), payload)
      ensures request == DeliverRequest(old(Snapshot()), payload)
      ensures pending == old(pending) + |request.ToSeq()|
    {
      if scanned {
        request := None;
      } else {
        request := Scan(payload);
      }
    }

    /** `handleBarCodeScanned`; returns the URL it fetches, if any. */
    method Scan(payload: string) returns (request: Option<string>)
      modifies this
      ensures Snapshot() == ScanStep(old(Snapshot()), payload)
      ensures request == ScanRequest(payload)
      ensures pending == old(pending) + |request.ToSeq()|
    {
      scanned := true;
      scannedId := None;
      itemDetails := None;
      error := None;
      ghost var cleared := Snapshot();
      assert cleared == old(Snapshot()).(scanned := true, scannedId := None, itemDetails := None, error := None);
      var id := ParseInt(payload);
      if id.None? {
        ShowCustomAlert(InvalidCodeMessage);
        assert Snapshot() == ShowAlert(cleared, InvalidCodeMessage);
        return None;
      }
      scannedId := id;
      var url := BeginFetch(id.value);
      assert Snapshot() == BeginStep(cleared.(scannedId := id));
      request := Some(url);
    }

    /** `fetchItemDetails` up to the awaited `fetch`: raise `loading`,
        clear the error and send the request for `id`. */
    method BeginFetch(id: int) returns (url: string)
      modifies this
      ensures Snapshot() == BeginStep(old(Snapshot()))
      ensures url == LookupUrl(id)
      ensures pending == old(pending) + 1
    {
      loading := true;
      error := None;
      url := LookupUrl(id);
      pending := pending + 1;
    }

    /** The rest of `fetchItemDetails` once `fetch` has an outcome: the
        `try` body, the `catch` clause and the `finally` clause. */
    method CompleteFetch(outcome: FetchOutcome)
      requires pending > 0
      modifies this
      ensures Snapshot() == CompleteStep(old(Snapshot()), outcome)
      ensures pending == old(pending) - 1
    {
      match Classify(outcome) {
        case Found(item) =>
          itemDetails := Nullable(item);
        case NoData =>
          ShowCustomAlert(NoDataMessage);
          itemDetails := None;
        case Failed(message) =>
          error := Some(FetchErrorText);
          ShowCustomAlert(FetchAlertPrefix + message);
      }
      loading := false;
      pending := pending - 1;
    }

    /** The "Tap to Scan Again" button, shown whenever `scanned` is true. */
    method ScanAgain()
      modifies this
      ensures Snapshot() == ScanAgainStep(old(Snapshot()))
      ensures pending == old(pending)
    {
      scanned := false;
      itemDetails := None;
      scannedId := None;
      error := None;
    }

    /** A press of the "Tap to Scan Again" button, which is rendered only
        while `scanned` is true. */
    method OnScanAgainPressed()
      modifies this
      ensures Snapshot() == PressScanAgain(old(Snapshot()))
      ensures pending == old(pending)
    {
      if scanned {
        ScanAgain();
      }
    }

    /** The alert's OK button and the system's back action. */
    method DismissAlert()
      modifies this
      ensures Snapshot() == DismissStep(old(Snapshot()))
      ensures pending == old(pending)
    {
      showModal := false;
    }
  }

  /** A code scanned while its predecessor's lookup is in flight is
      dropped: one request is sent, and the answer that is applied is the
      answer to it. */
  method SecondScanWhileLoading(first: int, second: int, item: Json)
    returns (requests: seq<string>, id: Option<int>, details: Option<Json>)
    ensures requests == [LookupUrl(first)]
    ensures id == Some(first) && details == Nullable(item)
  {
    var screen := new ScannerScreen();
    ScanOfId(Initial, first);
    var r1 := screen.OnBarcodeScanned(NumberToString(first));
    var loaded := Initial.(scanned := true, scannedId := Some(first), loading := true);
    assert screen.Snapshot() == loaded && r1 == Some(LookupUrl(first));
    GateDropsScans(loaded, NumberToString(second));
    var r2 := screen.OnBarcodeScanned(NumberToString(second));
    assert screen.Snapshot() == loaded && r2 == None;
    var answer := Responded(200, "", Parsed(JArray([item])));
    assert HoldsItems(answer);
    CompleteFound(loaded, answer);
    screen.CompleteFetch(answer);
    requests := r1.ToSeq() + r2.ToSeq();
    id, details := screen.scannedId, screen.itemDetails;
  }

  /** A payload with no number leaves scanning paused behind the
      invalid-code alert and sends nothing. */
  method InvalidScanPauses(payload: string)
    returns (scanned: bool, request: Option<string>, showModal: bool, message: string)
    requires NoLeadingInteger(payload)
    ensures scanned && request == None && showModal && message == InvalidCodeMessage
  {
    var screen := new ScannerScreen();
    InvalidPayload(Initial, payload);
    request := screen.OnBarcodeScanned(payload);
    scanned, showModal, message := screen.scanned, screen.showModal, screen.modalMessage;
  }

  /** Scan Again pressed while a lookup is in flight: the late answer still
      writes the item into a screen that is scanning again. */
  method LateAnswerAfterReset(id: int, item: Json)
    returns (scanned: bool, scannedId: Option<int>, details: Option<Json>, loading: bool)
    ensures !scanned && scannedId == None && details == Nullable(item) && !loading
  {
    var screen := new ScannerScreen();
    ScanOfId(Initial, id);
    var request := screen.OnBarcodeScanned(NumberToString(id));
    var reopened := Initial.(loading := true);
    screen.OnScanAgainPressed();
    assert screen.Snapshot() == reopened;
    var answer := Responded(200, "", Parsed(JArray([item])));
    assert HoldsItems(answer);
    CompleteFound(reopened, answer);
    screen.CompleteFetch(answer);
    scanned, scannedId, details, loading := screen.scanned, screen.scannedId, screen.itemDetails, screen.loading;
  }

  /** A failed lookup leaves the error text, an alert naming the status,
      and scanning paused until Scan Again is pressed. */
  method ServerErrorAlerts(id: int, status: int, text: string)
    returns (scanned: bool, error: Option<string>, message: string, loading: bool)
    requires !IsOk(status)
    ensures scanned && error == Some(FetchErrorText) && !loading
    ensures message == FetchAlertPrefix + StatusError(status, text)
  {
    var screen := new ScannerScreen();
    ScanOfId(Initial, id);
    var request := screen.OnBarcodeScanned(NumberToString(id));
    var loaded := Initial.(scanned := true, scannedId := Some(id), loading := true);
    assert screen.Snapshot() == loaded;
    var answer := Responded(status, text, Malformed(""));
    CompleteFailed(loaded, answer);
    screen.CompleteFetch(answer);
    scanned, error, message, loading := screen.scanned, screen.error, screen.modalMessage, screen.loading;
  }
}
