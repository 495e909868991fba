# Barcode scanner: the scan-to-lookup controller

A Dafny model of the controller inside the `BarcodeScannerScreen` component of a
React Native barcode/QR scanner app. The screen accepts a decoded code from the
camera. It reads an item id out of it with `parseInt(data, 10)` and asks a remote
item service for that id. It then shows the item, a "no data" alert or a failure
alert. The "Tap to Scan Again" button re-opens scanning, and the alert can be
dismissed.

The model follows the component as written:

- The state is the component's state slots, each set on its own: `scanned`,
  `scannedId`, `ItemDetails`, `loading`, `error`, `showModal` and
  `modalMessage`.
- A payload without a number leaves scanning paused behind the
  "Invalid QR code scanned" alert.
- A negative id (`"-5"`) is accepted, because `parseInt` accepts it.
- A JSON answer that is not an array counts as "no data", not as a failure.
- "Tap to Scan Again" clears only `scanned`, `ItemDetails`, `scannedId` and
  `error`. It does not clear the alert or `loading`.
- The button is rendered only while `scanned` is true, so a press on a screen
  that is scanning changes nothing.
- Nothing stops the button from being pressed while a lookup is in flight.
  That lookup's late answer then still writes `ItemDetails` into a screen that
  is scanning again. `ScanCycle.LateAnswerAfterScanAgain` and
  `BarcodeScanner.LateAnswerAfterReset` exhibit it.
- If a second code is scanned before the first lookup's answer arrives, the
  two lookups overlap. The first answer puts the first item beside the second
  id, and it lowers `loading` while the second lookup is still in flight
  (`ScanCycle.OverlappingLookups`). So `loading` spans one lookup only when
  lookups do not overlap.
- An answer whose first element is JSON `null` stores `null` in `ItemDetails`,
  which is the same as holding no item.
- The alert texts are the component's own: "Invalid QR code scanned",
  "No data found for the scanned ID", and
  "Failed to fetch item details. " followed by the error's message.

Modules:

- `Wrappers` (wrappers.dfy): `Option`, for the slots that hold a value or `null`.
- `JsNumber` (js_number.dfy): `parseInt(string, 10)` as ECMA-262 section 19.2.5
  defines it. The steps are: skip white space, take an optional sign, take the
  longest run of decimal digits, and give NaN (`None`) when there are none. The
  module also holds the decimal text JavaScript gives an integer (ECMA-262
  section 6.1.6.1.20, Number::toString). It proves that parseInt reads that text
  back, and it characterises exactly when parseInt gives NaN.
- `LookupRequest` (lookup_request.dfy): the lookup URL and a reader of query
  strings. The reader is used to state what the URL carries.
- `LookupResponse` (lookup_response.dfy): a fetch outcome is an abstract value.
  It is either an answer (status, body text, body decoded as JSON or malformed)
  or a failed request. The module also sorts an outcome into found, no data or
  failed.
- `ScanCycle` (scan_cycle.dfy): the slots as a value and what each handler leaves
  in them. It also holds runs of events, and the lemmas about single steps and
  about runs.
- `BarcodeScanner` (scanner_screen.dfy): the class `ScannerScreen`, whose fields
  are the slots. Each handler is a method that updates them in the component's
  order, and each method's postcondition ties the new slots to the step function
  in `ScanCycle`. The lookup is split into `BeginFetch` (up to the awaited
  `fetch`) and `CompleteFetch` (once the outcome is known), so other events can
  happen in between. The module ends with client methods that drive the class
  through the situations named in their documentation.

## Model

| member | source | states |
|---|---|---|
| `JsNumber.ParseInt` | app/scanner.jsx:39 | `parseInt(data, 10)`; its behaviour is stated by `ParseIntReads` (the value of every white space, sign, digits and non-digit rest split) and `ParseIntNaN` (exactly when it is NaN) |
| `JsNumber.WhiteSpacePrefixLength` | app/scanner.jsx:39 | the longest run of StrWhiteSpaceChar at the start: every character before it is white space and the character after it (if any) is not |
| `JsNumber.TrimStart` | app/scanner.jsx:39 | parseInt's first step: the result is a suffix of the input, everything removed is white space, and the result does not start with white space |
| `JsNumber.DigitPrefixLength` | app/scanner.jsx:39 | the longest run of radix-10 digits at the start: every character before it is a digit and the character after it (if any) is not |
| `JsNumber.NumberToString` | app/scanner.jsx:53 | the text `${id}` gives an integer id: a minus sign first exactly when the id is negative, then only decimal digits, at least one, with no leading zero except for the id 0 (so it holds no `&` or `=`) |
| `JsNumber.DecimalValue` | app/scanner.jsx:53 | the decimal text of a natural number reads back as that number |
| `JsNumber.ParseIntReads` | app/scanner.jsx:39 | parseInt against a reference decomposition: white space, an optional sign, a non-empty digit run and a rest not starting with a digit give `Some` of the signed digit value |
| `JsNumber.ParseIntOfNumberToString` | app/scanner.jsx:39 | round trip: parseInt of (white space + the JavaScript text of `i` + non-digit rest) is `Some(i)`, for every integer `i` |
| `JsNumber.ParseIntNaN` | app/scanner.jsx:39-40 | parseInt gives NaN (`None`) if and only if no digit follows the leading white space and optional sign |
| `LookupRequest.LookupUrl` | app/scanner.jsx:53 | the lookup URL for an id; what it carries is stated by `LookupUrlParams` and `LookupUrlCarriesId` |
| `LookupRequest.UrlTemplate` | app/scanner.jsx:53 | the template literal with the id's text put in; what it carries is stated by `TemplateParamsRead` |
| `LookupRequest.TemplateParamsRead` | app/scanner.jsx:53 | reading the query string of the URL template gives back exactly the seven name/value pairs, in order, for any id text without `&` or `=` |
| `LookupRequest.LookupUrlParams` | app/scanner.jsx:53 | the lookup URL for `id` carries `APIKEY=TESTKEYITM`, `UID=API`, `UPW=ba1234`, the id in `P1` and `P2`, and empty `P3` and `P4`, in this order |
| `LookupRequest.LookupUrlCarriesId` | app/scanner.jsx:44-53 | the values of `P1` and `P2` in the lookup URL read back through parseInt as the id the URL was built for |
| `LookupRequest.SplitJoin` | app/scanner.jsx:53 | the query reader's splitting undoes joining when no piece holds the separator |
| `LookupResponse.Classify` | app/scanner.jsx:56-75 | how an outcome is sorted into found, no data or failed; stated by `ClassifyCases` and `StatusInMessage` |
| `LookupResponse.ClassifyCases` | app/scanner.jsx:56-68 | a lookup finds an item iff the status is ok and the JSON is a non-empty array, and then the item is its first element. It is "no data" iff the status is ok and the JSON is an empty array or not an array. It fails iff the request failed, the status is not ok, or the body is not JSON. A failed request fails with its own reason, and a body that is not JSON with the parse error's reason |
| `LookupResponse.StatusInMessage` | app/scanner.jsx:56-58 | a non-ok status fails with `Error: <status> <text>` whatever the body, and parseInt reads the status back from the message |
| `ScanCycle.ScanStep` | app/scanner.jsx:33-46 | `handleBarCodeScanned`; its new slots are stated by `ScanPausesAndClears`, `InvalidPayload` and `ValidPayload` |
| `ScanCycle.BeginStep` | app/scanner.jsx:48-50 | the start of `fetchItemDetails`; stated within `ValidPayload` and `LoadingSpansLookup` |
| `ScanCycle.CompleteStep` | app/scanner.jsx:56-76 | the rest of `fetchItemDetails`; stated by `CompleteFound`, `CompleteNoData`, `CompleteFailed` and `LoadingSpansLookup` |
| `ScanCycle.ScanAgainStep` | app/scanner.jsx:129-134 | the button's handler; stated by `ScanAgainResets` |
| `ScanCycle.PressScanAgain` | app/scanner.jsx:127-135 | the button, rendered only while `scanned` is true; stated by `NoScanAgainWhileOpen` and `ScanAgainResets` |
| `ScanCycle.DismissStep` | app/scanner.jsx:143-150 | closing the alert; stated by `DismissHidesAlert` |
| `ScanCycle.Deliver` | app/scanner.jsx:89 | the gated scan callback; stated by `GateDropsScans`, `ScanOfId` and `StepSends` |
| `ScanCycle.Nullable` | app/scanner.jsx:64 | a JSON value stored in a slot: the slot is null exactly when the value is JSON `null`, and otherwise holds the value |
| `ScanCycle.NoScanAgainWhileOpen` | app/scanner.jsx:127 | a press of Scan Again on a screen that is scanning changes no slot, because the button is not rendered then |
| `ScanCycle.GateDropsScans` | app/scanner.jsx:89 | while `scanned` is true a detected code changes no slot and sends no request |
| `ScanCycle.ScanPausesAndClears` | app/scanner.jsx:33-37 | an accepted scan sets `scanned` and clears `ItemDetails` and `error`. When the payload has a number, the alert is kept |
| `ScanCycle.InvalidPayload` | app/scanner.jsx:39-43 | a payload with no leading integer sets `scanned`, nulls `scannedId`, `ItemDetails` and `error`, raises the "Invalid QR code scanned" alert, keeps `loading`, and sends no request |
| `ScanCycle.ValidPayload` | app/scanner.jsx:44-53 | a payload that parses to `id` sets `scannedId` to `id`, raises `loading`, keeps the alert, and sends exactly the one lookup URL for `id` |
| `ScanCycle.ScanOfId` | app/scanner.jsx:33-53 | an open screen handed the decimal text of an id pauses scanning, holds that id, raises `loading`, and sends the lookup URL of that id |
| `ScanCycle.CompleteFound` | app/scanner.jsx:63-64 | an ok non-empty array answer stores its first element (`null` for a JSON `null`), raises no alert, and lowers `loading` |
| `ScanCycle.CompleteNoData` | app/scanner.jsx:65-68 | an ok answer that is an empty array or not an array raises the "No data found for the scanned ID" alert, leaves `ItemDetails` null and lowers `loading` |
| `ScanCycle.CompleteFailed` | app/scanner.jsx:69-75 | the whole new state after any failure: `error` is "Failed to fetch item details.", the alert shows "Failed to fetch item details. " + the error's message, `loading` is false, and every other slot is kept. The message is the failed request's reason, `Error: <status> <text>` for a non-ok status, or the JSON parse error's reason |
| `ScanCycle.LoadingSpansLookup` | app/scanner.jsx:49-75 | `loading` is true once a lookup starts and false after its outcome, whatever the outcome (a per-step fact: with overlapping lookups the first answer lowers it, see `OverlappingLookups`) |
| `ScanCycle.ScanAgainResets` | app/scanner.jsx:129-134 | Scan Again sets `scanned` false, nulls `ItemDetails`, `scannedId` and `error`, and keeps `loading`, `showModal` and `modalMessage`. Applying it twice equals applying it once |
| `ScanCycle.DismissHidesAlert` | app/scanner.jsx:143-150 | dismissing the alert sets only `showModal` to false, and is idempotent |
| `ScanCycle.InitialConsistent` | app/scanner.jsx:12-19 | the screen as first rendered meets the slot invariant `Consistent` |
| `ScanCycle.RunConsistent` | app/scanner.jsx:28-76 | after any run of events: an id is held only while scanning is paused, `error` is null or the fixed text, and the alert shows only one of its three kinds of message |
| `ScanCycle.StepSends` | app/scanner.jsx:89 | one event other than Scan Again sends nothing to a paused screen and keeps its id; to an open screen it sends at most the lookup of the id it then holds, and sending pauses scanning |
| `ScanCycle.OneLookupPerScan` | app/scanner.jsx:89 | between two presses of Scan Again at most one request is sent, none once scanning is paused, and any request sent is the lookup of the id the screen ends up holding |
| `ScanCycle.RescanThenAnswer` | app/scanner.jsx:33-134 | from a paused screen, Scan Again, a scan of `a2` and an answer holding items leave the id of `a2`, the answer's first item, no error and `loading` false, and send only the lookup of `a2` |
| `ScanCycle.OverlappingLookups` | app/scanner.jsx:33-134 | scan `a1`, Scan Again, scan `a2`, then the answer to `a1`: both lookups are sent, and the screen holds the id of `a2` beside the first item of `a1`'s answer with `loading` already false |
| `ScanCycle.LateAnswerAfterScanAgain` | app/scanner.jsx:127-134 | scan, Scan Again, then the answer: one request is sent, and the answer still fills `ItemDetails` of a screen with `scanned` false and no id |
| `BarcodeScanner.ScannerScreen.constructor` | app/scanner.jsx:12-19 | the slots start as `scanned` false, all values null, `loading` false, no alert and an empty message |
| `BarcodeScanner.ScannerScreen.ShowCustomAlert` | app/scanner.jsx:28-31 | sets the message and shows the alert, nothing else |
| `BarcodeScanner.ScannerScreen.OnBarcodeScanned` | app/scanner.jsx:89 | the gated callback: the slots become `Deliver` of the old slots, and a request is sent only when scanning was open and the payload has a number |
| `BarcodeScanner.ScannerScreen.Scan` | app/scanner.jsx:33-46 | the slots become `ScanStep` of the old slots, and the request is the lookup URL of the parsed id (none for NaN) |
| `BarcodeScanner.ScannerScreen.BeginFetch` | app/scanner.jsx:48-55 | raises `loading`, clears `error`, and sends exactly one request, the lookup URL for the id |
| `BarcodeScanner.ScannerScreen.CompleteFetch` | app/scanner.jsx:56-76 | the slots become `CompleteStep` of the old slots and the outcome, settling one pending lookup |
| `BarcodeScanner.ScannerScreen.ScanAgain` | app/scanner.jsx:129-134 | the slots become `ScanAgainStep` of the old slots |
| `BarcodeScanner.ScannerScreen.OnScanAgainPressed` | app/scanner.jsx:127-135 | a press of the button: the slots become `PressScanAgain` of the old slots, so only a paused screen is reset |
| `BarcodeScanner.ScannerScreen.DismissAlert` | app/scanner.jsx:143-150 | the slots become `DismissStep` of the old slots |
| `BarcodeScanner.SecondScanWhileLoading` | app/scanner.jsx:89 | a code scanned while the first lookup is in flight is dropped: only the first id's URL is sent, and the applied answer belongs to it |
| `BarcodeScanner.InvalidScanPauses` | app/scanner.jsx:33-43 | a payload with no number leaves `scanned` true and the invalid-code alert showing, and sends nothing |
| `BarcodeScanner.LateAnswerAfterReset` | app/scanner.jsx:127-134 | Scan Again during a lookup, then the answer: `scanned` false and no id, but `ItemDetails` holds the late item and `loading` is false |
| `BarcodeScanner.ServerErrorAlerts` | app/scanner.jsx:56-72 | a non-ok status leaves `error` set, the alert "Failed to fetch item details. Error: <status> <text>", scanning paused and `loading` false |

## Left out

- Camera permission: the `hasPermission` slot, the permission request (app/scanner.jsx:21-26) and the early renders it gates (app/scanner.jsx:78-83). This is platform I/O. The model assumes the camera view is shown.
- The network itself. `fetch`, `response.text()` and `response.json()` become one abstract `FetchOutcome` value. Transport errors and JSON syntax errors appear only as their messages. `response.text()` failing for a non-ok answer is not modelled.
- The awaits after `fetch` resolves (reading the body) are folded into the single `CompleteFetch` step. Events arriving between `fetch` resolving and the body being read are not interleaved separately.
- `console.log` and `console.error` (app/scanner.jsx:54, 61, 70): logging only.
- All rendering, the thumbnail display and the styles (app/scanner.jsx:85-126, 139-281): cosmetic.
- The scan event's symbology `type`: the handler ignores it.
- app/index.jsx is not part of this model: it is a splash screen that navigates to the scanner after a 3-second timer.
- React's batching of state updates and re-rendering: each handler's updates are applied in order, and handlers run one at a time. The gate at app/scanner.jsx:89 and the button at app/scanner.jsx:127 are modelled as seeing the new `scanned` at once. In the component the old scan callback stays installed until React re-renders, and camera frames that arrive in that window reach `handleBarCodeScanned` again. `GateDropsScans`, `StepSends`, `OneLookupPerScan` and `SecondScanWhileLoading` hold only under this assumption.
- Floating point. `parseInt` results and ids are mathematical integers. Precision loss on digit runs longer than about 15 digits is not modelled. Neither is the exponent notation JavaScript uses for numbers of 10^21 and above. `-0` reads as 0, which matches its text "0" in the URL. JSON numbers are integers.
- `JsNumber.ParseInt`: its white space is the StrWhiteSpaceChar set of ECMA-262 as a fixed list of code points. Code points that a future Unicode version adds to category Zs are not included.
