/** The recordings screen's `_fetchRecordings`: guard clauses on the camera and its
    parent device, the recordings URL built from the device IP and the camera name, and
    the date folders of the directory listing turned into the keys of the
    recordings-by-date map; plus the script guard that decides whether the damaged method
    is replaced at all. */
module Recordings {
  import opened Text
  import opened DartInt

  // The recordings URL.

  const Scheme: string := "http://"
  const RecPath: string := ":8080/Rec/"

  /** `'http://$deviceIp:8080/Rec/${camera.name}/'`. */
  function RecordingsUrl(deviceIp: string, cameraName: string): (url: string)
    ensures |url| == |Scheme| + |deviceIp| + |RecPath| + |cameraName| + 1
    ensures url[..7] == Scheme && url[|url| - 1] == '/'
    ensures url[7..7 + |deviceIp|] == deviceIp
    ensures url[7 + |deviceIp|..7 + |deviceIp| + 10] == RecPath
    ensures url[7 + |deviceIp| + 10..|url| - 1] == cameraName
  {
    Scheme + deviceIp + RecPath + cameraName + "/"
  }

  /** For one device, different cameras get different URLs; and for one camera name,
      different device IPs give different URLs. */
  lemma UrlIdentifiesCamera(ip: string, a: string, b: string)
    ensures RecordingsUrl(ip, a) == RecordingsUrl(ip, b) <==> a == b
  {
    var ua := RecordingsUrl(ip, a);
    var ub := RecordingsUrl(ip, b);
    if ua == ub {
      assert a == ua[7 + |ip| + 10..|ua| - 1];
    }
  }

  lemma UrlIdentifiesDevice(ip1: string, ip2: string, name: string)
    ensures RecordingsUrl(ip1, name) == RecordingsUrl(ip2, name) <==> ip1 == ip2
  {
    var u1 := RecordingsUrl(ip1, name);
    if u1 == RecordingsUrl(ip2, name) {
      assert |ip1| == |ip2|;
      assert ip1 == u1[7..7 + |ip1|];
    }
  }

  // Date folders.

  /** A recording day, kept as the plain triple handed to `DateTime(year, month, day)`. */
  datatype DateKey = DateKey(year: int, month: int, day: int)

  /** What one matched folder name contributes: nothing when it does not split into
      three parts at '_', a day when all three parse, or the first part `int.parse`
      rejects (which throws). */
  datatype MatchOutcome = Skipped | Date(key: DateKey) | Invalid(part: string)

  function ClassifyMatch(dateStr: string): (o: MatchOutcome)
    ensures o.Date? ==> |Split(dateStr, '_')| == 3
    ensures o.Skipped? <==> |Split(dateStr, '_')| != 3
  {
    var parts := Split(dateStr, '_');
    if |parts| != 3 then Skipped
    else
      match (TryParse(parts[0]), TryParse(parts[1]), TryParse(parts[2]))
      case (None, _, _) => Invalid(parts[0])
      case (Some(_), None, _) => Invalid(parts[1])
      case (Some(_), Some(_), None) => Invalid(parts[2])
      case (Some(y), Some(m), Some(d)) => Date(DateKey(y, m, d))
  }

  /** Why a fetch failed; `Describe` gives the text Dart's `'$e'` shows for it. */
  datatype FetchError =
    | NoParentDevice
    | NoDeviceIp
    | HttpStatus(code: int)
    | BadNumber(source: string)
    | RequestFailed(description: string)

  function Describe(e: FetchError): string
  {
    match e
    case NoParentDevice => "Exception: Could not find parent device for this camera"
    case NoDeviceIp => "Exception: Device IP is not available"
    case HttpStatus(code) => "Exception: Failed to load recordings: " + IntToDecimal(code)
    case BadNumber(source) => "FormatException: " + source
    case RequestFailed(description) => description
  }

  /** What each match contributes, in order. */
  function Classify(matches: seq<string>): (os: seq<MatchOutcome>)
    ensures |os| == |matches| && forall i :: 0 <= i < |matches| ==> os[i] == ClassifyMatch(matches[i])
  {
    seq(|matches|, i requires 0 <= i < |matches| => ClassifyMatch(matches[i]))
  }

  /** The map the extraction loop builds from the outcomes in order, each day with an
      empty list, or the error of the first part that does not parse. */
  function DatesFrom(os: seq<MatchOutcome>): (r: Result<map<DateKey, seq<string>>, FetchError>)
    ensures r.Ok? ==> forall k :: k in r.value ==> r.value[k] == []
  {
    if os == [] then Ok(map[])
    else
      match DatesFrom(os[..|os| - 1])
      case Err(e) => Err(e)
      case Ok(m) =>
        match os[|os| - 1]
        case Skipped => Ok(m)
        case Date(k) => Ok(m[k := []])
        case Invalid(p) => Err(BadNumber(p))
  }

  /** The extraction fails exactly when some part does not parse. */
  lemma {:induction false} DatesFromFails(os: seq<MatchOutcome>)
    ensures DatesFrom(os).Ok? <==> forall i :: 0 <= i < |os| ==> !os[i].Invalid?
    decreases |os|
  {
    if os != [] {
      var init := os[..|os| - 1];
      DatesFromFails(init);
      assert forall i :: 0 <= i < |init| ==> init[i] == os[i];
    }
  }

  /** A successful extraction has exactly the days of the matches as keys. */
  lemma DatesFromKeys(os: seq<MatchOutcome>)
    requires DatesFrom(os).Ok?
    ensures forall k :: k in DatesFrom(os).value <==> Date(k) in os
  {
    forall k | k in DatesFrom(os).value ensures Date(k) in os {
      KeysComeFromMatches(os, k);
    }
    forall k | Date(k) in os ensures k in DatesFrom(os).value {
      MatchesBecomeKeys(os, k);
    }
  }

  lemma {:induction false} KeysComeFromMatches(os: seq<MatchOutcome>, k: DateKey)
    requires DatesFrom(os).Ok? && k in DatesFrom(os).value
    ensures Date(k) in os
    decreases |os|
  {
    var init := os[..|os| - 1];
    assert os == init + [os[|os| - 1]];
    if os[|os| - 1] != Date(k) {
      KeysComeFromMatches(init, k);
    }
  }

  lemma {:induction false} MatchesBecomeKeys(os: seq<MatchOutcome>, k: DateKey)
    requires DatesFrom(os).Ok? && Date(k) in os
    ensures k in DatesFrom(os).value
    decreases |os|
  {
    var init := os[..|os| - 1];
    assert os == init + [os[|os| - 1]];
    if os[|os| - 1] != Date(k) {
      MatchesBecomeKeys(init, k);
    }
  }

  /** A failed extraction reports the first part that does not parse. */
  lemma {:induction false} DatesFromFirstError(os: seq<MatchOutcome>)
    requires DatesFrom(os).Err?
    ensures exists i :: (0 <= i < |os| && os[i].Invalid? && DatesFrom(os).error == BadNumber(os[i].part)
                         && (forall j :: 0 <= j < i ==> !os[j].Invalid?))
    decreases |os|
  {
    var init := os[..|os| - 1];
    assert forall j :: 0 <= j < |init| ==> init[j] == os[j];
    if DatesFrom(init).Err? {
      DatesFromFirstError(init);
      var i :| 0 <= i < |init| && init[i].Invalid? && DatesFrom(init).error == BadNumber(init[i].part)
        && (forall j :: 0 <= j < i ==> !init[j].Invalid?);
      assert os[i] == init[i];
    } else {
      DatesFromFails(init);
      assert os[|os| - 1].Invalid?;
    }
  }

  /** The extraction loop over the matches, filling `newRecordings`; a part that
      `int.parse` rejects throws out of the loop. */
  method ExtractDates(matches: seq<string>) returns (r: Result<map<DateKey, seq<string>>, FetchError>)
    ensures r == DatesFrom(Classify(matches))
  {
    var newRecordings: map<DateKey, seq<string>> := map[];
    ghost var os := Classify(matches);
    var i := 0;
    while i < |matches|
      invariant 0 <= i <= |matches|
      invariant DatesFrom(os[..i]) == Ok(newRecordings)
    {
      assert os[..i + 1][..i] == os[..i];
      match ClassifyMatch(matches[i]) {
        case Skipped =>
        case Date(k) =>
          newRecordings := newRecordings[k := []];
        case Invalid(p) =>
          DatesFromStopsAtError(os, i + 1);
          return Err(BadNumber(p));
      }
      i := i + 1;
    }
    assert os[..i] == os;
    r := Ok(newRecordings);
  }

  /** Once a prefix fails, the whole sequence fails with the same error. */
  lemma {:induction false} DatesFromStopsAtError(os: seq<MatchOutcome>, n: nat)
    requires n <= |os| && DatesFrom(os[..n]).Err?
    ensures DatesFrom(os) == DatesFrom(os[..n])
    decreases |os| - n
  {
    if n < |os| {
      assert os[..n + 1][..n] == os[..n];
      DatesFromStopsAtError(os, n + 1);
    } else {
      assert os[..n] == os;
    }
  }

  /** A folder listed twice gives the same map as listing it once. */
  lemma DuplicateMatchCollapses(matches: seq<string>, i: nat)
    requires i < |matches|
    ensures DatesFrom(Classify(matches + [matches[i]])) == DatesFrom(Classify(matches))
  {
    var os := Classify(matches);
    assert Classify(matches + [matches[i]]) == os + [os[i]];
    DuplicateOutcomeCollapses(os, i);
  }

  lemma DuplicateOutcomeCollapses(os: seq<MatchOutcome>, i: nat)
    requires i < |os|
    ensures DatesFrom(os + [os[i]]) == DatesFrom(os)
  {
    var ext := os + [os[i]];
    assert ext[..|ext| - 1] == os;
    var r := DatesFrom(os);
    if r.Ok? {
      DatesFromFails(os);
      DatesFromKeys(os);
      if os[i].Date? {
        var k := os[i].key;
        assert k in r.value;
        assert r.value[k := []] == r.value;
      }
    }
  }

  /** The decimal digits of `n`, with leading zeros up to `width` characters. */
  function Padded(n: nat, width: nat): (s: string)
    ensures AllDigits(s) && |s| >= 1
  {
    var ds := NatToDecimal(n);
    if |ds| >= width then ds else Zeros(width - |ds|) + ds
  }

  function Zeros(k: nat): (z: string)
    ensures |z| == k && AllDigits(z)
  {
    if k == 0 then [] else "0" + Zeros(k - 1)
  }

  /** Leading zeros do not change the value of a run of digits. */
  lemma {:induction false} LeadingZeros(k: nat, ds: string)
    requires AllDigits(ds)
    ensures DigitsValue(Zeros(k) + ds) == DigitsValue(ds)
    decreases k
  {
    if k > 0 {
      var rest := Zeros(k - 1) + ds;
      LeadingZeros(k - 1, ds);
      LeadingZero(rest);
      ZerosStep(k, ds);
    } else {
      assert Zeros(k) + ds == ds;
    }
  }

  lemma ZerosStep(k: nat, ds: string)
    requires k > 0
    ensures Zeros(k) + ds == "0" + (Zeros(k - 1) + ds)
  {
    assert Zeros(k) == "0" + Zeros(k - 1);
  }

  lemma {:induction false} LeadingZero(ds: string)
    requires AllDigits(ds)
    ensures DigitsValue("0" + ds) == DigitsValue(ds)
    decreases |ds|
  {
    if ds != [] {
      var z := "0" + ds;
      assert z[..|z| - 1] == "0" + ds[..|ds| - 1];
      LeadingZero(ds[..|ds| - 1]);
    }
  }

  /** A padded number parses back to itself. */
  lemma ParsePadded(n: nat, width: nat)
    requires n <= Int64Max
    ensures TryParse(Padded(n, width)) == Some(n)
  {
    var ds := NatToDecimal(n);
    var s := Padded(n, width);
    DigitsValueOfDecimal(n);
    if |ds| < width {
      LeadingZeros(width - |ds|, ds);
    }
    assert DigitsValue(s) == n;
    ParseDigits(s);
  }

  /** The name of the folder that holds the recordings of a day: `YYYY_MM_DD`. */
  function FolderName(k: DateKey): string
    requires 0 <= k.year <= Int64Max && 0 <= k.month <= Int64Max && 0 <= k.day <= Int64Max
  {
    Join([Padded(k.year, 4), Padded(k.month, 2), Padded(k.day, 2)], '_')
  }

  /** Every day's folder name is read back as that day. */
  lemma FolderNameRoundTrip(k: DateKey)
    requires 0 <= k.year <= Int64Max && 0 <= k.month <= Int64Max && 0 <= k.day <= Int64Max
    ensures ClassifyMatch(FolderName(k)) == Date(k)
  {
    var parts := [Padded(k.year, 4), Padded(k.month, 2), Padded(k.day, 2)];
    forall p | p in parts ensures '_' !in p {
      assert AllDigits(p);
    }
    SplitJoin(parts, '_');
    ParsePadded(k.year, 4);
    ParsePadded(k.month, 2);
    ParsePadded(k.day, 2);
  }

  // The fetch.

  /** The parent device as far as the fetch uses it. */
  datatype Device = Device(ipv4: string)

  /** What the HTTP request gave: a status code with the date-folder matches of its body
      (the regular expression is applied outside this model), or a thrown error. */
  datatype HttpOutcome = Responded(statusCode: int, matches: seq<string>) | Failed(error: string)

  /** The fetch after the camera check: the new map, or the error that was caught. */
  function FetchOutcome(parentDevice: Option<Device>, cameraName: string, response: HttpOutcome)
    : (r: Result<map<DateKey, seq<string>>, FetchError>)
    ensures r.Ok? <==>
      && parentDevice.Some? && parentDevice.value.ipv4 != []
      && response.Responded? && response.statusCode == 200 && DatesFrom(Classify(response.matches)).Ok?
    ensures r.Ok? ==> r == DatesFrom(Classify(response.matches))
    ensures parentDevice.None? ==> r == Err(NoParentDevice)
    ensures parentDevice.Some? && parentDevice.value.ipv4 == [] ==> r == Err(NoDeviceIp)
    ensures (parentDevice.Some? && parentDevice.value.ipv4 != [] && response.Responded?
             && response.statusCode != 200) ==> r == Err(HttpStatus(response.statusCode))
  {
    match parentDevice
    case None => Err(NoParentDevice)
    case Some(device) =>
      if device.ipv4 == [] then Err(NoDeviceIp)
      else
        match response
        case Failed(e) => Err(RequestFailed(e))
        case Responded(code, ms) =>
          if code == 200 then DatesFrom(Classify(ms)) else Err(HttpStatus(code))
  }

  /** The recordings screen's state that `_fetchRecordings` writes. */
  class RecordViewState {
    /** The camera's name, when a camera is selected. */
    var camera: Option<string>
    var availableRecordings: seq<string>
    var recordingsByDate: map<DateKey, seq<string>>
    var isLoadingDates: bool
    var loadingError: string
    var recordingsUrl: Option<string>
    /** How many times `_updateRecordingsForSelectedDay` was called. */
    var selectedDayUpdates: nat

    constructor(camera: Option<string>)
      ensures this.camera == camera && availableRecordings == [] && recordingsByDate == map[]
      ensures !isLoadingDates && loadingError == "" && recordingsUrl == None && selectedDayUpdates == 0
    {
      this.camera := camera;
      availableRecordings := [];
      recordingsByDate := map[];
      isLoadingDates := false;
      loadingError := "";
      recordingsUrl := None;
      selectedDayUpdates := 0;
    }

    /** `_fetchRecordings`, given what `getDeviceForCamera` returns and what the request
        gives. Without a camera the recordings are emptied and nothing is fetched.
        Otherwise loading ends either with the map replaced wholesale by the folder days
        and no error, or with the old map kept and the error recorded; the URL is set
        whenever the device has an IP. */
    method FetchRecordings(parentDevice: Option<Device>, response: HttpOutcome)
      modifies this
      ensures camera == old(camera)
      ensures old(camera).None? ==>
        && availableRecordings == [] && recordingsByDate == map[]
        && isLoadingDates == old(isLoadingDates) && loadingError == old(loadingError)
        && recordingsUrl == old(recordingsUrl) && selectedDayUpdates == old(selectedDayUpdates)
      ensures old(camera).Some? ==>
        var outcome := FetchOutcome(parentDevice, old(camera).value, response);
        && availableRecordings == old(availableRecordings)
        && !isLoadingDates
        && recordingsUrl == (if parentDevice.Some? && parentDevice.value.ipv4 != []
                             then Some(RecordingsUrl(parentDevice.value.ipv4, old(camera).value))
                             else old(recordingsUrl))
        && (outcome.Ok? ==>
              recordingsByDate == outcome.value && loadingError == ""
              && selectedDayUpdates == old(selectedDayUpdates) + 1)
        && (outcome.Err? ==>
              recordingsByDate == old(recordingsByDate)
              && loadingError == "Failed to load recordings: " + Describe(outcome.error)
              && selectedDayUpdates == old(selectedDayUpdates))
    {
      if camera.None? {
        availableRecordings := [];
        recordingsByDate := map[];
        return;
      }
      LoadDates(camera.value, parentDevice, response);
    }

    /** The body of `_fetchRecordings` once a camera is selected. */
    method LoadDates(name: string, parentDevice: Option<Device>, response: HttpOutcome)
      modifies this
      ensures camera == old(camera) && availableRecordings == old(availableRecordings)
      ensures !isLoadingDates
      ensures recordingsUrl == (if parentDevice.Some? && parentDevice.value.ipv4 != []
                                then Some(RecordingsUrl(parentDevice.value.ipv4, name))
                                else old(recordingsUrl))
      ensures var outcome := FetchOutcome(parentDevice, name, response);
        && (outcome.Ok? ==>
              recordingsByDate == outcome.value && loadingError == ""
              && selectedDayUpdates == old(selectedDayUpdates) + 1)
        && (outcome.Err? ==>
              recordingsByDate == old(recordingsByDate)
              && loadingError == "Failed to load recordings: " + Describe(outcome.error)
              && selectedDayUpdates == old(selectedDayUpdates))
    {
      ghost var outcome := FetchOutcome(parentDevice, name, response);
      isLoadingDates := true;
      loadingError := "";
      var failure: Option<FetchError> := None;
      if parentDevice.None? {
        failure := Some(NoParentDevice);
      } else if parentDevice.value.ipv4 == [] {
        failure := Some(NoDeviceIp);
      } else {
        recordingsUrl := Some(RecordingsUrl(parentDevice.value.ipv4, name));
        match response {
          case Failed(e) =>
            failure := Some(RequestFailed(e));
            assert outcome == Err(failure.value);
          case Responded(code, ms) =>
            if code == 200 {
              var dates := ExtractDates(ms);
              match dates {
                case Err(e) =>
                  failure := Some(e);
                  assert outcome == Err(failure.value);
                case Ok(newRecordings) =>
                  assert outcome == Ok(newRecordings);
                  recordingsByDate := newRecordings;
                  isLoadingDates := false;
                  selectedDayUpdates := selectedDayUpdates + 1;
              }
            } else {
              failure := Some(HttpStatus(code));
              assert outcome == Err(failure.value);
            }
        }
      }
      if failure.Some? {
        isLoadingDates := false;
        loadingError := "Failed to load recordings: " + Describe(failure.value);
      }
    }
  }

  // The script guard.

  /** The text that marks the damaged method. */
  const DamagedMarker: string :=
    "  // Fetch available recording dates for the selected camera\n      // Construct the recordings"
  /** The start of the method that follows it. */
  const NextMethod: string := "  void _update"

  /** The script's rewrite: when the marker is present and a following `_update…`
      method is found after it, everything from the marker up to that method is replaced
      by `repaired`; otherwise the file is left untouched (None). */
  function RepairFetch(content: string, repaired: string): (r: Option<string>)
    ensures r.Some? <==>
      Contains(content, DamagedMarker) && Find(content, NextMethod, Find(content, DamagedMarker, 0)) != -1
  {
    var damagedStart := Find(content, DamagedMarker, 0);
    if damagedStart == -1 then None
    else
      var nextMethodStart := Find(content, NextMethod, damagedStart);
      if nextMethodStart == -1 then None
      else Some(content[..damagedStart] + repaired + content[nextMethodStart..])
  }

  /** A rewrite keeps the text before the marker, which has no marker in it, and the
      text from the next method on verbatim. */
  lemma RepairShape(content: string, repaired: string)
    ensures RepairFetch(content, repaired).Some? ==>
      var d := Find(content, DamagedMarker, 0);
      var n := Find(content, NextMethod, d);
      var r := RepairFetch(content, repaired).value;
      && d <= n
      && r == content[..d] + repaired + content[n..]
      && !Contains(content[..d], DamagedMarker)
      && content[n..][..|NextMethod|] == NextMethod
  {
    var d := Find(content, DamagedMarker, 0);
    if d != -1 {
      NothingBeforeFirst(content, DamagedMarker);
      var n := Find(content, NextMethod, d);
      if n != -1 {
        assert RepairFetch(content, repaired) == Some(content[..d] + repaired + content[n..]);
        assert content[n..][..|NextMethod|] == content[n..n + |NextMethod|];
      }
    }
  }
}
