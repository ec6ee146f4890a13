/** The ping tracker: one pad per URL, lit in `Colors[1]` while the URL answers with a success
    status and in `Colors[0]` otherwise. `Size` holds the index of the colour to show. The
    profile items it mutates are modelled as values the methods return. */
module PingTrackers {
  import opened Primitives
  import opened Profiles
  import opened Devices

  // ---------------------------------------------------------------------------------------
  // Init

  /** Init rejects an item whose URL is null or empty. */
  predicate HasKey(item: ProfileItem)
  {
    item.statKey.Some? && item.statKey.value != ""
  }

  /** Colours padded to two entries, the first being 0 (off); Size reset to 0. */
  function Normalised(item: ProfileItem): (r: ProfileItem)
    ensures |r.colors| >= 2 && r.size == 0
    ensures |item.colors| == 0 ==> r.colors == [0, 3]
    ensures |item.colors| == 1 ==> r.colors == [0, item.colors[0]]
    ensures |item.colors| >= 2 ==> r.colors == item.colors
    ensures r == item.(colors := r.colors, size := 0)
  {
    var colors := if |item.colors| == 0 then [0, 3] else if |item.colors| == 1 then [0, item.colors[0]] else item.colors;
    item.(colors := colors, size := 0)
  }

  /** An item left at its defaults has no URL, so Init rejects it; given a URL, Init makes it
      a pad that is off in colour 0 and on in colour 3, first drawn at (0, 0) in colour 0. */
  lemma DefaultItemNeedsKey(url: string)
    requires url != ""
    ensures !HasKey(DefaultItem())
    ensures var item := Normalised(DefaultItem().(statKey := Some(url)));
      HasKey(item) && item.colors == [0, 3] && item.size == 0 && PadCall(item) == Pixel(0, 0, 0)
  {
  }

  /** The index of the first item without a key, or |items|. */
  function FirstKeyless(items: seq<ProfileItem>): (k: nat)
    ensures k <= |items|
    ensures forall j :: 0 <= j < k ==> HasKey(items[j])
    ensures k < |items| ==> !HasKey(items[k])
  {
    if items == [] then 0
    else if !HasKey(items[0]) then 0
    else
      var k := FirstKeyless(items[1..]);
      assert forall j :: 1 <= j < k + 1 ==> items[j] == items[1..][j - 1];
      k + 1
  }

  /** Init(controller, tracker): normalise the items in order; an item without a key throws,
      leaving the items before it normalised and the rest untouched. */
  method Init(items: seq<ProfileItem>) returns (result: seq<ProfileItem>, outcome: Outcome)
    ensures |result| == |items|
    ensures outcome == Done <==> forall j :: 0 <= j < |items| ==> HasKey(items[j])
    ensures outcome.Thrown? ==> outcome.fault == NullReference
    ensures forall j :: 0 <= j < |items| ==>
      result[j] == if j < FirstKeyless(items) then Normalised(items[j]) else items[j]
  {
    result := items;
    var i := 0;
    while i < |items|
      invariant 0 <= i <= |items| && i <= FirstKeyless(items)
      invariant |result| == |items|
      invariant forall j :: 0 <= j < |items| ==> result[j] == if j < i then Normalised(items[j]) else items[j]
    {
      var item := result[i];
      if item.statKey.None? || item.statKey.value == "" {
        return result, Thrown(NullReference);
      }
      if |item.colors| == 0 {
        item := item.(colors := [0, 3]);
      }
      if |item.colors| == 1 {
        item := item.(colors := [0, item.colors[0]]);
      }
      item := item.(size := 0);
      result := result[i := item];
      i := i + 1;
    }
    outcome := Done;
  }

  // ---------------------------------------------------------------------------------------
  // PingAsync

  /** What one GET request ended with. */
  datatype PingResult =
    | Response(success: bool)              // a response; its status code is a success or not
    | RequestFailed(socketCode: Option<int>) // HttpRequestException, with the inner SocketException's code if any
    | SocketFailed(code: int)              // a SocketException thrown directly
    | TimedOut                             // TaskCanceledException caused by the client's timeout
    | OtherFailure                         // any other exception GetAsync lets escape: another
                                           // TaskCanceledException, or the InvalidOperationException /
                                           // UriFormatException of a key that is not an absolute URI

  /** The socket error codes HandleSocketException swallows: timed out, refused, host down. */
  predicate Swallowed(code: int)
  {
    code == 10060 || code == 10061 || code == 10065
  }

  /** HandleSocketException: whether to rethrow, and the item afterwards. */
  function HandleSocketException(item: ProfileItem, code: int): (r: (bool, ProfileItem))
    ensures r.0 <==> !Swallowed(code)
    ensures r.1 == if Swallowed(code) then item.(size := 0) else item
  {
    match code
    case 10060 => (false, item.(size := 0))
    case 10061 => (false, item.(size := 0))
    case 10065 => (false, item.(size := 0))
    case _ => (true, item)
  }

  /** One item of PingAsync: the item afterwards, and whether the exception escapes. */
  function PingStep(item: ProfileItem, result: PingResult): (r: (ProfileItem, Outcome))
  {
    match result
    case Response(success) => (item.(size := if success then 1 else 0), Done)
    case RequestFailed(Some(code)) =>
      var (rethrow, item') := HandleSocketException(item, code);
      (item', if rethrow then Thrown(Rethrown) else Done)
    case RequestFailed(None) => (item.(size := 0), Thrown(Rethrown))
    case SocketFailed(code) =>
      var (rethrow, item') := HandleSocketException(item, code);
      (item', if rethrow then Thrown(Rethrown) else Done)
    case TimedOut => (item.(size := 0), Done)
    case OtherFailure => (item, Thrown(Rethrown))
  }

  /** The outcome classification PingAsync promises for one item. */
  lemma PingStepOutcomes(item: ProfileItem, result: PingResult)
    ensures result.Response? ==> PingStep(item, result).0.size == (if result.success then 1 else 0)
    ensures PingStep(item, result).1 == Done <==>
      result.Response? || result.TimedOut? ||
      (result.RequestFailed? && result.socketCode.Some? && Swallowed(result.socketCode.value)) ||
      (result.SocketFailed? && Swallowed(result.code))
    ensures PingStep(item, result).1 == Done ==> PingStep(item, result).0.size in {0, 1}
    ensures PingStep(item, result).0 == item.(size := PingStep(item, result).0.size)
    ensures PingStep(item, result).0.size != item.size ==> PingStep(item, result).0.size in {0, 1}
  {
  }

  /** The index of the first item whose request ends in an escaping exception, or |items|. */
  function FirstEscape(items: seq<ProfileItem>, results: seq<PingResult>): (k: nat)
    requires |results| == |items|
    ensures k <= |items|
    ensures forall j :: 0 <= j < k ==> PingStep(items[j], results[j]).1 == Done
    ensures k < |items| ==> PingStep(items[k], results[k]).1.Thrown?
  {
    if items == [] then 0
    else if PingStep(items[0], results[0]).1.Thrown? then 0
    else
      var k := FirstEscape(items[1..], results[1..]);
      assert forall j :: 1 <= j < k + 1 ==> items[j] == items[1..][j - 1] && results[j] == results[1..][j - 1];
      k + 1
  }

  /** PingAsync(tracker): request every item's URL in order and record the outcome in its Size.
      `results[j]` is what the request of item j ends with; the first escaping exception stops
      the loop and reaches the caller. */
  method PingAll(items: seq<ProfileItem>, results: seq<PingResult>) returns (result: seq<ProfileItem>, outcome: Outcome)
    requires |results| == |items|
    ensures |result| == |items|
    ensures outcome == Done <==> FirstEscape(items, results) == |items|
    ensures outcome.Thrown? ==> outcome.fault == Rethrown
    ensures forall j :: 0 <= j < |items| ==>
      result[j] == if j <= FirstEscape(items, results) then PingStep(items[j], results[j]).0 else items[j]
  {
    result := items;
    var i := 0;
    while i < |items|
      invariant 0 <= i <= |items| && i <= FirstEscape(items, results)
      invariant |result| == |items|
      invariant forall j :: 0 <= j < |items| ==> result[j] == if j < i then PingStep(items[j], results[j]).0 else items[j]
    {
      var step := PingStep(result[i], results[i]);
      result := result[i := step.0];
      if step.1.Thrown? {
        return result, step.1;
      }
      i := i + 1;
    }
    outcome := Done;
  }

  // ---------------------------------------------------------------------------------------
  // Display

  /** Whether `Colors[Size]` exists. */
  predicate ColorDefined(item: ProfileItem)
  {
    0 <= item.size < |item.colors|
  }

  function PadCall(item: ProfileItem): DrawCall
    requires ColorDefined(item)
  {
    Pixel(ToByte(item.posX), ToByte(item.posY), item.colors[item.size])
  }

  /** Display(device, tracker): one pad per item, in item order, in colour `Colors[Size]` at
      `((byte)PosX, (byte)PosY)`; an item whose Size does not index its colours throws. */
  method Display(items: seq<ProfileItem>) returns (r: Rendering)
    ensures r.fault.None? <==> forall j :: 0 <= j < |items| ==> ColorDefined(items[j])
    ensures |r.calls| <= |items|
    ensures r.fault.Some? ==> r.fault == Some(IndexOutOfRange) && |r.calls| < |items| && !ColorDefined(items[|r.calls|])
    ensures forall j :: 0 <= j < |r.calls| ==> ColorDefined(items[j]) && r.calls[j] == PadCall(items[j])
  {
    var calls: seq<DrawCall> := [];
    var i := 0;
    while i < |items|
      invariant 0 <= i <= |items| && |calls| == i
      invariant forall j :: 0 <= j < i ==> ColorDefined(items[j]) && calls[j] == PadCall(items[j])
    {
      var item := items[i];
      if !(0 <= item.size < |item.colors|) {
        return Rendering(calls, Some(IndexOutOfRange));
      }
      calls := calls + [Pixel(ToByte(item.posX), ToByte(item.posY), item.colors[item.size])];
      i := i + 1;
    }
    r := Rendering(calls, None);
  }

  /** A request never leaves Size outside the two colours Init provides, so Display keeps
      drawing every item after any run of requests. */
  lemma PingKeepsColorDefined(item: ProfileItem, result: PingResult)
    requires ColorDefined(item) && |item.colors| >= 2
    ensures ColorDefined(PingStep(item, result).0)
    ensures PingStep(item, result).0.colors == item.colors
  {
    PingStepOutcomes(item, result);
  }

  /** Init leaves every item with two colours and Size 0, so a Display straight after Init draws
      every item in colour 0 and after any pings every item still has a colour. */
  lemma InitMakesColorsDefined(item: ProfileItem, result: PingResult)
    ensures ColorDefined(Normalised(item)) && Normalised(item).colors[0] == (if |item.colors| >= 2 then item.colors[0] else 0)
    ensures ColorDefined(PingStep(Normalised(item), result).0)
  {
    PingStepOutcomes(Normalised(item), result);
  }
}
