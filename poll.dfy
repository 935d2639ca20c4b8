/**
 * What the browser client does with a poll response: the decision taken on the last
 * parsed event (show a value, retry while the job runs, or fail), the text and button
 * state that decision leads to, and the click guard that refuses to send without an image.
 */
module Poll {
  import opened Wrappers
  import opened Json
  import opened Sse

  /**
   * Why a poll fails: the response held no JSON event, the job reported a status other than
   * the known ones, or `String` threw on the value to be shown.
   */
  datatype Failure = NoEvents | BadStatus(status: Json) | Unprintable(value: Json)

  /** The outcome of one poll. */
  datatype Action =
    | Show(text: string)      // display this text and re-enable the button
    | Retry(status: string)   // display the progress text and poll again
    | Fail(failure: Failure)  // display the failure text and re-enable the button

  const Complete: string := "COMPLETE"
  const Processing: string := "PROCESSING"
  const Queued: string := "QUEUED"

  /** `data?.status`. */
  function Status(data: Json): Option<Json> {
    Prop(Some(data), "status")
  }

  /** `v && Array.isArray(v) && v[0]`, with every falsy outcome written None. */
  function ArrayFirst(v: Option<Json>): (r: Option<Json>)
    ensures r.Some? ==> v.Some? && v.value.Array? && v.value.items != [] && r.value == v.value.items[0]
    ensures v.Some? && v.value.Array? && v.value.items != [] ==> r == Some(v.value.items[0])
  {
    if v.Some? && v.value.Array? then Index0(v) else None
  }

  /** The three places a completed job's output is looked for, in the order the client tries them. */
  function OutputCandidates(data: Json): seq<Option<Json>> {
    var output := Prop(Some(data), "output");
    [ArrayFirst(output), Index0(Prop(output, "data")), ArrayFirst(Prop(Some(data), "data"))]
  }

  /** `c0 || c1 || ... || null`: the first truthy candidate, or None when every one is falsy. */
  function FirstTruthy(cs: seq<Option<Json>>): (r: Option<Json>)
    ensures r.Some? <==> exists k :: 0 <= k < |cs| && Truthy(cs[k])
    ensures r.Some? ==> Truthy(r) && exists k :: 0 <= k < |cs| && cs[k] == r && forall m :: 0 <= m < k ==> !Truthy(cs[m])
  {
    if |cs| == 0 then None
    else if Truthy(cs[0]) then cs[0]
    else
      var rest := FirstTruthy(cs[1..]);
      assert forall k :: 1 <= k < |cs| ==> cs[k] == cs[1..][k - 1];
      if rest.Some? then
        var k :| 0 <= k < |cs[1..]| && cs[1..][k] == rest && forall m :: 0 <= m < k ==> !Truthy(cs[1..][m]);
        assert cs[k + 1] == rest && forall m :: 0 <= m < k + 1 ==> !Truthy(cs[m]);
        rest
      else rest
  }

  /** The output of a completed job, as the client finds it. */
  function CompleteOutput(data: Json): Option<Json> {
    FirstTruthy(OutputCandidates(data))
  }

  /** Showing `String(v)`: the text when the conversion returns, a failure when it throws. */
  function ShowString(rt: Runtime, v: Json): (r: Action)
    ensures r.Show? <==> Printable(v)
    ensures r.Show? ==> Some(r.text) == ToJsString(rt, v)
    ensures r.Fail? ==> r.failure == Unprintable(v)
  {
    match ToJsString(rt, v)
    case Some(t) => Show(t)
    case None => Fail(Unprintable(v))
  }

  /** The decision taken on the data of the last event. */
  function DecideOn(rt: Runtime, data: Json): (r: Action)
    ensures data.Array? && data.items == [] ==> r == Show("undefined")
    ensures data.Array? && data.items != [] ==> r == ShowString(rt, data.items[0])
    ensures r != Fail(NoEvents)
    ensures r.Retry? <==> !data.Array? && Status(data) in {Some(Str(Processing)), Some(Str(Queued))}
    ensures r.Retry? ==> Status(data) == Some(Str(r.status))
    ensures r.Fail? && r.failure.BadStatus? <==>
      !data.Array? && Truthy(Status(data)) && Status(data) !in {Some(Str(Complete)), Some(Str(Processing)), Some(Str(Queued))}
    ensures r.Fail? && r.failure.BadStatus? ==> r.failure.status == Status(data).value
    ensures !data.Array? && Status(data) == Some(Str(Complete)) ==>
      r == if CompleteOutput(data).Some? then ShowString(rt, CompleteOutput(data).value) else Show(rt.stringify(data))
    ensures !data.Array? && !Truthy(Status(data)) ==> r == Show(rt.stringify(data))
  {
    if data.Array? then
      if |data.items| == 0 then Show("undefined") else ShowString(rt, data.items[0])
    else
      var status := Status(data);
      if Truthy(status) then
        if status == Some(Str(Complete)) then
          var out := CompleteOutput(data);
          if out.Some? then ShowString(rt, out.value) else Show(rt.stringify(data))
        else if status == Some(Str(Processing)) || status == Some(Str(Queued)) then
          Retry(status.value.s)
        else Fail(BadStatus(status.value))
      else Show(rt.stringify(data))
  }

  /** The decision taken on the events of one poll response. */
  function Decide(rt: Runtime, events: seq<Event>): (r: Action)
    ensures r == Fail(NoEvents) <==> events == []
    ensures events != [] ==> r == DecideOn(rt, events[|events| - 1].data)
  {
    if |events| == 0 then Fail(NoEvents) else DecideOn(rt, events[|events| - 1].data)
  }

  /** The decision on a whole response text. */
  function PollResponse(rt: Runtime, text: string): Action {
    Decide(rt, ParsedEvents(rt, text))
  }

  /** What the page shows after a poll, whether the button is enabled again, and whether it polls again. */
  datatype Screen = Screen(resultText: string, buttonEnabled: bool, pollsAgain: bool)

  const PollFailedText: string := "Prediction failed while polling. See console."

  function Render(a: Action): (s: Screen)
    ensures s.pollsAgain <==> a.Retry?
    ensures s.buttonEnabled <==> !a.Retry?
    ensures a.Show? ==> s.resultText == a.text
    ensures a.Fail? ==> s.resultText == PollFailedText
  {
    match a
    case Show(t) => Screen(t, true, false)
    case Retry(st) => Screen("Predicting... (Status: " + st + ")", false, true)
    case Fail(_) => Screen(PollFailedText, true, false)
  }

  // ---------------------------------------------------------------------------
  // Properties of the decision

  /** Only the last event counts: whatever came before it is ignored. */
  lemma DecideUsesLastOnly(rt: Runtime, earlier: seq<Event>, last: Event)
    ensures Decide(rt, earlier + [last]) == Decide(rt, [last])
  {
    assert (earlier + [last])[|earlier + [last]| - 1] == last;
  }

  /** A poll fails for want of events exactly when no block of the response yields one. */
  lemma PollNoEventsIff(rt: Runtime, text: string)
    ensures PollResponse(rt, text) == Fail(NoEvents) <==>
      forall k :: 0 <= k < |Blocks(text)| ==> BlockEvent(rt, Blocks(text)[k]).None?
  {
    var blocks := Blocks(text);
    FilterMapEmptyIff(EventOfBlock(rt), blocks);
    forall k | 0 <= k < |blocks| ensures EventOfBlock(rt)(blocks[k]) == BlockEvent(rt, blocks[k]) { }
  }

  /** A poll retries only on a string status PROCESSING or QUEUED, and then it shows that status. */
  lemma RetryOnlyWhileRunning(rt: Runtime, events: seq<Event>)
    requires Decide(rt, events).Retry?
    ensures events != [] && !events[|events| - 1].data.Array?
    ensures Decide(rt, events).status in {Processing, Queued}
    ensures Render(Decide(rt, events)).resultText == "Predicting... (Status: " + Decide(rt, events).status + ")"
  {
  }

  /**
   * Data without a status is shown, as JSON unless it is an array; it fails only when it is
   * an array whose first element `String` throws on.
   */
  lemma NoStatusIsShown(rt: Runtime, data: Json)
    requires !Truthy(Status(data))
    ensures DecideOn(rt, data).Show? <==> !(data.Array? && data.items != [] && !Printable(data.items[0]))
    ensures !data.Array? ==> DecideOn(rt, data).text == rt.stringify(data)
  {
  }

  /** A completed job whose output is an array with a truthy first element shows that element, or fails when `String` throws on it. */
  lemma CompleteShowsOutput(rt: Runtime, data: Json, items: seq<Json>)
    requires data.Object? && "status" in data.fields && data.fields["status"] == Str(Complete)
    requires "output" in data.fields && data.fields["output"] == Array(items)
    requires items != [] && Truthy(Some(items[0]))
    ensures DecideOn(rt, data) == ShowString(rt, items[0])
  {
    assert OutputCandidates(data)[0] == Some(items[0]);
  }

  /**
   * A completed job whose output is falsy everywhere (an output of 0 or "" included)
   * shows the whole data as JSON.
   */
  lemma CompleteWithoutOutputShowsJson(rt: Runtime, data: Json)
    requires !data.Array? && Status(data) == Some(Str(Complete))
    requires forall k :: 0 <= k < |OutputCandidates(data)| ==> !Truthy(OutputCandidates(data)[k])
    ensures DecideOn(rt, data) == Show(rt.stringify(data))
  {
  }

  /**
   * A value whose "toString" key is data cannot be shown: as the first element of an array,
   * or as a completed job's output, the poll fails with the polling-failure text.
   */
  lemma ToStringKeyFailsPoll(rt: Runtime, m: map<string, Json>, rest: seq<Json>)
    requires "toString" in m
    ensures DecideOn(rt, Array([Object(m)] + rest)) == Fail(Unprintable(Object(m)))
    ensures var data := Object(map["status" := Str(Complete), "output" := Array([Object(m)] + rest)]);
      DecideOn(rt, data) == Fail(Unprintable(Object(m)))
    ensures Render(Fail(Unprintable(Object(m)))) == Screen(PollFailedText, true, false)
  {
    var data := Object(map["status" := Str(Complete), "output" := Array([Object(m)] + rest)]);
    CompleteShowsOutput(rt, data, [Object(m)] + rest);
  }

  /** The button stays disabled exactly while the client keeps polling. */
  lemma ButtonReenabledUnlessRetrying(rt: Runtime, text: string)
    ensures Render(PollResponse(rt, text)).buttonEnabled != Render(PollResponse(rt, text)).pollsAgain
  {
  }

  // ---------------------------------------------------------------------------
  // The click guard

  /** What a click on the predict button does. */
  datatype Click = Alert(message: string) | Send(payload: Json)

  const NoImageText: string := "Please choose an image first!"

  /** `!imageDataUrl` guards the request; otherwise the body is `{ data: [imageDataUrl] }`. */
  function OnPredictClick(imageDataUrl: Option<string>): (c: Click)
    ensures c.Send? <==> imageDataUrl.Some? && imageDataUrl.value != ""
    ensures c.Alert? ==> c.message == NoImageText
    ensures c.Send? ==> c.payload == Object(map["data" := Array([Str(imageDataUrl.value)])])
  {
    if imageDataUrl.None? || imageDataUrl.value == "" then Alert(NoImageText)
    else Send(Object(map["data" := Array([Str(imageDataUrl.value)])]))
  }
}
