/**
 * The page-analysis worker of src/puppeteer/analyser.js, without the browser: the
 * DevTools events it records, the responses it captures (skipping `data:image` URLs
 * and keeping a duplicate-free list of host names), the correlator in `close()` that
 * completes each captured response from the first matching events, the summary
 * record, and the mapping from how the run ended to the status posted to the parent.
 *
 * src/puppeteer/puppeteer.js runs the same correlator without stamping a work id;
 * here that is the worker whose `workId` is `None`.
 */
module Analyser {
  import opened Js
  import opened PuppeteerUtils
  import CookieEntity
  import opened ResponseEntity

  /** The DevTools methods the worker subscribes to; nothing else reaches `events`. */
  datatype Method =
    | LoadEventFired | DomContentEventFired | FrameStartedLoading | FrameAttached
    | GetResponseBody | RequestWillBeSent | RequestServedFromCache | DataReceived
    | ResponseReceived | LoadingFinished | LoadingFailed | ResponseReceivedExtraInfo
  {
    /** The method's DevTools name, the string stored in an event's `method`. */
    function Name(): string {
      match this
      case LoadEventFired => "Page.loadEventFired"
      case DomContentEventFired => "Page.domContentEventFired"
      case FrameStartedLoading => "Page.frameStartedLoading"
      case FrameAttached => "Page.frameAttached"
      case GetResponseBody => "Network.getResponseBody"
      case RequestWillBeSent => "Network.requestWillBeSent"
      case RequestServedFromCache => "Network.requestServedFromCache"
      case DataReceived => "Network.dataReceived"
      case ResponseReceived => "Network.responseReceived"
      case LoadingFinished => "Network.loadingFinished"
      case LoadingFailed => "Network.loadingFailed"
      case ResponseReceivedExtraInfo => "Network.responseReceivedExtraInfo"
    }
  }

  const ResponseReceivedMethod: Method := ResponseReceived
  const ExtraInfoMethod: Method := ResponseReceivedExtraInfo

  /** The key the extra-info event is stored under: the variable's name, not its value. */
  const ExtraInfoKey: string := "responseReceivedExtraInfoFieldName"

  /** One recorded DevTools event, `{ method, params }`; `name` is its method name. */
  datatype Event = Event(name: Method, params: map<string, Value>) {
    function ToValue(): Value {
      Obj(map["method" := Str(name.Name()), "params" := Obj(params)])
    }
  }

  // ---------------------------------------------------------------------------
  // events.find

  /** `name === info.method && requestId === info.params.requestId`. */
  predicate Matches(e: Event, name: Method, requestId: Value) {
    name == e.name && StrictEquals(requestId, Get(e.params, "requestId"))
  }

  /** The index of the first matching event, as `events.find` scans. */
  function FindEvent(log: seq<Event>, name: Method, requestId: Value): (r: Option<nat>)
    ensures r.Some? ==> r.value < |log| && Matches(log[r.value], name, requestId)
    ensures r.Some? ==> forall j :: 0 <= j < r.value ==> !Matches(log[j], name, requestId)
    ensures r.None? ==> forall j :: 0 <= j < |log| ==> !Matches(log[j], name, requestId)
  {
    if |log| == 0 then None
    else if Matches(log[0], name, requestId) then Some(0)
    else
      match FindEvent(log[1..], name, requestId)
      case None => None
      case Some(k) => Some(k + 1)
  }

  /** Conversely, the first matching event is the one found. */
  lemma FindEventIsFirst(log: seq<Event>, name: Method, requestId: Value, i: nat)
    requires i < |log| && Matches(log[i], name, requestId)
    requires forall j :: 0 <= j < i ==> !Matches(log[j], name, requestId)
    ensures FindEvent(log, name, requestId) == Some(i)
  {
  }

  /** Only the first matching event counts: events recorded after it change nothing. */
  lemma {:induction false} FindEventFirst(log: seq<Event>, more: seq<Event>, name: Method, requestId: Value)
    requires FindEvent(log, name, requestId).Some?
    ensures FindEvent(log + more, name, requestId) == FindEvent(log, name, requestId)
  {
    if !Matches(log[0], name, requestId) {
      assert (log + more)[1..] == log[1..] + more;
      FindEventFirst(log[1..], more, name, requestId);
    }
  }

  // ---------------------------------------------------------------------------
  // One step of the copyRequests map

  /** `{ ...v }` for the values `extras` holds (always an object here). */
  function Spread(v: Value): map<string, Value> {
    if v.Obj? then v.props else map[]
  }

  /** `delete event.params.headersText`. */
  function Stripped(e: Event): Event {
    e.(params := e.params - {"headersText"})
  }

  /** `cookies.map(cookie => new eCookie(cookie))` over the lines of a Set-Cookie header. */
  function CookieValues(lines: seq<string>): (r: seq<Value>)
    ensures |r| == |lines|
  {
    if |lines| == 0 then []
    else CookieValues(lines[..|lines| - 1]) + [Obj(CookieEntity.ParseCookieString(lines[|lines| - 1]))]
  }

  /** The cookie at each position is the one parsed from the line at that position. */
  lemma {:induction false} CookieValuesAt(lines: seq<string>, i: nat)
    requires i < |lines|
    ensures CookieValues(lines)[i] == Obj(CookieEntity.ParseCookieString(lines[i]))
  {
    if i < |lines| - 1 {
      CookieValuesAt(lines[..|lines| - 1], i);
    }
  }

  /** The property names the correlator writes and reads are pairwise distinct. */
  lemma KeyNames()
    ensures "workId" != "timing" && "workId" != "extras" && "workId" != "cookies"
    ensures "requestId" != "timing" && "requestId" != "extras" && "requestId" != "cookies" && "requestId" != "workId"
    ensures "timing" != "extras" && "timing" != "cookies" && "extras" != "cookies"
    ensures ExtraInfoKey != "NetworkTiming"
    ensures "requestId" != "headersText" && "response" != "headersText" && "headers" != "headersText"
  {
  }

  /**
   * `after` is `before` with at most the fields `written` set: every other field keeps
   * its value and no field disappears.
   */
  predicate KeepsOthers(before: map<string, Value>, after: map<string, Value>, written: set<string>) {
    && before.Keys <= after.Keys
    && after.Keys <= before.Keys + written
    && forall k :: k in before && k !in written ==> after[k] == before[k]
  }

  /** A field outside `written` reads the same before and after. */
  lemma KeepsOthersGet(before: map<string, Value>, after: map<string, Value>, written: set<string>, key: string)
    requires KeepsOthers(before, after, written) && key !in written
    ensures Get(after, key) == Get(before, key)
  {
  }

  /** The `responseReceived` half: timing and `extras.NetworkTiming`, or the error reading them. */
  function WithTiming(record: map<string, Value>, log: seq<Event>): (r: Result<map<string, Value>, Exception>)
    ensures FindEvent(log, ResponseReceivedMethod, Get(record, "requestId")).None? ==> r == Success(record)
    ensures r.Failure? ==> r.error == TypeError
  {
    match FindEvent(log, ResponseReceivedMethod, Get(record, "requestId"))
    case None => Success(record)
    case Some(i) =>
      var timing :- Member(Get(log[i].params, "response"), "timing");
      var breakdown :- ExtractTiming(timing);
      Success(record["timing" := breakdown.ToValue()]
                    ["extras" := Obj(Spread(Get(record, "extras"))["NetworkTiming" := timing])])
  }

  /** Where one step leaves the record and the event log, and whether it threw. */
  datatype Step = Step(record: map<string, Value>, log: seq<Event>, error: Option<Exception>)

  /** What the extra-info half leaves in the record, and whether it threw. */
  datatype Outcome = Outcome(record: map<string, Value>, error: Option<Exception>)

  /** `record.extras[key] = v`, on a copy of the extras spread into a fresh object. */
  function WithExtra(record: map<string, Value>, key: string, v: Value): map<string, Value> {
    record["extras" := Obj(Spread(Get(record, "extras"))[key := v])]
  }

  /** Storing an extra writes `extras` alone, and a later `cookies` write leaves it. */
  lemma WithExtraValue(record: map<string, Value>, key: string, v: Value, cookies: Value)
    ensures Get(WithExtra(record, key, v), "extras") == Obj(Spread(Get(record, "extras"))[key := v])
    ensures Get(WithExtra(record, key, v)["cookies" := cookies], "extras") == Obj(Spread(Get(record, "extras"))[key := v])
    ensures KeepsOthers(record, WithExtra(record, key, v), {"extras", "cookies"})
    ensures KeepsOthers(record, WithExtra(record, key, v)["cookies" := cookies], {"extras", "cookies"})
  {
    assert "cookies" != "extras";
  }

  /**
   * Reading one extra-info event (already without `headersText`): it is stored in
   * `extras` before its headers are read, so that change survives a throw; a truthy
   * `Set-Cookie` string becomes one cookie per line.
   */
  function ReadExtraInfo(record: map<string, Value>, event: Event): (o: Outcome)
    ensures o.error.Some? ==> o.error.value == TypeError
  {
    var stored := WithExtra(record, ExtraInfoKey, event.ToValue());
    match Member(Get(event.params, "headers"), "Set-Cookie")
    case Failure(e) => Outcome(stored, Some(e))
    case Success(setCookie) =>
      if !Truthy(setCookie) then Outcome(stored, None)
      else if !setCookie.Str? then Outcome(stored, Some(TypeError))   // `.split` is not a function
      else Outcome(stored["cookies" := Arr(CookieValues(Split(setCookie.s, '\n')))], None)
  }

  /** The `responseReceivedExtraInfo` half: the matching event loses `headersText` in the log too. */
  function WithExtraInfo(record: map<string, Value>, log: seq<Event>): (s: Step)
    ensures |s.log| == |log|
  {
    match FindEvent(log, ExtraInfoMethod, Get(record, "requestId"))
    case None => Step(record, log, None)
    case Some(j) =>
      var event := Stripped(log[j]);
      var o := ReadExtraInfo(record, event);
      Step(o.record, log[j := event], o.error)
  }

  /**
   * The timing half throws exactly when there is a matching `responseReceived` event
   * whose `response`, or whose `response.timing`, is undefined or null.
   */
  lemma WithTimingThrows(record: map<string, Value>, log: seq<Event>)
    ensures WithTiming(record, log).Failure? <==>
      match FindEvent(log, ResponseReceivedMethod, Get(record, "requestId"))
      case None => false
      case Some(i) =>
        var response := Get(log[i].params, "response");
        response.Undefined? || response.Null? || Prop(response, "timing").Undefined? || Prop(response, "timing").Null?
  {
  }

  /**
   * Reading an extra-info event throws exactly when its `headers` is undefined or
   * null, or its `Set-Cookie` header is truthy but not a string.
   */
  lemma ReadExtraInfoThrows(record: map<string, Value>, event: Event)
    ensures ReadExtraInfo(record, event).error.Some? <==>
      var headers := Get(event.params, "headers");
      headers.Undefined? || headers.Null? ||
      (Truthy(Prop(headers, "Set-Cookie")) && !Prop(headers, "Set-Cookie").Str?)
  {
  }

  /**
   * The deletion happens on the matched event itself: with a match at `j`, the log
   * after the extra-info half is the log with `headersText` removed from event `j` and
   * every other event as it was; with no match, nothing changes.
   */
  lemma WithExtraInfoLog(record: map<string, Value>, log: seq<Event>)
    ensures match FindEvent(log, ExtraInfoMethod, Get(record, "requestId"))
      case None => WithExtraInfo(record, log) == Step(record, log, None)
      case Some(j) =>
        && WithExtraInfo(record, log).log == log[j := Stripped(log[j])]
        && "headersText" !in WithExtraInfo(record, log).log[j].params
  {
  }

  /** One call of the `requests.map` callback, with the work id stamp when there is one. */
  function FinalizeStep(record: map<string, Value>, log: seq<Event>, stamp: Option<Value>): (s: Step)
    ensures |s.log| == |log|
  {
    match WithTiming(record, log)
    case Failure(e) => Step(record, log, Some(e))
    case Success(timed) =>
      var s := WithExtraInfo(timed, log);
      if s.error.Some? then s
      else Step(if stamp.Some? then s.record["workId" := stamp.value] else s.record, s.log, None)
  }

  // ---------------------------------------------------------------------------
  // The whole map

  /** The records after the map, the event log after it, and the error that stopped it. */
  datatype Trace = Trace(records: seq<map<string, Value>>, log: seq<Event>, error: Option<Exception>)

  /**
   * `requests.map(...)`: each record in turn, against the log as the earlier steps
   * left it. A throw stops the map; the records after the failing one are untouched.
   */
  function CorrelateAll(records: seq<map<string, Value>>, log: seq<Event>, stamp: Option<Value>): (t: Trace)
    ensures |t.records| == |records|
    ensures |t.log| == |log|
    decreases |records|
  {
    if |records| == 0 then Trace([], log, None)
    else
      var s := FinalizeStep(records[0], log, stamp);
      if s.error.Some? then Trace([s.record] + records[1..], s.log, s.error)
      else
        var rest := CorrelateAll(records[1..], s.log, stamp);
        Trace([s.record] + rest.records, rest.log, rest.error)
  }

  /** The map from position `i` on: the step at `i`, then either its throw or the rest of the map. */
  lemma CorrelateAllFrom(records: seq<map<string, Value>>, i: nat, log: seq<Event>, stamp: Option<Value>)
    requires i < |records|
    ensures var s := FinalizeStep(records[i], log, stamp);
      CorrelateAll(records[i..], log, stamp) ==
        if s.error.Some? then Trace([s.record] + records[i + 1..], s.log, s.error)
        else Trace([s.record] + CorrelateAll(records[i + 1..], s.log, stamp).records,
                   CorrelateAll(records[i + 1..], s.log, stamp).log, CorrelateAll(records[i + 1..], s.log, stamp).error)
  {
    assert records[i..][0] == records[i] && records[i..][1..] == records[i + 1..];
  }

  /** The map after `i` completed steps, stopped by a throw at step `i`. */
  lemma CorrelateAllStop(records: seq<map<string, Value>>, log: seq<Event>, done: seq<map<string, Value>>,
                         i: nat, current: seq<Event>, stamp: Option<Value>)
    requires i < |records|
    requires CorrelateAll(records, log, stamp) == Prepend(done, CorrelateAll(records[i..], current, stamp))
    requires FinalizeStep(records[i], current, stamp).error.Some?
    ensures var s := FinalizeStep(records[i], current, stamp);
      CorrelateAll(records, log, stamp) == Trace(done + [s.record] + records[i + 1..], s.log, s.error)
  {
    var s := FinalizeStep(records[i], current, stamp);
    CorrelateAllFrom(records, i, current, stamp);
    assert done + ([s.record] + records[i + 1..]) == done + [s.record] + records[i + 1..];
  }

  /** The map after `i` completed steps, advanced by a step `i` that completes. */
  lemma CorrelateAllGo(records: seq<map<string, Value>>, log: seq<Event>, done: seq<map<string, Value>>,
                       i: nat, current: seq<Event>, stamp: Option<Value>)
    requires i < |records|
    requires CorrelateAll(records, log, stamp) == Prepend(done, CorrelateAll(records[i..], current, stamp))
    requires FinalizeStep(records[i], current, stamp).error.None?
    ensures var s := FinalizeStep(records[i], current, stamp);
      CorrelateAll(records, log, stamp) == Prepend(done + [s.record], CorrelateAll(records[i + 1..], s.log, stamp))
  {
    var s := FinalizeStep(records[i], current, stamp);
    CorrelateAllFrom(records, i, current, stamp);
    var rest := CorrelateAll(records[i + 1..], s.log, stamp);
    assert done + ([s.record] + rest.records) == (done + [s.record]) + rest.records;
  }

  /** Two logs that differ at most in the `headersText` of their events. */
  predicate SameEvents(a: seq<Event>, b: seq<Event>) {
    |a| == |b| && forall k :: 0 <= k < |a| ==> Stripped(a[k]) == Stripped(b[k])
  }

  lemma StrippedKeeps(e: Event, key: string)
    requires key != "headersText"
    ensures Stripped(e).name == e.name
    ensures Get(Stripped(e).params, key) == Get(e.params, key)
  {
  }

  /** Deleting `headersText` does not change which event matches. */
  lemma {:induction false} FindEventSame(a: seq<Event>, b: seq<Event>, name: Method, requestId: Value)
    requires SameEvents(a, b)
    ensures FindEvent(a, name, requestId) == FindEvent(b, name, requestId)
  {
    if |a| > 0 {
      StrippedKeeps(a[0], "requestId");
      StrippedKeeps(b[0], "requestId");
      assert Stripped(a[0]) == Stripped(b[0]);
      assert SameEvents(a[1..], b[1..]) by {
        forall k | 0 <= k < |a| - 1 ensures Stripped(a[1..][k]) == Stripped(b[1..][k]) {
          assert a[1..][k] == a[k + 1] && b[1..][k] == b[k + 1];
        }
      }
      FindEventSame(a[1..], b[1..], name, requestId);
    }
  }

  /** The timing half reads only what `headersText` deletion keeps. */
  lemma WithTimingSame(record: map<string, Value>, a: seq<Event>, b: seq<Event>)
    requires SameEvents(a, b)
    ensures WithTiming(record, a) == WithTiming(record, b)
  {
    var rid := Get(record, "requestId");
    FindEventSame(a, b, ResponseReceivedMethod, rid);
    if FindEvent(a, ResponseReceivedMethod, rid).Some? {
      var i := FindEvent(a, ResponseReceivedMethod, rid).value;
      StrippedKeeps(a[i], "response");
      StrippedKeeps(b[i], "response");
      assert Stripped(a[i]) == Stripped(b[i]);
    }
  }

  /** The extra-info half gives the same record and error on either log, and leaves a log of the same events. */
  lemma WithExtraInfoSame(record: map<string, Value>, a: seq<Event>, b: seq<Event>)
    requires SameEvents(a, b)
    ensures WithExtraInfo(record, a).record == WithExtraInfo(record, b).record
    ensures WithExtraInfo(record, a).error == WithExtraInfo(record, b).error
    ensures SameEvents(WithExtraInfo(record, a).log, b)
  {
    var rid := Get(record, "requestId");
    FindEventSame(a, b, ExtraInfoMethod, rid);
    if FindEvent(a, ExtraInfoMethod, rid).Some? {
      var j := FindEvent(a, ExtraInfoMethod, rid).value;
      assert Stripped(a[j]) == Stripped(b[j]);
      assert Stripped(Stripped(a[j])) == Stripped(a[j]);
    }
  }

  /** A step reads nothing that `headersText` deletion changes, and changes nothing else. */
  lemma FinalizeStepSame(record: map<string, Value>, a: seq<Event>, b: seq<Event>, stamp: Option<Value>)
    requires SameEvents(a, b)
    ensures FinalizeStep(record, a, stamp).record == FinalizeStep(record, b, stamp).record
    ensures FinalizeStep(record, a, stamp).error == FinalizeStep(record, b, stamp).error
    ensures SameEvents(FinalizeStep(record, a, stamp).log, b)
  {
    WithTimingSame(record, a, b);
    if WithTiming(record, a).Success? {
      WithExtraInfoSame(WithTiming(record, a).value, a, b);
    }
  }

  /** Every step of the map, run against `log`, completes without throwing. */
  predicate AllComplete(records: seq<map<string, Value>>, log: seq<Event>, stamp: Option<Value>) {
    forall i :: 0 <= i < |records| ==> FinalizeStep(records[i], log, stamp).error.None?
  }

  /** The log the map leaves behind differs from the recorded one only in deleted `headersText`. */
  lemma {:induction false} CorrelateAllLog(records: seq<map<string, Value>>, log: seq<Event>, current: seq<Event>, stamp: Option<Value>)
    requires SameEvents(current, log)
    ensures SameEvents(CorrelateAll(records, current, stamp).log, log)
    decreases |records|
  {
    if |records| > 0 {
      var s := FinalizeStep(records[0], current, stamp);
      FinalizeStepSame(records[0], current, log, stamp);
      if s.error.None? {
        CorrelateAllLog(records[1..], log, s.log, stamp);
      }
    }
  }

  /** The map throws exactly when one of its steps, run against the recorded log, throws. */
  lemma {:induction false} CorrelateAllError(records: seq<map<string, Value>>, log: seq<Event>, current: seq<Event>, stamp: Option<Value>)
    requires SameEvents(current, log)
    ensures CorrelateAll(records, current, stamp).error.None? <==> AllComplete(records, log, stamp)
    decreases |records|
  {
    if |records| > 0 {
      var s := FinalizeStep(records[0], current, stamp);
      FinalizeStepSame(records[0], current, log, stamp);
      AllCompleteCons(records, log, stamp);
      if s.error.None? {
        CorrelateAllError(records[1..], log, s.log, stamp);
      }
    }
  }

  /** Every step completes exactly when the first does and every later one does. */
  lemma AllCompleteCons(records: seq<map<string, Value>>, log: seq<Event>, stamp: Option<Value>)
    requires |records| > 0
    ensures AllComplete(records, log, stamp) <==>
      FinalizeStep(records[0], log, stamp).error.None? && AllComplete(records[1..], log, stamp)
  {
    if FinalizeStep(records[0], log, stamp).error.None? && AllComplete(records[1..], log, stamp) {
      forall i | 0 <= i < |records| ensures FinalizeStep(records[i], log, stamp).error.None? {
        if i > 0 { assert records[i] == records[1..][i - 1]; }
      }
    }
    if AllComplete(records, log, stamp) {
      forall k | 0 <= k < |records[1..]| ensures FinalizeStep(records[1..][k], log, stamp).error.None? {
        assert records[1..][k] == records[k + 1];
      }
    }
  }

  /**
   * The map is pointwise: the log changes the earlier steps make never alter a later
   * step, so when it completes every record is the one its own step makes from the
   * recorded event log, independently of the others.
   */
  lemma {:induction false} CorrelateAllPointwise(records: seq<map<string, Value>>, log: seq<Event>, current: seq<Event>, stamp: Option<Value>)
    requires SameEvents(current, log)
    requires CorrelateAll(records, current, stamp).error.None?
    ensures forall i :: 0 <= i < |records| ==>
      CorrelateAll(records, current, stamp).records[i] == FinalizeStep(records[i], log, stamp).record
    decreases |records|
  {
    if |records| > 0 {
      var s := FinalizeStep(records[0], current, stamp);
      FinalizeStepSame(records[0], current, log, stamp);
      var rest := CorrelateAll(records[1..], s.log, stamp);
      CorrelateAllPointwise(records[1..], log, s.log, stamp);
      var t := CorrelateAll(records, current, stamp);
      assert t.records == [s.record] + rest.records;
      forall i | 0 <= i < |records| ensures t.records[i] == FinalizeStep(records[i], log, stamp).record {
        if i > 0 {
          assert t.records[i] == rest.records[i - 1];
          assert records[1..][i - 1] == records[i];
        }
      }
    }
  }

  // ---------------------------------------------------------------------------
  // What one step does to a record

  /** The timing half writes only `timing` and `extras`. */
  lemma WithTimingFrame(record: map<string, Value>, log: seq<Event>)
    requires WithTiming(record, log).Success?
    ensures KeepsOthers(record, WithTiming(record, log).value, {"timing", "extras"})
  {
  }

  /** Reading an extra-info event writes only `extras` and `cookies`, whether or not it throws. */
  lemma ReadExtraInfoFrame(record: map<string, Value>, event: Event)
    ensures KeepsOthers(record, ReadExtraInfo(record, event).record, {"extras", "cookies"})
  {
    var stored := WithExtra(record, ExtraInfoKey, event.ToValue());
    var o := ReadExtraInfo(record, event);
    match Member(Get(event.params, "headers"), "Set-Cookie")
    case Failure(_) =>
      WithExtraValue(record, ExtraInfoKey, event.ToValue(), Undefined);
    case Success(setCookie) =>
      if Truthy(setCookie) && setCookie.Str? {
        WithExtraValue(record, ExtraInfoKey, event.ToValue(), Arr(CookieValues(Split(setCookie.s, '\n'))));
      } else {
        WithExtraValue(record, ExtraInfoKey, event.ToValue(), Undefined);
      }
  }

  /** Reading an extra-info event stores it under the extra-info key and keeps the other extras. */
  lemma ReadExtraInfoExtras(record: map<string, Value>, event: Event)
    ensures Get(ReadExtraInfo(record, event).record, "extras") ==
      Obj(Spread(Get(record, "extras"))[ExtraInfoKey := event.ToValue()])
  {
    var o := ReadExtraInfo(record, event);
    match Member(Get(event.params, "headers"), "Set-Cookie")
    case Failure(_) =>
      WithExtraValue(record, ExtraInfoKey, event.ToValue(), Undefined);
    case Success(setCookie) =>
      if Truthy(setCookie) && setCookie.Str? {
        WithExtraValue(record, ExtraInfoKey, event.ToValue(), Arr(CookieValues(Split(setCookie.s, '\n'))));
      } else {
        WithExtraValue(record, ExtraInfoKey, event.ToValue(), Undefined);
      }
  }

  /** The extra-info half writes only `extras` and `cookies`, whether or not it throws. */
  lemma WithExtraInfoFrame(record: map<string, Value>, log: seq<Event>)
    ensures KeepsOthers(record, WithExtraInfo(record, log).record, {"extras", "cookies"})
  {
    match FindEvent(log, ExtraInfoMethod, Get(record, "requestId"))
    case None =>
    case Some(j) =>
      ReadExtraInfoFrame(record, Stripped(log[j]));
  }

  /** A step that completes is the timing half, then the extra-info half, then the stamp. */
  lemma FinalizeStepParts(record: map<string, Value>, log: seq<Event>, stamp: Option<Value>)
    requires FinalizeStep(record, log, stamp).error.None?
    ensures WithTiming(record, log).Success?
    ensures var x := WithExtraInfo(WithTiming(record, log).value, log);
      && x.error.None?
      && FinalizeStep(record, log, stamp).record == (if stamp.Some? then x.record["workId" := stamp.value] else x.record)
  {
  }

  /**
   * A step writes only `timing`, `extras`, `cookies` and `workId`: `requestId` and every
   * other field keep their values, and no field disappears. With a stamp, a step that
   * completes sets `workId` to it; without one, `workId` is left alone.
   */
  lemma FinalizeStepFrame(record: map<string, Value>, log: seq<Event>, stamp: Option<Value>)
    ensures KeepsOthers(record, FinalizeStep(record, log, stamp).record, {"timing", "extras", "cookies", "workId"})
    ensures stamp.None? ==> Get(FinalizeStep(record, log, stamp).record, "workId") == Get(record, "workId")
    ensures stamp.Some? && FinalizeStep(record, log, stamp).error.None? ==>
      "workId" in FinalizeStep(record, log, stamp).record &&
      FinalizeStep(record, log, stamp).record["workId"] == stamp.value
  {
    if WithTiming(record, log).Success? {
      var timed := WithTiming(record, log).value;
      WithTimingFrame(record, log);
      WithExtraInfoFrame(timed, log);
    }
  }

  /**
   * `timing` is the breakdown of the first matching `responseReceived` event, and
   * `extras.NetworkTiming` its raw timing payload; with no such event `timing` keeps
   * its value (`{}` for a fresh record).
   */
  lemma FinalizeStepTiming(record: map<string, Value>, log: seq<Event>, stamp: Option<Value>)
    requires FinalizeStep(record, log, stamp).error.None?
    ensures var rec := FinalizeStep(record, log, stamp).record;
      match FindEvent(log, ResponseReceivedMethod, Get(record, "requestId"))
      case None => Get(rec, "timing") == Get(record, "timing")
      case Some(i) =>
        var timing := Member(Get(log[i].params, "response"), "timing").value;
        && ExtractTiming(timing).Success?
        && Get(rec, "timing") == ExtractTiming(timing).value.ToValue()
        && Get(rec, "extras").Obj?
        && Get(Get(rec, "extras").props, "NetworkTiming") == timing
  {
    FinalizeStepHalves(record, log, stamp);
    WithTimingValues(record, log);
    var timed := WithTiming(record, log).value;
    if FindEvent(log, ResponseReceivedMethod, Get(record, "requestId")).Some? {
      KeyNames();
      WithExtraInfoKeepsExtra(timed, log, "NetworkTiming");
    }
  }

  /** What the timing half leaves in `timing` and `extras`. */
  lemma WithTimingValues(record: map<string, Value>, log: seq<Event>)
    requires WithTiming(record, log).Success?
    ensures var timed := WithTiming(record, log).value;
      match FindEvent(log, ResponseReceivedMethod, Get(record, "requestId"))
      case None => timed == record
      case Some(i) =>
        var timing := Member(Get(log[i].params, "response"), "timing").value;
        && ExtractTiming(timing).Success?
        && Get(timed, "timing") == ExtractTiming(timing).value.ToValue()
        && Get(timed, "extras") == Obj(Spread(Get(record, "extras"))["NetworkTiming" := timing])
  {
    match FindEvent(log, ResponseReceivedMethod, Get(record, "requestId"))
    case None =>
    case Some(i) =>
      assert "timing" != "extras";
  }

  /**
   * A completed step ends with the timing half's `timing` and the extra-info half's
   * `extras` and `cookies`: the stamp writes none of them.
   */
  lemma FinalizeStepHalves(record: map<string, Value>, log: seq<Event>, stamp: Option<Value>)
    requires FinalizeStep(record, log, stamp).error.None?
    ensures WithTiming(record, log).Success?
    ensures var timed := WithTiming(record, log).value;
      var x := WithExtraInfo(timed, log).record;
      var rec := FinalizeStep(record, log, stamp).record;
      && Get(rec, "timing") == Get(timed, "timing")
      && Get(rec, "extras") == Get(x, "extras")
      && Get(rec, "cookies") == Get(x, "cookies")
  {
    FinalizeStepParts(record, log, stamp);
    var timed := WithTiming(record, log).value;
    var x := WithExtraInfo(timed, log).record;
    KeyNames();
    StampGet(x, stamp, "timing");
    StampGet(x, stamp, "extras");
    StampGet(x, stamp, "cookies");
    WithExtraInfoFrame(timed, log);
    KeepsOthersGet(timed, x, {"extras", "cookies"}, "timing");
  }

  /** The stamp writes `workId` alone. */
  lemma StampGet(record: map<string, Value>, stamp: Option<Value>, key: string)
    requires key != "workId"
    ensures Get(if stamp.Some? then record["workId" := stamp.value] else record, key) == Get(record, key)
  {
  }

  /**
   * What the extra-info half leaves in `extras`: with no matching event, the extras it
   * was given; otherwise those extras with the event, without its `headersText`,
   * stored under the literal key `responseReceivedExtraInfoFieldName`.
   */
  lemma WithExtraInfoExtras(record: map<string, Value>, log: seq<Event>)
    ensures var rec := WithExtraInfo(record, log).record;
      match FindEvent(log, ExtraInfoMethod, Get(record, "requestId"))
      case None => Get(rec, "extras") == Get(record, "extras")
      case Some(j) => Get(rec, "extras") == Obj(Spread(Get(record, "extras"))[ExtraInfoKey := Stripped(log[j]).ToValue()])
  {
    match FindEvent(log, ExtraInfoMethod, Get(record, "requestId"))
    case None =>
    case Some(j) =>
      ReadExtraInfoExtras(record, Stripped(log[j]));
  }

  /** `key` of the extras object `before`, if present, is still there with its value in `after`. */
  predicate KeepsExtra(before: Value, after: Value, key: string) {
    key in Spread(before) ==> key in Spread(after) && Spread(after)[key] == Spread(before)[key]
  }

  /** The timing half overwrites no extra except `NetworkTiming`. */
  lemma WithTimingKeepsExtra(record: map<string, Value>, log: seq<Event>, key: string)
    requires WithTiming(record, log).Success? && key != "NetworkTiming"
    ensures KeepsExtra(Get(record, "extras"), Get(WithTiming(record, log).value, "extras"), key)
  {
    WithTimingValues(record, log);
  }

  /** The extra-info half overwrites no extra except the extra-info key, and leaves `extras` an object. */
  lemma WithExtraInfoKeepsExtra(record: map<string, Value>, log: seq<Event>, key: string)
    requires key != ExtraInfoKey
    ensures KeepsExtra(Get(record, "extras"), Get(WithExtraInfo(record, log).record, "extras"), key)
    ensures Get(record, "extras").Obj? ==> Get(WithExtraInfo(record, log).record, "extras").Obj?
  {
    WithExtraInfoExtras(record, log);
  }

  /**
   * The extras a record had before survive the step: only `NetworkTiming` and the
   * extra-info key can be overwritten.
   */
  lemma FinalizeStepExtras(record: map<string, Value>, log: seq<Event>, stamp: Option<Value>)
    requires FinalizeStep(record, log, stamp).error.None?
    ensures var rec := FinalizeStep(record, log, stamp).record;
      forall k :: k in Spread(Get(record, "extras")) && k != "NetworkTiming" && k != ExtraInfoKey ==>
        k in Spread(Get(rec, "extras")) && Spread(Get(rec, "extras"))[k] == Spread(Get(record, "extras"))[k]
  {
    FinalizeStepHalves(record, log, stamp);
    var timed := WithTiming(record, log).value;
    forall k | k in Spread(Get(record, "extras")) && k != "NetworkTiming" && k != ExtraInfoKey
      ensures KeepsExtra(Get(record, "extras"), Get(FinalizeStep(record, log, stamp).record, "extras"), k)
    {
      WithTimingKeepsExtra(record, log, k);
      WithExtraInfoKeepsExtra(timed, log, k);
    }
  }

  /**
   * A matching extra-info event is stored, without its `headersText`, under the
   * literal key `responseReceivedExtraInfoFieldName` of `extras`.
   */
  lemma FinalizeStepExtraInfo(record: map<string, Value>, log: seq<Event>, stamp: Option<Value>)
    requires FinalizeStep(record, log, stamp).error.None?
    requires FindEvent(log, ExtraInfoMethod, Get(record, "requestId")).Some?
    ensures var rec := FinalizeStep(record, log, stamp).record;
      var j := FindEvent(log, ExtraInfoMethod, Get(record, "requestId")).value;
      Get(rec, "extras").Obj? && Get(Get(rec, "extras").props, ExtraInfoKey) == Stripped(log[j]).ToValue()
  {
    KeyNames();
    FinalizeStepHalves(record, log, stamp);
    var timed := WithTiming(record, log).value;
    WithTimingFrame(record, log);
    assert Get(timed, "requestId") == Get(record, "requestId");
    WithExtraInfoExtras(timed, log);
  }

  /**
   * `cookies` is one parsed cookie per line of the matching extra-info event's
   * `Set-Cookie` header, in order; when there is no such event or the header is
   * falsy it keeps its value.
   */
  lemma FinalizeStepCookies(record: map<string, Value>, log: seq<Event>, stamp: Option<Value>)
    requires FinalizeStep(record, log, stamp).error.None?
    ensures var rec := FinalizeStep(record, log, stamp).record;
      match FindEvent(log, ExtraInfoMethod, Get(record, "requestId"))
      case None => Get(rec, "cookies") == Get(record, "cookies")
      case Some(j) =>
        && Member(Get(log[j].params, "headers"), "Set-Cookie").Success?
        && var setCookie := Member(Get(log[j].params, "headers"), "Set-Cookie").value;
        && (!Truthy(setCookie) ==> Get(rec, "cookies") == Get(record, "cookies"))
        && (Truthy(setCookie) ==>
              setCookie.Str? && Get(rec, "cookies") == Arr(CookieValues(Split(setCookie.s, '\n'))))
  {
    FinalizeStepParts(record, log, stamp);
    FinalizeStepHalves(record, log, stamp);
    WithTimingKeeps(record, log);
    WithExtraInfoCookies(WithTiming(record, log).value, log);
  }

  /** The timing half keeps the record's `requestId` and `cookies`. */
  lemma WithTimingKeeps(record: map<string, Value>, log: seq<Event>)
    requires WithTiming(record, log).Success?
    ensures Get(WithTiming(record, log).value, "requestId") == Get(record, "requestId")
    ensures Get(WithTiming(record, log).value, "cookies") == Get(record, "cookies")
  {
    WithTimingFrame(record, log);
    KeyNames();
  }

  /** What an extra-info half that completes leaves in `cookies`. */
  lemma WithExtraInfoCookies(record: map<string, Value>, log: seq<Event>)
    requires WithExtraInfo(record, log).error.None?
    ensures var rec := WithExtraInfo(record, log).record;
      match FindEvent(log, ExtraInfoMethod, Get(record, "requestId"))
      case None => Get(rec, "cookies") == Get(record, "cookies")
      case Some(j) =>
        && Member(Get(log[j].params, "headers"), "Set-Cookie").Success?
        && var setCookie := Member(Get(log[j].params, "headers"), "Set-Cookie").value;
        && (!Truthy(setCookie) ==> Get(rec, "cookies") == Get(record, "cookies"))
        && (Truthy(setCookie) ==>
              setCookie.Str? && Get(rec, "cookies") == Arr(CookieValues(Split(setCookie.s, '\n'))))
  {
    match FindEvent(log, ExtraInfoMethod, Get(record, "requestId"))
    case None =>
    case Some(j) =>
      StrippedKeeps(log[j], "headers");
      assert "cookies" != "extras";
  }

  /** A Set-Cookie header of three lines gives exactly three cookies, one per line. */
  lemma ThreeCookieLines(a: string, b: string, c: string)
    requires '\n' !in a && '\n' !in b && '\n' !in c
    ensures var cs := CookieValues(Split(a + "\n" + b + "\n" + c, '\n'));
      |cs| == 3 && cs[0] == Obj(CookieEntity.ParseCookieString(a)) &&
      cs[1] == Obj(CookieEntity.ParseCookieString(b)) && cs[2] == Obj(CookieEntity.ParseCookieString(c))
  {
    SplitThree(a, b, c, '\n');
    assert a + "\n" + b + "\n" + c == a + ['\n'] + b + ['\n'] + c;
    var lines := Split(a + "\n" + b + "\n" + c, '\n');
    CookieValuesAt(lines, 0);
    CookieValuesAt(lines, 1);
    CookieValuesAt(lines, 2);
  }

  /**
   * Stamping is the only difference between the two correlators: a step of
   * analyser.js is the step of puppeteer.js with `workId` set, and both throw alike.
   */
  lemma FinalizeStepStamp(record: map<string, Value>, log: seq<Event>, w: Value)
    ensures FinalizeStep(record, log, Some(w)).error == FinalizeStep(record, log, None).error
    ensures FinalizeStep(record, log, Some(w)).log == FinalizeStep(record, log, None).log
    ensures FinalizeStep(record, log, Some(w)).error.None? ==>
      FinalizeStep(record, log, Some(w)).record == FinalizeStep(record, log, None).record["workId" := w]
    ensures Get(FinalizeStep(record, log, None).record, "workId") == Get(record, "workId")
  {
    FinalizeStepFrame(record, log, None);
  }

  /** A completed step keeps the record's `requestId` and carries the stamp, if any. */
  lemma FinalizeStepIds(record: map<string, Value>, log: seq<Event>, stamp: Option<Value>)
    requires FinalizeStep(record, log, stamp).error.None?
    ensures Get(FinalizeStep(record, log, stamp).record, "requestId") == Get(record, "requestId")
    ensures stamp.Some? ==> Get(FinalizeStep(record, log, stamp).record, "workId") == stamp.value
  {
    FinalizeStepFrame(record, log, stamp);
    KeepsOthersGet(record, FinalizeStep(record, log, stamp).record, {"timing", "extras", "cookies", "workId"}, "requestId");
  }

  /**
   * When the map completes, its output lines up with the captured requests (same
   * length, same order, same `requestId`s) and, in analyser.js, every record carries
   * the job's work id.
   */
  lemma CorrelateAllStamped(records: seq<map<string, Value>>, log: seq<Event>, stamp: Option<Value>)
    requires CorrelateAll(records, log, stamp).error.None?
    ensures |CorrelateAll(records, log, stamp).records| == |records|
    ensures forall i :: 0 <= i < |records| ==>
      Get(CorrelateAll(records, log, stamp).records[i], "requestId") == Get(records[i], "requestId")
    ensures stamp.Some? ==> forall i :: 0 <= i < |records| ==>
      Get(CorrelateAll(records, log, stamp).records[i], "workId") == stamp.value
  {
    assert SameEvents(log, log);
    CorrelateAllPointwise(records, log, log, stamp);
    CorrelateAllError(records, log, log, stamp);
    var t := CorrelateAll(records, log, stamp);
    forall i | 0 <= i < |records|
      ensures Get(t.records[i], "requestId") == Get(records[i], "requestId")
      ensures stamp.Some? ==> Get(t.records[i], "workId") == stamp.value
    {
      FinalizeStepIds(records[i], log, stamp);
    }
  }

  /** The two correlators produce the same records up to the work id stamp. */
  lemma CorrelateAllStampOnly(records: seq<map<string, Value>>, log: seq<Event>, w: Value)
    ensures CorrelateAll(records, log, Some(w)).error == CorrelateAll(records, log, None).error
    ensures CorrelateAll(records, log, Some(w)).error.None? ==>
      forall i :: 0 <= i < |records| ==>
        CorrelateAll(records, log, Some(w)).records[i] == CorrelateAll(records, log, None).records[i]["workId" := w]
  {
    assert SameEvents(log, log);
    CorrelateAllError(records, log, log, Some(w));
    CorrelateAllError(records, log, log, None);
    forall i | 0 <= i < |records|
      ensures FinalizeStep(records[i], log, Some(w)).error == FinalizeStep(records[i], log, None).error
    {
      FinalizeStepStamp(records[i], log, w);
    }
    if CorrelateAll(records, log, Some(w)).error.None? {
      CorrelateAllPointwise(records, log, log, Some(w));
      CorrelateAllPointwise(records, log, log, None);
      forall i | 0 <= i < |records|
        ensures CorrelateAll(records, log, Some(w)).records[i] == CorrelateAll(records, log, None).records[i]["workId" := w]
      {
        FinalizeStepStamp(records[i], log, w);
      }
    }
  }

  // ---------------------------------------------------------------------------
  // logResponse: the data:image filter and the host-name list

  /** `/^data:image/.test(url)`. */
  predicate IsDataImage(url: string)
    ensures IsDataImage(url) <==> "data:image" <= url
  {
    |url| >= 10 && url[..10] == "data:image"
  }

  /** `domains.indexOf(v)`: the first index holding a value `===` to `v`, or -1. */
  function IndexOfStrict(ds: seq<Value>, v: Value): (r: int)
    ensures -1 <= r < |ds|
    ensures r >= 0 ==> StrictEquals(ds[r], v) && forall k :: 0 <= k < r ==> !StrictEquals(ds[k], v)
    ensures r == -1 ==> forall k :: 0 <= k < |ds| ==> !StrictEquals(ds[k], v)
  {
    if |ds| == 0 then -1
    else if StrictEquals(ds[0], v) then 0
    else
      var k := IndexOfStrict(ds[1..], v);
      if k == -1 then -1 else k + 1
  }

  /** No two entries are `===`. */
  predicate DuplicateFree(ds: seq<Value>) {
    forall a, b :: 0 <= a < b < |ds| ==> !StrictEquals(ds[a], ds[b])
  }

  /** `if (-1 === domains.indexOf(h)) domains.push(h)`. */
  function AppendIfAbsent(ds: seq<Value>, h: Value): (r: seq<Value>)
    ensures ds <= r && |r| <= |ds| + 1
    ensures h in r
    ensures forall x :: x in r ==> x in ds || x == h
  {
    var i := IndexOfStrict(ds, h);
    if i == -1 then ds + [h]
    else assert ds[i] == h; ds
  }

  /**
   * One push-if-absent keeps the list duplicate-free, keeps the entries already there
   * in place, and leaves the new host name in the list; it grows exactly when no entry
   * was `===` to the new name.
   */
  lemma AppendIfAbsentKeeps(ds: seq<Value>, h: Value)
    requires DuplicateFree(ds)
    ensures var r := AppendIfAbsent(ds, h);
      && DuplicateFree(r)
      && |ds| <= |r| && r[..|ds|] == ds
      && h in r
      && (|r| == |ds| + 1 <==> forall k :: 0 <= k < |ds| ==> !StrictEquals(ds[k], h))
      && (|r| == |ds| <==> exists k :: 0 <= k < |ds| && StrictEquals(ds[k], h))
  {
    var i := IndexOfStrict(ds, h);
    if i == -1 {
      assert (ds + [h])[..|ds|] == ds;
    } else {
      assert ds[i] == h;
      assert ds[..|ds|] == ds;
    }
  }

  /** The host-name list after logging responses with these host names, in order. */
  function DomainsOf(hostnames: seq<Value>): (r: seq<Value>)
    ensures |r| <= |hostnames|
    ensures forall d :: d in r ==> d in hostnames
  {
    if |hostnames| == 0 then []
    else
      var init, last := hostnames[..|hostnames| - 1], hostnames[|hostnames| - 1];
      assert hostnames == init + [last];
      AppendIfAbsent(DomainsOf(init), last)
  }

  /**
   * The host-name list holds every host name seen and nothing else, with no repeats,
   * in first-seen order: the list after a prefix of the responses is a prefix of the
   * list after all of them.
   */
  lemma DomainsOfFirstSeen(hostnames: seq<Value>, n: nat)
    requires n <= |hostnames|
    ensures var ds := DomainsOf(hostnames);
      && DuplicateFree(ds)
      && (forall h :: h in hostnames ==> h in ds)
      && (forall d :: d in ds ==> d in hostnames)
      && |DomainsOf(hostnames[..n])| <= |ds| && ds[..|DomainsOf(hostnames[..n])|] == DomainsOf(hostnames[..n])
  {
    DomainsOfMembers(hostnames);
    DomainsOfPrefix(hostnames, n);
  }

  /** The list is duplicate-free and holds exactly the host names seen. */
  lemma {:induction false} DomainsOfMembers(hostnames: seq<Value>)
    ensures var ds := DomainsOf(hostnames);
      && DuplicateFree(ds)
      && (forall h :: h in hostnames ==> h in ds)
      && (forall d :: d in ds ==> d in hostnames)
    decreases |hostnames|
  {
    if |hostnames| > 0 {
      var init := hostnames[..|hostnames| - 1];
      var last := hostnames[|hostnames| - 1];
      DomainsOfMembers(init);
      var prev := DomainsOf(init);
      AppendIfAbsentKeeps(prev, last);
      var ds := DomainsOf(hostnames);
      assert hostnames == init + [last];
      forall h | h in hostnames ensures h in ds {
        if h != last {
          assert h in init;
          var k :| 0 <= k < |prev| && prev[k] == h;
          assert ds[k] == h;
        }
      }
    }
  }

  /** The list after the first `n` responses is a prefix of the list after all of them. */
  lemma {:induction false} DomainsOfPrefix(hostnames: seq<Value>, n: nat)
    requires n <= |hostnames|
    ensures |DomainsOf(hostnames[..n])| <= |DomainsOf(hostnames)|
    ensures DomainsOf(hostnames)[..|DomainsOf(hostnames[..n])|] == DomainsOf(hostnames[..n])
    decreases |hostnames|
  {
    if n == |hostnames| {
      assert hostnames[..n] == hostnames;
    } else {
      var init := hostnames[..|hostnames| - 1];
      DomainsOfPrefix(init, n);
      assert hostnames[..n] == init[..n];
      var prev := DomainsOf(init);
      var pre := DomainsOf(init[..n]);
      var ds := DomainsOf(hostnames);
      assert |prev| <= |ds| && ds[..|prev|] == prev;
      assert ds[..|pre|] == prev[..|pre|];
    }
  }

  /** What the browser reports about one response besides its URL (`urlHash` is its SHA-1). */
  datatype Captured = Captured(
    at: Value, urlHash: Value, headers: Value, remoteAddress: Value, fromCache: Value,
    status: Value, statusText: Value, ok: Value, content: Value, isDetached: Value,
    frameId: Value, isNavigationRequest: Value, requestMethod: Value, postData: Value,
    resourceType: Value, requestId: Value)

  /** `postData: postData ? postData : null`. */
  function PostData(v: Value): Value {
    if Truthy(v) then v else Null
  }

  /** The properties both literals define after `urlHash`, in their order. */
  function ReportedDefs(c: Captured): seq<(string, Value)> {
    [("headers", c.headers), ("remoteAddress", c.remoteAddress), ("fromCache", c.fromCache),
     ("status", c.status), ("statusText", c.statusText), ("ok", c.ok), ("content", c.content),
     ("isDetached", c.isDetached), ("frameId", c.frameId),
     ("isNavigationRequest", c.isNavigationRequest), ("method", c.requestMethod),
     ("postData", PostData(c.postData)),
     ("resourceType", c.resourceType), ("requestId", c.requestId),
     ("timing", Obj(map[])), ("cookies", Arr([])), ("extras", Obj(map[]))]
  }

  /** What the puppeteer.js literal defines before the reported properties. */
  function StandaloneHead(url: string, c: Captured): map<string, Value> {
    map["at" := c.at, "url" := Str(url), "urlHash" := c.urlHash]
  }

  /** What the analyser.js literal defines before them: also `companyId` and `urlExtras`. */
  function Head(url: string, c: Captured, companyId: Value, urlExtras: map<string, Value>): (r: map<string, Value>)
    ensures r.Keys <= HeadNames && "jobId" !in r && "urlExtras" in r
  {
    map["at" := c.at, "companyId" := companyId, "url" := Str(url), "urlHash" := c.urlHash,
        "urlExtras" := Obj(urlExtras)]
  }

  /** The names a head may define; no reported property has one of them. */
  const HeadNames: set<string> := {"at", "companyId", "url", "urlHash", "urlExtras", "jobId"}

  /**
   * The object literal that defines the properties of `head`, then the reported ones:
   * no reported property overrides a head property.
   */
  function LiteralObject(head: map<string, Value>, c: Captured): (r: map<string, Value>)
    ensures head.Keys <= r.Keys
    ensures forall f :: f in head && f in HeadNames ==> r[f] == head[f]
    ensures forall f :: f !in head && f in HeadNames ==> f !in r
  {
    HeadNamesNotReported(c);
    head + ObjectOf(ReportedDefs(c))
  }

  /** None of the names a head may define is a key of the reported part of the literal. */
  lemma HeadNamesNotReported(c: Captured)
    ensures forall f :: f in HeadNames ==> f !in ObjectOf(ReportedDefs(c))
  {
    ReportedKeys(c);
    forall f | f in HeadNames
      ensures f !in ObjectOf(ReportedDefs(c))
    {
      ObjectOfAbsent(ReportedDefs(c), f);
    }
  }

  /** The record `new Response({...})` makes from that literal. */
  function LoggedOf(head: map<string, Value>, c: Captured): (r: map<string, Value>)
    ensures r.Keys == ResponseEntity.Fields
  {
    CopyDeclared(ResponseEntity.Defaults(), LiteralObject(head, c))
  }

  /** The names either head defines are none of the reported ones. */
  lemma ReportedKeys(c: Captured)
    ensures forall j :: 0 <= j < |ReportedDefs(c)| ==> ReportedDefs(c)[j].0 !in HeadNames
  {
  }

  /** A reported property, defined once at `i`, is in the literal whatever the head defines. */
  lemma LiteralReported(head: map<string, Value>, c: Captured, i: nat)
    requires i < |ReportedDefs(c)|
    requires forall j :: i < j < |ReportedDefs(c)| ==> ReportedDefs(c)[j].0 != ReportedDefs(c)[i].0
    ensures ReportedDefs(c)[i].0 in LiteralObject(head, c)
    ensures LiteralObject(head, c)[ReportedDefs(c)[i].0] == ReportedDefs(c)[i].1
  {
    ObjectOfLast(ReportedDefs(c), i);
  }

  /** A property of the head keeps the head's value in the literal. */
  lemma LiteralHead(head: map<string, Value>, c: Captured, f: string)
    requires f in head && f in HeadNames
    ensures f in LiteralObject(head, c) && LiteralObject(head, c)[f] == head[f]
  {
    ReportedKeys(c);
    ObjectOfAbsent(ReportedDefs(c), f);
  }

  /** A head name the head does not define is not in the literal. */
  lemma LiteralAbsent(head: map<string, Value>, c: Captured, f: string)
    requires f !in head && f in HeadNames
    ensures f !in LiteralObject(head, c)
  {
    ReportedKeys(c);
    ObjectOfAbsent(ReportedDefs(c), f);
  }

  /**
   * Whatever the literal, the record has exactly the declared fields: `urlExtras`,
   * which is not one of them, is dropped.
   */
  lemma LoggedKeys(head: map<string, Value>, c: Captured)
    ensures LoggedOf(head, c).Keys == ResponseEntity.Fields
    ensures "urlExtras" !in LoggedOf(head, c)
  {
    ResponseEntity.UrlExtrasUndeclared();
  }

  /** The record keeps the request's method and id, and a falsy post body becomes null. */
  lemma LoggedRequest(head: map<string, Value>, c: Captured)
    ensures var r := LoggedOf(head, c);
      r["method"] == c.requestMethod && r["requestId"] == c.requestId && r["postData"] == PostData(c.postData)
  {
    LoggedMethod(head, c);
    LoggedRequestId(head, c);
    LoggedPostData(head, c);
  }

  lemma LoggedMethod(head: map<string, Value>, c: Captured)
    ensures LoggedOf(head, c)["method"] == c.requestMethod
  {
    ResponseEntity.DeclaredNames();
    LiteralReported(head, c, 10);
  }

  lemma LoggedRequestId(head: map<string, Value>, c: Captured)
    ensures LoggedOf(head, c)["requestId"] == c.requestId
  {
    ResponseEntity.DeclaredNames();
    LiteralReported(head, c, 13);
  }

  lemma LoggedPostData(head: map<string, Value>, c: Captured)
    ensures LoggedOf(head, c)["postData"] == PostData(c.postData)
  {
    ResponseEntity.DeclaredNames();
    LiteralReported(head, c, 11);
  }

  /** The record starts with empty `timing`, `cookies` and `extras`. */
  lemma LoggedCollections(head: map<string, Value>, c: Captured)
    ensures var r := LoggedOf(head, c);
      r["timing"] == Obj(map[]) && r["cookies"] == Arr([]) && r["extras"] == Obj(map[])
  {
    ResponseEntity.DeclaredNames();
    LiteralReported(head, c, 14);
    LiteralReported(head, c, 15);
    LiteralReported(head, c, 16);
  }

  /** A head property the record declares is copied into it. */
  lemma LoggedHead(head: map<string, Value>, c: Captured, f: string)
    requires f in head && f in HeadNames && f in ResponseEntity.Fields
    ensures LoggedOf(head, c)[f] == head[f]
  {
    LiteralHead(head, c, f);
  }

  /** A declared head name the head leaves out keeps its null default. */
  lemma LoggedHeadDefault(head: map<string, Value>, c: Captured, f: string)
    requires f !in head && f in HeadNames && f in ResponseEntity.NullFields
    ensures LoggedOf(head, c)[f] == Null
  {
    LiteralAbsent(head, c, f);
  }

  /** The names the heads define or leave out, stated once. */
  lemma HeadFacts(url: string, c: Captured, companyId: Value, urlExtras: map<string, Value>)
    ensures "url" in HeadNames && "companyId" in HeadNames && "jobId" in HeadNames
    ensures var h := Head(url, c, companyId, urlExtras);
      "url" in h && h["url"] == Str(url) && "companyId" in h && h["companyId"] == companyId && "jobId" !in h
    ensures var h := StandaloneHead(url, c);
      "url" in h && h["url"] == Str(url) && "companyId" !in h && "jobId" !in h
  {
  }

  /** The analyser.js record: its URL, the job's company, and `jobId` still null. */
  lemma LoggedIds(url: string, c: Captured, companyId: Value, urlExtras: map<string, Value>)
    ensures var r := LoggedOf(Head(url, c, companyId, urlExtras), c);
      r["url"] == Str(url) && r["companyId"] == companyId && r["jobId"] == Null
  {
    var head := Head(url, c, companyId, urlExtras);
    HeadFacts(url, c, companyId, urlExtras);
    ResponseEntity.DeclaredNames();
    LoggedHead(head, c, "url");
    LoggedHead(head, c, "companyId");
    LoggedHeadDefault(head, c, "jobId");
  }

  /** The puppeteer.js record: its URL, and `companyId` and `jobId` still null. */
  lemma StandaloneIds(url: string, c: Captured)
    ensures var r := LoggedOf(StandaloneHead(url, c), c);
      r["url"] == Str(url) && r["companyId"] == Null && r["jobId"] == Null
  {
    var head := StandaloneHead(url, c);
    HeadFacts(url, c, Null, map[]);
    ResponseEntity.DeclaredNames();
    LoggedHead(head, c, "url");
    LoggedHeadDefault(head, c, "companyId");
    LoggedHeadDefault(head, c, "jobId");
  }

  /** `config.company.id`. */
  function CompanyId(config: Value): (r: Result<Value, Exception>)
    ensures r.Failure? <==>
      config.Undefined? || config.Null? || Prop(config, "company").Undefined? || Prop(config, "company").Null?
    ensures r.Failure? ==> r.error == TypeError
  {
    var company :- Member(config, "company");
    Member(company, "id")
  }

  // ---------------------------------------------------------------------------
  // close(): the cookies, the summary and the status

  /** `allCookies.cookies.map(cookie => new eCookie(cookie))`, which throws on a null entry. */
  function CookiesOf(all: seq<Value>): (r: Result<seq<Value>, Exception>)
    ensures r.Failure? <==> exists k :: 0 <= k < |all| && all[k].Null?
    ensures r.Failure? ==> r.error == TypeError
    ensures r.Success? ==> |r.value| == |all|
    ensures r.Success? ==> forall k :: 0 <= k < |all| ==> r.value[k] == Obj(CookieEntity.CookieOf(all[k]).value)
  {
    if |all| == 0 then Success([])
    else
      var first :- CookieEntity.CookieOf(all[0]);
      var rest :- CookiesOf(all[1..]);
      assert forall k :: 1 <= k < |all| ==> all[k] == all[1..][k - 1];
      Success([Obj(first)] + rest)
  }

  /** The `map` over the browser's cookies, one `new eCookie` at a time. */
  method CollectCookies(all: seq<Value>) returns (r: Result<seq<Value>, Exception>)
    ensures r == CookiesOf(all)
  {
    var cookies: seq<Value> := [];
    for i := 0 to |all|
      invariant |cookies| == i
      invariant forall k :: 0 <= k < i ==> !all[k].Null? && cookies[k] == Obj(CookieEntity.CookieOf(all[k]).value)
    {
      var cookie := CookieEntity.Cookie.New(all[i]);
      if cookie.Failure? {
        return Failure(TypeError);
      }
      cookies := cookies + [Obj(cookie.value.props)];
    }
    assert CookiesOf(all).Success?;
    assert CookiesOf(all).value == cookies;
    return Success(cookies);
  }

  /**
   * The initializer of the `Resume` summary. Reading `config.queue_schedule_history.uuid`
   * or `config.company.id` throws when the middle object is missing.
   */
  function SummaryOf(workId: Value, config: Value, at: Value, requestCount: int, loadTime: Value,
                     cookies: seq<Value>, domains: seq<Value>): (r: Result<map<string, Value>, Exception>)
    ensures r.Success? ==> Get(r.value, "requestCount") == Number(FromInt(requestCount))
    ensures r.Success? ==> Get(r.value, "domains") == Arr(domains) && Get(r.value, "cookies") == Arr(cookies)
    ensures r.Success? ==> Get(r.value, "workId") == workId
  {
    if config.Undefined? || config.Null? then Failure(TypeError)
    else
      var scheduleHistoryId :- Member(Prop(config, "queue_schedule_history"), "uuid");
      var companyId :- Member(Prop(config, "company"), "id");
      Success(map[
        "workId" := workId, "scheduleId" := Prop(config, "external_id"),
        "scheduleHistoryId" := scheduleHistoryId, "companyId" := companyId, "at" := at,
        "url" := Prop(config, "url"), "urlHash" := Prop(config, "url_hash"),
        "requestCount" := Number(FromInt(requestCount)), "loadTime" := loadTime,
        "cookies" := Arr(cookies), "domains" := Arr(domains)])
  }

  /** The summary is built exactly when the configuration has its history and company objects. */
  lemma SummaryOfSucceeds(workId: Value, config: Value, at: Value, requestCount: int, loadTime: Value,
                          cookies: seq<Value>, domains: seq<Value>)
    ensures SummaryOf(workId, config, at, requestCount, loadTime, cookies, domains).Success? <==>
      && !config.Undefined? && !config.Null?
      && !Prop(config, "queue_schedule_history").Undefined? && !Prop(config, "queue_schedule_history").Null?
      && !Prop(config, "company").Undefined? && !Prop(config, "company").Null?
  {
  }

  /** The summary names the schedule history and the company the configuration's objects name. */
  lemma SummaryOfIds(workId: Value, config: Value, at: Value, requestCount: int, loadTime: Value,
                     cookies: seq<Value>, domains: seq<Value>, historyId: Value, companyId: Value)
    requires !config.Undefined? && !config.Null?
    requires Member(Prop(config, "queue_schedule_history"), "uuid") == Success(historyId)
    requires Member(Prop(config, "company"), "id") == Success(companyId)
    ensures var r := SummaryOf(workId, config, at, requestCount, loadTime, cookies, domains);
      r.Success? && r.value["scheduleHistoryId"] == historyId && r.value["companyId"] == companyId
  {
  }

  /** The built-in job always yields a summary, naming its schedule history and company. */
  lemma SummaryOfDefaultConfig(workId: Value, envUrl: Value, uuid: string, at: Value, loadTime: Value,
                               cookies: seq<Value>, domains: seq<Value>)
    ensures var r := SummaryOf(workId, DefaultConfig(envUrl, uuid), at, 0, loadTime, cookies, domains);
      r.Success? && r.value["scheduleHistoryId"] == Str(uuid) && r.value["companyId"] == Number(FromInt(1))
  {
    DefaultConfigIds(envUrl, uuid);
    SummaryOfIds(workId, DefaultConfig(envUrl, uuid), at, 0, loadTime, cookies, domains, Str(uuid), Number(FromInt(1)));
  }

  /** What a completed `close()` hands on: the summary, the records, and the status posted to the parent. */
  datatype Closing = Closing(summary: map<string, Value>, records: seq<map<string, Value>>, posted: Option<string>)

  /**
   * `close(brow, status, message)` in analyser.js once the event log and requests are
   * known: the cookies, then the correlator `t`, then the summary; a throw in any of
   * them rejects the call. A worker thread posts `{ status }` whether or not the
   * browser closes cleanly.
   */
  function CloseOutcome(workId: Value, status: string, allCookies: seq<Value>, t: Trace, config: Value,
                        at: Value, requestCount: int, loadTime: Value, domains: seq<Value>, inWorker: bool)
    : (r: Result<Closing, Exception>)
    ensures (exists k :: 0 <= k < |allCookies| && allCookies[k].Null?) ==> r == Failure(TypeError)
    ensures (forall k :: 0 <= k < |allCookies| ==> !allCookies[k].Null?) && t.error.Some? ==> r == Failure(t.error.value)
    ensures r.Success? ==> t.error.None? && r.value.records == t.records
    ensures r.Success? ==> (r.value.posted.Some? <==> inWorker) && (inWorker ==> r.value.posted == Some(status))
    ensures r.Success? ==>
      && Get(r.value.summary, "workId") == workId
      && Get(r.value.summary, "requestCount") == Number(FromInt(requestCount))
      && Get(r.value.summary, "domains") == Arr(domains)
      && Get(r.value.summary, "cookies") == Arr(CookiesOf(allCookies).value)
  {
    var cookies :- CookiesOf(allCookies);
    if t.error.Some? then Failure(t.error.value)
    else
      var summary :- SummaryOf(workId, config, at, requestCount, loadTime, cookies, domains);
      Success(Closing(summary, t.records, if inWorker then Some(status) else None))
  }

  // ---------------------------------------------------------------------------
  // The status a run reports

  /** How the worker's run ended: `run()` resolved, `run()` rejected with an error of this name, or the process timer fired. */
  datatype Termination = Completed | Threw(name: Value) | ProcessTimer

  /** The status analyser.js passes to `close()`. */
  function StatusOf(t: Termination): (r: string)
    ensures r in {"Done", "TimeoutBrowser", "Error", "TimeoutProcess"}
  {
    match t
    case Completed => "Done"
    case Threw(name) => if StrictEquals(Str("TimeoutError"), name) then "TimeoutBrowser" else "Error"
    case ProcessTimer => "TimeoutProcess"
  }

  /**
   * The four statuses name the four endings: normal completion, a navigation timeout
   * (an error named `TimeoutError`), any other error, and the process timer.
   */
  lemma StatusOfCases(t: Termination)
    ensures StatusOf(t) == "Done" <==> t.Completed?
    ensures StatusOf(t) == "TimeoutBrowser" <==> t == Threw(Str("TimeoutError"))
    ensures StatusOf(t) == "Error" <==> t.Threw? && t.name != Str("TimeoutError")
    ensures StatusOf(t) == "TimeoutProcess" <==> t.ProcessTimer?
  {
  }

  /** The status src/puppeteer/puppeteer.js passes to its `close()`. */
  function StandaloneStatusOf(t: Termination): (r: string)
    ensures r in {"Then :", "Catch :", "ProcessTimeout"}
  {
    match t
    case Completed => "Then :"
    case Threw(_) => "Catch :"
    case ProcessTimer => "ProcessTimeout"
  }

  /** The standalone statuses tell completion, error and timer apart, but not a navigation timeout. */
  lemma StandaloneStatusOfCases(t: Termination)
    ensures StandaloneStatusOf(t) == "Then :" <==> t.Completed?
    ensures StandaloneStatusOf(t) == "Catch :" <==> t.Threw?
    ensures StandaloneStatusOf(t) == "ProcessTimeout" <==> t.ProcessTimer?
    ensures StandaloneStatusOf(Threw(Str("TimeoutError"))) == StandaloneStatusOf(Threw(Str("Error")))
  {
  }

  /**
   * The statuses `close()` is called with for one ending of `run()`. A `close()` after
   * `Done` that throws sends the chain into its `catch`, which closes again with the
   * status of that error; a throw in the `catch` handler's own close is not caught.
   * `closeError` is the name of the error the first close throws, if it throws.
   */
  function ClosesAttempted(t: Termination, closeError: Option<Value>): (r: seq<string>)
    ensures 1 <= |r| <= 2 && r[0] == StatusOf(t)
  {
    match t
    case Completed =>
      if closeError.Some? then [StatusOf(Completed), StatusOf(Threw(closeError.value))] else [StatusOf(Completed)]
    case _ => [StatusOf(t)]
  }

  /**
   * The first close always reports how the run ended; there are at most two, and a
   * second one only follows a failing close of a completed run, reporting an error.
   */
  lemma ClosesAttemptedShape(t: Termination, closeError: Option<Value>)
    ensures var cs := ClosesAttempted(t, closeError);
      && 1 <= |cs| <= 2 && cs[0] == StatusOf(t)
      && (|cs| == 2 <==> t.Completed? && closeError.Some?)
      && (|cs| == 2 ==> cs[1] in {"Error", "TimeoutBrowser"})
  {
  }

  // ---------------------------------------------------------------------------
  // The worker

  /** `t` with `done` completed records in front. */
  function Prepend(done: seq<map<string, Value>>, t: Trace): Trace {
    Trace(done + t.records, t.log, t.error)
  }

  /**
   * The module state of src/puppeteer/analyser.js: the arrays the listeners append to,
   * the page load time and the request counter, and the work id drawn at load. The
   * standalone script src/puppeteer/puppeteer.js is this worker with no work id.
   */
  class Worker {
    /** `events`: every observed DevTools event, in arrival order. */
    var events: seq<Event>
    /** `requests`: one `Response` per logged response, in arrival order. */
    var requests: seq<Response>
    /** `domains`: the host names seen, without repeats. */
    var domains: seq<Value>
    /** The host name of every logged response, repeats included. */
    ghost var hostnames: seq<Value>
    /** `loadTime`: -1 until the page has loaded. */
    var loadTime: Value
    /** `requestCount`: reported in the summary and never incremented. */
    var requestCount: int
    /** The work id stamped on each record. */
    const workId: Option<Value>

    ghost predicate Valid()
      reads this
    {
      && (forall a, b :: 0 <= a < b < |requests| ==> requests[a] != requests[b])
      && domains == DomainsOf(hostnames)
      && requestCount == 0
    }

    /** The captured records, as values. */
    function Records(): (rs: seq<map<string, Value>>)
      reads this, requests
      ensures |rs| == |requests|
      ensures forall k :: 0 <= k < |requests| ==> rs[k] == requests[k].props
    {
      seq(|requests|, k reads this, requests requires 0 <= k < |requests| => requests[k].props)
    }

    /** The state at load: empty arrays, `loadTime = -1`, `requestCount = 0`. */
    constructor (workId: Option<Value>)
      ensures Valid()
      ensures events == [] && requests == [] && domains == [] && hostnames == []
      ensures loadTime == Number(MinusOne) && requestCount == 0 && this.workId == workId
    {
      events := [];
      requests := [];
      domains := [];
      hostnames := [];
      loadTime := Number(MinusOne);
      requestCount := 0;
      this.workId := workId;
    }

    /** The listener registered for each observed method: `events.push({ method, params })`. */
    method Observe(name: Method, params: map<string, Value>)
      requires Valid()
      modifies this
      ensures Valid()
      ensures events == old(events) + [Event(name, params)]
      ensures requests == old(requests) && domains == old(domains) && hostnames == old(hostnames)
      ensures loadTime == old(loadTime) && requestCount == old(requestCount)
    {
      events := events + [Event(name, params)];
    }

    /**
     * `logResponse` of analyser.js. `urlExtras` is what `url.parse(url)` returns and
     * `config` the job configuration. A `data:image` URL is skipped; otherwise the host
     * name is pushed if absent and a new `Response` is appended, unless reading
     * `config.company.id` throws first.
     */
    method LogResponse(url: string, c: Captured, urlExtras: map<string, Value>, config: Value)
      returns (error: Option<Exception>)
      requires Valid()
      modifies this
      ensures Valid()
      ensures events == old(events) && loadTime == old(loadTime) && requestCount == old(requestCount)
      ensures IsDataImage(url) ==>
        error.None? && requests == old(requests) && domains == old(domains) && hostnames == old(hostnames)
      ensures !IsDataImage(url) ==>
        && hostnames == old(hostnames) + [Get(urlExtras, "hostname")]
        && domains == AppendIfAbsent(old(domains), Get(urlExtras, "hostname"))
      ensures !IsDataImage(url) && CompanyId(config).Failure? ==>
        error == Some(CompanyId(config).error) && requests == old(requests)
      ensures !IsDataImage(url) && CompanyId(config).Success? ==>
        && error.None?
        && |requests| == |old(requests)| + 1 && requests[..|old(requests)|] == old(requests)
        && fresh(requests[|old(requests)|])
        && requests[|old(requests)|].props == LoggedOf(Head(url, c, CompanyId(config).value, urlExtras), c)
    {
      if IsDataImage(url) {
        return None;
      }
      RecordHostname(Get(urlExtras, "hostname"));
      var companyId := CompanyId(config);
      if companyId.Failure? {
        return Some(companyId.error);
      }
      var response := Push(LiteralObject(Head(url, c, companyId.value, urlExtras), c));
      assert requests[..|old(requests)|] == old(requests);
      return None;
    }

    /** `logResponse` of puppeteer.js: the same filter, no host names, no company. */
    method LogResponseStandalone(url: string, c: Captured)
      requires Valid()
      modifies this
      ensures Valid()
      ensures events == old(events) && domains == old(domains) && hostnames == old(hostnames)
      ensures loadTime == old(loadTime) && requestCount == old(requestCount)
      ensures IsDataImage(url) ==> requests == old(requests)
      ensures !IsDataImage(url) ==>
        && |requests| == |old(requests)| + 1 && requests[..|old(requests)|] == old(requests)
        && fresh(requests[|old(requests)|])
        && requests[|old(requests)|].props == LoggedOf(StandaloneHead(url, c), c)
    {
      if IsDataImage(url) {
        return;
      }
      var response := Push(LiteralObject(StandaloneHead(url, c), c));
      assert requests[..|old(requests)|] == old(requests);
    }

    /** `if (-1 === domains.indexOf(hostname)) domains.push(hostname)`. */
    method RecordHostname(hostname: Value)
      requires Valid()
      modifies this
      ensures Valid()
      ensures hostnames == old(hostnames) + [hostname] && domains == AppendIfAbsent(old(domains), hostname)
      ensures events == old(events) && requests == old(requests)
      ensures loadTime == old(loadTime) && requestCount == old(requestCount)
    {
      if IndexOfStrict(domains, hostname) == -1 {
        domains := domains + [hostname];
      }
      hostnames := hostnames + [hostname];
      assert hostnames[..|hostnames| - 1] == old(hostnames);
    }

    /** `requests.push(new eResponse(init))`. */
    method Push(init: map<string, Value>) returns (response: Response)
      requires Valid()
      modifies this
      ensures Valid()
      ensures requests == old(requests) + [response] && fresh(response)
      ensures response.props == CopyDeclared(ResponseEntity.Defaults(), init)
      ensures events == old(events) && domains == old(domains) && hostnames == old(hostnames)
      ensures loadTime == old(loadTime) && requestCount == old(requestCount)
    {
      response := new Response(init);
      assert response !in requests;
      requests := requests + [response];
      assert domains == DomainsOf(hostnames) && requestCount == 0;
      assert forall a, b :: 0 <= a < b < |requests| ==> requests[a] != requests[b];
    }

    /** `loadTime = perf.loadTime` once the page has loaded. */
    method RecordLoadTime(measured: Value)
      requires Valid()
      modifies this
      ensures Valid() && loadTime == measured
      ensures events == old(events) && requests == old(requests) && domains == old(domains)
      ensures hostnames == old(hostnames) && requestCount == old(requestCount)
    {
      loadTime := measured;
    }

    /** `events.find(...)` for the first event of this method and request. */
    method FindFirst(name: Method, requestId: Value) returns (r: Option<nat>)
      ensures r == FindEvent(events, name, requestId)
    {
      var i := 0;
      while i < |events|
        invariant 0 <= i <= |events|
        invariant forall j :: 0 <= j < i ==> !Matches(events[j], name, requestId)
      {
        if name == events[i].name && StrictEquals(requestId, Get(events[i].params, "requestId")) {
          FindEventIsFirst(events, name, requestId, i);
          return Some(i);
        }
        i := i + 1;
      }
      return None;
    }

    /** The `responseReceived` half of the callback, on the request object. */
    method ApplyTiming(request: Response, requestId: Value) returns (error: Option<Exception>)
      requires requestId == Get(request.props, "requestId")
      modifies request
      ensures var w := WithTiming(old(request.props), events);
        && (error.None? <==> w.Success?)
        && (w.Success? ==> request.props == w.value)
        && (w.Failure? ==> error == Some(w.error) && request.props == old(request.props))
    {
      var found := FindFirst(ResponseReceivedMethod, requestId);
      if found.Some? {
        var response := Get(events[found.value].params, "response");
        if response.Undefined? || response.Null? {
          return Some(TypeError);
        }
        var timing := Prop(response, "timing");
        var breakdown := ExtractTiming(timing);
        if breakdown.Failure? {
          return Some(breakdown.error);
        }
        ghost var before := request.props;
        request.props := request.props["timing" := breakdown.value.ToValue()];
        assert Get(request.props, "extras") == Get(before, "extras");
        request.props := request.props["extras" := Obj(Spread(Get(request.props, "extras"))["NetworkTiming" := timing])];
      }
      return None;
    }

    /** The `responseReceivedExtraInfo` half, on the request object and the matched event. */
    method ApplyExtraInfo(request: Response, requestId: Value) returns (error: Option<Exception>)
      requires requestId == Get(request.props, "requestId")
      modifies this, request
      ensures requests == old(requests) && domains == old(domains) && hostnames == old(hostnames)
      ensures loadTime == old(loadTime) && requestCount == old(requestCount)
      ensures var s := WithExtraInfo(old(request.props), old(events));
        request.props == s.record && events == s.log && error == s.error
    {
      var found := FindFirst(ExtraInfoMethod, requestId);
      if found.None? {
        return None;
      }
      var j := found.value;
      events := events[j := Stripped(events[j])];
      var event := events[j];
      request.props := request.props["extras" := Obj(Spread(Get(request.props, "extras"))[ExtraInfoKey := event.ToValue()])];
      var headers := Get(event.params, "headers");
      if headers.Undefined? || headers.Null? {
        return Some(TypeError);
      }
      var setCookie := Prop(headers, "Set-Cookie");
      if Truthy(setCookie) {
        if !setCookie.Str? {
          return Some(TypeError);
        }
        request.props := request.props["cookies" := Arr(CookieValues(Split(setCookie.s, '\n')))];
      }
      return None;
    }

    /** One call of the `requests.map` callback: both halves, then the work id stamp. */
    method FinalizeRequest(request: Response) returns (error: Option<Exception>)
      modifies this, request
      ensures requests == old(requests) && domains == old(domains) && hostnames == old(hostnames)
      ensures loadTime == old(loadTime) && requestCount == old(requestCount)
      ensures var s := FinalizeStep(old(request.props), old(events), workId);
        request.props == s.record && events == s.log && error == s.error
    {
      ghost var record := request.props;
      ghost var log := events;
      FinalizeStepFrame(record, log, workId);
      var requestId := Get(request.props, "requestId");
      error := ApplyTiming(request, requestId);
      if error.Some? {
        return;
      }
      WithTimingFrame(record, log);
      error := ApplyExtraInfo(request, requestId);
      if error.Some? {
        return;
      }
      if workId.Some? {
        request.props := request.props["workId" := workId.value];
      }
    }

    /**
     * The `copyRequests` map of `close()`: every request object is completed in place,
     * in order, and the records come back as the map's result; a throw stops the map
     * and leaves the later requests as they were.
     */
    method CopyRequests() returns (r: Result<seq<map<string, Value>>, Exception>)
      requires Valid()
      modifies this, requests
      ensures Valid()
      ensures requests == old(requests) && domains == old(domains) && hostnames == old(hostnames)
      ensures loadTime == old(loadTime) && requestCount == old(requestCount)
      ensures var t := CorrelateAll(old(Records()), old(events), workId);
        && events == t.log && Records() == t.records
        && r == (if t.error.None? then Success(t.records) else Failure(t.error.value))
    {
      ghost var recs0 := Records();
      ghost var log0 := events;
      var out: seq<map<string, Value>> := [];
      var i := 0;
      while i < |requests|
        invariant 0 <= i <= |requests| == |recs0|
        invariant Valid()
        invariant requests == old(requests) && domains == old(domains) && hostnames == old(hostnames)
        invariant loadTime == old(loadTime) && requestCount == old(requestCount)
        invariant |out| == i
        invariant forall k :: 0 <= k < i ==> requests[k].props == out[k]
        invariant forall k :: i <= k < |requests| ==> requests[k].props == recs0[k]
        invariant CorrelateAll(recs0, log0, workId) == Prepend(out, CorrelateAll(recs0[i..], events, workId))
      {
        var error := FinalizeNext(i, recs0, log0, out);
        if error.Some? {
          return Failure(error.value);
        }
        out := out + [requests[i].props];
        i := i + 1;
      }
      assert Records() == out;
      return Success(out);
    }

    /**
     * One turn of the `copyRequests` map: the request at `i` is completed in place, and
     * the map's result so far grows by its record, or the map stops with its throw.
     */
    method FinalizeNext(i: nat, ghost recs0: seq<map<string, Value>>, ghost log0: seq<Event>,
                        ghost out: seq<map<string, Value>>) returns (error: Option<Exception>)
      requires Valid() && i < |requests| == |recs0| && |out| == i
      requires forall k :: 0 <= k < i ==> requests[k].props == out[k]
      requires forall k :: i <= k < |requests| ==> requests[k].props == recs0[k]
      requires CorrelateAll(recs0, log0, workId) == Prepend(out, CorrelateAll(recs0[i..], events, workId))
      modifies this, requests[i]
      ensures Valid() && requests == old(requests) && domains == old(domains) && hostnames == old(hostnames)
      ensures loadTime == old(loadTime) && requestCount == old(requestCount)
      ensures forall k :: 0 <= k < |requests| && k != i ==> requests[k].props == old(requests[k].props)
      ensures error.Some? ==> CorrelateAll(recs0, log0, workId) == Trace(Records(), events, error)
      ensures error.None? ==>
        CorrelateAll(recs0, log0, workId) == Prepend(out + [requests[i].props], CorrelateAll(recs0[i + 1..], events, workId))
    {
      ghost var before := events;
      error := FinalizeAt(i);
      if error.Some? {
        CorrelateAllStop(recs0, log0, out, i, before, workId);
        RecordsAt(i, out, recs0);
      } else {
        CorrelateAllGo(recs0, log0, out, i, before, workId);
      }
    }

    /** The records of a map stopped at `i`: those done before it, its own, and the untouched rest. */
    lemma RecordsAt(i: nat, out: seq<map<string, Value>>, recs0: seq<map<string, Value>>)
      requires i < |requests| == |recs0| && |out| == i
      requires forall k :: 0 <= k < i ==> requests[k].props == out[k]
      requires forall k :: i < k < |requests| ==> requests[k].props == recs0[k]
      ensures Records() == out + [requests[i].props] + recs0[i + 1..]
    {
    }

    /** The callback on the request at `i`, which is the only request it changes. */
    method FinalizeAt(i: nat) returns (error: Option<Exception>)
      requires Valid() && i < |requests|
      modifies this, requests[i]
      ensures Valid() && requests == old(requests) && domains == old(domains) && hostnames == old(hostnames)
      ensures loadTime == old(loadTime) && requestCount == old(requestCount)
      ensures forall k :: 0 <= k < |requests| && k != i ==> requests[k].props == old(requests[k].props)
      ensures var s := FinalizeStep(old(requests[i].props), old(events), workId);
        requests[i].props == s.record && events == s.log && error == s.error
    {
      var request := requests[i];
      assert forall k :: 0 <= k < |requests| && k != i ==> requests[k] != request;
      error := FinalizeRequest(request);
    }

    /**
     * `close(brow, status, message)` of analyser.js: the browser's cookies, the
     * correlator, the summary and the status posted to the parent. Saving to the
     * database and closing the browser are left out.
     */
    method Close(status: string, allCookies: seq<Value>, config: Value, at: Value, inWorker: bool)
      returns (r: Result<Closing, Exception>)
      requires Valid() && workId.Some?
      modifies this, requests
      ensures Valid()
      ensures requests == old(requests) && domains == old(domains) && hostnames == old(hostnames)
      ensures loadTime == old(loadTime) && requestCount == old(requestCount)
      ensures var t := CorrelateAll(old(Records()), old(events), workId);
        && r == CloseOutcome(workId.value, status, allCookies, t, config, at, requestCount, loadTime, domains, inWorker)
        && (CookiesOf(allCookies).Failure? ==> events == old(events) && Records() == old(Records()))
        && (CookiesOf(allCookies).Success? ==> events == t.log && Records() == t.records)
    {
      ghost var t := CorrelateAll(Records(), events, workId);
      var cookies := CollectCookies(allCookies);
      assert Records() == old(Records()) && events == old(events);
      if cookies.Failure? {
        return Failure(cookies.error);
      }
      var copyRequests := CopyRequests();
      assert copyRequests.Failure? <==> t.error.Some?;
      if copyRequests.Failure? {
        return Failure(copyRequests.error);
      }
      assert copyRequests.value == t.records;
      var summary := SummaryOf(workId.value, config, at, requestCount, loadTime, cookies.value, domains);
      if summary.Failure? {
        return Failure(summary.error);
      }
      var posted := if inWorker then Some(status) else None;
      return Success(Closing(summary.value, copyRequests.value, posted));
    }
  }
}
