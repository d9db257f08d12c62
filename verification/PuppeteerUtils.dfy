/**
 * The worker-side helpers of src/utils/puppeteer.js: the HAR-style timing breakdown
 * of one response, the browser executable path, and the job configuration taken from
 * the worker's input. src/puppeteer/puppeteer.js carries a copy of `extractTiming` with
 * the same text; this one definition stands for both.
 */
module PuppeteerUtils {
  import opened Js
  import opened Utils

  /**
   * The breakdown `extractTiming` returns, shaped like the "timings" object of HAR 1.2:
   * each phase is -1 when it does not apply, and `time` is the total duration.
   */
  datatype Breakdown = Breakdown(
    blocked: Num, dns: Num, connect: Num, send: Num, wait: Num, receive: Num, ssl: Num, time: Num)
  {
    /** The object literal the function returns. */
    function ToValue(): Value {
      Obj(ObjectOf([
        ("blocked", Number(blocked)), ("dns", Number(dns)), ("connect", Number(connect)),
        ("send", Number(send)), ("wait", Number(wait)), ("receive", Number(receive)),
        ("ssl", Number(ssl)), ("time", Number(time))]))
    }
  }

  /** `timing.key`, read as a number. */
  function Reading(timing: Value, key: string): Num
    requires !timing.Undefined? && !timing.Null?
  {
    ToNumber(Prop(timing, key))
  }

  /** The three phase starts `blocked` looks at, in order. */
  function BlockedCandidates(timing: Value): seq<Value>
    requires !timing.Undefined? && !timing.Null?
  {
    [Prop(timing, "dnsStart"), Prop(timing, "connectStart"), Prop(timing, "sendStart")]
  }

  /** The total: blocked, dns and connect counted only when positive (`Math.max(0, x)`), then send, wait and receive. */
  function Total(blocked: Num, dns: Num, connect: Num, send: Num, wait: Num, receive: Num): (r: Num)
    ensures r.Finite? ==> blocked.Finite? && dns.Finite? && connect.Finite? && send.Finite? && wait.Finite? && receive.Finite?
  {
    Add(Add(Add(Add(Add(Max0(blocked), Max0(dns)), Max0(connect)), send), wait), receive)
  }

  /**
   * `extractTiming(timing)` over a DevTools `ResourceTiming` payload. Reading
   * `timing.dnsStart` throws when the payload is undefined or null.
   */
  function ExtractTiming(timing: Value): (r: Result<Breakdown, Exception>)
    ensures r.Failure? <==> timing.Undefined? || timing.Null?
    ensures r.Success? ==> r.value.receive == Finite(0)
  {
    if timing.Undefined? || timing.Null? then Failure(TypeError)
    else
      var blocked := FormatMillis(FirstNonNegativeOf(BlockedCandidates(timing)));
      var dns := ParseOptionalTime(timing, "dnsStart", "dnsEnd").value;
      var connect := ParseOptionalTime(timing, "connectStart", "connectEnd").value;
      var send := FormatMillis(Number(Sub(Reading(timing, "sendEnd"), Reading(timing, "sendStart"))));
      var wait := FormatMillis(Number(Sub(Reading(timing, "receiveHeadersEnd"), Reading(timing, "sendEnd"))));
      var receive := Finite(0);
      var ssl := ParseOptionalTime(timing, "sslStart", "sslEnd").value;
      var time := Total(blocked, dns, connect, send, wait, receive);
      Success(Breakdown(blocked, dns, connect, send, wait, receive, ssl, time))
  }

  /**
   * `blocked` is -1 exactly when none of dnsStart, connectStart, sendStart is `>= 0`;
   * otherwise it is the first of them that is, rounded, and not negative.
   */
  lemma ExtractTimingBlocked(timing: Value)
    requires !timing.Undefined? && !timing.Null?
    ensures var b := ExtractTiming(timing).value.blocked;
      var starts := BlockedCandidates(timing);
      && (b == MinusOne <==> forall j :: 0 <= j < 3 ==> !AtLeastZero(starts[j]))
      && (b != MinusOne ==>
            b.Finite? && b.units >= 0 &&
            exists i :: IsFirstNonNegativeAt(starts, i) && b == FormatMillis(starts[i]))
  {
    var starts := BlockedCandidates(timing);
    assert ExtractTiming(timing).value.blocked == FormatMillis(FirstNonNegativeOf(starts));
    RoundedFirstNonNegative(starts);
  }

  /** Rounding the first non-negative element: -1 stays -1, anything else stays non-negative. */
  lemma RoundedFirstNonNegative(starts: seq<Value>)
    ensures var b := FormatMillis(FirstNonNegativeOf(starts));
      && (b == MinusOne <==> forall j :: 0 <= j < |starts| ==> !AtLeastZero(starts[j]))
      && (b != MinusOne ==>
            b.Finite? && b.units >= 0 &&
            exists i :: IsFirstNonNegativeAt(starts, i) && b == FormatMillis(starts[i]))
  {
    FirstNonNegativeOfIsFirst(starts);
    var first := FirstNonNegativeOf(starts);
    if first != Number(MinusOne) {
      assert AtLeastZero(first);
      assert FormatMillis(first).units >= 0;
    }
  }

  /**
   * The optional phases: dns, connect and ssl are each -1 when their start is not
   * `>= 0`, and otherwise their rounded end-minus-start; send and wait are always
   * computed, with no clamping.
   */
  lemma ExtractTimingPhases(timing: Value)
    requires !timing.Undefined? && !timing.Null?
    ensures var t := ExtractTiming(timing).value;
      && t.dns == (if AtLeastZero(Prop(timing, "dnsStart"))
                   then Round3(Sub(Reading(timing, "dnsEnd"), Reading(timing, "dnsStart"))) else MinusOne)
      && t.connect == (if AtLeastZero(Prop(timing, "connectStart"))
                   then Round3(Sub(Reading(timing, "connectEnd"), Reading(timing, "connectStart"))) else MinusOne)
      && t.ssl == (if AtLeastZero(Prop(timing, "sslStart"))
                   then Round3(Sub(Reading(timing, "sslEnd"), Reading(timing, "sslStart"))) else MinusOne)
      && t.send == Round3(Sub(Reading(timing, "sendEnd"), Reading(timing, "sendStart")))
      && t.wait == Round3(Sub(Reading(timing, "receiveHeadersEnd"), Reading(timing, "sendEnd")))
  {
    var t := ExtractTiming(timing).value;
    assert t.dns == ParseOptionalTime(timing, "dnsStart", "dnsEnd").value;
    assert t.connect == ParseOptionalTime(timing, "connectStart", "connectEnd").value;
    assert t.ssl == ParseOptionalTime(timing, "sslStart", "sslEnd").value;
    OptionalPhase(timing, "dnsStart", "dnsEnd");
    OptionalPhase(timing, "connectStart", "connectEnd");
    OptionalPhase(timing, "sslStart", "sslEnd");
  }

  /** `parseOptionalTime` in terms of the two readings. */
  lemma OptionalPhase(timing: Value, start: string, end: string)
    requires !timing.Undefined? && !timing.Null?
    ensures ParseOptionalTime(timing, start, end).value ==
      if AtLeastZero(Prop(timing, start)) then Round3(Sub(Reading(timing, end), Reading(timing, start)))
      else MinusOne
  {
  }
  /** A sum of numbers with three fractional digits has three fractional digits. */
  lemma AddThreeDigits(a: Num, b: Num)
    requires ThreeDigits(a) && ThreeDigits(b)
    ensures ThreeDigits(Add(a, b))
  {
    if a.Finite? && b.Finite? {
      var qa, qb := a.units / Quantum, b.units / Quantum;
      assert a.units == qa * Quantum && b.units == qb * Quantum;
      assert a.units + b.units == (qa + qb) * Quantum;
    }
  }

  /** `Math.max(0, x)` keeps three fractional digits. */
  lemma Max0ThreeDigits(a: Num)
    requires ThreeDigits(a)
    ensures ThreeDigits(Max0(a))
  {
  }

  /** A total of phases with three fractional digits has three fractional digits. */
  lemma TotalThreeDigits(a: Num, b: Num, c: Num, d: Num, e: Num, f: Num)
    requires ThreeDigits(a) && ThreeDigits(b) && ThreeDigits(c) && ThreeDigits(d) && ThreeDigits(e)
    requires ThreeDigits(f)
    ensures ThreeDigits(Total(a, b, c, d, e, f))
  {
    Max0ThreeDigits(a);
    Max0ThreeDigits(b);
    Max0ThreeDigits(c);
    var ab := Add(Max0(a), Max0(b));
    AddThreeDigits(Max0(a), Max0(b));
    AddThreeDigits(ab, Max0(c));
    var abc := Add(ab, Max0(c));
    AddThreeDigits(abc, d);
    AddThreeDigits(Add(abc, d), e);
    AddThreeDigits(Add(Add(abc, d), e), f);
  }

  /** Every field of the breakdown already has three fractional digits (or is NaN). */
  lemma ExtractTimingRounded(timing: Value)
    requires !timing.Undefined? && !timing.Null?
    ensures var t := ExtractTiming(timing).value;
      && ThreeDigits(t.blocked) && ThreeDigits(t.dns) && ThreeDigits(t.connect) && ThreeDigits(t.send)
      && ThreeDigits(t.wait) && ThreeDigits(t.receive) && ThreeDigits(t.ssl) && ThreeDigits(t.time)
  {
    var t := ExtractTiming(timing).value;
    TotalThreeDigits(t.blocked, t.dns, t.connect, t.send, t.wait, t.receive);
  }

  /**
   * When the seven readings `time` depends on are numbers, `time` is the sum of the
   * non-sentinel phases other than ssl: blocked, dns and connect counted only when
   * positive, plus send and wait (receive being 0).
   */
  lemma ExtractTimingTotal(timing: Value)
    requires !timing.Undefined? && !timing.Null?
    requires Reading(timing, "dnsStart").Finite? && Reading(timing, "dnsEnd").Finite?
    requires Reading(timing, "connectStart").Finite? && Reading(timing, "connectEnd").Finite?
    requires Reading(timing, "sendStart").Finite? && Reading(timing, "sendEnd").Finite?
    requires Reading(timing, "receiveHeadersEnd").Finite?
    ensures var t := ExtractTiming(timing).value;
      && t.time.Finite? && t.blocked.Finite? && t.dns.Finite? && t.connect.Finite?
      && t.send.Finite? && t.wait.Finite?
      && t.time.units == (if t.blocked.units > 0 then t.blocked.units else 0)
                       + (if t.dns.units > 0 then t.dns.units else 0)
                       + (if t.connect.units > 0 then t.connect.units else 0)
                       + t.send.units + t.wait.units
      && t.time.units % Quantum == 0
  {
    var t := ExtractTiming(timing).value;
    ExtractTimingPhases(timing);
    ExtractTimingRounded(timing);
    var first := FirstNonNegativeOf(BlockedCandidates(timing));
    assert ToNumber(first).Finite?;
    assert t.blocked == Round3(ToNumber(first));
    assert t.time == Total(t.blocked, t.dns, t.connect, t.send, t.wait, Finite(0));
  }

  /** `time` is NaN exactly when a reading it needs is missing (or not a number). */
  lemma ExtractTimingTotalNaN(timing: Value)
    requires !timing.Undefined? && !timing.Null?
    ensures ExtractTiming(timing).value.time.NaN? <==>
      || Reading(timing, "sendStart").NaN?
      || Reading(timing, "sendEnd").NaN?
      || Reading(timing, "receiveHeadersEnd").NaN?
      || (AtLeastZero(Prop(timing, "dnsStart")) && Reading(timing, "dnsEnd").NaN?)
      || (AtLeastZero(Prop(timing, "connectStart")) && Reading(timing, "connectEnd").NaN?)
  {
    var t := ExtractTiming(timing).value;
    assert t.time == Total(t.blocked, t.dns, t.connect, t.send, t.wait, Finite(0));
    TotalNaN(t.blocked, t.dns, t.connect, t.send, t.wait, Finite(0));
    assert t.blocked.Finite? by {
      RoundedFirstNonNegative(BlockedCandidates(timing));
    }
    assert t.dns.NaN? <==> AtLeastZero(Prop(timing, "dnsStart")) && Reading(timing, "dnsEnd").NaN? by {
      OptionalPhaseNaN(timing, "dnsStart", "dnsEnd");
    }
    assert t.connect.NaN? <==> AtLeastZero(Prop(timing, "connectStart")) && Reading(timing, "connectEnd").NaN? by {
      OptionalPhaseNaN(timing, "connectStart", "connectEnd");
    }
    SendWaitNaN(timing);
  }

  /** send and wait are NaN exactly when one of their two readings is. */
  lemma SendWaitNaN(timing: Value)
    requires !timing.Undefined? && !timing.Null?
    ensures var t := ExtractTiming(timing).value;
      && (t.send.NaN? <==> Reading(timing, "sendEnd").NaN? || Reading(timing, "sendStart").NaN?)
      && (t.wait.NaN? <==> Reading(timing, "receiveHeadersEnd").NaN? || Reading(timing, "sendEnd").NaN?)
  {
    ExtractTimingPhases(timing);
  }

  /** A measured phase is NaN exactly when it is measured and its end reading is not a number. */
  lemma OptionalPhaseNaN(timing: Value, start: string, end: string)
    requires !timing.Undefined? && !timing.Null?
    ensures ParseOptionalTime(timing, start, end).value.NaN? <==>
      AtLeastZero(Prop(timing, start)) && Reading(timing, end).NaN?
  {
  }

  /** The total is NaN exactly when one of its terms is. */
  lemma TotalNaN(a: Num, b: Num, c: Num, d: Num, e: Num, f: Num)
    ensures Total(a, b, c, d, e, f).NaN? <==> a.NaN? || b.NaN? || c.NaN? || d.NaN? || e.NaN? || f.NaN?
  {
  }
  /** As in HAR, ssl never contributes to `time`: two payloads that differ only in sslStart and sslEnd give the same breakdown apart from ssl. */
  lemma SslNotInTotal(a: map<string, Value>, b: map<string, Value>)
    requires forall k :: k != "sslStart" && k != "sslEnd" ==> Get(a, k) == Get(b, k)
    ensures var ta, tb := ExtractTiming(Obj(a)).value, ExtractTiming(Obj(b)).value;
      ta.(ssl := tb.ssl) == tb
  {
    assert Get(a, "dnsStart") == Get(b, "dnsStart");
    assert Get(a, "dnsEnd") == Get(b, "dnsEnd");
    assert Get(a, "connectStart") == Get(b, "connectStart");
    assert Get(a, "connectEnd") == Get(b, "connectEnd");
    assert Get(a, "sendStart") == Get(b, "sendStart");
    assert Get(a, "sendEnd") == Get(b, "sendEnd");
    assert Get(a, "receiveHeadersEnd") == Get(b, "receiveHeadersEnd");
  }

  // ---------------------------------------------------------------------------
  // chromePath

  const MacChromePath: string := "/Applications/Google Chrome.app/Contents/MacOS/Google Chrome"
  const LinuxChromePath: string := "/usr/bin/google-chrome"

  /**
   * `chromePath()`: the EXECPATH environment variable when it is set, else the
   * platform's Chrome path; other platforms throw.
   */
  function ChromePath(env: map<string, string>, platform: string): (r: Result<string, Exception>)
    ensures "EXECPATH" in env ==> r == Success(env["EXECPATH"])
    ensures r.Failure? <==> "EXECPATH" !in env && platform !in {"darwin", "freebsd", "linux"}
  {
    if "EXECPATH" in env then Success(env["EXECPATH"])
    else if platform == "darwin" then Success(MacChromePath)
    else if platform == "freebsd" || platform == "linux" then Success(LinuxChromePath)
    else Failure(Error("Chrome path unknown"))
  }

  /** Without EXECPATH, darwin gets the macOS application path and linux and freebsd the system one. */
  lemma ChromePathByPlatform(env: map<string, string>)
    requires "EXECPATH" !in env
    ensures ChromePath(env, "darwin") == Success(MacChromePath)
    ensures ChromePath(env, "linux") == Success(LinuxChromePath)
    ensures ChromePath(env, "freebsd") == Success(LinuxChromePath)
    ensures ChromePath(env, "win32").Failure? && ChromePath(env, "sunos").Failure?
  {
  }

  // ---------------------------------------------------------------------------
  // defaultConfig and extractConfig

  const DefaultUrl: string := "http://api.ohmytech.local/static/vastplayer.html"
  const DefaultUserAgent: string :=
    "Mozilla/5.0 (Macintosh; Intel Mac OS X 10_15_4) AppleWebKit/537.36 (KHTML, like Gecko) Chrome/81.0.4044.113 Safari/537.36"

  /**
   * The built-in job used when the worker gets no input. `envUrl` is the URL
   * environment variable (`process.env.URL || ...`); `uuid` is the one drawn at load.
   */
  function DefaultConfig(envUrl: Value, uuid: string): (c: Value)
    ensures c.Obj? && "url" in c.props && "company" in c.props && "queue_schedule_history" in c.props
  {
    Obj(map[
      "id" := Number(FromInt(1)),
      "name" := Str("demo"),
      "url" := if Truthy(envUrl) then envUrl else Str(DefaultUrl),
      "url_hash" := Str("a005e03a30a81f7897630d51ad1678c0e2fb42fe"),
      "enabled" := Bool(true),
      "external_id" := Str("external_id"),
      "config" := Obj(map["user_agent" := Str(DefaultUserAgent)]),
      "queue_schedule_history" := Obj(map[
        "id" := Number(FromInt(1)), "uuid" := Str(uuid), "status" := Number(FromInt(0)),
        "scheduled_start_date" := Str(""), "scheduled_end_date" := Str(""),
        "queue_scheduler_id" := Number(FromInt(5))]),
      "queue_type" := Obj(map[
        "id" := Number(FromInt(1)), "name" := Str("analyser"), "config" := Obj(map[]),
        "enabled" := Bool(false), "external_id" := Str("external_id")]),
      "company" := Obj(map[
        "id" := Number(FromInt(1)), "name" := Str("Company 1"), "enabled" := Bool(true),
        "external_id" := Str("external_id"),
        "country" := Obj(map["id" := Number(FromInt(1)), "name" := Str("France"), "iso" := Str("FR")])])
    ])
  }

  /** The built-in job names its schedule history by the drawn uuid and its company by id 1. */
  lemma DefaultConfigIds(envUrl: Value, uuid: string)
    ensures Member(Prop(DefaultConfig(envUrl, uuid), "queue_schedule_history"), "uuid") == Success(Str(uuid))
    ensures Member(Prop(DefaultConfig(envUrl, uuid), "company"), "id") == Success(Number(FromInt(1)))
  {
  }

  /**
   * `extractConfig(workerData)`: the parsed input when it is truthy, else the default.
   * `parse` stands for `JSON.parse`, which converts its argument to a string and may throw.
   */
  function ExtractConfig(workerData: Value, parse: string -> Result<Value, Exception>, defaultConfig: Value)
    : (r: Result<Value, Exception>)
    ensures !Truthy(workerData) ==> r == Success(defaultConfig)
    ensures Truthy(workerData) ==> r == parse(ToString(workerData))
  {
    if Truthy(workerData) then parse(ToString(workerData)) else Success(defaultConfig)
  }
}
