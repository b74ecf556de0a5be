/** The FN forum check-in script: obtain the `sign` token from the check-in
    page, request the check-in URL carrying it, confirm on the page that
    today is checked in, scrape seven counters from that page, merge them
    into the JSON record on disk and notify. Every step runs inside a
    three-attempt retry decorator. The network is an input (`net`), and so
    are the date and the `PV_COOKIE` variable. */
module FNAttendance {
  import opened Wrappers
  import opened Strings
  import opened Retrying
  import opened Web
  import opened Patterns

  const BasicUrl: string := "https://club.fnnas.com/plugin.php?id=zqlj_sign"

  /** The text that proves today's check-in on the verification page. */
  const Checked: string := "今日已打卡"

  const NeverAttended: string := "0000-00-00"

  function SignUrl(sign: string): string {
    BasicUrl + "&sign=" + sign
  }

  // ---------------------------------------------------------------------
  // The retry decorator
  // ---------------------------------------------------------------------

  /** `RetryDecorator(max_retries, delay)`; the delay only sleeps. */
  datatype RetryDecorator = RetryDecorator(maxRetries: int, delay: int) {
    /** The decorated call: invoke `op` until it returns, at most
        `maxRetries` times, then raise. */
    method Call<T>(op: nat -> Attempt<T>) returns (r: RetryOutcome<T>)
      ensures r == Retry(op, maxRetries)
      ensures r.Done? ==> 1 <= r.calls <= AttemptBound(maxRetries) && op(r.calls - 1) == Ok(r.value)
      ensures r.Exhausted? ==> forall i :: 0 <= i < AttemptBound(maxRetries) ==> op(i).Raised?
    {
      r := RetryLoop(op, maxRetries);
    }
  }

  /** Both client methods are decorated with `max_retries=3`. */
  const Decorator: RetryDecorator := RetryDecorator(3, 1)

  // ---------------------------------------------------------------------
  // Requests
  // ---------------------------------------------------------------------

  /** Which GET a request is: the page read by `fetch_sign`, the check-in
      URL, or the verification read in `perform_attendance`. */
  datatype Step = FetchSignStep | SignInStep | VerifyStep

  /** A GET made by invocation `attempt` of a decorated method. */
  datatype Request = Request(step: Step, attempt: nat, url: string)

  // ---------------------------------------------------------------------
  // fetch_sign
  // ---------------------------------------------------------------------

  /** `sign=([A-Za-z0-9]+)` */
  const SignPattern: Pattern := Pattern("sign=", RunOf(AsciiAlnum))

  /** What the search for a run pattern returns is a non-empty run of the
      class that stands right after the prefix somewhere in the text. */
  lemma SearchRunFound(text: string, p: Pattern)
    requires p.group.RunOf? && Search(text, p).Some?
    ensures var v := Search(text, p).value;
            && v != [] && (forall k :: 0 <= k < |v| ==> InClass(p.group.cls, v[k]))
            && Contains(text, p.prefix + v)
  {
    var v := Search(text, p).value;
    var i :| 0 <= i <= |text| && MatchAt(text, p, i) == Some(v);
    RunMatchOccurs(text, p, i, v);
  }

  lemma RunMatchOccurs(text: string, p: Pattern, i: nat, v: string)
    requires p.group.RunOf? && i <= |text| && MatchAt(text, p, i) == Some(v)
    ensures v != [] && (forall k :: 0 <= k < |v| ==> InClass(p.group.cls, v[k]))
    ensures OccursAt(text, p.prefix + v, i)
  {
    MatchRunMeaning(text, p, i);
    var s := i + |p.prefix|;
    assert text[i..s] == p.prefix;
    assert text[s..s + |v|] == v;
    assert text[i..s + |v|] == p.prefix + v;
  }

  /** One invocation of `fetch_sign`: the token of the page, or an
      exception (failed GET, or no token on the page). */
  function SignAttempt(response: Response): (a: Attempt<string>)
    ensures a.Ok? <==> response.Page? && Search(response.text, SignPattern).Some?
    ensures a.Ok? ==> a.value != [] && (forall k :: 0 <= k < |a.value| ==> InClass(AsciiAlnum, a.value[k]))
                      && Contains(response.text, "sign=" + a.value)
  {
    if !response.Page? then Raised
    else
      match Search(response.text, SignPattern)
      case Some(token) =>
        SearchRunFound(response.text, SignPattern);
        Ok(token)
      case None => Raised
  }

  /** A page whose first `sign=` is followed by an alphanumeric token (and
      then by anything else) yields exactly that token. */
  lemma SignOfPage(pre: string, token: string, post: string)
    requires token != [] && forall k :: 0 <= k < |token| ==> InClass(AsciiAlnum, token[k])
    requires post == [] || !InClass(AsciiAlnum, post[0])
    requires !Contains(pre, "sign=")
    ensures SignAttempt(Page(pre + "sign=" + token + post)) == Ok(token)
  {
    NoEarlierSign(pre, token + post);
    assert pre + "sign=" + (token + post) == pre + "sign=" + token + post;
    SearchFindsRun(pre, "sign=", AsciiAlnum, token, post);
  }

  lemma NoEarlierSign(pre: string, rest: string)
    requires !Contains(pre, "sign=")
    ensures forall k :: 0 <= k < |pre| ==> !OccursAt(pre + "sign=" + rest, "sign=", k)
  {
    var text := pre + "sign=" + rest;
    forall k | 0 <= k < |pre| ensures !OccursAt(text, "sign=", k) {
      if k + 5 <= |pre| {
        assert !OccursAt(pre, "sign=", k);
        assert text[k..k + 5] == pre[k..k + 5];
      } else {
        assert text[k + 4] == "sign="[k + 4 - |pre|] && text[k..k + 5][4] == text[k + 4];
      }
    }
  }

  function SignOp(net: Request -> Response): nat -> Attempt<string> {
    (attempt: nat) => SignAttempt(net(Request(FetchSignStep, attempt, BasicUrl)))
  }

  /** The GETs of `calls` invocations of `fetch_sign`: one each. */
  function SignLog(calls: nat): (log: seq<Request>)
    ensures |log| == calls
    ensures forall k :: 0 <= k < calls ==> log[k] == Request(FetchSignStep, k, BasicUrl)
  {
    seq(calls, (k: nat) => Request(FetchSignStep, k, BasicUrl))
  }

  /** The decorated `fetch_sign` GETs the check-in page at least once and
      at most three times, and a token it returns was read from the last
      page it fetched. */
  lemma SignFetchRequests(net: Request -> Response)
    ensures var s := Retry(SignOp(net), Decorator.maxRetries);
            var log := SignLog(s.calls);
            && 1 <= |log| <= 3
            && (forall k :: 0 <= k < |log| ==> log[k].step == FetchSignStep && log[k].url == BasicUrl)
            && (s.Done? ==> SignAttempt(net(log[|log| - 1])) == Ok(s.value))
  {
  }

  // ---------------------------------------------------------------------
  // _parse_attendance_details
  // ---------------------------------------------------------------------

  /** The seven detail patterns, in the order the parser tries them. */
  const DetailPatterns: seq<(string, Pattern)> := [
    ("recently_attendance", Pattern("最近打卡：", Timestamp)),
    ("month_attendance_times", Pattern("本月打卡：", RunOf(Digit))),
    ("continue_attendance_times", Pattern("连续打卡：", RunOf(Digit))),
    ("total_attendance_times", Pattern("累计打卡：", RunOf(Digit))),
    ("total_reward", Pattern("累计奖励：", RunOf(Digit))),
    ("recently_reward", Pattern("最近奖励：", RunOf(Digit))),
    ("level", Pattern("当前打卡等级：", LazyUntil("</li>")))
  ]

  const DetailKeys: seq<string> := [
    "recently_attendance", "month_attendance_times", "continue_attendance_times",
    "total_attendance_times", "total_reward", "recently_reward", "level"
  ]

  const DetailKeySet: set<string> := {
    "recently_attendance", "month_attendance_times", "continue_attendance_times",
    "total_attendance_times", "total_reward", "recently_reward", "level"
  }

  lemma DetailKeySetIsKeys()
    ensures forall k :: k in DetailKeySet <==> k in DetailKeys
  {
  }

  predicate DistinctKeys(ps: seq<(string, Pattern)>) {
    forall a, b :: 0 <= a < b < |ps| ==> ps[a].0 != ps[b].0
  }

  lemma DetailPatternsWellFormed()
    ensures DistinctKeys(DetailPatterns)
    ensures |DetailPatterns| == |DetailKeys| && forall j :: 0 <= j < |DetailKeys| ==> DetailPatterns[j].0 == DetailKeys[j]
  {
  }

  /** The details the patterns `ps` find in `html`: a key for every pattern
      that matches, holding its group, and no other key. */
  function DetailsOf(html: string, ps: seq<(string, Pattern)>): map<string, string>
    decreases |ps|
  {
    if ps == [] then map[]
    else
      var d := DetailsOf(html, ps[..|ps| - 1]);
      match Search(html, ps[|ps| - 1].1)
      case Some(v) => d[ps[|ps| - 1].0 := v]
      case None => d
  }

  /** With distinct keys, the details hold a key exactly for each pattern
      that matches, with its group, and no other key. */
  lemma {:induction false} DetailsOfMeaning(html: string, ps: seq<(string, Pattern)>)
    requires DistinctKeys(ps)
    ensures forall j :: 0 <= j < |ps| ==> (ps[j].0 in DetailsOf(html, ps) <==> Search(html, ps[j].1).Some?)
    ensures forall j :: 0 <= j < |ps| && ps[j].0 in DetailsOf(html, ps) ==>
              DetailsOf(html, ps)[ps[j].0] == Search(html, ps[j].1).value
    ensures forall k :: k in DetailsOf(html, ps) ==> exists j :: 0 <= j < |ps| && ps[j].0 == k
    decreases |ps|
  {
    if ps != [] {
      var last := |ps| - 1;
      var init := ps[..last];
      DistinctKeysPrefix(ps, last);
      DetailsOfMeaning(html, init);
      var d0 := DetailsOf(html, init);
      var d := DetailsOf(html, ps);
      assert d == if Search(html, ps[last].1).Some? then d0[ps[last].0 := Search(html, ps[last].1).value] else d0;
      forall j | 0 <= j < |ps|
        ensures (ps[j].0 in d <==> Search(html, ps[j].1).Some?)
        ensures ps[j].0 in d ==> d[ps[j].0] == Search(html, ps[j].1).value
      {
        if j < last {
          assert init[j] == ps[j];
          assert ps[j].0 != ps[last].0;
        }
      }
      forall k | k in d ensures exists j :: 0 <= j < |ps| && ps[j].0 == k {
        if k != ps[last].0 {
          var j :| 0 <= j < |init| && init[j].0 == k;
          assert ps[j].0 == k;
        }
      }
    }
  }

  /** `_parse_attendance_details(html)` as a function. */
  function Details(html: string): (d: map<string, string>)
    ensures forall j :: 0 <= j < |DetailKeys| ==> (DetailKeys[j] in d <==> Search(html, DetailPatterns[j].1).Some?)
    ensures forall j :: 0 <= j < |DetailKeys| && DetailKeys[j] in d ==> d[DetailKeys[j]] == Search(html, DetailPatterns[j].1).value
    ensures forall k :: k in d ==> k in DetailKeys
  {
    DetailPatternsWellFormed();
    DetailsOfMeaning(html, DetailPatterns);
    DetailsOf(html, DetailPatterns)
  }

  /** `_parse_attendance_details`: try each pattern in turn and record the
      group of those that match. */
  method ParseAttendanceDetails(html: string) returns (details: map<string, string>)
    ensures details == Details(html)
  {
    details := map[];
    for i := 0 to |DetailPatterns|
      invariant details == DetailsOf(html, DetailPatterns[..i])
    {
      assert DetailPatterns[..i + 1][..i] == DetailPatterns[..i];
      var (key, pattern) := DetailPatterns[i];
      var found := Search(html, pattern);
      if found.Some? {
        details := details[key := found.value];
      }
    }
    assert DetailPatterns[..|DetailPatterns|] == DetailPatterns;
  }

  lemma DistinctKeysPrefix(ps: seq<(string, Pattern)>, i: nat)
    requires DistinctKeys(ps) && i <= |ps|
    ensures DistinctKeys(ps[..i])
  {
  }

  // ---------------------------------------------------------------------
  // perform_attendance
  // ---------------------------------------------------------------------

  /** One invocation of `perform_attendance` with the client's `sign`: what
      it returned or that it raised, and the GETs it made. */
  function AttendanceTry(net: Request -> Response, sign: Option<string>, attempt: nat)
    : (t: (Attempt<map<string, string>>, seq<Request>))
    ensures sign.None? || sign.value == "" ==> t == (Raised, [])
    ensures |t.1| <= 2 && forall k :: 0 <= k < |t.1| ==> t.1[k].attempt == attempt
    ensures t.0.Ok? ==>
              && sign.Some? && sign.value != "" && |t.1| == 2
              && t.1[0] == Request(SignInStep, attempt, SignUrl(sign.value))
              && t.1[1] == Request(VerifyStep, attempt, BasicUrl)
              && net(t.1[0]).Page? && net(t.1[1]).Page?
              && Contains(net(t.1[1]).text, Checked)
              && t.0.value == Details(net(t.1[1]).text)
  {
    if sign.None? || sign.value == "" then (Raised, [])
    else
      var signIn := Request(SignInStep, attempt, SignUrl(sign.value));
      var verify := Request(VerifyStep, attempt, BasicUrl);
      if !net(signIn).Page? then (Raised, [signIn])
      else if !net(verify).Page? || !Contains(net(verify).text, Checked) then (Raised, [signIn, verify])
      else (Ok(Details(net(verify).text)), [signIn, verify])
  }

  function AttendanceOp(net: Request -> Response, sign: Option<string>): nat -> Attempt<map<string, string>> {
    (attempt: nat) => AttendanceTry(net, sign, attempt).0
  }

  /** The GETs of the first `calls` invocations of `perform_attendance`. */
  function AttendanceLog(net: Request -> Response, sign: Option<string>, calls: nat): (log: seq<Request>)
    ensures calls > 0 ==> log == AttendanceLog(net, sign, calls - 1) + AttendanceTry(net, sign, calls - 1).1
    ensures |log| <= 2 * calls
  {
    if calls == 0 then [] else AttendanceLog(net, sign, calls - 1) + AttendanceTry(net, sign, calls - 1).1
  }

  /** GET number `k` of `log` is one `perform_attendance` may make: it
      belongs to one of the first `calls` invocations, and it is either the
      check-in URL carrying the non-empty sign, or the verification page read
      right after the same invocation's check-in request succeeded. */
  ghost predicate AttendanceGet(net: Request -> Response, sign: Option<string>, calls: nat, log: seq<Request>, k: nat)
    requires k < |log|
  {
    && log[k].attempt < calls
    && sign.Some? && sign.value != ""
    && (log[k] == Request(SignInStep, log[k].attempt, SignUrl(sign.value)) ||
        log[k] == Request(VerifyStep, log[k].attempt, BasicUrl))
    && (log[k].step == VerifyStep ==>
          1 <= k && log[k - 1] == Request(SignInStep, log[k].attempt, SignUrl(sign.value)) &&
          net(log[k - 1]).Page?)
  }

  /** Every GET the decorated `perform_attendance` makes is one it may make. */
  lemma {:induction false} AttendanceLogShape(net: Request -> Response, sign: Option<string>, calls: nat)
    ensures var log := AttendanceLog(net, sign, calls);
            forall k :: 0 <= k < |log| ==> AttendanceGet(net, sign, calls, log, k)
  {
    if calls > 0 {
      var prev := calls - 1;
      AttendanceLogShape(net, sign, prev);
      var before := AttendanceLog(net, sign, prev);
      var tries := AttendanceTry(net, sign, prev).1;
      assert AttendanceLog(net, sign, calls) == before + tries;
      AttendanceGetsAppend(net, sign, prev, calls, before, tries, AttendanceLog(net, sign, calls));
    }
  }

  /** Appending the GETs of invocation `prev` keeps every GET one that
      `perform_attendance` may make. */
  lemma AttendanceGetsAppend(net: Request -> Response, sign: Option<string>, prev: nat, calls: nat,
                             before: seq<Request>, tries: seq<Request>, log: seq<Request>)
    requires calls == prev + 1
    requires forall k :: 0 <= k < |before| ==> AttendanceGet(net, sign, prev, before, k)
    requires tries == AttendanceTry(net, sign, prev).1
    requires log == before + tries
    ensures forall k :: 0 <= k < |log| ==> AttendanceGet(net, sign, calls, log, k)
  {
    forall k | 0 <= k < |log|
      ensures AttendanceGet(net, sign, calls, log, k)
    {
      if k < |before| {
        assert AttendanceGet(net, sign, prev, before, k);
        assert log[k] == before[k];
        if log[k].step == VerifyStep {
          assert log[k - 1] == before[k - 1];
        }
      } else {
        assert log[k] == tries[k - |before|];
        if k - |before| == 1 {
          assert log[k - 1] == tries[0];
        }
      }
    }
  }

  // ---------------------------------------------------------------------
  // The client
  // ---------------------------------------------------------------------

  /** `FNClient`: a session carrying the cookie, and the `sign` token once
      `fetch_sign` has found one. */
  class FNClient {
    const cookie: string
    var sign: Option<string>

    constructor (cookie: string)
      requires cookie != ""
      ensures this.cookie == cookie && sign.None?
    {
      this.cookie := cookie;
      sign := None;
    }

    /** `fetch_sign`: the decorated read of the check-in page; `sign` is set
        by the invocation that finds a token and left alone otherwise. */
    method FetchSign(net: Request -> Response) returns (r: RetryOutcome<string>)
      modifies this
      ensures r == Retry(SignOp(net), Decorator.maxRetries)
      ensures sign == if r.Done? then Some(r.value) else old(sign)
    {
      r := Decorator.Call(SignOp(net));
      if r.Done? {
        sign := Some(r.value);
      }
    }

    /** `perform_attendance`: the decorated check-in and verification. */
    method PerformAttendance(net: Request -> Response) returns (r: RetryOutcome<map<string, string>>)
      ensures r == Retry(AttendanceOp(net, sign), Decorator.maxRetries)
    {
      r := Decorator.Call(AttendanceOp(net, sign));
    }
  }

  /** `FNClient(cookie)`: `ValueError` for an empty cookie. */
  method NewClient(cookie: string) returns (c: Result<FNClient, string>)
    ensures c.Failure? <==> cookie == ""
    ensures c.Success? ==> fresh(c.value) && c.value.cookie == cookie && c.value.sign.None?
  {
    if cookie == "" {
      return Failure("Cookie cannot be empty");
    }
    var client := new FNClient(cookie);
    return Success(client);
  }

  /** Without a token every invocation of `perform_attendance` raises before
      any request, so the decorator gives up having fetched nothing. */
  lemma AttendanceNeedsSign(net: Request -> Response, sign: Option<string>, calls: nat)
    requires sign.None? || sign.value == ""
    ensures Retry(AttendanceOp(net, sign), Decorator.maxRetries) == Exhausted(3)
    ensures AttendanceLog(net, sign, calls) == []
  {
    var op := AttendanceOp(net, sign);
    assert op(0).Raised? && op(1).Raised? && op(2).Raised?;
    AttendanceLogEmpty(net, sign, calls);
  }

  lemma {:induction false} AttendanceLogEmpty(net: Request -> Response, sign: Option<string>, calls: nat)
    requires sign.None? || sign.value == ""
    ensures AttendanceLog(net, sign, calls) == []
  {
    if calls > 0 {
      AttendanceLogEmpty(net, sign, calls - 1);
    }
  }

  // ---------------------------------------------------------------------
  // The record file
  // ---------------------------------------------------------------------

  /** The JSON values the record can hold; `JOther` stands for arrays,
      booleans and floats, which the script never reads. */
  datatype Json = JNull | JInt(i: int) | JStr(s: string) | JObj(fields: map<string, Json>) | JOther

  /** The record file: missing, not valid JSON, or holding a value. */
  datatype FileState = Absent | Unparsable | Holds(data: Json)

  /** The default record with its `info` keys spelt as the parser spells
      them; see README, Findings. */
  const DefaultRecord: Json := JObj(map[
    "last_attendance" := JStr(NeverAttended),
    "info" := JObj(map[
      "recently_attendance" := JNull,
      "month_attendance_times" := JInt(0),
      "continue_attendance_times" := JInt(0),
      "total_attendance_times" := JInt(0),
      "total_reward" := JInt(0),
      "recently_reward" := JInt(0),
      "level" := JStr("L0")])])

  /** The default record spelt as the source spells it, with three keys
      `..._attention_times`. The model writes the corrected `DefaultRecord`
      instead; `DefaultKeysAsWrittenGoStale` states what this one leads to. */
  const DefaultRecordAsWritten: Json := JObj(map[
    "last_attendance" := JStr(NeverAttended),
    "info" := JObj(map[
      "recently_attendance" := JNull,
      "month_attention_times" := JInt(0),
      "continue_attention_times" := JInt(0),
      "total_attention_times" := JInt(0),
      "total_reward" := JInt(0),
      "recently_reward" := JInt(0),
      "level" := JStr("L0")])])

  function AsJson(details: map<string, string>): (m: map<string, Json>)
    ensures m.Keys == details.Keys && forall k :: k in details ==> m[k] == JStr(details[k])
  {
    map k | k in details :: JStr(details[k])
  }

  /** What `update_record` makes of the loaded value: `last_attendance`
      becomes today and `info` takes the details over its old keys; `None`
      when the value is not an object or its `info` is missing or not an
      object (the assignment or `.update` raises). */
  function Updated(data: Json, today: string, details: map<string, string>): (r: Option<Json>)
    ensures r.Some? <==> data.JObj? && "info" in data.fields && data.fields["info"].JObj?
    ensures r.Some? ==>
              && r.value.JObj?
              && r.value.fields.Keys == data.fields.Keys + {"last_attendance"}
              && r.value.fields["last_attendance"] == JStr(today)
              && (forall k :: k in data.fields && k != "last_attendance" && k != "info" ==>
                    r.value.fields[k] == data.fields[k])
    ensures r.Some? ==>
              var info0 := data.fields["info"].fields;
              && r.value.fields["info"].JObj?
              && r.value.fields["info"].fields.Keys == info0.Keys + details.Keys
              && (forall k :: k in details ==> r.value.fields["info"].fields[k] == JStr(details[k]))
              && (forall k :: k in info0 && k !in details ==> r.value.fields["info"].fields[k] == info0[k])
  {
    if !(data.JObj? && "info" in data.fields && data.fields["info"].JObj?) then None
    else
      var fields := data.fields["last_attendance" := JStr(today)];
      Some(JObj(fields["info" := JObj(fields["info"].fields + AsJson(details))]))
  }

  /** `FN_attendance.json` and the two `AttendanceManager` operations on it. */
  class RecordFile {
    var content: FileState

    constructor (content: FileState)
      ensures this.content == content
    {
      this.content := content;
    }

    /** `init_data_file`: write the default record when there is no file.
        The record written is the corrected `DefaultRecord`, not the
        misspelt `DefaultRecordAsWritten`. */
    method InitDataFile() returns (d: Json)
      modifies this
      ensures d == DefaultRecord
      ensures content == if old(content).Absent? then Holds(DefaultRecord) else old(content)
    {
      if content.Absent? {
        content := Holds(DefaultRecord);
      }
      return DefaultRecord;
    }

    /** `update_record(details)`: rewrite the file with today's date and
        the details merged into `info`. A missing or unparsable file is
        logged and left alone; a value of the wrong shape raises, and the
        file is left as it was. */
    method UpdateRecord(today: string, details: map<string, string>) returns (raised: bool)
      modifies this
      ensures !old(content).Holds? ==> !raised && content == old(content)
      ensures old(content).Holds? ==>
                && (raised <==> Updated(old(content).data, today, details).None?)
                && content == if raised then old(content) else Holds(Updated(old(content).data, today, details).value)
    {
      if !content.Holds? {
        return false;
      }
      var data := content.data;
      if !data.JObj? {
        return true;
      }
      var fields := data.fields["last_attendance" := JStr(today)];
      if "info" !in fields || !fields["info"].JObj? {
        return true;
      }
      var info := fields["info"].fields + AsJson(details);
      content := Holds(JObj(fields["info" := JObj(info)]));
      return false;
    }
  }

  // ---------------------------------------------------------------------
  // main
  // ---------------------------------------------------------------------

  /** How `main` ends. `Failed` and `Notified` carry the GETs made;
      `Notified` carries the seven report values in report order. */
  datatype Outcome =
    | LoadFailed
    | Crashed
    | AlreadyChecked
    | NoCookie
    | Failed(log: seq<Request>)
    | Notified(report: seq<string>, log: seq<Request>)

  datatype CheckInRun = CheckInRun(outcome: Outcome, file: FileState)

  /** The file after `init_data_file`, with the corrected default record. */
  function Initialised(f: FileState): (g: FileState)
    ensures g.Absent? ==> false
    ensures !f.Absent? ==> g == f
  {
    if f.Absent? then Holds(DefaultRecord) else f
  }

  /** Every detail key is present: building the report does not raise. */
  predicate Complete(details: map<string, string>) {
    forall j :: 0 <= j < |DetailKeys| ==> DetailKeys[j] in details
  }

  function ReportValues(details: map<string, string>): (v: seq<string>)
    requires Complete(details)
    ensures |v| == |DetailKeys| && forall j :: 0 <= j < |DetailKeys| ==> v[j] == details[DetailKeys[j]]
  {
    seq(|DetailKeys|, (j: int) requires 0 <= j < |DetailKeys| => details[DetailKeys[j]])
  }

  /** The end of `main` once `perform_attendance` returned `details`:
      update the record, then build the report (which raises when a detail
      is missing). */
  function Finish(record: Json, f1: FileState, today: string, details: map<string, string>, log: seq<Request>)
    : (run: CheckInRun)
    ensures run.outcome.Failed? || run.outcome.Notified?
    ensures run.outcome.log == log
    ensures run.outcome.Notified? <==> Updated(record, today, details).Some? && Complete(details)
    ensures run.outcome.Notified? ==> run.outcome.report == ReportValues(details)
    ensures run.file == if Updated(record, today, details).Some? then Holds(Updated(record, today, details).value) else f1
  {
    match Updated(record, today, details)
    case None => CheckInRun(Failed(log), f1)
    case Some(updated) =>
      if Complete(details) then CheckInRun(Notified(ReportValues(details), log), Holds(updated))
      else CheckInRun(Failed(log), Holds(updated))
  }

  /** The part of `main` after `fetch_sign` found `sign`. */
  function AfterSign(record: Json, f1: FileState, today: string, net: Request -> Response,
                     sign: string, signLog: seq<Request>): (run: CheckInRun)
    ensures run.outcome.Failed? || run.outcome.Notified?
  {
    var a := Retry(AttendanceOp(net, Some(sign)), Decorator.maxRetries);
    var log := signLog + AttendanceLog(net, Some(sign), a.calls);
    if a.Exhausted? then CheckInRun(Failed(log), f1)
    else Finish(record, f1, today, a.value, log)
  }

  /** The part of `main` after the client is created. */
  function AfterClient(record: Json, f1: FileState, today: string, net: Request -> Response): (run: CheckInRun)
    ensures run.outcome.Failed? || run.outcome.Notified?
  {
    var s := Retry(SignOp(net), Decorator.maxRetries);
    if s.Exhausted? then CheckInRun(Failed(SignLog(s.calls)), f1)
    else AfterSign(record, f1, today, net, s.value, SignLog(s.calls))
  }

  /** `main()` as a function of the file, the date, `PV_COOKIE` and the network. */
  function CheckInSpec(file0: FileState, today: string, cookie: Option<string>, net: Request -> Response): CheckInRun {
    var f1 := Initialised(file0);
    if !f1.Holds? then CheckInRun(LoadFailed, f1)
    else
      var record := f1.data;
      if !(record.JObj? && "last_attendance" in record.fields) then CheckInRun(Crashed, f1)
      else if record.fields["last_attendance"] == JStr(today) then CheckInRun(AlreadyChecked, f1)
      else if cookie.None? || cookie.value == "" then CheckInRun(NoCookie, f1)
      else AfterClient(record, f1, today, net)
  }

  /** `main()`: initialise and load the file, apply the two gates, then
      fetch the token, check in, update the record and report. */
  method CheckIn(file: RecordFile, today: string, cookie: Option<string>, net: Request -> Response) returns (out: Outcome)
    modifies file
    ensures CheckInRun(out, file.content) == CheckInSpec(old(file.content), today, cookie, net)
  {
    var _ := file.InitDataFile();
    if !file.content.Holds? {
      return LoadFailed;
    }
    var record := file.content.data;
    if !(record.JObj? && "last_attendance" in record.fields) {
      return Crashed;
    }
    if record.fields["last_attendance"] == JStr(today) {
      return AlreadyChecked;
    }
    if cookie.None? || cookie.value == "" {
      return NoCookie;
    }
    var created := NewClient(cookie.value);
    assert created.Success?;
    var client := created.value;
    var s := client.FetchSign(net);
    if s.Exhausted? {
      return Failed(SignLog(s.calls));
    }
    var a := client.PerformAttendance(net);
    var log := SignLog(s.calls) + AttendanceLog(net, client.sign, a.calls);
    if a.Exhausted? {
      return Failed(log);
    }
    var raised := file.UpdateRecord(today, a.value);
    if raised {
      return Failed(log);
    }
    if !Complete(a.value) {
      return Failed(log);
    }
    return Notified(ReportValues(a.value), log);
  }

  // ---------------------------------------------------------------------
  // Properties of main
  // ---------------------------------------------------------------------

  /** The two gates: the client acts (fetches anything, touches the record)
      exactly when the record is readable, was not checked in today and
      `PV_COOKIE` is set; otherwise the file is only initialised. */
  lemma CheckInGates(file0: FileState, today: string, cookie: Option<string>, net: Request -> Response)
    ensures var run := CheckInSpec(file0, today, cookie, net);
            var f1 := Initialised(file0);
            && ((run.outcome.Failed? || run.outcome.Notified?) <==>
                  && f1.Holds? && f1.data.JObj? && "last_attendance" in f1.data.fields
                  && f1.data.fields["last_attendance"] != JStr(today)
                  && cookie.Some? && cookie.value != "")
            && (!(run.outcome.Failed? || run.outcome.Notified?) ==> run.file == f1)
  {
  }

  /** The last invocation of `perform_attendance` that returned made the
      check-in request and then saw the confirmation on the page it parsed. */
  lemma AttendanceSucceeded(net: Request -> Response, sign: string)
    requires Retry(AttendanceOp(net, Some(sign)), Decorator.maxRetries).Done?
    ensures var a := Retry(AttendanceOp(net, Some(sign)), Decorator.maxRetries);
            var log := AttendanceLog(net, Some(sign), a.calls);
            && |log| >= 2
            && log[|log| - 2] == Request(SignInStep, a.calls - 1, SignUrl(sign))
            && log[|log| - 1] == Request(VerifyStep, a.calls - 1, BasicUrl)
            && net(log[|log| - 1]).Page? && Contains(net(log[|log| - 1]).text, Checked)
            && a.value == Details(net(log[|log| - 1]).text)
  {
    var a := Retry(AttendanceOp(net, Some(sign)), Decorator.maxRetries);
    var t := AttendanceTry(net, Some(sign), a.calls - 1);
    assert t.0.Ok?;
    var log := AttendanceLog(net, Some(sign), a.calls);
    assert log[|log| - 2..] == t.1;
    assert log[|log| - 2] == t.1[0];
  }

  /** A notification means: the record now says today and holds every
      reported value under its key. */
  lemma NotifiedMeansRecorded(file0: FileState, today: string, cookie: Option<string>, net: Request -> Response)
    requires CheckInSpec(file0, today, cookie, net).outcome.Notified?
    ensures var run := CheckInSpec(file0, today, cookie, net);
            && run.file.Holds? && run.file.data.JObj?
            && run.file.data.fields["last_attendance"] == JStr(today)
            && run.file.data.fields["info"].JObj?
            && (forall j :: 0 <= j < |DetailKeys| ==>
                  run.file.data.fields["info"].fields[DetailKeys[j]] == JStr(run.outcome.report[j]))
  {
    var record := Initialised(file0).data;
    var s := Retry(SignOp(net), Decorator.maxRetries);
    var a := Retry(AttendanceOp(net, Some(s.value)), Decorator.maxRetries);
    var log := SignLog(s.calls) + AttendanceLog(net, Some(s.value), a.calls);
    assert CheckInSpec(file0, today, cookie, net) == Finish(record, Initialised(file0), today, a.value, log);
  }

  /** ... and the reported values come from a page that confirmed today's
      check-in, reached after requesting the check-in URL with a non-empty
      token read from the check-in page. */
  lemma NotifiedMeansConfirmed(file0: FileState, today: string, cookie: Option<string>, net: Request -> Response)
    requires CheckInSpec(file0, today, cookie, net).outcome.Notified?
    ensures ConfirmedLog(net, CheckInSpec(file0, today, cookie, net).outcome.log)
  {
    var f1 := Initialised(file0);
    assert CheckInSpec(file0, today, cookie, net) == AfterClient(f1.data, f1, today, net);
    AfterClientConfirmed(f1.data, f1, today, net);
  }

  /** The log of a confirmed check-in: it starts by fetching the token, its
      last request is the verification whose page confirms today's check-in,
      and the one before is the check-in URL with a non-empty token. */
  ghost predicate ConfirmedLog(net: Request -> Response, log: seq<Request>) {
    && |log| >= 3 && log[0].step == FetchSignStep
    && log[|log| - 1].step == VerifyStep && net(log[|log| - 1]).Page?
    && Contains(net(log[|log| - 1]).text, Checked)
    && (exists sign :: sign != [] && log[|log| - 2] == Request(SignInStep, log[|log| - 1].attempt, SignUrl(sign)))
  }

  lemma AfterClientConfirmed(record: Json, f1: FileState, today: string, net: Request -> Response)
    requires AfterClient(record, f1, today, net).outcome.Notified?
    ensures ConfirmedLog(net, AfterClient(record, f1, today, net).outcome.log)
  {
    var s := Retry(SignOp(net), Decorator.maxRetries);
    assert s.Done?;
    assert AfterClient(record, f1, today, net) == AfterSign(record, f1, today, net, s.value, SignLog(s.calls));
    var a := Retry(AttendanceOp(net, Some(s.value)), Decorator.maxRetries);
    assert a.Done?;
    var log := SignLog(s.calls) + AttendanceLog(net, Some(s.value), a.calls);
    assert AfterClient(record, f1, today, net).outcome.log == log;
    assert SignAttempt(net(Request(FetchSignStep, s.calls - 1, BasicUrl))) == Ok(s.value);
    DoneLogConfirmed(net, s.calls, s.value);
  }

  /** A token fetched after `signCalls` attempts followed by a successful
      check-in gives a confirmed log. */
  lemma DoneLogConfirmed(net: Request -> Response, signCalls: nat, sign: string)
    requires 1 <= signCalls && sign != []
    requires Retry(AttendanceOp(net, Some(sign)), Decorator.maxRetries).Done?
    ensures ConfirmedLog(net, SignLog(signCalls) + AttendanceLog(net, Some(sign),
                                Retry(AttendanceOp(net, Some(sign)), Decorator.maxRetries).calls))
  {
    var a := Retry(AttendanceOp(net, Some(sign)), Decorator.maxRetries);
    var alog := AttendanceLog(net, Some(sign), a.calls);
    var log := SignLog(signCalls) + alog;
    AttendanceSucceeded(net, sign);
    assert log[|log| - 1] == alog[|alog| - 1];
    assert log[|log| - 2] == alog[|alog| - 2];
    assert log[0] == SignLog(signCalls)[0];
  }

  /** The record is written before the report is built: when the page lacks
      a detail, `main` fails but the record already says today. */
  lemma RecordedEvenIfDetailMissing(file0: FileState, today: string, cookie: Option<string>, net: Request -> Response)
    requires var f1 := Initialised(file0);
             && f1.Holds? && f1.data.JObj? && "last_attendance" in f1.data.fields
             && "info" in f1.data.fields && f1.data.fields["info"].JObj?
             && f1.data.fields["last_attendance"] != JStr(today)
             && cookie.Some? && cookie.value != ""
    requires var s := Retry(SignOp(net), Decorator.maxRetries);
             s.Done? &&
             var a := Retry(AttendanceOp(net, Some(s.value)), Decorator.maxRetries);
             a.Done? && !Complete(a.value)
    ensures var run := CheckInSpec(file0, today, cookie, net);
            && run.outcome.Failed?
            && run.file.Holds? && run.file.data.JObj?
            && run.file.data.fields["last_attendance"] == JStr(today)
  {
    var record := Initialised(file0).data;
    var s := Retry(SignOp(net), Decorator.maxRetries);
    var a := Retry(AttendanceOp(net, Some(s.value)), Decorator.maxRetries);
    var log := SignLog(s.calls) + AttendanceLog(net, Some(s.value), a.calls);
    assert CheckInSpec(file0, today, cookie, net) == Finish(record, Initialised(file0), today, a.value, log);
  }

  /** A second run on the same day after a notified one does nothing. */
  lemma SecondRunSameDay(file0: FileState, today: string, cookie: Option<string>,
                         net: Request -> Response, cookie2: Option<string>, net2: Request -> Response)
    requires CheckInSpec(file0, today, cookie, net).outcome.Notified?
    ensures var f := CheckInSpec(file0, today, cookie, net).file;
            CheckInSpec(f, today, cookie2, net2) == CheckInRun(AlreadyChecked, f)
  {
    NotifiedMeansRecorded(file0, today, cookie, net);
  }

  // ---------------------------------------------------------------------
  // The default record's key spelling
  // ---------------------------------------------------------------------

  /** As written, the default `info` spells three keys `..._attention_times`
      while the parser writes `..._attendance_times`: after a complete first
      check-in the record still carries those three keys, as stale zeros that
      no later run updates, beside the seven details. */
  lemma DefaultKeysAsWrittenGoStale(today: string, details: map<string, string>)
    requires details.Keys == DetailKeySet
    ensures var info := Updated(DefaultRecordAsWritten, today, details).value.fields["info"].fields;
            && info.Keys == details.Keys + {"month_attention_times", "continue_attention_times", "total_attention_times"}
            && info.Keys != details.Keys
            && info["month_attention_times"] == JInt(0)
            && info["continue_attention_times"] == JInt(0)
            && info["total_attention_times"] == JInt(0)
  {
    assert "month_attention_times" !in DetailKeySet;
    assert "continue_attention_times" !in DetailKeySet;
    assert "total_attention_times" !in DetailKeySet;
  }

  /** With the keys spelt as the parser spells them, a complete check-in
      replaces every default value: `info` holds exactly the seven details. */
  lemma DefaultKeysAllRefreshed(today: string, details: map<string, string>)
    requires details.Keys == DetailKeySet
    ensures var info := Updated(DefaultRecord, today, details).value.fields["info"].fields;
            && info.Keys == details.Keys
            && forall k :: k in details ==> info[k] == JStr(details[k])
  {
    assert DefaultRecord.fields["info"].fields.Keys == DetailKeySet;
  }
}
