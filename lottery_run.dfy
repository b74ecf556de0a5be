/** The stateful side of the lottery checker: the JSON document kept in
    `lottery_data.json` (history, running totals, best prize and check dates
    per game, and the date of the last push), the in-place updates of one
    game's entry after a new draw is checked, and `run`, which checks each
    game in turn and pushes one report per day. */
module LotteryRun {
  import opened Wrappers
  import opened Strings
  import opened LotteryRules

  datatype Reward = Reward(level: string, amount: Money)

  /** `history`: the winning tickets and the prize of each draw date. */
  datatype History = History(numbers: seq<seq<string>>, rewards: map<string, Reward>)

  datatype MaxReward = MaxReward(date: string, level: string, money: Money)

  /** One game's entry under `types`. */
  datatype TypeData = TypeData(
    history: History,
    totalRewards: int,
    maxReward: MaxReward,
    lastDrawDate: string,
    lastCheckDate: string)

  /** The whole document; `lastPush` is `date_info.last_push_date`, absent
      until the first push. */
  datatype Doc = Doc(ssq: TypeData, threeD: TypeData, kl8: TypeData, lastPush: Option<string>)
  {
    function Get(k: Kind): TypeData {
      match k
      case Ssq => ssq
      case ThreeD => threeD
      case Kl8 => kl8
    }

    /** The document with game `k`'s entry replaced and nothing else changed. */
    function With(k: Kind, t: TypeData): (d: Doc)
      ensures d.Get(k) == t && d.lastPush == lastPush
      ensures forall j :: j != k ==> d.Get(j) == Get(j)
    {
      match k
      case Ssq => this.(ssq := t)
      case ThreeD => this.(threeD := t)
      case Kl8 => this.(kl8 := t)
    }
  }

  const NeverDate: string := "0000-00-00"

  const EmptyType: TypeData := TypeData(History([], map[]), 0, MaxReward("", "", Num(0)), NeverDate, NeverDate)

  /** `init_data_file`'s default document. */
  const DefaultDoc: Doc := Doc(EmptyType, EmptyType, EmptyType, None)

  // ---------------------------------------------------------------------
  // `_update_history`
  // ---------------------------------------------------------------------

  /** Python's `int(x)` on a JSON number or string; `None` when it raises. */
  function IntOf(m: Money): (r: Option<int>)
    ensures m.Num? ==> r == Some(m.n)
  {
    match m
    case Num(n) => Some(n)
    case Text(s) => ParseInt(s)
  }

  /** The entry after a win of `n`, with `newBest` saying whether it beats
      the stored maximum. */
  function AfterWin(t: TypeData, result: CheckResult, today: string, n: int, newBest: bool): TypeData {
    TypeData(
      History(t.history.numbers + [result.mine],
              t.history.rewards[result.date := Reward(result.level, result.amount)]),
      t.totalRewards + n,
      if newBest then MaxReward(result.date, result.level, result.amount) else t.maxReward,
      t.lastDrawDate,
      today)
  }

  /** `_update_history` exactly as written: the new amount is compared with
      the stored `money` as it is, so a stored string makes the comparison
      raise and the whole update is lost (`None`: the file is not written). */
  function UpdatedHistoryAsWritten(t: TypeData, result: CheckResult, today: string): (r: Option<TypeData>)
    ensures result.level == NoPrize ==> r == Some(t.(lastCheckDate := today))
    ensures result.level != NoPrize && t.maxReward.money.Text? ==> r.None?
  {
    if result.level == NoPrize then Some(t.(lastCheckDate := today))
    else
      match IntOf(result.amount)
      case None => None
      case Some(n) =>
        match t.maxReward.money
        case Text(_) => None
        case Num(best) => Some(AfterWin(t, result, today, n, n > best))
  }

  /** `_update_history` with the comparison made between integers, as
      intended: a losing draw only moves `last_check_date`; a win appends the
      ticket, records the prize under the draw date, adds the amount to the
      total and replaces the best prize only when strictly beaten. `None`
      when an amount is not an integer (the update is lost). */
  function UpdatedHistory(t: TypeData, result: CheckResult, today: string): (r: Option<TypeData>)
    ensures result.level == NoPrize ==> r == Some(t.(lastCheckDate := today))
    ensures result.level != NoPrize ==>
              (r.Some? <==> IntOf(result.amount).Some? && IntOf(t.maxReward.money).Some?)
    ensures result.level != NoPrize && r.Some? ==>
              var n := IntOf(result.amount).value;
              && r.value.history.numbers == t.history.numbers + [result.mine]
              && r.value.history.rewards == t.history.rewards[result.date := Reward(result.level, result.amount)]
              && r.value.totalRewards == t.totalRewards + n
              && (n > IntOf(t.maxReward.money).value ==>
                    r.value.maxReward == MaxReward(result.date, result.level, result.amount))
              && (n <= IntOf(t.maxReward.money).value ==> r.value.maxReward == t.maxReward)
    ensures r.Some? ==> r.value.lastCheckDate == today && r.value.lastDrawDate == t.lastDrawDate
  {
    if result.level == NoPrize then Some(t.(lastCheckDate := today))
    else
      match IntOf(result.amount)
      case None => None
      case Some(n) =>
        match IntOf(t.maxReward.money)
        case None => None
        case Some(best) => Some(AfterWin(t, result, today, n, n > best))
  }

  /** The best prize is an integer no smaller than any recorded prize. */
  ghost predicate BestCoversRewards(t: TypeData) {
    && IntOf(t.maxReward.money).Some?
    && forall d :: d in t.history.rewards ==>
         IntOf(t.history.rewards[d].amount).Some? &&
         IntOf(t.history.rewards[d].amount).value <= IntOf(t.maxReward.money).value
  }

  /** Every update keeps the best prize covering all recorded prizes. */
  lemma UpdatedHistoryKeepsBest(t: TypeData, result: CheckResult, today: string)
    requires BestCoversRewards(t)
    requires UpdatedHistory(t, result, today).Some?
    ensures BestCoversRewards(UpdatedHistory(t, result, today).value)
  {
    var t2 := UpdatedHistory(t, result, today).value;
    if result.level != NoPrize {
      var n := IntOf(result.amount).value;
      var best := IntOf(t.maxReward.money).value;
      assert IntOf(t2.maxReward.money).value == if n > best then n else best;
      forall d | d in t2.history.rewards
        ensures IntOf(t2.history.rewards[d].amount).Some? &&
                IntOf(t2.history.rewards[d].amount).value <= IntOf(t2.maxReward.money).value
      {
        if d != result.date {
          assert t2.history.rewards[d] == t.history.rewards[d];
        }
      }
    }
  }

  /** The default entry satisfies the invariant. */
  lemma EmptyTypeCoversRewards()
    ensures BestCoversRewards(EmptyType)
  {
  }

  /** As written, a first win whose amount is the API's string stores that
      string as the best prize, and from then on every win raises in the
      comparison: the second win below is never recorded. The corrected
      update records it. */
  lemma StringBestLosesLaterWins(first: CheckResult, second: CheckResult, today: string)
    requires first.level != NoPrize && second.level != NoPrize
    requires first.amount == Text("5") && second.amount == Num(1040)
    ensures var t1 := UpdatedHistoryAsWritten(EmptyType, first, today);
            && t1.Some? && t1.value.maxReward.money == Text("5")
            && UpdatedHistoryAsWritten(t1.value, second, today).None?
    ensures var t1 := UpdatedHistory(EmptyType, first, today);
            && t1.Some? && t1.value.maxReward.money == Text("5")
            && UpdatedHistory(t1.value, second, today).Some?
            && UpdatedHistory(t1.value, second, today).value.history.numbers == [first.mine, second.mine]
  {
    assert ParseInt("5") == Some(5) by {
      IntToStringParses(5);
      assert IntToString(5) == "5";
    }
  }

  // ---------------------------------------------------------------------
  // The data file and its in-place updates
  // ---------------------------------------------------------------------

  class LotteryFile {
    var doc: Doc

    constructor(d: Doc)
      ensures doc == d
    {
      doc := d;
    }

    /** `_update_history(lottery_type, result)`: the entry is edited field
        by field and written back only when nothing raised. */
    method UpdateHistory(kind: Kind, result: CheckResult, today: string)
      modifies this
      ensures UpdatedHistory(old(doc).Get(kind), result, today).Some? ==>
                doc == old(doc).With(kind, UpdatedHistory(old(doc).Get(kind), result, today).value)
      ensures UpdatedHistory(old(doc).Get(kind), result, today).None? ==> doc == old(doc)
    {
      var t := doc.Get(kind);
      t := t.(lastCheckDate := today);
      if result.level != NoPrize {
        t := t.(history := History(t.history.numbers + [result.mine],
                                   t.history.rewards[result.date := Reward(result.level, result.amount)]));
        var n := IntOf(result.amount);
        if n.None? {
          return;
        }
        t := t.(totalRewards := t.totalRewards + n.value);
        var best := IntOf(t.maxReward.money);
        if best.None? {
          return;
        }
        if n.value > best.value {
          t := t.(maxReward := MaxReward(result.date, result.level, result.amount));
        }
      }
      doc := doc.With(kind, t);
    }

    /** `_update_last_draw_date(lottery_type, draw_date)`. */
    method UpdateLastDrawDate(kind: Kind, drawDate: string)
      modifies this
      ensures doc == old(doc).With(kind, old(doc).Get(kind).(lastDrawDate := StoredDate(drawDate)))
    {
      doc := doc.With(kind, doc.Get(kind).(lastDrawDate := StoredDate(drawDate)));
    }

    /** `_update_last_check_date(lottery_type, check_date)`. */
    method UpdateLastCheckDate(kind: Kind, checkDate: string)
      modifies this
      ensures doc == old(doc).With(kind, old(doc).Get(kind).(lastCheckDate := StoredDate(checkDate)))
    {
      doc := doc.With(kind, doc.Get(kind).(lastCheckDate := StoredDate(checkDate)));
    }

    /** The push bookkeeping at the end of `run`. */
    method RecordPush(today: string)
      modifies this
      ensures doc == old(doc).(lastPush := Some(today))
    {
      doc := doc.(lastPush := Some(today));
    }
  }

  // ---------------------------------------------------------------------
  // `check_lottery` and `run`
  // ---------------------------------------------------------------------

  /** What `run` gets from outside: the environment variables, the lottery
      API (`None` when the request or its JSON fails), the weekday of a date
      (`None` when `strptime` rejects it) and today's date. */
  datatype Env = Env(
    vars: map<string, string>,
    api: Kind -> Option<LotteryInfo>,
    weekdayOf: string -> Option<int>,
    today: string)

  /** The result `check_lottery` returns and the document after it. */
  datatype Step = Step(result: Option<CheckResult>, doc: Doc)

  /** The entry after a new draw has been checked: history, then both dates
      cut to the draw date without its last three characters. */
  function Recorded(t: TypeData, result: CheckResult, today: string, drawDate: string): (r: TypeData)
    ensures r.lastDrawDate == StoredDate(drawDate) && r.lastCheckDate == StoredDate(drawDate)
    ensures UpdatedHistory(t, result, today).None? ==> r.history == t.history && r.totalRewards == t.totalRewards
  {
    var h := match UpdatedHistory(t, result, today) case Some(t1) => t1 case None => t;
    h.(lastDrawDate := StoredDate(drawDate), lastCheckDate := StoredDate(drawDate))
  }

  /** `check_lottery(lottery_type, numbers, checker)`: `None` when
      `strptime` raises; `data0` is the document the checker loaded at
      start-up, which `should_check_lottery` reads. */
  function CheckLotterySpec(c: Env, data0: Doc, doc: Doc, kind: Kind, numbers: seq<string>): (r: Option<Step>)
    ensures r.Some? ==> r.value.result == Check(kind, c.api(kind), numbers)
    ensures r.Some? ==> forall j :: j != kind ==> r.value.doc.Get(j) == doc.Get(j)
    ensures r.Some? ==> r.value.doc.lastPush == doc.lastPush
  {
    var result := Check(kind, c.api(kind), numbers);
    if result.None? then Some(Step(None, doc))
    else
      var drawDate := Split(result.value.date, ' ')[0];
      match ShouldCheck(kind, drawDate, data0.Get(kind).lastCheckDate, c.weekdayOf)
      case None => None
      case Some(isNew) =>
        if !isNew then Some(Step(result, doc))
        else Some(Step(result, doc.With(kind, Recorded(doc.Get(kind), result.value, c.today, drawDate))))
  }

  /** The state of `run`'s loop: still going, or stopped by an exception. */
  datatype Loop = Going(entries: seq<Entry>, doc: Doc) | Stopped(doc: Doc)

  /** One iteration of `run`'s loop. */
  function KindStep(c: Env, data0: Doc, entries: seq<Entry>, doc: Doc, kind: Kind): Loop {
    match LotteryNumbers(kind, c.vars)
    case None => Going(entries, doc)
    case Some(numbers) =>
      match CheckLotterySpec(c, data0, doc, kind, numbers)
      case None => Stopped(doc)
      case Some(step) =>
        Going(entries + (if step.result.Some? then [Entry(kind, step.result.value)] else []), step.doc)
  }

  /** The loop over `kinds`, from the document loaded at start-up. */
  function RunLoop(c: Env, data0: Doc, kinds: seq<Kind>): Loop {
    if kinds == [] then Going([], data0)
    else
      match RunLoop(c, data0, kinds[..|kinds| - 1])
      case Stopped(d) => Stopped(d)
      case Going(entries, d) => KindStep(c, data0, entries, d, kinds[|kinds| - 1])
  }

  datatype RunResult =
    | Crashed(doc: Doc)
    | Finished(entries: seq<Entry>, report: Option<string>, doc: Doc)

  /** The document `run` starts from: the stored one, or the default when
      the file does not exist. */
  function Loaded(stored: Option<Doc>): Doc {
    match stored
    case None => DefaultDoc
    case Some(d) => d
  }

  /** `run()`: `report` is what is pushed, `None` when nothing is. */
  function RunSpec(c: Env, stored: Option<Doc>): RunResult {
    match RunLoop(c, Loaded(stored), Kinds)
    case Stopped(d) => Crashed(d)
    case Going(entries, d) =>
      if d.lastPush.GetOr(NeverDate) == c.today then Finished(entries, None, d)
      else Finished(entries, Some(HtmlReport(entries)), d.(lastPush := Some(c.today)))
  }

  /** `check_lottery` on the file. */
  method CheckLottery(c: Env, data0: Doc, file: LotteryFile, kind: Kind, numbers: seq<string>)
    returns (raised: bool, result: Option<CheckResult>)
    modifies file
    ensures raised <==> CheckLotterySpec(c, data0, old(file.doc), kind, numbers).None?
    ensures raised ==> file.doc == old(file.doc)
    ensures !raised ==> CheckLotterySpec(c, data0, old(file.doc), kind, numbers) == Some(Step(result, file.doc))
  {
    result := Check(kind, c.api(kind), numbers);
    raised := false;
    if result.Some? {
      var drawDate := Split(result.value.date, ' ')[0];
      var isNew := ShouldCheck(kind, drawDate, data0.Get(kind).lastCheckDate, c.weekdayOf);
      if isNew.None? {
        raised := true;
        return;
      }
      if isNew.value {
        file.UpdateHistory(kind, result.value, c.today);
        file.UpdateLastDrawDate(kind, drawDate);
        file.UpdateLastCheckDate(kind, drawDate);
      }
    }
  }

  /** One pass of `run`'s loop: read the game's numbers, check it when
      configured and collect its result. */
  method CheckKind(c: Env, data0: Doc, file: LotteryFile, entries: seq<Entry>, kind: Kind)
    returns (stopped: bool, entries': seq<Entry>)
    modifies file
    ensures KindStep(c, data0, entries, old(file.doc), kind) ==
              if stopped then Stopped(file.doc) else Going(entries', file.doc)
  {
    entries' := entries;
    stopped := false;
    var numbers := LotteryNumbers(kind, c.vars);
    if numbers.None? {
      KindStepSkipped(c, data0, entries, file.doc, kind);
      return;
    }
    ghost var doc0 := file.doc;
    var raised, result := CheckLottery(c, data0, file, kind, numbers.value);
    if raised {
      KindStepStopped(c, data0, entries, doc0, kind, numbers.value);
      stopped := true;
      return;
    }
    if result.Some? {
      entries' := entries + [Entry(kind, result.value)];
    }
    KindStepGoing(c, data0, entries, doc0, kind, numbers.value, Step(result, file.doc));
  }

  /** A game without ticket numbers is skipped. */
  lemma KindStepSkipped(c: Env, data0: Doc, entries: seq<Entry>, doc: Doc, kind: Kind)
    requires LotteryNumbers(kind, c.vars).None?
    ensures KindStep(c, data0, entries, doc, kind) == Going(entries, doc)
  {
  }

  /** A game whose check raises stops the loop with the document as it was. */
  lemma KindStepStopped(c: Env, data0: Doc, entries: seq<Entry>, doc: Doc, kind: Kind, numbers: seq<string>)
    requires LotteryNumbers(kind, c.vars) == Some(numbers)
    requires CheckLotterySpec(c, data0, doc, kind, numbers).None?
    ensures KindStep(c, data0, entries, doc, kind) == Stopped(doc)
  {
  }

  /** A game checked without an exception adds its result, if any. */
  lemma KindStepGoing(c: Env, data0: Doc, entries: seq<Entry>, doc: Doc, kind: Kind, numbers: seq<string>, step: Step)
    requires LotteryNumbers(kind, c.vars) == Some(numbers)
    requires CheckLotterySpec(c, data0, doc, kind, numbers) == Some(step)
    ensures KindStep(c, data0, entries, doc, kind) ==
              Going(entries + (if step.result.Some? then [Entry(kind, step.result.value)] else []), step.doc)
  {
  }

  /** One more game of the loop. */
  lemma RunLoopStep(c: Env, data0: Doc, i: nat)
    requires i < |Kinds|
    ensures var l := RunLoop(c, data0, Kinds[..i]);
            RunLoop(c, data0, Kinds[..i + 1]) ==
              if l.Stopped? then l else KindStep(c, data0, l.entries, l.doc, Kinds[i])
  {
    assert Kinds[..i + 1][..i] == Kinds[..i];
  }

  /** `run()`, with the stored document (`None` when the file is missing). */
  method Run(c: Env, stored: Option<Doc>) returns (out: RunResult)
    ensures out == RunSpec(c, stored)
  {
    var data0 := Loaded(stored);
    var file := new LotteryFile(data0);
    var entries: seq<Entry> := [];
    for i := 0 to |Kinds|
      invariant RunLoop(c, data0, Kinds[..i]) == Going(entries, file.doc)
    {
      RunLoopStep(c, data0, i);
      var stopped;
      stopped, entries := CheckKind(c, data0, file, entries, Kinds[i]);
      if stopped {
        StoppedStays(c, data0, i + 1);
        return Crashed(file.doc);
      }
    }
    assert Kinds[..|Kinds|] == Kinds;
    var last := file.doc.lastPush.GetOr(NeverDate);
    if last == c.today {
      return Finished(entries, None, file.doc);
    }
    var report := HtmlReport(entries);
    file.RecordPush(c.today);
    return Finished(entries, Some(report), file.doc);
  }

  /** Once the loop has stopped it stays stopped with the same document. */
  lemma {:induction false} StoppedStays(c: Env, data0: Doc, i: nat)
    requires 1 <= i <= |Kinds|
    requires RunLoop(c, data0, Kinds[..i]).Stopped?
    ensures RunLoop(c, data0, Kinds) == RunLoop(c, data0, Kinds[..i])
    decreases |Kinds| - i
  {
    if i < |Kinds| {
      RunLoopStep(c, data0, i);
      StoppedStays(c, data0, i + 1);
    } else {
      assert Kinds[..i] == Kinds;
    }
  }

  // ---------------------------------------------------------------------
  // Properties of a run
  // ---------------------------------------------------------------------

  /** The loop never touches the push date, leaves the entry of every game
      without ticket numbers alone, and keeps every entry's best prize
      covering its recorded prizes. */
  lemma {:induction false} RunLoopFrame(c: Env, data0: Doc, kinds: seq<Kind>)
    ensures RunLoop(c, data0, kinds).doc.lastPush == data0.lastPush
    ensures forall k :: k !in kinds || LotteryNumbers(k, c.vars).None? ==>
              RunLoop(c, data0, kinds).doc.Get(k) == data0.Get(k)
  {
    if kinds != [] {
      var init := kinds[..|kinds| - 1];
      RunLoopFrame(c, data0, init);
      forall k | k !in kinds || LotteryNumbers(k, c.vars).None?
        ensures RunLoop(c, data0, kinds).doc.Get(k) == data0.Get(k)
      {
        assert k !in init || LotteryNumbers(k, c.vars).None? by {
          if k !in kinds {
            assert forall j :: 0 <= j < |init| ==> init[j] == kinds[j];
          }
        }
      }
    }
  }

  lemma {:induction false} RunLoopKeepsBest(c: Env, data0: Doc, kinds: seq<Kind>)
    requires forall k :: BestCoversRewards(data0.Get(k))
    ensures forall k :: BestCoversRewards(RunLoop(c, data0, kinds).doc.Get(k))
  {
    if kinds != [] {
      var init := kinds[..|kinds| - 1];
      RunLoopKeepsBest(c, data0, init);
      var prev := RunLoop(c, data0, init);
      if prev.Going? {
        KindStepKeepsBest(c, data0, prev.entries, prev.doc, kinds[|kinds| - 1]);
      }
    }
  }

  lemma KindStepKeepsBest(c: Env, data0: Doc, entries: seq<Entry>, doc: Doc, kind: Kind)
    requires forall k :: BestCoversRewards(doc.Get(k))
    ensures forall k :: BestCoversRewards(KindStep(c, data0, entries, doc, kind).doc.Get(k))
  {
    var numbers := LotteryNumbers(kind, c.vars);
    if numbers.Some? {
      CheckLotteryKeepsBest(c, data0, doc, kind, numbers.value);
    }
  }

  lemma CheckLotteryKeepsBest(c: Env, data0: Doc, doc: Doc, kind: Kind, numbers: seq<string>)
    requires forall k :: BestCoversRewards(doc.Get(k))
    ensures CheckLotterySpec(c, data0, doc, kind, numbers).Some? ==>
              forall k :: BestCoversRewards(CheckLotterySpec(c, data0, doc, kind, numbers).value.doc.Get(k))
  {
    var step := CheckLotterySpec(c, data0, doc, kind, numbers);
    if step.Some? && step.value.doc != doc {
      var result := step.value.result.value;
      var drawDate := Split(result.date, ' ')[0];
      assert step.value.doc == doc.With(kind, Recorded(doc.Get(kind), result, c.today, drawDate));
      RecordedKeepsBest(doc.Get(kind), result, c.today, drawDate);
    }
  }

  lemma RecordedKeepsBest(t: TypeData, result: CheckResult, today: string, drawDate: string)
    requires BestCoversRewards(t)
    ensures BestCoversRewards(Recorded(t, result, today, drawDate))
  {
    if UpdatedHistory(t, result, today).Some? {
      UpdatedHistoryKeepsBest(t, result, today);
    }
  }

  /** Every entry of the report is the check of a configured game against
      its latest draw, at most one per game, in the order ssq, 3d, kl8. */
  lemma {:induction false} RunLoopEntries(c: Env, data0: Doc, kinds: seq<Kind>)
    requires RunLoop(c, data0, kinds).Going?
    ensures var es := RunLoop(c, data0, kinds).entries;
            && |es| <= |kinds|
            && forall i :: 0 <= i < |es| ==>
                 && es[i].kind in kinds
                 && LotteryNumbers(es[i].kind, c.vars).Some?
                 && Check(es[i].kind, c.api(es[i].kind), LotteryNumbers(es[i].kind, c.vars).value) == Some(es[i].result)
  {
    if kinds != [] {
      var init := kinds[..|kinds| - 1];
      RunLoopEntries(c, data0, init);
      assert forall k :: k in init ==> k in kinds;
    }
  }

  /** The report is pushed exactly when the stored push date is not today,
      and afterwards the push date is today either way. */
  lemma RunPushGate(c: Env, stored: Option<Doc>)
    requires RunSpec(c, stored).Finished?
    ensures var r := RunSpec(c, stored);
            && (r.report.Some? <==> Loaded(stored).lastPush.GetOr(NeverDate) != c.today)
            && (r.report.Some? ==> r.report.value == HtmlReport(r.entries))
            && r.doc.lastPush.GetOr(NeverDate) == c.today
  {
    RunLoopFrame(c, Loaded(stored), Kinds);
  }

  /** A second run on the same day pushes nothing, whatever it finds. */
  lemma SecondRunSameDayNoPush(c: Env, stored: Option<Doc>, c2: Env)
    requires RunSpec(c, stored).Finished?
    requires c2.today == c.today
    requires RunSpec(c2, Some(RunSpec(c, stored).doc)).Finished?
    ensures RunSpec(c2, Some(RunSpec(c, stored).doc)).report.None?
  {
    RunPushGate(c, stored);
    RunPushGate(c2, Some(RunSpec(c, stored).doc));
  }

  /** Checking a new draw whose date carries the API's three-character
      weekday suffix, and checking again from the resulting document with
      the same draw, changes nothing the second time. */
  lemma RecheckSameDrawIsNoOp(c: Env, doc: Doc, kind: Kind, numbers: seq<string>, date: string, suffix: string)
    requires CheckLotterySpec(c, doc, doc, kind, numbers).Some?
    requires CheckLotterySpec(c, doc, doc, kind, numbers).value.result.Some?
    requires Split(CheckLotterySpec(c, doc, doc, kind, numbers).value.result.value.date, ' ')[0] == date + suffix
    requires forall k :: 0 <= k < |date| ==> IsDateChar(date[k])
    requires |suffix| == 3 && forall k :: 0 <= k < 3 ==> !IsDateChar(suffix[k])
    ensures var d1 := CheckLotterySpec(c, doc, doc, kind, numbers).value.doc;
            CheckLotterySpec(c, d1, d1, kind, numbers) == Some(Step(Check(kind, c.api(kind), numbers), d1))
  {
    var d1 := CheckLotterySpec(c, doc, doc, kind, numbers).value.doc;
    SameDrawNotRechecked(kind, date, suffix, c.weekdayOf);
    if d1 != doc {
      assert d1.Get(kind).lastCheckDate == StoredDate(date + suffix);
    }
  }
}
