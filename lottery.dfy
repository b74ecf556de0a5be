/** The rules of the lottery checker: how a ticket is compared with the
    latest draw of each game (双色球 `ssq`, 福彩3D `3d`, 快乐8 `kl8`), what
    prize level and amount that gives, how ticket numbers are read from the
    environment, when a draw counts as new, and the report text. */
module LotteryRules {
  import opened Wrappers
  import opened Strings

  datatype Kind = Ssq | ThreeD | Kl8

  /** The games in the order `run` checks them. */
  const Kinds: seq<Kind> := [Ssq, ThreeD, Kl8]

  function EnvKey(k: Kind): string {
    match k
    case Ssq => "LOTTERY_SSQ"
    case ThreeD => "LOTTERY_3D"
    case Kl8 => "LOTTERY_KL8"
  }

  /** ISO weekdays (1 = Monday) on which the game draws. */
  function DrawDays(k: Kind): seq<int> {
    match k
    case Ssq => [2, 4, 7]
    case ThreeD => [1, 2, 3, 4, 5, 6, 7]
    case Kl8 => [1, 2, 3, 4, 5, 6, 7]
  }

  /** `lottery_type.upper()` */
  function Upper(k: Kind): string {
    match k
    case Ssq => "SSQ"
    case ThreeD => "3D"
    case Kl8 => "KL8"
  }

  const NoPrize: string := "未中奖"
  const ThreeDWin: string := "中奖"
  const ThreeDWinAmount: int := 1040

  /** `kl8` is checked as "pick ten". */
  const Kl8PlayType: int := 10

  /** A prize amount as JSON carries it: a number, or a string from the
      lottery API's `typemoney`. */
  datatype Money = Num(n: int) | Text(s: string)

  /** A prize grade's `type`: the grade number for `ssq`, a string such as
      `x10z5` for `kl8`. */
  datatype GradeType = IntType(i: int) | StrType(s: string)

  datatype PrizeGrade = PrizeGrade(gradeType: GradeType, typemoney: Money)

  /** The fields of the latest draw the checker reads. */
  datatype LotteryInfo = LotteryInfo(date: string, red: string, blue: string, prizegrades: seq<PrizeGrade>)

  /** What `check_*` returns. */
  datatype CheckResult = CheckResult(date: string, winning: seq<string>, mine: seq<string>, level: string, amount: Money)

  // ---------------------------------------------------------------------
  // Sets of numbers
  // ---------------------------------------------------------------------

  /** Python's `set(s)`. */
  function ToSet(s: seq<string>): (r: set<string>)
    ensures forall x :: x in r <==> x in s
    ensures |r| <= |s|
  {
    if s == [] then {} else ToSet(s[..|s| - 1]) + {s[|s| - 1]}
  }

  lemma {:induction false} SubsetCard(a: set<string>, b: set<string>)
    requires a <= b
    ensures |a| <= |b|
    decreases |a|
  {
    if a != {} {
      var x :| x in a;
      SubsetCard(a - {x}, b - {x});
    }
  }

  /** `len(set(mine) & set(winning))`: never more than the ticket's length. */
  function CommonCount(mine: seq<string>, winning: seq<string>): (n: nat)
    ensures n <= |mine| && n <= |winning|
    ensures n == |set x | x in mine && x in winning|
  {
    var common := ToSet(mine) * ToSet(winning);
    SubsetCard(common, ToSet(mine));
    SubsetCard(common, ToSet(winning));
    assert common == set x | x in mine && x in winning;
    |common|
  }

  // ---------------------------------------------------------------------
  // 双色球
  // ---------------------------------------------------------------------

  /** The Chinese numeral for 1..6. */
  function Numeral(n: int): char
    requires 1 <= n <= 6
  {
    if n == 1 then '一' else if n == 2 then '二' else if n == 3 then '三'
    else if n == 4 then '四' else if n == 5 then '五' else '六'
  }

  /** The name of prize level `n`: `一等奖` .. `六等奖`. */
  function LevelName(n: int): (name: string)
    requires 1 <= n <= 6
    ensures |name| == 3 && name[0] == Numeral(n) && name != NoPrize
  {
    [Numeral(n)] + "等奖"
  }

  /** `_calculate_ssq_prize`: the prize table. */
  function SsqPrize(redMatches: int, blueMatch: bool): (level: string)
    ensures level == NoPrize || (1 <= Rank(level) <= 6 && level == LevelName(Rank(level)))
    ensures level == NoPrize <==> !blueMatch && redMatches != 4 && redMatches != 5 && redMatches != 6
  {
    if redMatches == 6 && blueMatch then LevelName(1)
    else if redMatches == 6 then LevelName(2)
    else if redMatches == 5 && blueMatch then LevelName(3)
    else if redMatches == 5 || (redMatches == 4 && blueMatch) then LevelName(4)
    else if redMatches == 4 || (redMatches == 3 && blueMatch) then LevelName(5)
    else if blueMatch then LevelName(6)
    else NoPrize
  }

  /** A matching blue ball always wins something. */
  lemma BlueAlwaysWins(redMatches: int)
    ensures SsqPrize(redMatches, true) != NoPrize
  {
  }

  /** The level number a name stands for (7 for no prize): smaller is better. */
  function Rank(level: string): int {
    if level == LevelName(1) then 1 else if level == LevelName(2) then 2
    else if level == LevelName(3) then 3 else if level == LevelName(4) then 4
    else if level == LevelName(5) then 5 else if level == LevelName(6) then 6
    else 7
  }

  /** Below six reds, levels three to five depend only on how many balls
      match in total, red and blue together. */
  lemma SsqMiddleLevelsByTotal(redMatches: int, blueMatch: bool)
    requires 0 <= redMatches <= 5
    ensures var total := redMatches + if blueMatch then 1 else 0;
            SsqPrize(redMatches, blueMatch) ==
              if total == 6 then LevelName(3)
              else if total == 5 then LevelName(4)
              else if total == 4 then LevelName(5)
              else if blueMatch then LevelName(6)
              else NoPrize
  {
  }

  /** Matching more never gives a worse level. */
  lemma SsqPrizeMonotone(r1: int, b1: bool, r2: int, b2: bool)
    requires 0 <= r1 <= r2 <= 6 && (b1 ==> b2)
    ensures Rank(SsqPrize(r2, b2)) <= Rank(SsqPrize(r1, b1))
  {
  }

  /** The digit the first character of a level maps to once the Chinese
      numerals are replaced. */
  function DigitOfNumeral(c: char): char {
    if c == '一' then '1' else if c == '二' then '2' else if c == '三' then '3'
    else if c == '四' then '4' else if c == '五' then '5' else if c == '六' then '6'
    else c
  }

  /** `next(item for item in grades if item['type'] == t)`. */
  function FirstGrade(grades: seq<PrizeGrade>, t: GradeType): (r: Option<PrizeGrade>)
    ensures r.None? <==> forall k :: 0 <= k < |grades| ==> grades[k].gradeType != t
    ensures r.Some? ==> exists k :: 0 <= k < |grades| && grades[k] == r.value && r.value.gradeType == t &&
                          forall j :: 0 <= j < k ==> grades[j].gradeType != t
  {
    if grades == [] then None
    else if grades[0].gradeType == t then Some(grades[0])
    else
      var r := FirstGrade(grades[1..], t);
      assert forall k :: 1 <= k < |grades| ==> grades[k] == grades[1..][k - 1];
      r
  }

  /** The money of the first grade of type `t`, 0 when there is none. */
  function GradeMoney(grades: seq<PrizeGrade>, t: GradeType): Money {
    match FirstGrade(grades, t)
    case Some(g) => g.typemoney
    case None => Num(0)
  }

  /** `_get_prize_amount(level, info)`. */
  function PrizeAmount(level: string, info: LotteryInfo): (m: Money)
    requires level != []
    ensures level == NoPrize ==> m == Num(0)
  {
    if level == NoPrize then Num(0)
    else
      match ParseInt([DigitOfNumeral(level[0])])
      case None => Num(0)
      case Some(n) => GradeMoney(info.prizegrades, IntType(n))
  }

  /** Level `n` is paid from the grade whose `type` is the number `n`. */
  lemma PrizeAmountOfLevel(n: int, info: LotteryInfo)
    requires 1 <= n <= 6
    ensures PrizeAmount(LevelName(n), info) == GradeMoney(info.prizegrades, IntType(n))
  {
    IntToStringParses(n);
    assert IntToString(n) == [DigitChar(n)];
    assert [DigitOfNumeral(LevelName(n)[0])] == [DigitChar(n)];
  }

  /** `check_ssq(my_numbers)` on the fetched draw. */
  function CheckSsq(info: Option<LotteryInfo>, mine: seq<string>): (r: Option<CheckResult>)
    ensures r.Some? <==> info.Some? && |mine| == 7
    ensures r.Some? ==>
              var red := Split(info.value.red, ',');
              var redMatches := |set x | x in mine[..6] && x in red|;
              && r.value.date == info.value.date && r.value.mine == mine
              && r.value.winning == red + [info.value.blue]
              && redMatches <= 6
              && r.value.level == SsqPrize(redMatches, mine[6] == info.value.blue)
              && r.value.amount == PrizeAmount(r.value.level, info.value)
  {
    if info.None? || |mine| != 7 then None
    else
      var winning := Split(info.value.red, ',') + [info.value.blue];
      assert winning[..|winning| - 1] == Split(info.value.red, ',');
      var redMatches := CommonCount(mine[..6], winning[..|winning| - 1]);
      var level := SsqPrize(redMatches, mine[6] == winning[|winning| - 1]);
      assert level != [];
      Some(CheckResult(info.value.date, winning, mine, level, PrizeAmount(level, info.value)))
  }

  /** Every winning `ssq` ticket is paid the money of the grade with its
      level's number, or 0 when the draw lists no such grade. */
  lemma SsqPaidByGrade(info: LotteryInfo, mine: seq<string>)
    requires |mine| == 7
    ensures var r := CheckSsq(Some(info), mine).value;
            r.level == NoPrize ==> r.amount == Num(0)
    ensures var r := CheckSsq(Some(info), mine).value;
            r.level != NoPrize ==>
              1 <= Rank(r.level) <= 6 && r.level == LevelName(Rank(r.level)) &&
              r.amount == GradeMoney(info.prizegrades, IntType(Rank(r.level)))
  {
    var r := CheckSsq(Some(info), mine).value;
    if r.level != NoPrize {
      PrizeAmountOfLevel(Rank(r.level), info);
    }
  }

  // ---------------------------------------------------------------------
  // 福彩3D
  // ---------------------------------------------------------------------

  /** `sum(1 for my, win in zip(mine, winning) if my == win)`. */
  function ZipMatches(mine: seq<string>, winning: seq<string>): (n: nat)
    ensures n <= |mine| && n <= |winning|
    ensures (n == |mine| || n == |winning|) <==>
              forall k :: 0 <= k < |mine| && k < |winning| ==> mine[k] == winning[k]
  {
    if mine == [] || winning == [] then 0
    else
      var rest := ZipMatches(mine[1..], winning[1..]);
      assert forall k :: 1 <= k < |mine| && k < |winning| ==> mine[k] == mine[1..][k - 1] && winning[k] == winning[1..][k - 1];
      (if mine[0] == winning[0] then 1 else 0) + rest
  }

  /** `_calculate_3d_prize` */
  function ThreeDPrize(matches: int): string {
    if matches == 3 then ThreeDWin else NoPrize
  }

  /** `check_3d(my_numbers)`: a win needs all three positions to match. */
  function CheckThreeD(info: Option<LotteryInfo>, mine: seq<string>): (r: Option<CheckResult>)
    ensures r.Some? <==> info.Some? && |mine| == 3
    ensures r.Some? ==>
              && r.value.date == info.value.date && r.value.mine == mine
              && r.value.winning == Split(info.value.red, ',')
              && (r.value.level == ThreeDWin || r.value.level == NoPrize)
              && (r.value.level == ThreeDWin <==>
                    |r.value.winning| >= 3 && forall k :: 0 <= k < 3 ==> mine[k] == r.value.winning[k])
              && r.value.amount == Num(if r.value.level == ThreeDWin then ThreeDWinAmount else 0)
  {
    if info.None? || |mine| != 3 then None
    else
      var winning := Split(info.value.red, ',');
      var level := ThreeDPrize(ZipMatches(mine, winning));
      Some(CheckResult(info.value.date, winning, mine, level, Num(if level == ThreeDWin then ThreeDWinAmount else 0)))
  }

  // ---------------------------------------------------------------------
  // 快乐8
  // ---------------------------------------------------------------------

  /** `f'x{play_type}z{matches}'` */
  function Kl8Level(playType: int, matches: int): string {
    "x" + IntToString(playType) + "z" + IntToString(matches)
  }

  lemma IntToStringChars(i: int)
    ensures forall k :: 0 <= k < |IntToString(i)| ==> IsDigit(IntToString(i)[k]) || IntToString(i)[k] == '-'
  {
  }

  /** The level names its two numbers unambiguously: dropping the `x` and
      splitting at `z` gives back both, and they read back as integers. */
  lemma Kl8LevelReadsBack(playType: int, matches: int)
    ensures var level := Kl8Level(playType, matches);
            && level[0] == 'x'
            && Split(level[1..], 'z') == [IntToString(playType), IntToString(matches)]
            && ParseInt(Split(level[1..], 'z')[0]) == Some(playType)
            && ParseInt(Split(level[1..], 'z')[1]) == Some(matches)
  {
    var a := IntToString(playType);
    var b := IntToString(matches);
    IntToStringChars(playType);
    IntToStringChars(matches);
    assert Kl8Level(playType, matches)[1..] == a + "z" + b;
    assert Join([a, b], "z") == a + "z" + b;
    SplitJoin([a, b], 'z');
    IntToStringParses(playType);
    IntToStringParses(matches);
  }

  /** `check_kl8(my_numbers, play_type)`. */
  function CheckKl8(info: Option<LotteryInfo>, mine: seq<string>, playType: int): (r: Option<CheckResult>)
    ensures r.Some? <==> info.Some? && |mine| == playType
    ensures r.Some? ==>
              var winning := Split(info.value.red, ',');
              var matches := |set x | x in mine && x in winning|;
              && r.value.date == info.value.date && r.value.mine == mine && r.value.winning == winning
              && 0 <= matches <= playType
              && r.value.level == Kl8Level(playType, matches)
              && r.value.amount == GradeMoney(info.value.prizegrades, StrType(r.value.level))
  {
    if info.None? || |mine| != playType then None
    else
      var winning := Split(info.value.red, ',');
      var level := Kl8Level(playType, CommonCount(mine, winning));
      Some(CheckResult(info.value.date, winning, mine, level, GradeMoney(info.value.prizegrades, StrType(level))))
  }

  /** A `kl8` level is never `未中奖`, so every checked `kl8` draw counts as
      a win for the history, even one paying nothing. */
  lemma Kl8NeverNoPrize(info: Option<LotteryInfo>, mine: seq<string>, playType: int)
    requires CheckKl8(info, mine, playType).Some?
    ensures CheckKl8(info, mine, playType).value.level != NoPrize
  {
    assert CheckKl8(info, mine, playType).value.level[0] == 'x';
  }

  /** `check_functions[lottery_type](numbers)` with `play_type=10` for `kl8`. */
  function Check(kind: Kind, info: Option<LotteryInfo>, mine: seq<string>): (r: Option<CheckResult>)
    ensures r.Some? ==> info.Some? && r.value.date == info.value.date && r.value.mine == mine && r.value.level != []
  {
    match kind
    case Ssq =>
      CheckSsq(info, mine)
    case ThreeD => CheckThreeD(info, mine)
    case Kl8 =>
      var r := CheckKl8(info, mine, Kl8PlayType);
      assert r.Some? ==> r.value.level[0] == 'x';
      r
  }

  // ---------------------------------------------------------------------
  // Ticket numbers from the environment
  // ---------------------------------------------------------------------

  /** `str(int(num))` for 3D, `f"{int(num):02}"` for the others. */
  function Format(kind: Kind, n: int): string {
    if kind == ThreeD then IntToString(n) else Pad2(n)
  }

  /** A formatted number reads back as itself and holds no comma. */
  lemma FormatReadsBack(kind: Kind, n: int)
    ensures ParseInt(Format(kind, n)) == Some(n)
    ensures ',' !in Format(kind, n)
    ensures kind != ThreeD ==> |Format(kind, n)| >= 2
  {
    IntToStringParses(n);
    Pad2Parses(n);
    IntToStringChars(n);
    if kind != ThreeD && 0 <= n < 10 {
      assert Pad2(n) == "0" + IntToString(n);
    }
  }

  /** The list comprehension over `numbers.split(',')`; `None` when one
      token is not an integer (`int()` raises). */
  function FormatAll(kind: Kind, tokens: seq<string>): (r: Option<seq<string>>)
    ensures r.Some? <==> forall k :: 0 <= k < |tokens| ==> ParseInt(tokens[k]).Some?
    ensures r.Some? ==> |r.value| == |tokens|
    ensures r.Some? ==> forall k :: 0 <= k < |tokens| ==> r.value[k] == Format(kind, ParseInt(tokens[k]).value)
  {
    if tokens == [] then Some([])
    else
      var rest := FormatAll(kind, tokens[1..]);
      assert forall k :: 1 <= k < |tokens| ==> tokens[k] == tokens[1..][k - 1];
      match ParseInt(tokens[0])
      case None => None
      case Some(n) =>
        match rest
        case None => None
        case Some(s) => Some([Format(kind, n)] + s)
  }

  /** `get_lottery_numbers(lottery_type)`: every token read as an integer
      and written back in the game's format. */
  function LotteryNumbers(kind: Kind, env: map<string, string>): Option<seq<string>> {
    if EnvKey(kind) !in env || env[EnvKey(kind)] == "" then None
    else
      var tokens := Split(env[EnvKey(kind)], ',');
      var r := NumbersOf(kind, env[EnvKey(kind)]);
      assert r.Some? ==> forall k :: 0 <= k < |tokens| ==> ParseInt(tokens[k]).Some?;
      assert (forall k :: 0 <= k < |tokens| ==> ParseInt(tokens[k]).Some?) ==> r.Some?;
      r
  }

  /** The numbers are there exactly when the variable is set, non-empty and
      every comma-separated token is an integer; each one reads back as the
      integer it was written from, holds no comma, and is padded to two
      digits, or for 3D written without leading zeros. */
  lemma LotteryNumbersMeaning(kind: Kind, env: map<string, string>)
    ensures var r := LotteryNumbers(kind, env);
            r.Some? <==>
              && EnvKey(kind) in env && env[EnvKey(kind)] != ""
              && forall k :: 0 <= k < |Split(env[EnvKey(kind)], ',')| ==> ParseInt(Split(env[EnvKey(kind)], ',')[k]).Some?
    ensures var r := LotteryNumbers(kind, env);
            r.Some? ==>
              var tokens := Split(env[EnvKey(kind)], ',');
              && |r.value| == |tokens| && |r.value| >= 1
              && forall k :: 0 <= k < |tokens| ==>
                   ParseInt(tokens[k]).Some? && ParseInt(r.value[k]) == ParseInt(tokens[k]) && ',' !in r.value[k]
                   && (kind != ThreeD ==> |r.value[k]| >= 2 && r.value[k] == Pad2(ParseInt(tokens[k]).value))
                   && (kind == ThreeD ==> r.value[k] == IntToString(ParseInt(tokens[k]).value))
  {
    if EnvKey(kind) in env && env[EnvKey(kind)] != "" {
      var value := env[EnvKey(kind)];
      var tokens := Split(value, ',');
      var r := NumbersOf(kind, value);
      assert LotteryNumbers(kind, env) == r;
      assert r.Some? <==> forall k :: 0 <= k < |tokens| ==> ParseInt(tokens[k]).Some?;
      if r.Some? {
        forall k | 0 <= k < |Split(env[EnvKey(kind)], ',')|
          ensures ParseInt(Split(env[EnvKey(kind)], ',')[k]).Some?
        {
          assert Split(env[EnvKey(kind)], ',')[k] == tokens[k];
        }
      } else {
        var k :| 0 <= k < |tokens| && ParseInt(tokens[k]).None?;
        assert Split(env[EnvKey(kind)], ',')[k] == tokens[k];
      }
      if r.Some? {
        assert |r.value| == |tokens| && |r.value| >= 1;
        forall k | 0 <= k < |tokens|
          ensures ParseInt(tokens[k]).Some? && ParseInt(r.value[k]) == ParseInt(tokens[k]) && ',' !in r.value[k]
          ensures kind != ThreeD ==> |r.value[k]| >= 2 && r.value[k] == Pad2(ParseInt(tokens[k]).value)
          ensures kind == ThreeD ==> r.value[k] == IntToString(ParseInt(tokens[k]).value)
        {
        }
      }
    } else {
      assert LotteryNumbers(kind, env) == None;
    }
  }

  /** The numbers of a non-empty variable value. */
  function NumbersOf(kind: Kind, value: string): (r: Option<seq<string>>)
    ensures r.Some? <==> forall k :: 0 <= k < |Split(value, ',')| ==> ParseInt(Split(value, ',')[k]).Some?
    ensures r.Some? ==>
              var tokens := Split(value, ',');
              && |r.value| == |tokens| && |r.value| >= 1
              && forall k :: 0 <= k < |tokens| ==>
                   ParseInt(tokens[k]).Some? && ParseInt(r.value[k]) == ParseInt(tokens[k]) && ',' !in r.value[k]
                   && (kind != ThreeD ==> |r.value[k]| >= 2 && r.value[k] == Pad2(ParseInt(tokens[k]).value))
                   && (kind == ThreeD ==> r.value[k] == IntToString(ParseInt(tokens[k]).value))
  {
    var tokens := Split(value, ',');
    FormatAllReadsBack(kind, tokens);
    var r := FormatAll(kind, tokens);
    assert r.Some? ==> forall k :: 0 <= k < |tokens| ==> ParseInt(tokens[k]).Some?;
    assert (forall k :: 0 <= k < |tokens| ==> ParseInt(tokens[k]).Some?) ==> r.Some?;
    r
  }

  lemma FormatAllReadsBack(kind: Kind, tokens: seq<string>)
    ensures FormatAll(kind, tokens).Some? ==> forall k :: 0 <= k < |tokens| ==>
              ParseInt(FormatAll(kind, tokens).value[k]) == ParseInt(tokens[k]) &&
              ',' !in FormatAll(kind, tokens).value[k] &&
              (kind != ThreeD ==> |FormatAll(kind, tokens).value[k]| >= 2)
  {
    if FormatAll(kind, tokens).Some? {
      var r := FormatAll(kind, tokens).value;
      forall k | 0 <= k < |tokens|
        ensures ParseInt(r[k]) == ParseInt(tokens[k]) && ',' !in r[k] && (kind != ThreeD ==> |r[k]| >= 2)
      {
        FormatReadsBack(kind, ParseInt(tokens[k]).value);
      }
    }
  }

  /** Formatting is idempotent: writing the formatted list back with commas
      and reading it again gives the same list. */
  lemma LotteryNumbersIdempotent(kind: Kind, env: map<string, string>)
    requires LotteryNumbers(kind, env).Some?
    ensures var r := LotteryNumbers(kind, env).value;
            LotteryNumbers(kind, env[EnvKey(kind) := Join(r, ",")]) == Some(r)
  {
    var tokens := Split(env[EnvKey(kind)], ',');
    var r := LotteryNumbers(kind, env).value;
    assert LotteryNumbers(kind, env) == NumbersOf(kind, env[EnvKey(kind)]) == FormatAll(kind, tokens);
    FormatAllIdempotent(kind, tokens);
    FormatAllReadsBack(kind, tokens);
    SplitJoin(r, ',');
    assert Join(r, ",") != "" by {
      JoinLength(r, ",");
      assert ParseInt(r[0]) == ParseInt(tokens[0]);
    }
    var env2 := env[EnvKey(kind) := Join(r, ",")];
    assert LotteryNumbers(kind, env2) == NumbersOf(kind, Join(r, ",")) == FormatAll(kind, r);
  }

  /** Formatting numbers that are already formatted changes nothing. */
  lemma FormatAllIdempotent(kind: Kind, tokens: seq<string>)
    requires FormatAll(kind, tokens).Some?
    ensures FormatAll(kind, FormatAll(kind, tokens).value) == FormatAll(kind, tokens)
  {
    var r := FormatAll(kind, tokens).value;
    forall k | 0 <= k < |r| ensures ParseInt(r[k]) == Some(ParseInt(tokens[k]).value) {
      FormatReadsBack(kind, ParseInt(tokens[k]).value);
    }
    var r2 := FormatAll(kind, r);
    assert r2.Some?;
    assert r2.value == r;
  }


  lemma {:induction false} JoinLength(parts: seq<string>, sep: string)
    requires |parts| >= 1
    ensures |Join(parts, sep)| >= |parts[0]|
  {
    if |parts| > 1 {
      JoinLength(parts[1..], sep);
    }
  }

  // ---------------------------------------------------------------------
  // Is this draw new?
  // ---------------------------------------------------------------------

  /** `should_check_lottery(lottery_type, draw_date)` given the stored
      `last_check_date`; `weekdayOf` is `strptime(..).isoweekday()`, `None`
      when the date does not parse (the exception escapes). */
  function ShouldCheck(kind: Kind, drawDate: string, lastCheckDate: string, weekdayOf: string -> Option<int>)
    : (r: Option<bool>)
    ensures r.None? ==> drawDate != "" && weekdayOf(DateChars(drawDate)).None?
    ensures r == Some(true) ==>
              && drawDate != ""
              && LexLess(Split(lastCheckDate, ' ')[0], DateChars(drawDate))
              && weekdayOf(DateChars(drawDate)).Some? && weekdayOf(DateChars(drawDate)).value in DrawDays(kind)
    ensures drawDate != "" && LexLess(Split(lastCheckDate, ' ')[0], DateChars(drawDate))
            && weekdayOf(DateChars(drawDate)).Some? ==>
              r == Some(weekdayOf(DateChars(drawDate)).value in DrawDays(kind))
  {
    if drawDate == "" then Some(false)
    else
      var date := DateChars(drawDate);
      var last := Split(lastCheckDate, ' ')[0];
      if LexLess(last, date) then
        match weekdayOf(date)
        case None => None
        case Some(w) => Some(w in DrawDays(kind))
      else Some(false)
  }

  /** A draw no newer than the last one checked is not checked. */
  lemma OldDrawNotChecked(kind: Kind, drawDate: string, lastCheckDate: string, weekdayOf: string -> Option<int>)
    requires !LexLess(Split(lastCheckDate, ' ')[0], DateChars(drawDate))
    ensures ShouldCheck(kind, drawDate, lastCheckDate, weekdayOf) == Some(false)
  {
  }

  /** The date the checker stores after a check: `draw_date[:len(draw_date)-3]`. */
  function StoredDate(drawDate: string): (r: string)
    ensures |drawDate| >= 3 ==> r == drawDate[..|drawDate| - 3]
    ensures |drawDate| == 2 ==> r == drawDate[..1]
    ensures |drawDate| < 2 ==> r == []
  {
    PySlicePrefix(drawDate, |drawDate| - 3)
  }

  /** With the API's `YYYY-MM-DD(w)` dates, the stored date is the date
      itself, so the same draw is not checked a second time. */
  lemma SameDrawNotRechecked(kind: Kind, date: string, suffix: string, weekdayOf: string -> Option<int>)
    requires forall k :: 0 <= k < |date| ==> IsDateChar(date[k])
    requires |suffix| == 3 && forall k :: 0 <= k < 3 ==> !IsDateChar(suffix[k])
    ensures StoredDate(date + suffix) == date
    ensures ShouldCheck(kind, date + suffix, StoredDate(date + suffix), weekdayOf) == Some(false)
  {
    FilterAppend(date, suffix, IsDateChar);
    FilterKeepsAll(date, IsDateChar);
    FilterDropsAll(suffix, IsDateChar);
    assert DateChars(date + suffix) == date;
    assert (date + suffix)[..|date|] == date;
    assert StoredDate(date + suffix) == date;
    assert ' ' !in date by {
      forall k | 0 <= k < |date| ensures date[k] != ' ' {
        assert IsDateChar(date[k]);
      }
    }
    SplitPiece(date, ' ');
    LexLessIrreflexive(date);
    OldDrawNotChecked(kind, date + suffix, date, weekdayOf);
  }

  /** Without the three-character weekday suffix the stored date loses its
      last three characters (the day of `YYYY-MM-DD`), so the same draw
      counts as new on every run that falls on a draw day. */
  lemma BareDateRechecked(kind: Kind, date: string, weekdayOf: string -> Option<int>)
    requires |date| >= 3 && forall k :: 0 <= k < |date| ==> IsDateChar(date[k])
    requires weekdayOf(date).Some? && weekdayOf(date).value in DrawDays(kind)
    ensures StoredDate(date) == date[..|date| - 3]
    ensures ShouldCheck(kind, date, StoredDate(date), weekdayOf) == Some(true)
  {
    FilterKeepsAll(date, IsDateChar);
    var stored := StoredDate(date);
    assert ' ' !in stored by {
      forall k | 0 <= k < |stored| ensures stored[k] != ' ' {
        assert stored[k] == date[k];
        assert IsDateChar(date[k]);
      }
    }
    SplitPiece(stored, ' ');
    LexLessProperPrefix(stored, date);
  }

  // ---------------------------------------------------------------------
  // The report
  // ---------------------------------------------------------------------

  /** One row of `results` in `run`. */
  datatype Entry = Entry(kind: Kind, result: CheckResult)

  /** `f"{prize_amount}"` */
  function MoneyText(m: Money): string {
    match m
    case Num(n) => IntToString(n)
    case Text(s) => s
  }

  /** The lines `generate_html_report` emits for one result. */
  function Fragment(e: Entry): string {
    "<h2 style='color: #4CAF50; text-align: center;'>" + Upper(e.kind) + " 检查结果</h2>"
    + "• 开奖日期: " + e.result.date + "<br>"
    + "• 中奖号码: " + Join(e.result.winning, ", ") + "<br>"
    + "• 用户号码: " + Join(e.result.mine, ", ") + "<br>"
    + "• 中奖结果: " + e.result.level + "<br>"
    + "• 中奖金额: " + MoneyText(e.result.amount) + "元<br>"
    + "<hr>"
  }

  /** `generate_html_report(results)`: the fragments, in order. */
  function HtmlReport(entries: seq<Entry>): string {
    Concat(Fragments(entries))
  }

  function Fragments(entries: seq<Entry>): (fs: seq<string>)
    ensures |fs| == |entries| && forall k :: 0 <= k < |entries| ==> fs[k] == Fragment(entries[k])
  {
    seq(|entries|, k requires 0 <= k < |entries| => Fragment(entries[k]))
  }

  /** With no results the report is empty (and is still pushed). */
  lemma HtmlReportEmpty()
    ensures HtmlReport([]) == ""
  {
  }

  /** The report of two lists of results is the two reports one after the other. */
  lemma HtmlReportAppend(a: seq<Entry>, b: seq<Entry>)
    ensures HtmlReport(a + b) == HtmlReport(a) + HtmlReport(b)
  {
    assert Fragments(a + b) == Fragments(a) + Fragments(b);
    ConcatAppend(Fragments(a), Fragments(b));
  }

  /** Each result's fragment stands in the report right after the fragments
      of the results before it. */
  lemma HtmlReportHasFragments(entries: seq<Entry>, i: nat)
    requires i < |entries|
    ensures OccursAt(HtmlReport(entries), Fragment(entries[i]), |HtmlReport(entries[..i])|)
  {
    ConcatHasPiece(Fragments(entries), i);
    assert Fragments(entries)[..i] == Fragments(entries[..i]);
  }
}
