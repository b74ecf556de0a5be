/** The part of Python's `re.search` the FN check-in script relies on. Each
    of its patterns is a literal prefix followed by one capture group: a
    greedy run of a character class (`([A-Za-z0-9]+)`, `(\d+)`), a
    fixed-shape timestamp (`(\d{4}-\d{2}-\d{2} \d{2}:\d{2}:\d{2})`), or a
    lazy `(.+?)` that stops before a literal closing tag. `re.search` returns
    the group of the leftmost position at which the whole pattern matches. */
module Patterns {
  import opened Wrappers
  import opened Strings

  /** `[A-Za-z0-9]` and `\d` (ASCII digits; see README). */
  datatype CharClass = AsciiAlnum | Digit

  predicate InClass(cls: CharClass, ch: char) {
    match cls
    case AsciiAlnum => 'A' <= ch <= 'Z' || 'a' <= ch <= 'z' || '0' <= ch <= '9'
    case Digit => IsDigit(ch)
  }

  /** The capture group that follows the prefix. */
  datatype Group =
    | RunOf(cls: CharClass)
    | Timestamp
    | LazyUntil(close: string)

  datatype Pattern = Pattern(prefix: string, group: Group)

  /** The longest prefix of `s` made of characters of `cls` (what a greedy
      `+` consumes before backing off, and nothing follows the group). */
  function LongestRun(s: string, cls: CharClass): (r: string)
    ensures |r| <= |s| && r == s[..|r|]
    ensures forall k :: 0 <= k < |r| ==> InClass(cls, r[k])
    ensures |r| < |s| ==> !InClass(cls, s[|r|])
  {
    if s == [] || !InClass(cls, s[0]) then [] else [s[0]] + LongestRun(s[1..], cls)
  }

  const TimestampLength: nat := 19

  /** Position `k` of `YYYY-MM-DD hh:mm:ss`. */
  predicate TimestampChar(k: nat, ch: char) {
    if k == 4 || k == 7 then ch == '-'
    else if k == 10 then ch == ' '
    else if k == 13 || k == 16 then ch == ':'
    else IsDigit(ch)
  }

  predicate IsTimestamp(w: string) {
    |w| == TimestampLength && forall k :: 0 <= k < |w| ==> TimestampChar(k, w[k])
  }

  /** `(.+?)close` once the group has consumed `text[s..j]`: stop at the
      first `close`, never consume a newline. */
  function LazyFrom(text: string, s: nat, j: nat, close: string): (r: Option<string>)
    requires s < j <= |text|
    ensures r.Some? ==> j - s <= |r.value|
    decreases |text| - j
  {
    if OccursAt(text, close, j) then Some(text[s..j])
    else if j < |text| && text[j] != '\n' then LazyFrom(text, s, j + 1, close)
    else None
  }

  /** The lazy group stops at the first closing tag at or after `j`, never
      crossing a newline; it fails when no closing tag is reachable. */
  lemma {:induction false} LazyFromMeaning(text: string, s: nat, j: nat, close: string)
    requires s < j <= |text|
    requires forall k :: s <= k < j ==> text[k] != '\n'
    ensures var r := LazyFrom(text, s, j, close);
            && (r.Some? ==> s + |r.value| <= |text| && r.value == text[s..s + |r.value|])
            && (r.Some? ==> OccursAt(text, close, s + |r.value|))
            && (r.Some? ==> forall k :: s <= k < s + |r.value| ==> text[k] != '\n')
            && (r.Some? ==> forall m :: j <= m < s + |r.value| ==> !OccursAt(text, close, m))
            && (r.None? ==> forall m :: j <= m <= |text| && (forall k :: s <= k < m ==> text[k] != '\n') ==>
                              !OccursAt(text, close, m))
    decreases |text| - j
  {
    if !OccursAt(text, close, j) && j < |text| && text[j] != '\n' {
      LazyFromMeaning(text, s, j + 1, close);
    }
  }

  /** The group the pattern captures when the match starts at `i`. */
  function MatchAt(text: string, p: Pattern, i: nat): (r: Option<string>)
    requires i <= |text|
    ensures r.Some? ==> OccursAt(text, p.prefix, i) && 1 <= |r.value|
  {
    if !OccursAt(text, p.prefix, i) then None
    else
      var s := i + |p.prefix|;
      match p.group
      case RunOf(cls) =>
        var run := LongestRun(text[s..], cls);
        if run == [] then None else Some(run)
      case Timestamp =>
        if s + TimestampLength <= |text| && IsTimestamp(text[s..s + TimestampLength])
        then Some(text[s..s + TimestampLength]) else None
      case LazyUntil(close) =>
        if s < |text| && text[s] != '\n' then LazyFrom(text, s, s + 1, close) else None
  }

  /** A run group captures the longest run of its class right after the
      prefix, and fails only when no character of the class follows. */
  lemma MatchRunMeaning(text: string, p: Pattern, i: nat)
    requires i <= |text| && p.group.RunOf?
    ensures var r := MatchAt(text, p, i);
            var s := i + |p.prefix|;
            && (r.Some? ==> s + |r.value| <= |text| && r.value == text[s..s + |r.value|])
            && (r.Some? ==> forall k :: 0 <= k < |r.value| ==> InClass(p.group.cls, r.value[k]))
            && (r.Some? && s + |r.value| < |text| ==> !InClass(p.group.cls, text[s + |r.value|]))
            && (r.None? && OccursAt(text, p.prefix, i) ==> s == |text| || !InClass(p.group.cls, text[s]))
  {
    if OccursAt(text, p.prefix, i) {
      var s := i + |p.prefix|;
      var run := LongestRun(text[s..], p.group.cls);
      assert text[s..][..|run|] == text[s..s + |run|];
      if |run| < |text[s..]| {
        assert text[s..][|run|] == text[s + |run|];
      }
    }
  }

  /** A timestamp group matches exactly when the 19 characters after the
      prefix have the shape `YYYY-MM-DD hh:mm:ss`, and captures them. */
  lemma MatchTimestampMeaning(text: string, p: Pattern, i: nat)
    requires i <= |text| && p.group.Timestamp?
    ensures var r := MatchAt(text, p, i);
            var s := i + |p.prefix|;
            && (r.Some? <==> OccursAt(text, p.prefix, i) && s + TimestampLength <= |text|
                             && IsTimestamp(text[s..s + TimestampLength]))
            && (r.Some? ==> r.value == text[s..s + TimestampLength] && IsTimestamp(r.value))
  {
  }

  /** A lazy group captures at least one character, no newline, and stops at
      the first closing tag after it. */
  lemma MatchLazyMeaning(text: string, p: Pattern, i: nat)
    requires i <= |text| && p.group.LazyUntil?
    ensures var r := MatchAt(text, p, i);
            var s := i + |p.prefix|;
            && (r.Some? ==> s + |r.value| <= |text| && r.value == text[s..s + |r.value|])
            && (r.Some? ==> forall k :: 0 <= k < |r.value| ==> r.value[k] != '\n')
            && (r.Some? ==> OccursAt(text, p.group.close, s + |r.value|))
            && (r.Some? ==> forall m :: s < m < s + |r.value| ==> !OccursAt(text, p.group.close, m))
  {
    var r := MatchAt(text, p, i);
    var s := i + |p.prefix|;
    if OccursAt(text, p.prefix, i) && s < |text| && text[s] != '\n' {
      LazyFromMeaning(text, s, s + 1, p.group.close);
    }
    if r.Some? {
      forall k | 0 <= k < |r.value| ensures r.value[k] != '\n' {
        assert r.value[k] == text[s + k];
      }
    }
  }

  /** Leftmost match from position `i` on. */
  function SearchFrom(text: string, p: Pattern, i: nat): (r: Option<string>)
    requires i <= |text| + 1
    ensures r.Some? ==> exists k :: i <= k <= |text| && MatchAt(text, p, k) == r &&
                          forall j :: i <= j < k ==> MatchAt(text, p, j).None?
    ensures r.None? ==> forall k :: i <= k <= |text| ==> MatchAt(text, p, k).None?
    decreases |text| + 1 - i
  {
    if i > |text| then None
    else
      match MatchAt(text, p, i)
      case Some(g) => Some(g)
      case None => SearchFrom(text, p, i + 1)
  }

  /** `re.search(p, text)` followed by `.group(1)`; `None` when there is no match. */
  function Search(text: string, p: Pattern): (r: Option<string>)
    ensures r.Some? ==> exists k :: 0 <= k <= |text| && MatchAt(text, p, k) == r &&
                          forall j :: 0 <= j < k ==> MatchAt(text, p, j).None?
    ensures r.None? ==> forall k :: 0 <= k <= |text| ==> MatchAt(text, p, k).None?
  {
    SearchFrom(text, p, 0)
  }

  /** The first match is the first place the pattern matches: a search
      finds the leftmost match, whatever follows it. */
  lemma {:induction false} SearchFromFindsFirst(text: string, p: Pattern, i: nat, k: nat)
    requires i <= k <= |text|
    requires MatchAt(text, p, k).Some?
    requires forall j :: i <= j < k ==> MatchAt(text, p, j).None?
    ensures SearchFrom(text, p, i) == MatchAt(text, p, k)
    decreases k - i
  {
    if i < k {
      SearchFromFindsFirst(text, p, i + 1, k);
    }
  }

  /** Writing a token of the class right after the prefix, with no earlier
      occurrence of the prefix, makes the search return exactly that token. */
  lemma SearchFindsRun(pre: string, prefix: string, cls: CharClass, token: string, post: string)
    requires token != [] && forall k :: 0 <= k < |token| ==> InClass(cls, token[k])
    requires post == [] || !InClass(cls, post[0])
    requires forall k :: 0 <= k < |pre| ==> !OccursAt(pre + prefix + token + post, prefix, k)
    ensures Search(pre + prefix + token + post, Pattern(prefix, RunOf(cls))) == Some(token)
  {
    var text := pre + prefix + token + post;
    var p := Pattern(prefix, RunOf(cls));
    var s := |pre| + |prefix|;
    assert text[|pre|..s] == prefix;
    assert text[s..] == token + post;
    RunOfToken(token, post, cls);
    RunMatchHere(text, p, |pre|, token);
    SearchFromFindsFirst(text, p, 0, |pre|);
  }

  lemma RunMatchHere(text: string, p: Pattern, i: nat, token: string)
    requires p.group.RunOf? && OccursAt(text, p.prefix, i)
    requires token != [] && LongestRun(text[i + |p.prefix|..], p.group.cls) == token
    ensures MatchAt(text, p, i) == Some(token)
  {
  }

  lemma {:induction false} RunOfToken(token: string, post: string, cls: CharClass)
    requires forall k :: 0 <= k < |token| ==> InClass(cls, token[k])
    requires post == [] || !InClass(cls, post[0])
    ensures LongestRun(token + post, cls) == token
    decreases |token|
  {
    if token == [] {
      assert token + post == post;
    } else {
      assert (token + post)[1..] == token[1..] + post;
      RunOfToken(token[1..], post, cls);
    }
  }

  /** Same for `(.+?)close`: the captured text is what stands between the
      prefix and the first closing tag. */
  lemma SearchFindsLazy(pre: string, prefix: string, value: string, close: string, post: string)
    requires value != [] && forall k :: 0 <= k < |value| ==> value[k] != '\n'
    requires forall m :: |pre| + |prefix| < m < |pre| + |prefix| + |value| ==>
               !OccursAt(pre + prefix + value + close + post, close, m)
    requires forall k :: 0 <= k < |pre| ==> !OccursAt(pre + prefix + value + close + post, prefix, k)
    ensures Search(pre + prefix + value + close + post, Pattern(prefix, LazyUntil(close))) == Some(value)
  {
    var text := pre + prefix + value + close + post;
    var p := Pattern(prefix, LazyUntil(close));
    var s := |pre| + |prefix|;
    var e := s + |value|;
    assert text[|pre|..s] == prefix;
    assert text[s..e] == value;
    assert text[e..e + |close|] == close;
    forall k | s <= k < e ensures text[k] != '\n' {
      assert text[k] == text[s..e][k - s];
    }
    LazyMatchHere(text, p, |pre|, e);
    SearchFromFindsFirst(text, p, 0, |pre|);
  }

  /** A lazy group that starts after the prefix at `i` and reaches the first
      closing tag at `e` captures everything in between. */
  lemma LazyMatchHere(text: string, p: Pattern, i: nat, e: nat)
    requires p.group.LazyUntil? && OccursAt(text, p.prefix, i)
    requires i + |p.prefix| < e <= |text|
    requires forall k :: i + |p.prefix| <= k < e ==> text[k] != '\n'
    requires OccursAt(text, p.group.close, e)
    requires forall m :: i + |p.prefix| < m < e ==> !OccursAt(text, p.group.close, m)
    ensures MatchAt(text, p, i) == Some(text[i + |p.prefix|..e])
  {
    var s := i + |p.prefix|;
    LazyReaches(text, s, s + 1, e, p.group.close);
  }

  lemma {:induction false} LazyReaches(text: string, s: nat, j: nat, e: nat, close: string)
    requires s < j <= e <= |text|
    requires forall k :: s <= k < e ==> text[k] != '\n'
    requires OccursAt(text, close, e)
    requires forall m :: j <= m < e ==> !OccursAt(text, close, m)
    ensures LazyFrom(text, s, j, close) == Some(text[s..e])
    decreases e - j
  {
    if j < e {
      LazyReaches(text, s, j + 1, e, close);
    }
  }
}
