/** The multi-site tracker check-in orchestrator (`PT_attendance.py`).

    A fixed registry names each site, the environment variable holding its
    session cookie and its two pages. A roster document keeps, per site, the
    date of the last successful check-in and the figures scraped then. One
    run visits the sites listed under `enables`, skips those it cannot or
    need not check in, fetches the check-in page and the index page of the
    others (each through the bounded retry wrapper), records a site only when
    both pages show the logged-in sentinel, and assembles a report whose
    first fragment is a roster summary.

    The environment, today's date, the network and the regular expressions
    are inputs: `env` maps variable names to values, `net` answers each
    request, and a `Scraper` stands for the `re.findall`/`re.search` calls. */
module PTAttendance {
  import opened Wrappers
  import opened Strings
  import opened Retrying
  import opened Web

  // ---------------------------------------------------------------------
  // Registry and environment
  // ---------------------------------------------------------------------

  datatype SiteConfig = SiteConfig(env: string, attendanceUrl: string, indexUrl: string)

  /** The `PT` table, in declaration order. */
  const Registry: seq<(string, SiteConfig)> := [
    ("ICC2022", SiteConfig("icc2022_cookie", "https://www.icc2022.com/attendance.php", "https://www.icc2022.com/index.php")),
    ("HDTIME", SiteConfig("HDTIME_cookie", "https://hdtime.org/attendance.php", "https://hdtime.org/index.php")),
    ("HDVIDEO", SiteConfig("HDVIDEO_cookie", "https://hdvideo.one/attendance.php", "https://hdvideo.one/index.php")),
    ("CARPTS", SiteConfig("CARPTS_cookie", "https://carpt.net/attendance.php", "https://carpt.net/index.php")),
    ("ULTRAHD", SiteConfig("ULTRAHD_cookie", "https://ultrahd.net/attendance.php", "https://ultrahd.net/index.php")),
    ("AFUN", SiteConfig("AFUN_cookie", "https://www.ptlover.cc/attendance.php", "https://www.ptlover.cc/index.php"))
  ]

  /** The process environment: variable name to value. */
  type Env = map<string, string>

  /** `os.getenv(key)` is truthy: set and not empty. */
  predicate HasCookie(env: Env, key: string) {
    key in env && env[key] != ""
  }

  function Names(entries: seq<(string, SiteConfig)>): (r: seq<string>)
    ensures |r| == |entries|
    ensures forall k :: 0 <= k < |r| ==> r[k] == entries[k].0
  {
    if entries == [] then [] else [entries[0].0] + Names(entries[1..])
  }

  /** `PT.get(name)`, looked up in `entries`. */
  function LookupIn(entries: seq<(string, SiteConfig)>, name: string): (r: Option<SiteConfig>)
    ensures r.Some? <==> name in Names(entries)
    ensures r.Some? ==> exists k :: 0 <= k < |entries| && entries[k] == (name, r.value)
  {
    if entries == [] then None
    else if entries[0].0 == name then Some(entries[0].1)
    else
      var r := LookupIn(entries[1..], name);
      assert Names(entries) == [entries[0].0] + Names(entries[1..]);
      assert r.Some? ==> exists k :: 0 <= k < |entries| && entries[k] == (name, r.value) by {
        if r.Some? {
          var k :| 0 <= k < |entries[1..]| && entries[1..][k] == (name, r.value);
          assert entries[k + 1] == (name, r.value);
        }
      }
      r
  }

  /** `b` keeps some of the elements of `a`, in their order. */
  ghost predicate IsSubsequence(a: seq<string>, b: seq<string>)
    decreases |b|
  {
    a == [] || (b != [] && ((a[0] == b[0] && IsSubsequence(a[1..], b[1..])) || IsSubsequence(a, b[1..])))
  }

  /** `[name for name, details in entries if os.getenv(details['env'])]`. */
  function EnabledIn(entries: seq<(string, SiteConfig)>, env: Env): (r: seq<string>)
    ensures forall n :: n in r ==> exists k :: 0 <= k < |entries| && entries[k].0 == n && HasCookie(env, entries[k].1.env)
    ensures forall k :: 0 <= k < |entries| && HasCookie(env, entries[k].1.env) ==> entries[k].0 in r
    ensures IsSubsequence(r, Names(entries))
  {
    if entries == [] then []
    else
      var rest := EnabledIn(entries[1..], env);
      assert Names(entries)[1..] == Names(entries[1..]);
      var r := if HasCookie(env, entries[0].1.env) then [entries[0].0] + rest else rest;
      assert r != [] && HasCookie(env, entries[0].1.env) ==> r[1..] == rest;
      forall n | n in rest
        ensures exists k :: 0 <= k < |entries| && entries[k].0 == n && HasCookie(env, entries[k].1.env)
      {
        var k :| 0 <= k < |entries[1..]| && entries[1..][k].0 == n && HasCookie(env, entries[1..][k].1.env);
        assert entries[k + 1] == entries[1..][k];
      }
      forall k | 1 <= k < |entries| && HasCookie(env, entries[k].1.env)
        ensures entries[k].0 in rest
      {
        assert entries[k] == entries[1..][k - 1];
      }
      r
  }

  /** The names of a registry are distinct: it is a dictionary. */
  ghost predicate DistinctNames(entries: seq<(string, SiteConfig)>) {
    forall i, j :: 0 <= i < j < |entries| ==> entries[i].0 != entries[j].0
  }

  /** In a registry with distinct names, looking up an entry's name finds that entry. */
  lemma {:induction false} LookupFindsEntry(entries: seq<(string, SiteConfig)>, k: nat)
    requires DistinctNames(entries) && k < |entries|
    ensures LookupIn(entries, entries[k].0) == Some(entries[k].1)
  {
    if k > 0 {
      assert entries[0].0 != entries[k].0;
      assert entries[1..][k - 1] == entries[k];
      LookupFindsEntry(entries[1..], k - 1);
    }
  }

  /** The `PT` table has distinct names. */
  lemma RegistryNamesDistinct()
    ensures DistinctNames(Registry)
  {
  }

  // ---------------------------------------------------------------------
  // Roster document
  // ---------------------------------------------------------------------

  /** A value stored under `info`: a number, a string, or the list of
      `(date, title)` notices. */
  datatype InfoValue = Num(n: int) | Str(s: string) | NoticeList(items: seq<(string, string)>)

  /** One site's entry: `{'last_attendance': ..., 'info': {...}}`. */
  datatype SiteState = SiteState(lastAttendance: string, info: map<string, InfoValue>)

  /** The JSON document: `total`, the optional `enables` list, and one entry
      per site name. */
  datatype RosterDoc = RosterDoc(total: int, enables: Option<seq<string>>, sites: map<string, SiteState>)

  const NeverChecked := "0000-00-00"

  /** The entry `init_json_file` gives every site. */
  const DefaultInfo: map<string, InfoValue> := map[
    "times" := Num(0), "continue" := Num(0), "reward" := Num(0),
    "retroactive_cards" := Num(0), "today_rank" := Str("0/0"),
    "share_ratio" := Num(0), "upload_count" := Num(0), "download_count" := Num(0),
    "ml_count" := Num(0), "mails" := Num(0), "notices" := NoticeList([])
  ]

  /** `init_json_file()` over the registry `reg`: the document written when
      there is none yet. */
  function InitDoc(reg: seq<(string, SiteConfig)>, env: Env): (d: RosterDoc)
    requires DistinctNames(reg)
    ensures d.total == |reg|
    ensures d.enables.Some?
    ensures forall n :: n in d.enables.value <==> LookupIn(reg, n).Some? && HasCookie(env, LookupIn(reg, n).value.env)
    ensures IsSubsequence(d.enables.value, Names(reg))
    ensures d.sites.Keys == set k | 0 <= k < |reg| :: reg[k].0
    ensures forall n :: n in d.sites ==> d.sites[n] == SiteState(NeverChecked, DefaultInfo)
  {
    var enables := EnabledIn(reg, env);
    forall n ensures n in enables <==> LookupIn(reg, n).Some? && HasCookie(env, LookupIn(reg, n).value.env) {
      if n in enables {
        var k :| 0 <= k < |reg| && reg[k].0 == n && HasCookie(env, reg[k].1.env);
        LookupFindsEntry(reg, k);
      }
      if LookupIn(reg, n).Some? {
        var k :| 0 <= k < |reg| && reg[k] == (n, LookupIn(reg, n).value);
      }
    }
    RosterDoc(|reg|, Some(enables), map k | 0 <= k < |reg| :: reg[k].0 := SiteState(NeverChecked, DefaultInfo))
  }

  /** The document the script writes on a first run has six sites. */
  lemma InitDocOfRegistry(env: Env)
    ensures DistinctNames(Registry) && InitDoc(Registry, env).total == 6
  {
    RegistryNamesDistinct();
  }

  // ---------------------------------------------------------------------
  // Response extraction
  // ---------------------------------------------------------------------

  /** The logged-in sentinel both pages are tested for. */
  const Welcome := "欢迎回来"
  const NotAvailable := "N/A"

  /** The single-group patterns searched with `_safe_re_search`. */
  datatype Pattern = Times | Continue | Reward | RetroactiveCards
                   | ShareRatio | Upload | Download | Magic | Mails

  /** The regular expressions, as functions of the page: `findAll(p, text)`
      is `re.findall(p, text)`, `rank(text)` the two groups of the ranking
      pattern when it matches, `notices(text)` the `(date, title)` pairs. */
  datatype Scraper = Scraper(
    findAll: (Pattern, string) -> seq<string>,
    rank: string -> Option<(string, string)>,
    notices: string -> seq<(string, string)>)

  /** `_safe_re_search(pattern, text, cleanup)`. */
  function SafeReSearch(s: Scraper, p: Pattern, text: string, cleanup: bool): (r: string)
    ensures s.findAll(p, text) == [] ==> r == NotAvailable
    ensures s.findAll(p, text) != [] && !cleanup ==> r == s.findAll(p, text)[0]
    ensures s.findAll(p, text) != [] && cleanup ==> r == RemoveSpaces(s.findAll(p, text)[0])
  {
    var matches := s.findAll(p, text);
    if matches != [] then
      if cleanup then RemoveSpaces(matches[0]) else matches[0]
    else NotAvailable
  }

  /** `_safe_re_rank(text)`: `"rank/total"`, or `"N/A/N/A"` without a match. */
  function SafeReRank(s: Scraper, text: string): (r: string)
    ensures s.rank(text).None? ==> r == NotAvailable + "/" + NotAvailable
    ensures s.rank(text).Some? && '/' !in s.rank(text).value.0 && '/' !in s.rank(text).value.1 ==>
              Split(r, '/') == [s.rank(text).value.0, s.rank(text).value.1]
  {
    match s.rank(text)
    case None => NotAvailable + "/" + NotAvailable
    case Some((rank, total)) =>
      assert Join([rank, total], "/") == rank + "/" + total;
      if '/' !in rank && '/' !in total then
        SplitJoin([rank, total], '/');
        rank + "/" + total
      else rank + "/" + total
  }

  /** A page's result: `{'status': False}` or `{'status': True, ...fields}`. */
  datatype Detail = Detail(status: bool, fields: map<string, InfoValue>)

  const StatusFalse := Detail(false, map[])

  const AttendanceKeys: set<string> := {"times", "continue", "reward", "retroactive_cards", "today_rank"}
  const IndexKeys: set<string> := {"share_ratio", "upload_count", "download_count", "ml_count", "mails", "notices"}

  /** The fields `attendance()` extracts from a check-in page. */
  function AttendanceFields(s: Scraper, text: string): (f: map<string, InfoValue>)
    ensures f.Keys == AttendanceKeys
  {
    map["times" := Str(SafeReSearch(s, Times, text, false)),
        "continue" := Str(SafeReSearch(s, Continue, text, false)),
        "reward" := Str(SafeReSearch(s, Reward, text, false)),
        "retroactive_cards" := Str(SafeReSearch(s, RetroactiveCards, text, false)),
        "today_rank" := Str(SafeReRank(s, text))]
  }

  /** The fields `index_info()` extracts from an index page. */
  function IndexFields(s: Scraper, text: string): (f: map<string, InfoValue>)
    ensures f.Keys == IndexKeys
  {
    map["share_ratio" := Str(SafeReSearch(s, ShareRatio, text, false)),
        "upload_count" := Str(SafeReSearch(s, Upload, text, true)),
        "download_count" := Str(SafeReSearch(s, Download, text, true)),
        "ml_count" := Str(SafeReSearch(s, Magic, text, true)),
        "mails" := Str(SafeReSearch(s, Mails, text, false)),
        "notices" := NoticeList(s.notices(text))]
  }

  /** One call of `attendance()` on what the GET returned: request errors
      are caught and give `{'status': False}`; other errors propagate. */
  function AttendanceCall(s: Scraper, response: Response): (a: Attempt<Detail>)
    ensures a.Raised? <==> response.OtherError?
    ensures a.Ok? && a.value.status ==> response.Page? && Contains(response.text, Welcome)
    ensures a.Ok? && a.value.status ==> a.value.fields.Keys == AttendanceKeys
    ensures a.Ok? && !a.value.status ==> a.value == StatusFalse
  {
    match response
    case Page(text) => Ok(if Contains(text, Welcome) then Detail(true, AttendanceFields(s, text)) else StatusFalse)
    case RequestError => Ok(StatusFalse)
    case OtherError => Raised
  }

  /** One call of `index_info()`, likewise. */
  function IndexCall(s: Scraper, response: Response): (a: Attempt<Detail>)
    ensures a.Raised? <==> response.OtherError?
    ensures a.Ok? && a.value.status ==> response.Page? && Contains(response.text, Welcome)
    ensures a.Ok? && a.value.status ==> a.value.fields.Keys == IndexKeys
    ensures a.Ok? && !a.value.status ==> a.value == StatusFalse
  {
    match response
    case Page(text) => Ok(if Contains(text, Welcome) then Detail(true, IndexFields(s, text)) else StatusFalse)
    case RequestError => Ok(StatusFalse)
    case OtherError => Raised
  }

  /** A field whose pattern does not match is `'N/A'`, whatever the other
      patterns do: two scrapers that agree on one pattern agree on its field. */
  lemma FieldDegradesAlone(s1: Scraper, s2: Scraper, text: string, p: Pattern, cleanup: bool)
    requires s1.findAll(p, text) == s2.findAll(p, text)
    ensures SafeReSearch(s1, p, text, cleanup) == SafeReSearch(s2, p, text, cleanup)
    ensures s1.findAll(p, text) == [] ==> SafeReSearch(s1, p, text, cleanup) == NotAvailable
  {
  }

  /** `.get(key, default)` on a page result. */
  function Get(d: Detail, key: string, default: InfoValue): InfoValue {
    if key in d.fields then d.fields[key] else default
  }

  /** The eleven values `run` writes into `info` after a successful visit. */
  function MergedInfo(att: Detail, idx: Detail): (m: map<string, InfoValue>)
    ensures m.Keys == AttendanceKeys + IndexKeys
  {
    map["times" := Get(att, "times", Num(0)),
        "continue" := Get(att, "continue", Num(0)),
        "reward" := Get(att, "reward", Num(0)),
        "retroactive_cards" := Get(att, "retroactive_cards", Num(0)),
        "today_rank" := Get(att, "today_rank", Str("0/0")),
        "share_ratio" := Get(idx, "share_ratio", Num(0)),
        "upload_count" := Get(idx, "upload_count", Num(0)),
        "download_count" := Get(idx, "download_count", Num(0)),
        "ml_count" := Get(idx, "ml_count", Num(0)),
        "mails" := Get(idx, "mails", Num(0)),
        "notices" := Get(idx, "notices", NoticeList([]))]
  }

  /** With both pages successful every key is present, so the defaults of
      `.get` never apply: `info` receives exactly the extracted fields. */
  lemma MergedInfoIsExtracted(att: Detail, idx: Detail)
    requires att.fields.Keys == AttendanceKeys && idx.fields.Keys == IndexKeys
    ensures MergedInfo(att, idx) == att.fields + idx.fields
  {
    var m := MergedInfo(att, idx);
    assert forall k :: k in m ==> m[k] == (att.fields + idx.fields)[k];
  }


  // ---------------------------------------------------------------------
  // The run loop
  // ---------------------------------------------------------------------

  /** One GET: in loop round `round`, for site `site`, of `url`, the
      `attempt`-th call (from 0) inside the retry wrapper. */
  datatype Request = Request(round: nat, site: string, url: string, attempt: nat)

  /** Everything a run reads besides the document: the site registry, the
      environment, today's date (`%Y-%m-%d`), the network's answer to each
      request, and the page patterns. */
  datatype Context = Context(registry: seq<(string, SiteConfig)>, env: Env, today: string,
                             net: Request -> Response, scraper: Scraper)

  /** A report fragment: the roster summary, a site's success block, or a
      site's red failure line. */
  datatype Fragment =
    | Summary(total: int, enabled: nat, completed: nat)
    | SiteReport(name: string, attendance: map<string, InfoValue>, index: map<string, InfoValue>)
    | SiteFailure(name: string)

  /** The loop's state: the site entries, the fragments so far, `need_push`,
      and every request made. */
  datatype Progress = Progress(sites: map<string, SiteState>, fragments: seq<Fragment>, needPush: bool, log: seq<Request>)

  /** The `attempt`-th call of `attendance()` for a site in round `round`. */
  function AttendanceOp(c: Context, round: nat, name: string, url: string): nat -> Attempt<Detail> {
    (attempt: nat) => AttendanceCall(c.scraper, c.net(Request(round, name, url, attempt)))
  }

  /** The `attempt`-th call of `index_info()` for a site in round `round`. */
  function IndexOp(c: Context, round: nat, name: string, url: string): nat -> Attempt<Detail> {
    (attempt: nat) => IndexCall(c.scraper, c.net(Request(round, name, url, attempt)))
  }

  /** The requests a wrapper making `calls` calls sends. */
  function Requests(round: nat, name: string, url: string, calls: nat): (r: seq<Request>)
    ensures |r| == calls
    ensures forall k :: 0 <= k < calls ==> r[k] == Request(round, name, url, k)
  {
    seq(calls, (k: nat) => Request(round, name, url, k))
  }

  /** A site passes all three skip gates: it is registered, its cookie is
      set, and it has not been checked in today. */
  predicate Eligible(c: Context, name: string, sites: map<string, SiteState>) {
    && LookupIn(c.registry, name).Some?
    && HasCookie(c.env, LookupIn(c.registry, name).value.env)
    && name in sites
    && sites[name].lastAttendance != c.today
  }

  /** A site that passed the first two gates but has no entry:
      `detail[pt_name]` raises. */
  predicate MissingEntry(c: Context, name: string, sites: map<string, SiteState>) {
    LookupIn(c.registry, name).Some? && HasCookie(c.env, LookupIn(c.registry, name).value.env) && name !in sites
  }

  /** The entry of a site after a successful visit. */
  function Completed(st: SiteState, today: string, att: Detail, idx: Detail): (r: SiteState)
    ensures r.lastAttendance == today
    ensures r.info.Keys == st.info.Keys + AttendanceKeys + IndexKeys
    ensures forall k :: k in st.info && k !in AttendanceKeys + IndexKeys ==> r.info[k] == st.info[k]
  {
    SiteState(today, st.info + MergedInfo(att, idx))
  }

  /** Both pages of a visited site, and the requests made to get them. */
  datatype Fetched = Fetched(att: Detail, idx: Detail, requests: seq<Request>)

  /** `client.attendance()` then `client.index_info()`, each through the
      wrapper with `max_retries=3`; `None` when either wrapper gives up. */
  function FetchBoth(c: Context, round: nat, name: string, cfg: SiteConfig): (r: Option<Fetched>)
    ensures r.Some? ==> 2 <= |r.value.requests| <= 6
    ensures r.Some? ==> forall k :: 0 <= k < |r.value.requests| ==>
              r.value.requests[k].round == round && r.value.requests[k].site == name &&
              r.value.requests[k].url in {cfg.attendanceUrl, cfg.indexUrl}
  {
    var att := Retry(AttendanceOp(c, round, name, cfg.attendanceUrl), 3);
    if att.Exhausted? then None
    else
      var idx := Retry(IndexOp(c, round, name, cfg.indexUrl), 3);
      if idx.Exhausted? then None
      else
        Some(Fetched(att.value, idx.value,
                     Requests(round, name, cfg.attendanceUrl, att.calls) + Requests(round, name, cfg.indexUrl, idx.calls)))
  }

  /** The loop state after a visit that fetched `f`: the entry is recorded
      only when both pages succeeded; a fragment is added either way. */
  function Record(c: Context, p: Progress, name: string, f: Fetched): (r: Progress)
    requires name in p.sites
    ensures r.needPush
    ensures r.sites.Keys == p.sites.Keys
    ensures |r.fragments| == |p.fragments| + 1 && r.fragments[..|p.fragments|] == p.fragments
    ensures !r.fragments[|p.fragments|].Summary? && r.fragments[|p.fragments|].name == name
    ensures r.log == p.log + f.requests
    ensures f.att.status && f.idx.status ==>
              r.fragments[|p.fragments|].SiteReport? &&
              r.sites == p.sites[name := Completed(p.sites[name], c.today, f.att, f.idx)]
    ensures !(f.att.status && f.idx.status) ==> r.fragments[|p.fragments|].SiteFailure? && r.sites == p.sites
  {
    if f.att.status && f.idx.status then
      Progress(p.sites[name := Completed(p.sites[name], c.today, f.att, f.idx)],
               p.fragments + [SiteReport(name, f.att.fields, f.idx.fields)], true, p.log + f.requests)
    else
      Progress(p.sites, p.fragments + [SiteFailure(name)], true, p.log + f.requests)
  }

  /** One iteration of the loop in `run` for `name`, in round `round`;
      `None` when the iteration raises (missing entry, retries exhausted). */
  function Visit(c: Context, p: Progress, round: nat, name: string): (r: Option<Progress>)
    ensures r.None? ==> MissingEntry(c, name, p.sites) || Eligible(c, name, p.sites)
    ensures MissingEntry(c, name, p.sites) ==> r.None?
    ensures r.Some? && !Eligible(c, name, p.sites) ==> r.value == p
    ensures r.Some? ==> r.value.sites.Keys == p.sites.Keys
    ensures r.Some? ==> forall n :: n in p.sites && n != name ==> r.value.sites[n] == p.sites[n]
    ensures r.Some? && Eligible(c, name, p.sites) ==>
              && r.value.needPush
              && |r.value.fragments| == |p.fragments| + 1
              && r.value.fragments[..|p.fragments|] == p.fragments
              && !r.value.fragments[|p.fragments|].Summary? && r.value.fragments[|p.fragments|].name == name
              && |p.log| < |r.value.log| && r.value.log[..|p.log|] == p.log
              && (forall k :: |p.log| <= k < |r.value.log| ==> r.value.log[k].round == round && r.value.log[k].site == name)
              && (if r.value.fragments[|p.fragments|].SiteReport? then r.value.sites[name].lastAttendance == c.today
                  else r.value.sites == p.sites)
  {
    match LookupIn(c.registry, name)
    case None => Some(p)
    case Some(cfg) =>
      if !HasCookie(c.env, cfg.env) then Some(p)
      else if name !in p.sites then None
      else if p.sites[name].lastAttendance == c.today then Some(p)
      else
        match FetchBoth(c, round, name, cfg)
        case None => None
        case Some(f) =>
          RecordedVisit(c, p, round, name, f);
          Some(Record(c, p, name, f))
  }

  /** The progress after a visit whose fetches both returned: the visit's
      requests follow the old log, and only the visited entry may change. */
  lemma RecordedVisit(c: Context, p: Progress, round: nat, name: string, f: Fetched)
    requires name in p.sites
    requires |f.requests| >= 1
    requires forall k :: 0 <= k < |f.requests| ==> f.requests[k].round == round && f.requests[k].site == name
    ensures var r := Record(c, p, name, f);
            && |p.log| < |r.log| && r.log[..|p.log|] == p.log
            && (forall k :: |p.log| <= k < |r.log| ==> r.log[k].round == round && r.log[k].site == name)
            && (forall n :: n in p.sites && n != name ==> r.sites[n] == p.sites[n])
            && (if r.fragments[|p.fragments|].SiteReport? then r.sites[name].lastAttendance == c.today
                else r.sites == p.sites)
  {
    var r := Record(c, p, name, f);
    assert r.log == p.log + f.requests;
    assert r.log[..|p.log|] == p.log;
    forall k | |p.log| <= k < |r.log| ensures r.log[k].round == round && r.log[k].site == name {
      assert r.log[k] == f.requests[k - |p.log|];
    }
    if f.att.status && f.idx.status {
      assert r.sites == p.sites[name := Completed(p.sites[name], c.today, f.att, f.idx)];
    } else {
      assert r.sites == p.sites;
    }
  }

  /** The loop of `run` over `names`, from the loaded entries `sites0`. */
  function RunLoop(c: Context, sites0: map<string, SiteState>, names: seq<string>): Option<Progress>
    decreases |names|
  {
    if names == [] then Some(Progress(sites0, [], false, []))
    else
      match RunLoop(c, sites0, names[..|names| - 1])
      case None => None
      case Some(p) => Visit(c, p, |names| - 1, names[|names| - 1])
  }

  /** Once an iteration raises, the run has raised. */
  lemma {:induction false} RunLoopRaisedStays(c: Context, sites0: map<string, SiteState>, names: seq<string>, i: nat)
    requires i <= |names|
    requires RunLoop(c, sites0, names[..i]).None?
    ensures RunLoop(c, sites0, names).None?
    decreases |names| - i
  {
    if i < |names| {
      assert names[..i + 1][..i] == names[..i];
      RunLoopRaisedStays(c, sites0, names, i + 1);
    } else {
      assert names[..i] == names;
    }
  }

  /** Per-site isolation: after the loop, every entry is either the one
      loaded or, for an eligible name of the list, one checked in today; no
      entry is added or removed. */
  lemma {:induction false} RunLoopEntries(c: Context, sites0: map<string, SiteState>, names: seq<string>)
    requires RunLoop(c, sites0, names).Some?
    ensures RunLoop(c, sites0, names).value.sites.Keys == sites0.Keys
    ensures forall n :: n in sites0 ==>
              var e := RunLoop(c, sites0, names).value.sites[n];
              e == sites0[n] || (e.lastAttendance == c.today && n in names && Eligible(c, n, sites0))
    decreases |names|
  {
    if names != [] {
      var init := names[..|names| - 1];
      var name := names[|names| - 1];
      RunLoopEntries(c, sites0, init);
      var p := RunLoop(c, sites0, init).value;
      var r := Visit(c, p, |names| - 1, name);
      assert forall n :: n in init ==> n in names;
      forall n | n in sites0
        ensures r.value.sites[n] == sites0[n] ||
                (r.value.sites[n].lastAttendance == c.today && n in names && Eligible(c, n, sites0))
      {
        if n == name && Eligible(c, n, p.sites) && r.value.sites[n] != p.sites[n] {
          assert p.sites[n] == sites0[n];
        }
      }
    }
  }

  /** An eligible name in the loop state was eligible in the loaded document. */
  lemma EligibleNowWasEligible(c: Context, sites0: map<string, SiteState>, names: seq<string>, name: string)
    requires RunLoop(c, sites0, names).Some?
    requires Eligible(c, name, RunLoop(c, sites0, names).value.sites)
    ensures Eligible(c, name, sites0)
    ensures RunLoop(c, sites0, names).value.sites[name] == sites0[name]
  {
    RunLoopEntries(c, sites0, names);
  }

  /** No skipped site is fetched: every request the loop makes is for a name
      of the list that passed all three skip gates in the loaded document. */
  lemma {:induction false} RunLoopRequests(c: Context, sites0: map<string, SiteState>, names: seq<string>)
    requires RunLoop(c, sites0, names).Some?
    ensures forall k :: 0 <= k < |RunLoop(c, sites0, names).value.log| ==>
              var q := RunLoop(c, sites0, names).value.log[k];
              q.round < |names| && names[q.round] == q.site && Eligible(c, q.site, sites0)
    decreases |names|
  {
    if names != [] {
      var init := names[..|names| - 1];
      var name := names[|names| - 1];
      RunLoopRequests(c, sites0, init);
      var p := RunLoop(c, sites0, init).value;
      if Eligible(c, name, p.sites) {
        EligibleNowWasEligible(c, sites0, init, name);
      }
    }
  }

  /** `need_push` is set exactly when some name of the list passed all
      three skip gates (whether or not its check-in then succeeded). */
  lemma {:induction false} RunLoopPush(c: Context, sites0: map<string, SiteState>, names: seq<string>)
    requires RunLoop(c, sites0, names).Some?
    ensures RunLoop(c, sites0, names).value.needPush <==>
              exists k :: 0 <= k < |names| && Eligible(c, names[k], sites0)
    decreases |names|
  {
    if names != [] {
      var init := names[..|names| - 1];
      var name := names[|names| - 1];
      RunLoopPush(c, sites0, init);
      RunLoopEntries(c, sites0, init);
      var p := RunLoop(c, sites0, init).value;
      assert forall k :: 0 <= k < |init| ==> init[k] == names[k];
      if Eligible(c, name, p.sites) {
        EligibleNowWasEligible(c, sites0, init, name);
      } else if Eligible(c, name, sites0) {
        var j :| 0 <= j < |init| && init[j] == name;
        assert Eligible(c, init[j], sites0);
      }
    }
  }

  /** Every fragment of the loop names a site of the list that passed the
      skip gates; a success fragment's site stands checked in today. */
  lemma {:induction false} RunLoopFragments(c: Context, sites0: map<string, SiteState>, names: seq<string>)
    requires RunLoop(c, sites0, names).Some?
    ensures FragmentsAccounted(c, sites0, names, RunLoop(c, sites0, names).value)
    decreases |names|
  {
    if names != [] {
      var init := names[..|names| - 1];
      var name := names[|names| - 1];
      RunLoopFragments(c, sites0, init);
      RunLoopEntries(c, sites0, init);
      var p := RunLoop(c, sites0, init).value;
      if Eligible(c, name, p.sites) {
        EligibleNowWasEligible(c, sites0, init, name);
      }
      assert init + [name] == names;
      FragmentsStep(c, sites0, init, name, p, RunLoop(c, sites0, names).value);
    }
  }

  /** Every fragment of `p` names a site of `names` that was eligible at
      the start, has an entry, and was completed today if it reports
      success. */
  ghost predicate FragmentsAccounted(c: Context, sites0: map<string, SiteState>, names: seq<string>, p: Progress) {
    forall k :: 0 <= k < |p.fragments| ==>
      var f := p.fragments[k];
      && !f.Summary? && f.name in names && Eligible(c, f.name, sites0)
      && f.name in p.sites
      && (f.SiteReport? ==> p.sites[f.name].lastAttendance == c.today)
  }

  /** One visit keeps every fragment accounted for. */
  lemma FragmentsStep(c: Context, sites0: map<string, SiteState>, init: seq<string>, name: string, p: Progress, q: Progress)
    requires FragmentsAccounted(c, sites0, init, p)
    requires q.sites.Keys == p.sites.Keys
    requires forall n :: n in p.sites && n != name ==> q.sites[n] == p.sites[n]
    requires !Eligible(c, name, p.sites) ==> q == p
    requires Eligible(c, name, p.sites) ==>
               && Eligible(c, name, sites0)
               && |q.fragments| == |p.fragments| + 1 && q.fragments[..|p.fragments|] == p.fragments
               && !q.fragments[|p.fragments|].Summary? && q.fragments[|p.fragments|].name == name
               && (q.fragments[|p.fragments|].SiteReport? ==> q.sites[name].lastAttendance == c.today)
    ensures FragmentsAccounted(c, sites0, init + [name], q)
  {
    var names := init + [name];
    assert forall n :: n in init ==> n in names;
    if Eligible(c, name, p.sites) {
      forall k | 0 <= k < |q.fragments|
        ensures var f := q.fragments[k];
                && !f.Summary? && f.name in names && Eligible(c, f.name, sites0)
                && f.name in q.sites
                && (f.SiteReport? ==> q.sites[f.name].lastAttendance == c.today)
      {
        if k < |p.fragments| {
          var f := p.fragments[k];
          assert f.name in init && Eligible(c, f.name, sites0) && f.name in p.sites;
          assert f.SiteReport? ==> p.sites[f.name].lastAttendance == c.today;
          assert q.fragments[k] == q.fragments[..|p.fragments|][k];
          if f.SiteReport? {
            assert f.name != name;
          }
        }
      }
    } else {
      assert q == p;
    }
  }


  /** When no name of the list passes the skip gates (and none lacks its
      entry), the loop changes nothing, fetches nothing and sets no push. */
  lemma {:induction false} RunLoopNothingToDo(c: Context, sites0: map<string, SiteState>, names: seq<string>)
    requires forall k :: 0 <= k < |names| ==> !Eligible(c, names[k], sites0) && !MissingEntry(c, names[k], sites0)
    ensures RunLoop(c, sites0, names) == Some(Progress(sites0, [], false, []))
    decreases |names|
  {
    if names != [] {
      var init := names[..|names| - 1];
      assert forall k :: 0 <= k < |init| ==> init[k] == names[k];
      RunLoopNothingToDo(c, sites0, init);
    }
  }

  /** The loop only ends normally when no name of the list lacks its entry. */
  lemma {:induction false} RunLoopNoMissing(c: Context, sites0: map<string, SiteState>, names: seq<string>)
    requires RunLoop(c, sites0, names).Some?
    ensures forall k :: 0 <= k < |names| ==> !MissingEntry(c, names[k], sites0)
    decreases |names|
  {
    if names != [] {
      var init := names[..|names| - 1];
      RunLoopNoMissing(c, sites0, init);
      RunLoopEntries(c, sites0, init);
      assert forall k :: 0 <= k < |init| ==> init[k] == names[k];
    }
  }

  /** A site is dealt with when its entry stands checked in today or a
      failure fragment names it. */
  predicate DealtWith(c: Context, p: Progress, n: string) {
    (n in p.sites && p.sites[n].lastAttendance == c.today) || SiteFailure(n) in p.fragments
  }

  /** A visit never undoes what earlier visits dealt with. */
  lemma VisitKeepsDealtWith(c: Context, p: Progress, round: nat, name: string, n: string)
    requires Visit(c, p, round, name).Some?
    requires DealtWith(c, p, n)
    ensures DealtWith(c, Visit(c, p, round, name).value, n)
  {
    var r := Visit(c, p, round, name).value;
    if SiteFailure(n) in p.fragments {
      var j :| 0 <= j < |p.fragments| && p.fragments[j] == SiteFailure(n);
      if Eligible(c, name, p.sites) {
        assert r.fragments[..|p.fragments|][j] == SiteFailure(n);
      }
    }
  }

  /** A visit deals with the site it is for, once its entry exists and the
      first two gates pass. */
  lemma VisitDealsWith(c: Context, p: Progress, round: nat, name: string)
    requires Visit(c, p, round, name).Some?
    requires LookupIn(c.registry, name).Some? && HasCookie(c.env, LookupIn(c.registry, name).value.env)
    requires name in p.sites
    ensures DealtWith(c, Visit(c, p, round, name).value, name)
  {
    var r := Visit(c, p, round, name).value;
    if Eligible(c, name, p.sites) && !r.fragments[|p.fragments|].SiteReport? {
      assert r.fragments[|p.fragments|] == SiteFailure(name);
    }
  }

  /** Every eligible name of the list was dealt with. */
  lemma {:induction false} RunLoopCovers(c: Context, sites0: map<string, SiteState>, names: seq<string>)
    requires RunLoop(c, sites0, names).Some?
    ensures forall n :: n in names && Eligible(c, n, sites0) ==> DealtWith(c, RunLoop(c, sites0, names).value, n)
    decreases |names|
  {
    if names != [] {
      var init := names[..|names| - 1];
      var name := names[|names| - 1];
      RunLoopCovers(c, sites0, init);
      RunLoopEntries(c, sites0, init);
      var p := RunLoop(c, sites0, init).value;
      forall n | n in names && Eligible(c, n, sites0)
        ensures DealtWith(c, Visit(c, p, |names| - 1, name).value, n)
      {
        if n != name {
          assert n in init by {
            var k :| 0 <= k < |names| && names[k] == n;
            assert init[k] == n;
          }
          VisitKeepsDealtWith(c, p, |names| - 1, name, n);
        } else {
          VisitDealsWith(c, p, |names| - 1, name);
        }
      }
    }
  }

  // ---------------------------------------------------------------------
  // Report and the whole run
  // ---------------------------------------------------------------------

  /** The positions of `names` whose site is dated `today`: what the list
      comprehension in `generate_report` keeps. */
  ghost function DoneToday(names: seq<string>, sites: map<string, SiteState>, today: string): set<int> {
    set k | 0 <= k < |names| && names[k] in sites && sites[names[k]].lastAttendance == today
  }

  /** Adding a name at the end adds its position exactly when it is done. */
  lemma DoneTodaySnoc(names: seq<string>, sites: map<string, SiteState>, today: string)
    requires names != []
    ensures var init := names[..|names| - 1];
            var last := names[|names| - 1];
            && |init| !in DoneToday(init, sites, today)
            && DoneToday(names, sites, today) ==
                 DoneToday(init, sites, today) +
                 (if last in sites && sites[last].lastAttendance == today then {|init|} else {})
  {
    var init := names[..|names| - 1];
    assert forall k :: 0 <= k < |init| ==> names[k] == init[k];
  }

  /** How many of `names` were checked in `today`; `None` when one of them
      has no entry (the comprehension in `generate_report` raises). */
  function CompletedCount(names: seq<string>, sites: map<string, SiteState>, today: string): (r: Option<nat>)
    ensures r.Some? <==> forall k :: 0 <= k < |names| ==> names[k] in sites
    ensures r.Some? ==> r.value == |DoneToday(names, sites, today)|
    ensures r.Some? ==> r.value <= |names|
    ensures r.Some? ==> (r.value == 0 <==> forall k :: 0 <= k < |names| ==> sites[names[k]].lastAttendance != today)
    ensures r.Some? ==> (r.value == |names| <==> forall k :: 0 <= k < |names| ==> sites[names[k]].lastAttendance == today)
  {
    if names == [] then Some(0)
    else
      var init := names[..|names| - 1];
      var last := names[|names| - 1];
      var rest := CompletedCount(init, sites, today);
      assert forall k :: 0 <= k < |init| ==> names[k] == init[k];
      match rest
      case None => None
      case Some(n) =>
        if last !in sites then None
        else
          DoneTodaySnoc(names, sites, today);
          Some(n + if sites[last].lastAttendance == today then 1 else 0)
  }

  /** `generate_report(detail)`: the summary fragment. Its third figure
      counts the enabled sites whose `last_attendance` is today. */
  function GenerateReport(d: RosterDoc, today: string): (r: Option<Fragment>)
    requires d.enables.Some?
    ensures r.Some? <==> forall k :: 0 <= k < |d.enables.value| ==> d.enables.value[k] in d.sites
    ensures r.Some? ==> r.value.Summary? && r.value.total == d.total && r.value.enabled == |d.enables.value|
    ensures r.Some? ==>
              r.value.completed == |DoneToday(d.enables.value, d.sites, today)|
    ensures r.Some? ==> r.value.completed <= r.value.enabled
  {
    match CompletedCount(d.enables.value, d.sites, today)
    case None => None
    case Some(n) => Some(Summary(d.total, |d.enables.value|, n))
  }

  /** The document `run` works on: the stored one, or the initial one when
      there is no file, with `enables` defaulted to `[]`. It is written back
      before the loop starts. */
  function LoadedDoc(c: Context, stored: Option<RosterDoc>): (d: RosterDoc)
    requires DistinctNames(c.registry)
    ensures d.enables.Some?
    ensures stored.Some? ==> d.total == stored.value.total && d.sites == stored.value.sites
    ensures stored.Some? && stored.value.enables.Some? ==> d == stored.value
    ensures stored.Some? && stored.value.enables.None? ==> d.enables == Some([])
    ensures stored.None? ==> d == InitDoc(c.registry, c.env)
  {
    var d := if stored.None? then InitDoc(c.registry, c.env) else stored.value;
    d.(enables := Some(d.enables.GetOr([])))
  }

  /** How a run ends: the document it wrote, the report (summary first),
      whether it notified, the requests it made; or the exception that ended
      it, leaving the document as written before the loop. */
  datatype RunOutcome =
    | Finished(doc: RosterDoc, report: seq<Fragment>, notified: bool, log: seq<Request>)
    | Crashed(doc: RosterDoc)

  /** `run()` as a function of its inputs. */
  function RunSpec(c: Context, stored: Option<RosterDoc>): RunOutcome
    requires DistinctNames(c.registry)
  {
    var d := LoadedDoc(c, stored);
    match RunLoop(c, d.sites, d.enables.value)
    case None => Crashed(d)
    case Some(p) =>
      var after := d.(sites := p.sites);
      match GenerateReport(after, c.today)
      case None => Crashed(d)
      case Some(summary) => Finished(after, [summary] + p.fragments, p.needPush, p.log)
  }

  // ---------------------------------------------------------------------
  // The imperative code
  // ---------------------------------------------------------------------

  /** The body of the loop in `run` for one name: the three skip gates,
      the two wrapped fetches, then the entry update and the fragment. */
  method VisitSite(c: Context, p: Progress, round: nat, name: string) returns (r: Option<Progress>)
    ensures r == Visit(c, p, round, name)
  {
    var cfg := LookupIn(c.registry, name);
    if cfg.None? || !HasCookie(c.env, cfg.value.env) {
      return Some(p);
    }
    if name !in p.sites {
      return None;
    }
    if p.sites[name].lastAttendance == c.today {
      return Some(p);
    }
    var att := RetryLoop(AttendanceOp(c, round, name, cfg.value.attendanceUrl), 3);
    if att.Exhausted? {
      return None;
    }
    var idx := RetryLoop(IndexOp(c, round, name, cfg.value.indexUrl), 3);
    if idx.Exhausted? {
      return None;
    }
    var requests := Requests(round, name, cfg.value.attendanceUrl, att.calls)
                    + Requests(round, name, cfg.value.indexUrl, idx.calls);
    assert FetchBoth(c, round, name, cfg.value) == Some(Fetched(att.value, idx.value, requests));
    var sites := p.sites;
    var result := p.fragments;
    if att.value.status && idx.value.status {
      sites := sites[name := Completed(sites[name], c.today, att.value, idx.value)];
      result := result + [SiteReport(name, att.value.fields, idx.value.fields)];
    } else {
      result := result + [SiteFailure(name)];
    }
    return Some(Progress(sites, result, true, p.log + requests));
  }

  /** `run()`: load, visit every name of `enables`, prepend the summary,
      write the document, and notify when some site was visited. */
  method Run(c: Context, stored: Option<RosterDoc>) returns (out: RunOutcome)
    requires DistinctNames(c.registry)
    ensures out == RunSpec(c, stored)
  {
    var detail := LoadedDoc(c, stored);
    var names := detail.enables.value;
    var progress := Progress(detail.sites, [], false, []);
    var i := 0;
    while i < |names|
      invariant 0 <= i <= |names|
      invariant RunLoop(c, detail.sites, names[..i]) == Some(progress)
    {
      assert names[..i + 1][..i] == names[..i];
      assert RunLoop(c, detail.sites, names[..i + 1]) == Visit(c, progress, i, names[i]);
      var next := VisitSite(c, progress, i, names[i]);
      if next.None? {
        RunLoopRaisedStays(c, detail.sites, names, i + 1);
        return Crashed(detail);
      }
      progress := next.value;
      i := i + 1;
    }
    assert names[..i] == names;
    assert RunLoop(c, detail.sites, names) == Some(progress);
    var after := detail.(sites := progress.sites);
    var summary := GenerateReport(after, c.today);
    if summary.None? {
      return Crashed(detail);
    }
    return Finished(after, [summary.value] + progress.fragments, progress.needPush, progress.log);
  }

  // ---------------------------------------------------------------------
  // Properties of a whole run
  // ---------------------------------------------------------------------

  /** A run that finishes keeps the document's shape, reports the summary
      first and one fragment per visited site, and notifies exactly when some
      enabled site passed the skip gates; every request it made was for such
      a site. */
  lemma RunFinishedShape(c: Context, stored: Option<RosterDoc>)
    requires DistinctNames(c.registry)
    requires RunSpec(c, stored).Finished?
    ensures var d := LoadedDoc(c, stored);
            var r := RunSpec(c, stored);
            && r.doc.total == d.total && r.doc.enables == d.enables && r.doc.sites.Keys == d.sites.Keys
            && |r.report| >= 1 && r.report[0].Summary?
            && r.report[0].total == d.total && r.report[0].enabled == |d.enables.value|
            && (forall k :: 1 <= k < |r.report| ==>
                  !r.report[k].Summary? && r.report[k].name in d.enables.value
                  && Eligible(c, r.report[k].name, d.sites))
            && (r.notified <==> exists k :: 0 <= k < |d.enables.value| && Eligible(c, d.enables.value[k], d.sites))
            && (forall k :: 0 <= k < |r.log| ==> Eligible(c, r.log[k].site, d.sites))
            && (forall n :: n in d.sites ==>
                  r.doc.sites[n] == d.sites[n] || (r.doc.sites[n].lastAttendance == c.today && Eligible(c, n, d.sites)))
  {
    var d := LoadedDoc(c, stored);
    RunLoopEntries(c, d.sites, d.enables.value);
    RunLoopRequests(c, d.sites, d.enables.value);
    RunLoopPush(c, d.sites, d.enables.value);
    RunLoopFragments(c, d.sites, d.enables.value);
  }

  /** A site is not left eligible once it was dealt with, when no failure
      fragment exists. */
  lemma NotLeftEligible(c: Context, sites0: map<string, SiteState>, p: Progress, n: string)
    requires n in sites0 ==> n in p.sites && (p.sites[n] == sites0[n] || p.sites[n].lastAttendance == c.today)
    requires Eligible(c, n, sites0) ==> DealtWith(c, p, n)
    requires forall k :: 0 <= k < |p.fragments| ==> p.fragments[k].SiteReport?
    requires n in p.sites ==> n in sites0
    ensures !Eligible(c, n, p.sites)
  {
  }

  /** After a loop in which every visited site checked in, no name of the
      list passes the skip gates any more, and none lacks its entry. */
  lemma RunLoopAllDone(c: Context, sites0: map<string, SiteState>, names: seq<string>)
    requires RunLoop(c, sites0, names).Some?
    requires forall k :: 0 <= k < |RunLoop(c, sites0, names).value.fragments| ==>
               RunLoop(c, sites0, names).value.fragments[k].SiteReport?
    ensures forall k :: 0 <= k < |names| ==>
              && !Eligible(c, names[k], RunLoop(c, sites0, names).value.sites)
              && !MissingEntry(c, names[k], RunLoop(c, sites0, names).value.sites)
  {
    var p := RunLoop(c, sites0, names).value;
    RunLoopEntries(c, sites0, names);
    RunLoopNoMissing(c, sites0, names);
    RunLoopCovers(c, sites0, names);
    forall k | 0 <= k < |names|
      ensures !Eligible(c, names[k], p.sites) && !MissingEntry(c, names[k], p.sites)
    {
      NotLeftEligible(c, sites0, p, names[k]);
    }
  }

  /** Running again the same day, against any network, after a run in which
      every visited site checked in: nothing is fetched, nothing changes and
      no notification is sent. */
  lemma SecondRunSameDay(c: Context, stored: Option<RosterDoc>, c2: Context)
    requires DistinctNames(c.registry)
    requires RunSpec(c, stored).Finished?
    requires forall k :: 1 <= k < |RunSpec(c, stored).report| ==> RunSpec(c, stored).report[k].SiteReport?
    requires c2.registry == c.registry && c2.env == c.env && c2.today == c.today
    ensures var d1 := RunSpec(c, stored).doc;
            var r2 := RunSpec(c2, Some(d1));
            r2.Finished? && r2.doc == d1 && r2.log == [] && !r2.notified && |r2.report| == 1
  {
    var d := LoadedDoc(c, stored);
    var names := d.enables.value;
    var p := RunLoop(c, d.sites, names).value;
    var r1 := RunSpec(c, stored);
    var d1 := d.(sites := p.sites);
    assert r1.doc == d1 && r1.report[1..] == p.fragments;
    assert forall k :: 0 <= k < |p.fragments| ==> p.fragments[k] == r1.report[k + 1];
    RunLoopAllDone(c, d.sites, names);
    assert LoadedDoc(c2, Some(d1)) == d1;
    RunLoopNothingToDo(c2, d1.sites, names);
  }
}
