/** The pure helpers of the front end (frontend/src/utils/helpers.js):
    relative time labels, the GitHub repository URL recogniser, the
    extension-to-language table, truncation and the repository name. */
module Helpers {
  import opened Js

  // ---------------------------------------------------------------------
  // formatTimestamp

  /** What `formatTimestamp` shows. `LocaleDate` stands for
      `date.toLocaleDateString()`, whose text depends on the locale. */
  datatype RelativeTime =
    | JustNow
    | MinutesAgo(minutes: nat)
    | HoursAgo(hours: nat)
    | DaysAgo(days: nat)
    | LocaleDate

  const MinuteMs: int := 60000
  const HourMs: int := 3600000
  const DayMs: int := 86400000
  const WeekMs: int := 7 * 86400000

  /** `formatTimestamp` as a function of `now - date` in milliseconds.
      `Math.floor(d / k)` for a positive `k` is Dafny's `d / k`. */
  function FormatTimestamp(diffMs: int): RelativeTime {
    var diffMins := diffMs / MinuteMs;
    var diffHours := diffMs / HourMs;
    var diffDays := diffMs / DayMs;
    if diffMins < 1 then JustNow
    else if diffMins < 60 then MinutesAgo(diffMins)
    else if diffHours < 24 then HoursAgo(diffHours)
    else if diffDays < 7 then DaysAgo(diffDays)
    else LocaleDate
  }

  /** The label text; None for the locale-dependent date. */
  function RelativeTimeText(t: RelativeTime): (text: Option<string>)
    ensures text.None? <==> t.LocaleDate?
  {
    match t
    case JustNow => Some("Just now")
    case MinutesAgo(m) => Some(NatToString(m) + "m ago")
    case HoursAgo(h) => Some(NatToString(h) + "h ago")
    case DaysAgo(d) => Some(NatToString(d) + "d ago")
    case LocaleDate => None
  }

  /** The five bands of `formatTimestamp`: each label is chosen exactly on
      its interval of elapsed time, and the count it shows is the whole
      number of units elapsed, so a future time is "Just now". */
  lemma FormatTimestampBands(diffMs: int)
    ensures FormatTimestamp(diffMs) == JustNow <==> diffMs < MinuteMs
    ensures FormatTimestamp(diffMs).MinutesAgo? <==> MinuteMs <= diffMs < HourMs
    ensures FormatTimestamp(diffMs).HoursAgo? <==> HourMs <= diffMs < DayMs
    ensures FormatTimestamp(diffMs).DaysAgo? <==> DayMs <= diffMs < WeekMs
    ensures FormatTimestamp(diffMs) == LocaleDate <==> WeekMs <= diffMs
    ensures FormatTimestamp(diffMs).MinutesAgo? ==>
      var m := FormatTimestamp(diffMs).minutes;
      1 <= m < 60 && m * MinuteMs <= diffMs < (m + 1) * MinuteMs
    ensures FormatTimestamp(diffMs).HoursAgo? ==>
      var h := FormatTimestamp(diffMs).hours;
      1 <= h < 24 && h * HourMs <= diffMs < (h + 1) * HourMs
    ensures FormatTimestamp(diffMs).DaysAgo? ==>
      var d := FormatTimestamp(diffMs).days;
      1 <= d < 7 && d * DayMs <= diffMs < (d + 1) * DayMs
  {
    FloorDivBand(diffMs, MinuteMs, 1);
    FloorDivBand(diffMs, MinuteMs, 60);
    FloorDivBand(diffMs, HourMs, 24);
    FloorDivBand(diffMs, DayMs, 7);
  }

  /** Floor division by a positive unit: `d / k < n` exactly when `d < n * k`,
      and `d / k` whole units fit in `d` with less than one to spare. */
  lemma FloorDivBand(d: int, k: int, n: int)
    requires k > 0
    ensures d / k < n <==> d < n * k
    ensures (d / k) * k <= d < (d / k + 1) * k
  {
    var q := d / k;
    assert d == q * k + d % k;
    if q < n {
      assert q + 1 <= n;
      assert (q + 1) * k <= n * k;
    } else {
      assert q * k >= n * k;
    }
  }

  // ---------------------------------------------------------------------
  // isValidGithubUrl

  /** `\w` without the `u` flag: ASCII letters, digits and `_`. */
  predicate IsWordChar(c: char) {
    ('a' <= c <= 'z') || ('A' <= c <= 'Z') || ('0' <= c <= '9') || c == '_'
  }

  /** The owner segment's class `[\w-]`. */
  predicate IsOwnerChar(c: char) {
    IsWordChar(c) || c == '-'
  }

  /** The repository segment's class `[\w.-]`. */
  predicate IsRepoChar(c: char) {
    IsOwnerChar(c) || c == '.'
  }

  predicate AllOwnerChars(s: string) {
    forall i :: 0 <= i < |s| ==> IsOwnerChar(s[i])
  }

  predicate AllRepoChars(s: string) {
    forall i :: 0 <= i < |s| ==> IsRepoChar(s[i])
  }

  /** The parts a URL accepted by `isValidGithubUrl` is made of: the
      scheme (`https` when `secure`), the optional `www.`, the owner, the
      repository and the optional trailing `/`. */
  datatype GithubUrl = GithubUrl(secure: bool, www: bool, owner: string, repo: string, trailingSlash: bool)

  predicate WellFormed(g: GithubUrl) {
    g.owner != [] && AllOwnerChars(g.owner) && g.repo != [] && AllRepoChars(g.repo)
  }

  function SchemeText(secure: bool): string {
    if secure then "https://" else "http://"
  }

  function HostText(www: bool): string {
    if www then "www.github.com/" else "github.com/"
  }

  /** The path these parts spell out after the host. */
  function PathText(g: GithubUrl): string {
    g.owner + "/" + g.repo + (if g.trailingSlash then "/" else "")
  }

  /** The URL these parts spell out. */
  function Render(g: GithubUrl): string {
    SchemeText(g.secure) + HostText(g.www) + PathText(g)
  }

  /** A well-formed URL starts with the scheme's `h` and ends with a
      repository character or the trailing `/`. */
  lemma RenderEnds(g: GithubUrl)
    requires WellFormed(g)
    ensures Render(g) != [] && Render(g)[0] == 'h'
    ensures IsRepoChar(Render(g)[|Render(g)| - 1]) || Render(g)[|Render(g)| - 1] == '/'
  {
    var pre := SchemeText(g.secure) + HostText(g.www);
    var path := PathText(g);
    assert Render(g) == pre + path;
    assert pre[0] == 'h';
    if !g.trailingSlash {
      assert path == (g.owner + "/") + g.repo;
      assert path[|path| - 1] == g.repo[|g.repo| - 1];
    }
  }

  /** Scans forward from `i` over `[\w-]`: everything scanned is in the
      class, and the scan stops at the end or at a character that is not. */
  function OwnerEnd(s: string, i: nat): (k: nat)
    requires i <= |s|
    ensures i <= k <= |s|
    ensures forall j :: i <= j < k ==> IsOwnerChar(s[j])
    ensures k < |s| ==> !IsOwnerChar(s[k])
    decreases |s| - i
  {
    if i < |s| && IsOwnerChar(s[i]) then OwnerEnd(s, i + 1) else i
  }

  /** The number of leading characters of `s` in `[\w-]`. */
  function OwnerSpan(s: string): (k: nat)
    ensures k <= |s| && AllOwnerChars(s[..k])
    ensures k < |s| ==> !IsOwnerChar(s[k])
  {
    OwnerEnd(s, 0)
  }

  /** The rest of `s` after the prefix `p`, when `s` starts with `p`. */
  function StripPrefix(p: string, s: string): (rest: Option<string>)
    ensures rest.Some? <==> p <= s
    ensures rest.Some? ==> s == p + rest.value
  {
    if p <= s then
      assert s == s[..|p|] + s[|p|..];
      Some(s[|p|..])
    else None
  }

  lemma StripPrefixOf(p: string, rest: string)
    ensures StripPrefix(p, p + rest) == Some(rest)
  {
    assert (p + rest)[|p|..] == rest;
  }

  /** A hand-written matcher for `^https?:\/\/(www\.)?github\.com\/[\w-]+\/[\w.-]+\/?$`,
      segment by segment: the scheme, the host, the owner up to the first
      `/`, then the repository with an optional trailing `/`. Whatever it
      accepts is well-formed and is rebuilt exactly from the parts found. */
  function ParseGithubUrl(url: string): (r: Option<GithubUrl>)
    ensures r.Some? ==> WellFormed(r.value) && Render(r.value) == url
  {
    match StripPrefix(SchemeText(true), url)
    case Some(rest) =>
      var r := ParseHost(true, rest);
      if r.None? then r else RenderFromPieces(r.value, url, rest); r
    case None =>
      match StripPrefix(SchemeText(false), url)
      case Some(rest) =>
        var r := ParseHost(false, rest);
        if r.None? then r else RenderFromPieces(r.value, url, rest); r
      case None => None
  }

  lemma RenderFromPieces(g: GithubUrl, url: string, rest: string)
    requires url == SchemeText(g.secure) + rest
    requires rest == HostText(g.www) + PathText(g)
    ensures Render(g) == url
  {
  }

  function ParseHost(secure: bool, s: string): (r: Option<GithubUrl>)
    ensures r.Some? ==> WellFormed(r.value) && r.value.secure == secure
    ensures r.Some? ==> s == HostText(r.value.www) + PathText(r.value)
  {
    match StripPrefix(HostText(true), s)
    case Some(rest) => ParsePath(secure, true, rest)
    case None =>
      match StripPrefix(HostText(false), s)
      case Some(rest) => ParsePath(secure, false, rest)
      case None => None
  }

  /** The repository segment and whether a `/` follows it. */
  function RepoPart(rest: string): (r: (string, bool))
    ensures rest == r.0 + (if r.1 then "/" else "")
    ensures r.1 <==> rest != [] && rest[|rest| - 1] == '/'
  {
    if rest != [] && rest[|rest| - 1] == '/' then (rest[..|rest| - 1], true) else (rest, false)
  }

  function ParsePath(secure: bool, www: bool, s: string): (r: Option<GithubUrl>)
    ensures r.Some? ==> WellFormed(r.value) && r.value.secure == secure && r.value.www == www
    ensures r.Some? ==> s == PathText(r.value)
  {
    var k := OwnerSpan(s);
    if k == 0 || k == |s| || s[k] != '/' then None
    else
      var (repo, slash) := RepoPart(s[k + 1..]);
      if repo != [] && AllRepoChars(repo) then
        assert s == s[..k] + "/" + s[k + 1..];
        Some(GithubUrl(secure, www, s[..k], repo, slash))
      else None
  }

  /** `isValidGithubUrl(url)`. */
  predicate IsValidGithubUrl(url: string) {
    ParseGithubUrl(url).Some?
  }

  /** The owner segment ends exactly where a character outside `[\w-]`
      follows it. */
  lemma OwnerSpanOf(owner: string, tail: string)
    requires AllOwnerChars(owner)
    requires tail != [] && !IsOwnerChar(tail[0])
    ensures OwnerSpan(owner + tail) == |owner|
  {
    var s := owner + tail;
    var k := OwnerSpan(s);
    assert s[|owner|] == tail[0];
  }

  lemma ParseSchemeOf(secure: bool, rest: string)
    ensures ParseGithubUrl(SchemeText(secure) + rest) == ParseHost(secure, rest)
  {
    var url := SchemeText(secure) + rest;
    StripPrefixOf(SchemeText(secure), rest);
    if !secure {
      assert url[4] == ':' && SchemeText(true)[4] == 's';
    }
  }

  lemma ParseHostOf(secure: bool, www: bool, rest: string)
    ensures ParseHost(secure, HostText(www) + rest) == ParsePath(secure, www, rest)
  {
    var s := HostText(www) + rest;
    StripPrefixOf(HostText(www), rest);
    if !www {
      assert s[0] == 'g' && HostText(true)[0] == 'w';
    }
  }

  lemma RepoTailOf(repo: string, trailingSlash: bool)
    requires repo != [] && AllRepoChars(repo)
    ensures RepoPart(repo + (if trailingSlash then "/" else "")) == (repo, trailingSlash)
  {
    var rest := repo + (if trailingSlash then "/" else "");
    if trailingSlash {
      assert rest[..|rest| - 1] == repo;
    } else {
      assert rest == repo;
      assert IsRepoChar(repo[|repo| - 1]);
    }
  }

  lemma ParsePathOf(g: GithubUrl)
    requires WellFormed(g)
    ensures ParsePath(g.secure, g.www, PathText(g)) == Some(g)
  {
    PathPieces(g);
    RepoTailOf(g.repo, g.trailingSlash);
  }

  /** The path of well-formed parts splits at the end of the owner. */
  lemma PathPieces(g: GithubUrl)
    requires WellFormed(g)
    ensures var path := PathText(g); var k := |g.owner|;
      OwnerSpan(path) == k && k < |path| && path[k] == '/' && path[..k] == g.owner
      && path[k + 1..] == g.repo + (if g.trailingSlash then "/" else "")
  {
    var rest := g.repo + (if g.trailingSlash then "/" else "");
    var path := PathText(g);
    assert path == g.owner + ("/" + rest);
    OwnerSpanOf(g.owner, "/" + rest);
    var k := |g.owner|;
    assert path[..k] == g.owner;
    assert path[k + 1..] == rest;
  }

  /** Every well-formed repository URL is recognised, and recognising it
      recovers exactly the parts it was built from. */
  lemma ParseRender(g: GithubUrl)
    requires WellFormed(g)
    ensures ParseGithubUrl(Render(g)) == Some(g)
  {
    var path := PathText(g);
    assert Render(g) == SchemeText(g.secure) + (HostText(g.www) + path);
    ParseSchemeOf(g.secure, HostText(g.www) + path);
    ParseHostOf(g.secure, g.www, path);
    ParsePathOf(g);
  }

  /** `isValidGithubUrl` accepts exactly the URLs built from well-formed parts. */
  lemma GithubUrlIff(url: string)
    ensures IsValidGithubUrl(url) <==> exists g :: WellFormed(g) && Render(g) == url
  {
    if exists g :: WellFormed(g) && Render(g) == url {
      var g :| WellFormed(g) && Render(g) == url;
      ParseRender(g);
    }
  }

  /** Only `github.com`, with or without `www.`, behind `http://` or
      `https://` is accepted: any other host, and a URL without a scheme,
      is rejected. */
  lemma GithubUrlHost(url: string)
    requires IsValidGithubUrl(url)
    ensures exists secure: bool, www: bool :: SchemeText(secure) + HostText(www) <= url
  {
    var g := ParseGithubUrl(url).value;
    assert url == (SchemeText(g.secure) + HostText(g.www)) + PathText(g);
  }

  /** A URL without a scheme is rejected, and so is an upper-case scheme:
      the match is case-sensitive. */
  lemma GithubUrlRejectsBadScheme()
    ensures !IsValidGithubUrl("github.com/acme/widget")
    ensures !IsValidGithubUrl("HTTPS://github.com/acme/widget")
  {
    assert "github.com/acme/widget"[0] == 'g';
    assert "HTTPS://github.com/acme/widget"[0] == 'H';
  }

  lemma ParsePathRejectsExtraSegment(secure: bool, www: bool, owner: string, repo: string, extra: string)
    requires owner != [] && AllOwnerChars(owner) && extra != ""
    ensures ParsePath(secure, www, owner + "/" + (repo + "/" + extra)) == None
  {
    var tail := repo + "/" + extra;
    var path := owner + "/" + tail;
    OwnerSpanOf(owner, "/" + tail);
    assert path == owner + ("/" + tail);
    assert path[|owner| + 1..] == tail;
    assert path[|owner|] == '/';
    var slash := tail[|tail| - 1] == '/';
    var r := if slash then tail[..|tail| - 1] else tail;
    assert r[|repo|] == '/';
    assert !IsRepoChar(r[|repo|]);
  }

  /** A third path segment is never accepted: appending `/` and anything
      non-empty to an accepted URL without a trailing slash gives a
      rejected one. */
  lemma GithubUrlRejectsExtraSegment(g: GithubUrl, extra: string)
    requires WellFormed(g) && !g.trailingSlash && extra != ""
    ensures !IsValidGithubUrl(Render(g) + "/" + extra)
  {
    var path := g.owner + "/" + (g.repo + "/" + extra);
    assert Render(g) + "/" + extra == SchemeText(g.secure) + (HostText(g.www) + path);
    ParseSchemeOf(g.secure, HostText(g.www) + path);
    ParseHostOf(g.secure, g.www, path);
    ParsePathRejectsExtraSegment(g.secure, g.www, g.owner, g.repo, extra);
  }

  // ---------------------------------------------------------------------
  // getLanguageFromFilePath

  /** `toLowerCase` on ASCII letters. */
  function LowerChar(c: char): (l: char)
    ensures l == '.' <==> c == '.'
  {
    if 'A' <= c <= 'Z' then (c as int + 32) as char else c
  }

  /** `toLowerCase` on ASCII: the result has no upper-case letter left,
      every other character stays where it was, and each upper-case letter
      becomes its lower-case partner. */
  function ToLowerAscii(s: string): (r: string)
    ensures |r| == |s|
    ensures forall i :: 0 <= i < |r| ==> !('A' <= r[i] <= 'Z')
    ensures forall i :: 0 <= i < |s| && !('A' <= s[i] <= 'Z') ==> r[i] == s[i]
    ensures forall i :: 0 <= i < |s| && 'A' <= s[i] <= 'Z' ==> r[i] as int == s[i] as int + 32
  {
    seq(|s|, i requires 0 <= i < |s| => LowerChar(s[i]))
  }

  /** `langMap`. */
  const LanguageTable: map<string, string> := map[
    "js" := "javascript", "jsx" := "jsx", "ts" := "typescript", "tsx" := "tsx",
    "py" := "python", "java" := "java", "cpp" := "cpp", "c" := "c", "go" := "go",
    "rs" := "rust", "rb" := "ruby", "php" := "php", "html" := "html", "css" := "css",
    "scss" := "scss", "json" := "json", "xml" := "xml", "md" := "markdown",
    "sh" := "bash", "yml" := "yaml", "yaml" := "yaml", "sql" := "sql"]

  function Lookup(table: map<string, string>, key: string): Option<string> {
    if key in table then Some(table[key]) else None
  }

  /** `filePath.split('.').pop().toLowerCase()`. */
  function Extension(filePath: string): string {
    ToLowerAscii(LastPiece(filePath, '.'))
  }

  /** `langMap[ext] || 'text'`. */
  function LanguageFromFilePath(filePath: string): string {
    OrDefault(Lookup(LanguageTable, Extension(filePath)), "text")
  }

  /** The table's shape: `yml` and `yaml` agree, no value is empty (so
      `|| 'text'` only fires for unknown extensions), and `text` is not a
      value (so the fallback cannot be mistaken for a hit). */
  lemma LanguageTableFacts()
    ensures LanguageTable["yml"] == LanguageTable["yaml"] == "yaml"
    ensures forall k :: k in LanguageTable ==> LanguageTable[k] != "" && LanguageTable[k] != "text"
  {
  }

  /** The language is the table's entry for the lower-cased extension, and
      `text` exactly when the extension is not in the table. */
  lemma LanguageFromFilePathIff(filePath: string)
    ensures Extension(filePath) in LanguageTable ==>
      LanguageFromFilePath(filePath) == LanguageTable[Extension(filePath)]
    ensures LanguageFromFilePath(filePath) == "text" <==> Extension(filePath) !in LanguageTable
  {
    LanguageTableFacts();
  }

  lemma {:induction false} JoinSnoc(init: seq<string>, last: string, sep: char)
    requires |init| >= 1
    ensures Join(init + [last], sep) == Join(init, sep) + [sep] + last
    decreases |init|
  {
    if |init| > 1 {
      assert (init + [last])[1..] == init[1..] + [last];
      JoinSnoc(init[1..], last, sep);
    }
  }

  /** The last piece is what follows the last separator: either there is
      no separator and it is the whole string, or the string is a stem, the
      separator, and the piece. */
  lemma LastPieceShape(s: string, sep: char)
    ensures sep !in LastPiece(s, sep)
    ensures sep !in s ==> LastPiece(s, sep) == s
    ensures sep in s ==> exists stem :: s == stem + [sep] + LastPiece(s, sep)
  {
    var parts := Split(s, sep);
    if |parts| == 1 {
      assert s == parts[0];
    } else {
      var init := parts[..|parts| - 1];
      assert parts == init + [parts[|parts| - 1]];
      JoinSnoc(init, parts[|parts| - 1], sep);
      assert s == Join(init, sep) + [sep] + LastPiece(s, sep);
    }
    if sep !in s {
      SplitNoSeparator(s, sep);
    }
  }

  /** The extension is decided by the text after the last dot alone. */
  lemma LanguageOfStemAndExtension(stem: string, ext: string)
    requires '.' !in ext
    ensures LastPiece(stem + "." + ext, '.') == ext
    ensures LanguageFromFilePath(stem + "." + ext) == OrDefault(Lookup(LanguageTable, ToLowerAscii(ext)), "text")
  {
    SplitAppend(stem, ext, '.');
    SplitNoSeparator(ext, '.');
  }

  /** Lower-casing the path does not change the language: the lookup is
      case-insensitive. */
  lemma LanguageIgnoresCase(filePath: string)
    ensures LanguageFromFilePath(ToLowerAscii(filePath)) == LanguageFromFilePath(filePath)
  {
    var lower := ToLowerAscii(filePath);
    var ext := LastPiece(filePath, '.');
    LastPieceShape(filePath, '.');
    LowerKeepsNoDot(ext);
    LowerIdempotent(ext);
    if '.' in filePath {
      var stem :| filePath == stem + ['.'] + ext;
      LowerAroundDot(stem, ext);
      LanguageOfStemAndExtension(ToLowerAscii(stem), ToLowerAscii(ext));
    } else {
      LowerKeepsNoDot(filePath);
      SplitNoSeparator(lower, '.');
    }
  }

  lemma LowerKeepsNoDot(s: string)
    requires '.' !in s
    ensures '.' !in ToLowerAscii(s)
  {
    forall i | 0 <= i < |s| ensures ToLowerAscii(s)[i] != '.' {
      assert s[i] in s;
    }
  }

  lemma LowerIdempotent(s: string)
    ensures ToLowerAscii(ToLowerAscii(s)) == ToLowerAscii(s)
  {
  }

  lemma LowerAroundDot(stem: string, ext: string)
    ensures ToLowerAscii(stem + "." + ext) == ToLowerAscii(stem) + "." + ToLowerAscii(ext)
  {
  }

  /** An upper-case extension finds its language (`A.PY` is Python), and
      `yml` is YAML, whatever the path before the last dot. */
  lemma LanguageExamples(stem: string)
    ensures LanguageFromFilePath(stem + ".PY") == "python"
    ensures LanguageFromFilePath(stem + ".yml") == "yaml"
  {
    LanguageOfStemAndExtension(stem, "PY");
    assert stem + "." + "PY" == stem + ".PY";
    assert ToLowerAscii("PY") == "py";
    LanguageOfStemAndExtension(stem, "yml");
    assert stem + "." + "yml" == stem + ".yml";
    assert ToLowerAscii("yml") == "yml";
  }

  // ---------------------------------------------------------------------
  // truncate

  /** `truncate(text, maxLength)`. */
  function Truncate(text: string, maxLength: nat): string {
    if |text| <= maxLength then text else text[..maxLength] + "..."
  }

  /** Short text is left alone; long text keeps its first `maxLength`
      characters followed by an ellipsis, so it never exceeds
      `maxLength + 3`; and truncating again changes nothing. */
  lemma TruncateSpec(text: string, maxLength: nat)
    ensures |Truncate(text, maxLength)| <= maxLength + 3
    ensures |text| <= maxLength ==> Truncate(text, maxLength) == text
    ensures |text| > maxLength ==>
      |Truncate(text, maxLength)| == maxLength + 3
      && Truncate(text, maxLength)[..maxLength] == text[..maxLength]
      && Truncate(text, maxLength)[maxLength..] == "..."
    ensures Truncate(Truncate(text, maxLength), maxLength) == Truncate(text, maxLength)
  {
    if |text| > maxLength {
      var r := text[..maxLength] + "...";
      assert r[..maxLength] == text[..maxLength];
    }
  }

  // ---------------------------------------------------------------------
  // extractRepoName

  /** `parts[parts.length - 1] || parts[parts.length - 2]` with
      `parts = url.split('/')`; None is `undefined` (the empty URL). */
  function ExtractRepoName(url: string): Option<string> {
    var parts := Split(url, '/');
    var last := parts[|parts| - 1];
    if last != "" then Some(last)
    else if |parts| >= 2 then Some(parts[|parts| - 2])
    else None
  }

  /** The repository name is the last non-empty segment when the URL ends
      with one `/` or none. */
  lemma ExtractRepoNameOfLastSegment(stem: string, name: string, trailingSlash: bool)
    requires name != "" && '/' !in name
    ensures ExtractRepoName(stem + "/" + name + (if trailingSlash then "/" else "")) == Some(name)
  {
    var body := stem + "/" + name;
    SplitAppend(stem, name, '/');
    SplitNoSeparator(name, '/');
    if trailingSlash {
      SplitAppend(body, "", '/');
      assert body + "/" == body + "/" + "";
    } else {
      assert body + "" == body;
    }
  }

  /** For every URL `isValidGithubUrl` accepts, `extractRepoName` gives its
      repository segment, with or without the trailing slash. */
  lemma ExtractRepoNameOfGithubUrl(g: GithubUrl)
    requires WellFormed(g)
    ensures ExtractRepoName(Render(g)) == Some(g.repo)
  {
    var stem := SchemeText(g.secure) + HostText(g.www) + g.owner;
    RepoHasNoSlash(g.repo);
    RenderAsSegments(g, stem);
    ExtractRepoNameOfLastSegment(stem, g.repo, g.trailingSlash);
  }

  lemma RepoHasNoSlash(repo: string)
    requires AllRepoChars(repo)
    ensures '/' !in repo
  {
    forall i | 0 <= i < |repo| ensures repo[i] != '/' {
      assert IsRepoChar(repo[i]);
    }
  }

  lemma RenderAsSegments(g: GithubUrl, stem: string)
    requires stem == SchemeText(g.secure) + HostText(g.www) + g.owner
    ensures Render(g) == stem + "/" + g.repo + (if g.trailingSlash then "/" else "")
  {
  }
}
