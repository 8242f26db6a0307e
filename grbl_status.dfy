/** Parsing a GRBL real-time status report, `<State|MPos:x,y,z|WPos:x,y,z|Bf:p,r|FS:f,s|Ov:f,r,s|Pn:XYZ>`.
    Every field is looked up on its own; a field whose key is missing, or whose numbers do not
    all read, keeps the value of a fresh status. */
module StatusReport {
  import opened Wrappers
  import opened Text
  import opened Numerals
  import opened GrblTypes

  // ---------------------------------------------------------------------------------------
  // Reading numbers the way the stream extractors and sscanf do

  /** `iss >> d` for a double, `rest` being the text the stream has not consumed yet: the
      value read, or 0 when the extraction fails (the value a fresh position holds anyway),
      and the text left after it, or None once the stream has failed. */
  function ExtractReal(rest: string): (r: (real, Option<string>))
    ensures r.1.Some? ==> |r.1.value| < |rest| && r.1.value == rest[|rest| - |r.1.value|..]
    ensures r.1.None? ==> r.0 == 0.0
  {
    match ScanReal(rest)
    case Some((v, n)) => (v, Some(rest[n..]))
    case None => (0.0, None)
  }

  /** `iss >> c` for a char: skips white space and takes whatever character follows, which is
      then not white space; None when only white space is left. */
  function ExtractChar(rest: string): (r: Option<string>)
    ensures r.Some? ==> |r.value| < |rest| && !IsSpace(rest[|rest| - |r.value| - 1])
                        && r.value == rest[|rest| - |r.value|..]
    ensures r.None? ==> forall k :: 0 <= k < |rest| ==> IsSpace(rest[k])
  {
    var j := SkipSpaces(rest, 0);
    SpacesRun(rest, 0);
    if j < |rest| then Some(rest[j + 1..]) else None
  }

  /** The double `iss >> v` yields: 0 once the stream has failed or when nothing reads. */
  function ValueAt(at: Option<string>): (v: real)
    ensures at.None? ==> v == 0.0
  {
    if at.None? then 0.0 else ExtractReal(at.value).0
  }

  /** The text left after `iss >> v >> c`: None once either extraction fails. */
  function NextAt(at: Option<string>): (r: Option<string>)
    ensures r.Some? ==> at.Some? && |r.value| < |at.value|
  {
    match at
    case None => None
    case Some(rest) =>
      match ExtractReal(rest).1
      case None => None
      case Some(after) => ExtractChar(after)
  }

  /** `k` doubles read as `iss >> v >> c >> v >> c ...` from the unread text `at`, None once
      the stream has failed; a value that does not read is 0. */
  function ReadReals(at: Option<string>, k: nat): (r: seq<real>)
    ensures |r| == k
    ensures at.None? ==> forall j :: 0 <= j < k ==> r[j] == 0.0
    decreases k
  {
    if k == 0 then [] else [ValueAt(at)] + ReadReals(NextAt(at), k - 1)
  }

  /** `iss >> x >> comma >> y >> comma >> z` over the text of one position. */
  function ReadPosition(seg: string): Position {
    var r := ReadReals(Some(seg), 3);
    Position(r[0], r[1], r[2])
  }

  /** sscanf(t, "%d,%d,...") with `k` conversions returning `k`: all `k` integers, or None. */
  function ScanInts(t: string, k: nat): (r: Option<seq<int>>)
    requires k >= 1
    ensures r.Some? ==> |r.value| == k
    decreases k, 1
  {
    match ScanInt(t)
    case None => None
    case Some((a, n)) =>
      if k == 1 then Some([a])
      else if n < |t| && t[n] == ',' then IntsAfter(a, t[n + 1..], k)
      else None
  }

  /** `a` and the comma after it read: `a`, then the other k - 1 integers after that comma. */
  function IntsAfter(a: int, rest: string, k: nat): (r: Option<seq<int>>)
    requires k >= 2
    ensures r.Some? ==> |r.value| == k
    decreases k, 0
  {
    match ScanInts(rest, k - 1)
    case None => None
    case Some(r) => Some([a] + r)
  }

  /** sscanf(t, "%lf,%lf,...") with `k` conversions returning `k`: all `k` numbers, or None. */
  function ScanReals(t: string, k: nat): (r: Option<seq<real>>)
    requires k >= 1
    ensures r.Some? ==> |r.value| == k
    decreases k, 1
  {
    match ScanReal(t)
    case None => None
    case Some((a, n)) =>
      if k == 1 then Some([a])
      else if n < |t| && t[n] == ',' then RealsAfter(a, t[n + 1..], k)
      else None
  }

  /** `a` and the comma after it read: `a`, then the other k - 1 numbers after that comma. */
  function RealsAfter(a: real, rest: string, k: nat): (r: Option<seq<real>>)
    requires k >= 2
    ensures r.Some? ==> |r.value| == k
    decreases k, 0
  {
    match ScanReals(rest, k - 1)
    case None => None
    case Some(r) => Some([a] + r)
  }

  // ---------------------------------------------------------------------------------------
  // Locating the fields

  /** The report's text after the first occurrence of `key`, if there is one. */
  function AfterKey(s: string, key: string): (r: Option<string>)
    ensures r.None? <==> !Contains(s, key)
    ensures r.Some? ==> exists k: nat :: && OccursAt(s, key, k) && r.value == s[k + |key|..]
                                         && forall j :: 0 <= j < k ==> !OccursAt(s, key, j)
  {
    match FindFrom(s, key, 0)
    case None => None
    case Some(k) => Some(s[k + |key|..])
  }

  /** The state name: the text from index 1 up to the first '|'; empty when there is no '|'.
      When the report itself starts with '|', the length `stateEnd - 1` wraps around and the
      name is all the text after that first character. */
  function StateOf(s: string): (state: string)
    ensures '|' !in s || |s| <= 1 ==> state == ""
    ensures |s| > 1 && s[0] == '|' ==> state == s[1..]
    ensures |s| > 1 && s[0] != '|' && '|' in s ==>
              '|' !in state && |state| + 1 < |s| && s[1..|state| + 1] == state && s[|state| + 1] == '|'
  {
    match FindFirstOf(s, "|", 0)
    case None => ""
    case Some(e) => if |s| > 1 then (if e == 0 then s[1..] else s[1..e]) else ""
  }

  /** The text of the machine position: after "MPos:" up to the next '|', or to the end. */
  function MachinePosText(s: string): (r: Option<string>)
    ensures r.None? <==> !Contains(s, "MPos:")
    ensures r.Some? ==> var start := FindFrom(s, "MPos:", 0).value + 5;
              && r.value <= s[start..] && '|' !in r.value
              && (start + |r.value| == |s| || s[start + |r.value|] == '|')
  {
    match FindFrom(s, "MPos:", 0)
    case None => None
    case Some(k) => Some(Until(s, k + 5, FindFirstOf(s, "|", k + 5)))
  }

  /** The text of the work position: after "WPos:" up to the next '|', or up to the next '>'
      when no '|' follows, or to the end. */
  function WorkPosText(s: string): (r: Option<string>)
    ensures r.None? <==> !Contains(s, "WPos:")
    ensures r.Some? ==> var start := FindFrom(s, "WPos:", 0).value + 5;
              && r.value <= s[start..] && '|' !in r.value
              && ('|' in s[start..] ==> s[start + |r.value|] == '|')
              && ('|' !in s[start..] ==> '>' !in r.value && (start + |r.value| == |s| || s[start + |r.value|] == '>'))
  {
    match FindFrom(s, "WPos:", 0)
    case None => None
    case Some(k) =>
      var start := k + 5;
      var bar := FindFirstOf(s, "|", start);
      var end := if bar.Some? then bar else FindFirstOf(s, ">", start);
      assert bar.None? ==> forall j :: 0 <= j < |s[start..]| ==> s[start..][j] != '|';
      Some(Until(s, start, end))
  }

  /** The text of the input pins: after "Pn:" up to the first '|' or '>', or to the end. */
  function PinsText(s: string): (r: Option<string>)
    ensures r.None? <==> !Contains(s, "Pn:")
    ensures r.Some? ==> var start := FindFrom(s, "Pn:", 0).value + 3;
              && r.value <= s[start..] && '|' !in r.value && '>' !in r.value
              && (start + |r.value| == |s| || s[start + |r.value|] in "|>")
  {
    match FindFrom(s, "Pn:", 0)
    case None => None
    case Some(k) => Some(Until(s, k + 3, FindFirstOf(s, "|>", k + 3)))
  }

  // ---------------------------------------------------------------------------------------
  // The fields

  function MachinePosOf(s: string): Position {
    match MachinePosText(s)
    case None => Origin
    case Some(t) => ReadPosition(t)
  }

  function WorkPosOf(s: string): Position {
    match WorkPosText(s)
    case None => Origin
    case Some(t) => ReadPosition(t)
  }

  /** Planner and receive buffer counters, set only when both read. */
  function BuffersOf(s: string): (int, int) {
    match AfterKey(s, "Bf:")
    case Some(t) => (match ScanInts(t, 2) case Some(p) => (p[0], p[1]) case None => (0, 0))
    case None => (0, 0)
  }

  /** Feed and spindle speed from "FS:", set only when both read. */
  function FeedSpindleOf(s: string): (real, real) {
    match AfterKey(s, "FS:")
    case Some(t) => (match ScanReals(t, 2) case Some(p) => (p[0], p[1]) case None => (0.0, 0.0))
    case None => (0.0, 0.0)
  }

  /** The older "|F:" feed field, read only by a report whose feed is still 0. */
  function LegacyFeedOf(s: string): real {
    match AfterKey(s, "|F:")
    case Some(t) => (match ScanReal(t) case Some((v, _)) => v case None => 0.0)
    case None => 0.0
  }

  /** Feed, rapid and spindle overrides, set only when all three read. */
  function OverridesOf(s: string): (int, int, int) {
    match AfterKey(s, "Ov:")
    case Some(t) =>
      (match ScanInts(t, 3)
       case Some(o) => (o[0], o[1], o[2])
       case None => (DefaultOverride, DefaultOverride, DefaultOverride))
    case None => (DefaultOverride, DefaultOverride, DefaultOverride)
  }

  /** The status a report denotes. */
  function ParseStatus(s: string): (st: GrblStatus)
    ensures st.state == StateOf(s)
    ensures !Contains(s, "MPos:") ==> st.machinePos == Origin
    ensures !Contains(s, "WPos:") ==> st.workPos == Origin
    ensures !Contains(s, "Bf:") ==> st.bufferPlannerAvail == 0 && st.bufferRxAvail == 0
    ensures !Contains(s, "FS:") ==> st.spindleSpeed == 0.0
    ensures !Contains(s, "FS:") && !Contains(s, "|F:") ==> st.feedRate == 0.0
    ensures !Contains(s, "Ov:") ==> st.feedOverride == DefaultOverride && st.rapidOverride == DefaultOverride
                                    && st.spindleOverride == DefaultOverride
    ensures !Contains(s, "Pn:") ==> st.inputPins == ""
    ensures PinsText(s).Some? ==> st.inputPins == PinsText(s).value
  {
    var (planner, rx) := BuffersOf(s);
    var (feed, spindle) := FeedSpindleOf(s);
    var feed' := if feed == 0.0 then LegacyFeedOf(s) else feed;
    var (fo, ro, so) := OverridesOf(s);
    var pins := match PinsText(s) case Some(t) => t case None => "";
    GrblStatus(StateOf(s), MachinePosOf(s), WorkPosOf(s), feed', spindle, fo, ro, so, pins, planner, rx)
  }

  /** A report without any '|' and without any key leaves every field as a fresh status has
      it: empty state and pins, both positions at the origin, no feed or spindle speed, empty
      buffers and overrides at 100. */
  lemma KeylessReport(s: string)
    requires '|' !in s
    requires !Contains(s, "MPos:") && !Contains(s, "WPos:") && !Contains(s, "Bf:")
    requires !Contains(s, "FS:") && !Contains(s, "Ov:") && !Contains(s, "Pn:")
    ensures ParseStatus(s) == FreshStatus
  {
    MissingChar(s, "|F:", 0);
  }
}
