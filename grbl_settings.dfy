/** The `$$` settings listing: the fixed description table, reading the listing line by line
    with the pattern `\$(\d+)=([0-9.]+)`, and the `$<id>=<value>` text that changes one
    setting. */
module Settings {
  import opened Wrappers
  import opened Text
  import opened Numerals
  import opened GrblTypes

  // ---------------------------------------------------------------------------------------
  // Descriptions

  /** The largest 32-bit int, the most std::stoi returns without throwing. */
  const IntMax := 2147483647

  /** The description of a setting the table does not list. */
  const UnknownSetting := "Unknown setting"

  /** The settings GRBL 1.1 documents, by number. */
  const Descriptions: map<int, string> := map[
    0 := "Step pulse time (microseconds)",
    1 := "Step idle delay (milliseconds)",
    2 := "Step pulse invert mask",
    3 := "Step direction invert mask",
    4 := "Invert step enable pin",
    5 := "Invert limit pins",
    6 := "Invert probe pin",
    10 := "Status report options",
    11 := "Junction deviation (mm)",
    12 := "Arc tolerance (mm)",
    13 := "Report in inches",
    20 := "Soft limits enable",
    21 := "Hard limits enable",
    22 := "Homing cycle enable",
    23 := "Homing direction invert mask",
    24 := "Homing locate feed rate (mm/min)",
    25 := "Homing search seek rate (mm/min)",
    26 := "Homing switch debounce delay (ms)",
    27 := "Homing switch pull-off distance (mm)",
    30 := "Maximum spindle speed (RPM)",
    31 := "Minimum spindle speed (RPM)",
    32 := "Laser mode enable",
    100 := "X-axis steps per millimeter",
    101 := "Y-axis steps per millimeter",
    102 := "Z-axis steps per millimeter",
    110 := "X-axis maximum rate (mm/min)",
    111 := "Y-axis maximum rate (mm/min)",
    112 := "Z-axis maximum rate (mm/min)",
    120 := "X-axis acceleration (mm/sec^2)",
    121 := "Y-axis acceleration (mm/sec^2)",
    122 := "Z-axis acceleration (mm/sec^2)",
    130 := "X-axis maximum travel (mm)",
    131 := "Y-axis maximum travel (mm)",
    132 := "Z-axis maximum travel (mm)"]

  /** The numbers the table lists: the general settings 0-6, 10-13, 20-27 and 30-32, and for
      each of the groups 100, 110, 120 and 130 one setting per axis X, Y, Z. */
  predicate Documented(id: int) {
    || 0 <= id <= 6 || 10 <= id <= 13 || 20 <= id <= 27 || 30 <= id <= 32
    || (100 <= id <= 132 && id % 10 <= 2)
  }

  /** The description of setting `id`: its entry in the table, found exactly when it is a
      documented number, and "Unknown setting" otherwise. */
  function Description(id: int): string {
    DescriptionsListed(id);
    if Documented(id) then Descriptions[id] else UnknownSetting
  }

  /** The table lists exactly the documented numbers. */
  lemma DescriptionsListed(id: int)
    ensures id in Descriptions <==> Documented(id)
  {
  }

  /** "Unknown setting" is never a listed description, so it marks exactly the numbers the
      table does not list. */
  lemma UnknownExactly(id: int)
    ensures Description(id) == UnknownSetting <==> !Documented(id)
  {
    DescriptionsListed(id);
    if id in Descriptions {
      assert Descriptions[id] != UnknownSetting;
    }
  }

  /** Each per-axis setting names its axis first: the last digit 0, 1, 2 stands for X, Y, Z. */
  lemma AxisDescriptions(id: int)
    requires 100 <= id <= 132 && id % 10 <= 2
    ensures |Description(id)| > 6 && Description(id)[0] == "XYZ"[id % 10]
  {
  }

  // ---------------------------------------------------------------------------------------
  // The pattern \$(\d+)=([0-9.]+)

  /** A character of the class [0-9.]. */
  predicate IsValueChar(c: char) {
    IsDigit(c) || c == '.'
  }

  /** The end of the run of [0-9.] characters that starts at `i`. */
  function ValueEnd(s: string, i: nat): (j: nat)
    requires i <= |s|
    ensures i <= j <= |s| && (j < |s| ==> !IsValueChar(s[j]))
    ensures forall k :: i <= k < j ==> IsValueChar(s[k])
    decreases |s| - i
  {
    if i < |s| && IsValueChar(s[i]) then ValueEnd(s, i + 1) else i
  }

  /** The pattern matches `line[p..e]`, its '=' at `d`: a '$', at least one digit, the '=',
      and at least one of [0-9.]. */
  ghost predicate Matches(line: string, p: nat, d: nat, e: nat) {
    && p + 1 < d && d + 1 < e <= |line| && line[p] == '$' && line[d] == '='
    && (forall k :: p < k < d ==> IsDigit(line[k]))
    && (forall k :: d < k < e ==> IsValueChar(line[k]))
  }

  /** The match the pattern makes starting at `p`, as the '=' position and the end: both
      repetitions are greedy, so the digits run up to the '=' and the value as far as [0-9.]
      characters go. */
  function MatchAt(line: string, p: nat): (r: Option<(nat, nat)>)
    requires p <= |line|
    ensures r.Some? ==> Matches(line, p, r.value.0, r.value.1)
                        && (r.value.1 == |line| || !IsValueChar(line[r.value.1]))
    ensures forall d: nat, e: nat :: Matches(line, p, d, e) ==> r.Some? && r.value.0 == d && e <= r.value.1
  {
    if p < |line| && line[p] == '$' then
      var d := DigitsEnd(line, p + 1);
      DigitsRun(line, p + 1);
      assert forall k :: p < k < d ==> IsDigit(line[k]) by {
        forall k | p < k < d ensures IsDigit(line[k]) {
          assert line[k] == line[p + 1..d][k - p - 1];
        }
      }
      if d > p + 1 && d < |line| && line[d] == '=' then
        var e := ValueEnd(line, d + 1);
        if e > d + 1 then Some((d, e)) else None
      else None
    else None
  }

  /** std::regex_search: the leftmost start at or after `from` where the pattern matches, with
      the match made there. */
  function SearchFrom(line: string, from: nat): (r: Option<(nat, nat, nat)>)
    requires from <= |line|
    ensures r.Some? ==> from <= r.value.0 <= |line| && MatchAt(line, r.value.0) == Some((r.value.1, r.value.2))
    ensures r.Some? ==> forall q :: from <= q < r.value.0 ==> MatchAt(line, q).None?
    ensures r.None? ==> forall q :: from <= q <= |line| ==> MatchAt(line, q).None?
    decreases |line| - from
  {
    match MatchAt(line, from)
    case Some((d, e)) => Some((from, d, e))
    case None => if from == |line| then None else SearchFrom(line, from + 1)
  }

  // ---------------------------------------------------------------------------------------
  // Reading lines

  /** What one line of the listing gives: no setting, a setting, or an exception from
      std::stoi or std::stod, which ends the whole parse. */
  datatype LineRead = NoSetting | Found(setting: GrblSetting) | Throws

  /** The setting the first match on a line gives: the number std::stoi reads from the digits,
      which throws above the 32-bit range, and the value std::stod reads from the [0-9.]
      text, which throws when that text has no digit before its first '.' nor right after it. */
  function ReadSettingLine(line: string): LineRead {
    match SearchFrom(line, 0)
    case None => NoSetting
    case Some((p, d, e)) =>
      var digits := line[p + 1..d];
      assert AllDigits(digits) by {
        forall k | 0 <= k < |digits| ensures IsDigit(digits[k]) {
          assert digits[k] == line[p + 1 + k];
        }
      }
      MatchRead(digits, line[d + 1..e])
  }

  /** What a match reads: std::stoi on the digits, which throws past INT_MAX, then std::stod
      on the value text, which throws when no number starts it. */
  function MatchRead(digits: string, value: string): LineRead
    requires AllDigits(digits)
  {
    var id := DigitsValue(digits);
    if id > IntMax then Throws
    else
      match ScanReal(value)
      case None => Throws
      case Some((v, _)) => Found(GrblSetting(id, v, Description(id)))
  }

  /** The settings read one after another, in order, or None once a line throws. */
  function Collect(rs: seq<LineRead>): Option<seq<GrblSetting>>
    decreases |rs|
  {
    if rs == [] then Some([])
    else
      match Collect(rs[..|rs| - 1])
      case None => None
      case Some(r) =>
        match rs[|rs| - 1]
        case Throws => None
        case NoSetting => Some(r)
        case Found(x) => Some(r + [x])
  }

  /** What each line gives. */
  function ReadsOf(ls: seq<string>): (rs: seq<LineRead>)
    ensures |rs| == |ls| && forall j :: 0 <= j < |ls| ==> rs[j] == ReadSettingLine(ls[j])
  {
    seq(|ls|, j requires 0 <= j < |ls| => ReadSettingLine(ls[j]))
  }

  /** The settings a sequence of lines gives. */
  function SettingsOf(ls: seq<string>): Option<seq<GrblSetting>> {
    Collect(ReadsOf(ls))
  }

  /** The settings of one line. */
  function LineSettings(l: LineRead): Option<seq<GrblSetting>> {
    match l
    case Throws => None
    case NoSetting => Some([])
    case Found(x) => Some([x])
  }

  /** Both parts read, one after the other. */
  function Then(a: Option<seq<GrblSetting>>, b: Option<seq<GrblSetting>>): Option<seq<GrblSetting>> {
    if a.Some? && b.Some? then Some(a.value + b.value) else None
  }

  lemma ThenAssociative(a: Option<seq<GrblSetting>>, b: Option<seq<GrblSetting>>, c: Option<seq<GrblSetting>>)
    ensures Then(Then(a, b), c) == Then(a, Then(b, c))
  {
    if a.Some? && b.Some? && c.Some? {
      assert (a.value + b.value) + c.value == a.value + (b.value + c.value);
    }
  }

  /** The last line's settings come after the others'. */
  lemma CollectLast(rs: seq<LineRead>)
    requires rs != []
    ensures Collect(rs) == Then(Collect(rs[..|rs| - 1]), LineSettings(rs[|rs| - 1]))
  {
    var init := Collect(rs[..|rs| - 1]);
    if init.Some? && rs[|rs| - 1].NoSetting? {
      assert init.value + [] == init.value;
    }
  }

  /** The settings of reads `a` then reads `b` are those of `a` followed by those of `b`. */
  lemma {:induction false} CollectAppend(a: seq<LineRead>, b: seq<LineRead>)
    ensures Collect(a + b) == Then(Collect(a), Collect(b))
    decreases |b|
  {
    if b == [] {
      assert a + b == a;
      if Collect(a).Some? {
        assert Collect(a).value + [] == Collect(a).value;
      }
    } else {
      var ab := a + b;
      var b' := b[..|b| - 1];
      var last := b[|b| - 1];
      assert ab[..|ab| - 1] == a + b';
      assert ab[|ab| - 1] == last;
      CollectLast(ab);
      CollectLast(b);
      CollectAppend(a, b');
      ThenAssociative(Collect(a), Collect(b'), LineSettings(last));
    }
  }

  /** The settings of lines `a` then lines `b` are those of `a` followed by those of `b`:
      one entry per line that holds a setting, in line order. */
  lemma SettingsOfAppend(a: seq<string>, b: seq<string>)
    ensures SettingsOf(a + b) == Then(SettingsOf(a), SettingsOf(b))
  {
    ReadsOfAppend(a, b);
    CollectAppend(ReadsOf(a), ReadsOf(b));
  }

  /** Each line is read on its own. */
  lemma ReadsOfAppend(a: seq<string>, b: seq<string>)
    ensures ReadsOf(a + b) == ReadsOf(a) + ReadsOf(b)
  {
    var l, r := ReadsOf(a + b), ReadsOf(a) + ReadsOf(b);
    forall j | 0 <= j < |l| ensures l[j] == r[j] {
      if j < |a| {
        assert (a + b)[j] == a[j];
      } else {
        assert (a + b)[j] == b[j - |a|];
      }
    }
  }

  /** One line alone gives its own setting, if any. */
  lemma SettingsOfOne(l: string)
    ensures SettingsOf([l]) == LineSettings(ReadSettingLine(l))
  {
    var rs := ReadsOf([l]);
    assert rs[..0] == [];
    CollectLast(rs);
    var one := LineSettings(rs[0]);
    if one.Some? {
      assert [] + one.value == one.value;
    }
  }

  /** Reading stops with nothing exactly when some read throws. */
  lemma {:induction false} CollectThrows(rs: seq<LineRead>)
    ensures Collect(rs).None? <==> exists j :: 0 <= j < |rs| && rs[j].Throws?
    decreases |rs|
  {
    if rs != [] {
      var init := rs[..|rs| - 1];
      CollectThrows(init);
      CollectLast(rs);
      if exists j :: 0 <= j < |init| && init[j].Throws? {
        var j :| 0 <= j < |init| && init[j].Throws?;
        assert rs[j] == init[j];
      }
      if exists j :: 0 <= j < |rs| && rs[j].Throws? {
        var j :| 0 <= j < |rs| && rs[j].Throws?;
        if j < |init| { assert init[j] == rs[j]; }
      }
    }
  }

  /** The parse gives nothing exactly when some line throws. */
  lemma SettingsThrow(ls: seq<string>)
    ensures SettingsOf(ls).None? <==> exists j :: 0 <= j < |ls| && ReadSettingLine(ls[j]).Throws?
  {
    var rs := ReadsOf(ls);
    CollectThrows(rs);
    if exists j :: 0 <= j < |rs| && rs[j].Throws? {
      var j :| 0 <= j < |rs| && rs[j].Throws?;
      assert ReadSettingLine(ls[j]).Throws?;
    }
  }

  /** A read that throws ends the parse with nothing, whatever follows. */
  lemma ThrowsAt(rs: seq<LineRead>, i: nat)
    requires i < |rs| && rs[i].Throws?
    ensures Collect(rs).None?
  {
    CollectThrows(rs);
  }

  /** parseSettings: every line of the response, in order, through the pattern; an exception
      from std::stoi or std::stod leaves it with nothing. */
  method ParseSettings(response: string) returns (r: Option<seq<GrblSetting>>)
    ensures r == SettingsOf(Lines(response))
  {
    var ls := Lines(response);
    ghost var rs := ReadsOf(ls);
    var acc: seq<GrblSetting> := [];
    var i := 0;
    while i < |ls|
      invariant 0 <= i <= |ls|
      invariant Collect(rs[..i]) == Some(acc)
    {
      var read := ReadSettingLine(ls[i]);
      assert rs[..i + 1][..i] == rs[..i];
      CollectLast(rs[..i + 1]);
      if read.Throws? {
        ThrowsAt(rs, i);
        return None;
      } else if read.Found? {
        acc := acc + [read.setting];
      }
      i := i + 1;
    }
    assert rs[..i] == rs;
    r := Some(acc);
  }

  // ---------------------------------------------------------------------------------------
  // The text that changes a setting, read back

  /** `"$" << id << "=" << std::fixed << std::setprecision(3) << value`. */
  function SettingText(id: int, value: real): string {
    "$" + IntToString(id) + "=" + Fixed(value, Decimals)
  }

  /** Fixed-point text of a value that is not negative holds only digits and '.'. */
  lemma FixedUnsigned(v: real, p: nat)
    requires v >= 0.0
    ensures forall k :: 0 <= k < |Fixed(v, p)| ==> IsValueChar(Fixed(v, p)[k])
  {
    FixedChars(v, p);
  }

  /** The pattern matches a whole `$<digits>=<value>` line from its start. */
  lemma MatchWhole(line: string, digits: string, f: string)
    requires line == "$" + digits + "=" + f && digits != [] && AllDigits(digits)
    requires f != [] && forall k :: 0 <= k < |f| ==> IsValueChar(f[k])
    ensures MatchAt(line, 0) == Some((1 + |digits|, |line|))
  {
    var d := 1 + |digits|;
    assert line[1..d] == digits;
    assert line[d] == '=';
    DigitsEndAt(line, 1, d);
    forall k | d + 1 <= k < |line| ensures IsValueChar(line[k]) {
      assert line[k] == f[k - d - 1];
    }
  }

  /** Such a line gives the setting its digits and value text denote. */
  lemma ReadWhole(line: string, digits: string, f: string)
    requires line == "$" + digits + "=" + f && digits != [] && AllDigits(digits)
    requires f != [] && forall k :: 0 <= k < |f| ==> IsValueChar(f[k])
    ensures ReadSettingLine(line) == MatchRead(digits, f)
  {
    MatchWhole(line, digits, f);
    var d := 1 + |digits|;
    assert line[1..d] == digits;
    assert line[d + 1..|line|] == f;
    ReadFromStart(line, d, |line|);
  }

  /** A line matched at its start reads what its digits and value text give. */
  lemma ReadFromStart(line: string, d: nat, e: nat)
    requires 1 <= d < e <= |line| && MatchAt(line, 0) == Some((d, e)) && AllDigits(line[1..d])
    ensures ReadSettingLine(line) == MatchRead(line[1..d], line[d + 1..e])
  {
    var r := SearchFrom(line, 0);
    assert r == Some((0, d, e));
    assert r.value.0 + 1 == 1;
  }

  /** The listing reads the text that sets a setting back as that setting, its value rounded
      to the three decimals the text carries, for a number std::stoi can read and a value that
      is not negative. */
  lemma SettingTextRead(id: int, value: real)
    requires 0 <= id <= IntMax && value >= 0.0
    ensures ReadSettingLine(SettingText(id, value)) == Found(GrblSetting(id, Round(value, Decimals), Description(id)))
  {
    var f := Fixed(value, Decimals);
    FixedUnsigned(value, Decimals);
    ScanFixedWhole(value, Decimals);
    ReadWhole(SettingText(id, value), IntToString(id), f);
  }

  /** The only '$' of the text that sets a setting is its first character. */
  lemma SettingTextDollar(id: int, value: real, q: nat)
    requires q < |SettingText(id, value)| && SettingText(id, value)[q] == '$'
    ensures q == 0
  {
    var digits := IntToString(id);
    var f := Fixed(value, Decimals);
    var line := SettingText(id, value);
    if 0 < q <= |digits| {
      assert line[q] == digits[q - 1];
      IntToStringChars(id);
    } else if q > 1 + |digits| {
      assert line[q] == f[q - |digits| - 2];
      FixedChars(value, Decimals);
    }
  }

  /** A negative number or value gives text the pattern does not match. */
  lemma SettingTextNegative(id: int, value: real)
    requires id < 0 || value < 0.0
    ensures ReadSettingLine(SettingText(id, value)) == NoSetting
  {
    var digits := IntToString(id);
    var f := Fixed(value, Decimals);
    var line := SettingText(id, value);
    assert line == "$" + digits + "=" + f;
    forall q | 0 <= q <= |line| ensures MatchAt(line, q).None? {
      if q < |line| && line[q] == '$' {
        SettingTextDollar(id, value, q);
        if id < 0 {
          assert line[1] == '-';
        } else {
          var d := 1 + |digits|;
          assert line[1..d] == digits;
          DigitsEndAt(line, 1, d);
          assert line[d + 1] == f[0] == '-';
        }
      }
    }
  }

  /** The `$$` listing of settings, one `$<id>=<value>` line each, then the final "ok". */
  function Listing(items: seq<(int, real)>): string {
    Joined(ListingLines(items) + ["ok"])
  }

  function ListingLines(items: seq<(int, real)>): (ls: seq<string>)
    ensures |ls| == |items|
    ensures forall j :: 0 <= j < |items| ==> ls[j] == SettingText(items[j].0, items[j].1)
  {
    seq(|items|, j requires 0 <= j < |items| => SettingText(items[j].0, items[j].1))
  }

  /** The settings a listing denotes, values rounded to three decimals. */
  function Listed(items: seq<(int, real)>): (r: seq<GrblSetting>)
    ensures |r| == |items|
  {
    seq(|items|, j requires 0 <= j < |items| =>
      GrblSetting(items[j].0, Round(items[j].1, Decimals), Description(items[j].0)))
  }

  predicate Listable(items: seq<(int, real)>) {
    forall j :: 0 <= j < |items| ==> 0 <= items[j].0 <= IntMax && items[j].1 >= 0.0
  }

  /** Reads that each find a setting give those settings, in order. */
  lemma {:induction false} CollectFound(rs: seq<LineRead>, xs: seq<GrblSetting>)
    requires |rs| == |xs| && forall j :: 0 <= j < |rs| ==> rs[j] == Found(xs[j])
    ensures Collect(rs) == Some(xs)
    decreases |rs|
  {
    if rs != [] {
      var n := |rs| - 1;
      CollectFound(rs[..n], xs[..n]);
      CollectLast(rs);
      assert xs == xs[..n] + [xs[n]];
    }
  }

  /** The setting lines of a listing give the settings listed. */
  lemma ListingLinesRead(items: seq<(int, real)>)
    requires Listable(items)
    ensures SettingsOf(ListingLines(items)) == Some(Listed(items))
  {
    var ls := ListingLines(items);
    var rs := ReadsOf(ls);
    var xs := Listed(items);
    forall j | 0 <= j < |rs| ensures rs[j] == Found(xs[j]) {
      SettingTextRead(items[j].0, items[j].1);
    }
    CollectFound(rs, xs);
  }

  /** "ok" holds no '$', so the pattern finds nothing on it. */
  lemma OkLine()
    ensures ReadSettingLine("ok") == NoSetting
  {
    assert MatchAt("ok", 0).None? && MatchAt("ok", 1).None? && MatchAt("ok", 2).None?;
  }

  /** No line of the listing holds a '\n'. */
  lemma ListingSingleLines(items: seq<(int, real)>)
    requires Listable(items)
    ensures var ls := ListingLines(items) + ["ok"];
            forall k :: 0 <= k < |ls| ==> '\n' !in ls[k]
  {
    var ls := ListingLines(items);
    forall k | 0 <= k < |ls + ["ok"]| ensures '\n' !in (ls + ["ok"])[k] {
      if k < |ls| {
        IntToStringChars(items[k].0);
        FixedChars(items[k].1, Decimals);
        assert ls[k] == "$" + IntToString(items[k].0) + "=" + Fixed(items[k].1, Decimals);
      }
    }
  }

  /** Parsing the `$$` listing of settings gives those settings back, in order, each with its
      description and its value rounded to three decimals. */
  lemma ListingRead(items: seq<(int, real)>)
    requires Listable(items)
    ensures SettingsOf(Lines(Listing(items))) == Some(Listed(items))
  {
    var ls := ListingLines(items);
    ListingSingleLines(items);
    LinesOfJoined(ls + ["ok"]);
    SettingsOfAppend(ls, ["ok"]);
    SettingsOfOne("ok");
    OkLine();
    ListingLinesRead(items);
    assert Listed(items) + [] == Listed(items);
  }
}
