/** The text of the commands the client sends: linear moves, jogs, homing and unlocking,
    the real-time bytes, and the timeouts each command waits for its answer. A command is
    read back as words separated by single spaces, each word after the first a letter
    followed by a number. */
module Commands {
  import opened Wrappers
  import opened Text
  import opened Numerals
  import opened GrblTypes

  // ---------------------------------------------------------------------------------------
  // Fixed commands, real-time bytes and timeouts

  /** `$H`: run the homing cycle. */
  const HomeCommand := "$H"
  /** `$X`: clear an alarm lock. It is a queued line, not a real-time byte. */
  const UnlockCommand := "$X"
  /** `$$`: list the settings. */
  const SettingsCommand := "$$"

  /** Real-time bytes, acted on by the machine as soon as they arrive. */
  const StatusQuery := '?'
  const FeedHoldByte := '!'
  const CycleStartByte := '~'
  const ResetByte := 0x18 as char
  const JogCancelByte := 0x85 as char

  /** How long each command waits for its answer, in milliseconds. */
  const HomeTimeout := 30000
  const MoveTimeout := 5000
  const UnlockTimeout := 2000
  const SettingTimeout := 2000
  /** How long one line of an answer is waited for. */
  const LineTimeout := 500
  /** How long the settings listing is read before giving up on its end. */
  const SettingsReadLimit := 5000

  // ---------------------------------------------------------------------------------------
  // Building commands

  /** ` <letter><value>` with three decimals when the axis is supplied, nothing otherwise. */
  function AxisWord(letter: char, v: Option<real>): string {
    match v
    case None => ""
    case Some(a) => " " + [letter] + Fixed(a, Decimals)
  }

  /** moveG0: a rapid move to the supplied coordinates. */
  function G0Command(x: Option<real>, y: Option<real>, z: Option<real>): string {
    "G0" + AxisWord('X', x) + AxisWord('Y', y) + AxisWord('Z', z)
  }

  /** moveG1: a linear move at feed rate `feed` to the supplied coordinates. */
  function G1Command(x: Option<real>, y: Option<real>, z: Option<real>, feed: real): string {
    "G1" + AxisWord('X', x) + AxisWord('Y', y) + AxisWord('Z', z) + " F" + Fixed(feed, Decimals)
  }

  /** jog: an incremental jog of `distance` along `axis` at feed rate `feed`. */
  function JogCommand(axis: char, distance: real, feed: real): string {
    "$J=G91 " + [axis] + Fixed(distance, Decimals) + " F" + Fixed(feed, Decimals)
  }

  // ---------------------------------------------------------------------------------------
  // Reading commands back

  /** The words of a line: the pieces between single spaces. */
  function Words(s: string): (ws: seq<string>)
    ensures |ws| >= 1
    ensures forall k :: 0 <= k < |ws| ==> ' ' !in ws[k]
    decreases |s|
  {
    match FindFirstOf(s, " ", 0)
    case None => [s]
    case Some(i) => [s[..i]] + Words(s[i + 1..])
  }

  /** Each word preceded by a space. */
  function Prefixed(ws: seq<string>): string {
    if ws == [] then "" else " " + ws[0] + Prefixed(ws[1..])
  }

  /** A word read as a letter followed by a number that fills the rest of the word. */
  function ReadWord(w: string): Option<(char, real)> {
    if w == [] then None
    else
      match ScanReal(w[1..])
      case None => None
      case Some((v, n)) => if n == |w| - 1 then Some((w[0], v)) else None
  }

  /** Every word read, in order, or None when one of them does not read. */
  function Fields(ws: seq<string>): (r: Option<seq<(char, real)>>)
    ensures r.Some? <==> forall k :: 0 <= k < |ws| ==> ReadWord(ws[k]).Some?
    ensures r.Some? ==> |r.value| == |ws| && forall k :: 0 <= k < |ws| ==> Some(r.value[k]) == ReadWord(ws[k])
  {
    if forall k :: 0 <= k < |ws| ==> ReadWord(ws[k]).Some? then
      Some(seq(|ws|, k requires 0 <= k < |ws| => ReadWord(ws[k]).value))
    else None
  }

  /** A command read back: its first word and the letters and numbers of the others. */
  function Parsed(cmd: string): Option<(string, seq<(char, real)>)> {
    var ws := Words(cmd);
    match Fields(ws[1..])
    case None => None
    case Some(fs) => Some((ws[0], fs))
  }

  /** The word a supplied axis gives, without its space. */
  function AxisList(letter: char, v: Option<real>): seq<string> {
    match v
    case None => []
    case Some(a) => [[letter] + Fixed(a, Decimals)]
  }

  /** What reading a supplied axis gives back: its letter and its value rounded to the three
      decimals printed. */
  function AxisRead(letter: char, v: Option<real>): seq<(char, real)> {
    match v
    case None => []
    case Some(a) => [(letter, Round(a, Decimals))]
  }

  /** Words and spaces come apart again. */
  lemma {:induction false} WordsPrefixed(head: string, ws: seq<string>)
    requires ' ' !in head && forall k :: 0 <= k < |ws| ==> ' ' !in ws[k]
    ensures Words(head + Prefixed(ws)) == [head] + ws
    decreases |ws|
  {
    var s := head + Prefixed(ws);
    if ws == [] {
      assert s == head;
      assert FindFirstOf(s, " ", 0).None?;
    } else {
      var rest := ws[0] + Prefixed(ws[1..]);
      assert s == head + " " + rest;
      assert s[|head|] == ' ';
      assert forall j :: 0 <= j < |head| ==> s[j] == head[j];
      assert FindFirstOf(s, " ", 0) == Some(|head|);
      assert s[..|head|] == head;
      assert s[|head| + 1..] == rest;
      WordsPrefixed(ws[0], ws[1..]);
      assert [ws[0]] + ws[1..] == ws;
    }
  }

  lemma {:induction false} PrefixedAppend(a: seq<string>, b: seq<string>)
    ensures Prefixed(a + b) == Prefixed(a) + Prefixed(b)
    decreases |a|
  {
    if a == [] {
      assert a + b == b;
    } else {
      assert (a + b)[1..] == a[1..] + b;
      PrefixedAppend(a[1..], b);
    }
  }

  /** Words without spaces, each reading back as the matching entry of `vs`. */
  predicate ReadsAs(ws: seq<string>, vs: seq<(char, real)>) {
    && |ws| == |vs|
    && (forall k :: 0 <= k < |ws| ==> ' ' !in ws[k])
    && (forall k :: 0 <= k < |ws| ==> ReadWord(ws[k]) == Some(vs[k]))
  }

  /** Words that each read as a letter and a number, after a first word, read back as the
      first word and those letters and numbers. */
  lemma CommandRead(head: string, ws: seq<string>, vs: seq<(char, real)>)
    requires ' ' !in head && ReadsAs(ws, vs)
    ensures Parsed(head + Prefixed(ws)) == Some((head, vs))
  {
    WordsPrefixed(head, ws);
    assert ([head] + ws)[1..] == ws;
    var r := Fields(ws);
    assert r.value == vs;
  }

  /** A word made of a letter and a fixed-point number reads back as that letter and the
      number rounded to the decimals printed. */
  lemma WordRead(letter: char, a: real)
    ensures ReadWord([letter] + Fixed(a, Decimals)) == Some((letter, Round(a, Decimals)))
  {
    var f := Fixed(a, Decimals);
    ScanFixedWhole(a, Decimals);
    assert ([letter] + f)[1..] == f;
  }

  /** A word made of a letter other than a space and a fixed-point number holds no space. */
  lemma WordSpaceFree(letter: char, a: real)
    requires letter != ' '
    ensures ' ' !in [letter] + Fixed(a, Decimals)
  {
    var f := Fixed(a, Decimals);
    FixedChars(a, Decimals);
    assert forall k :: 0 <= k < |f| ==> f[k] != ' ';
    assert forall k :: 0 <= k < |[letter] + f| ==> ([letter] + f)[k] != ' ' by {
      forall k | 0 <= k < |[letter] + f| ensures ([letter] + f)[k] != ' ' {
        if k > 0 {
          assert ([letter] + f)[k] == f[k - 1];
        }
      }
    }
  }

  lemma ReadsAsAppend(a: seq<string>, va: seq<(char, real)>, b: seq<string>, vb: seq<(char, real)>)
    requires ReadsAs(a, va) && ReadsAs(b, vb)
    ensures ReadsAs(a + b, va + vb)
  {
    var ab := a + b;
    var vab := va + vb;
    forall k | |a| <= k < |ab| ensures ab[k] == b[k - |a|] && vab[k] == vb[k - |a|] {
    }
  }

  /** A supplied axis gives one word, read back as its letter and rounded value; an axis
      not supplied gives nothing. */
  lemma AxisReads(letter: char, v: Option<real>)
    requires letter != ' '
    ensures ReadsAs(AxisList(letter, v), AxisRead(letter, v))
  {
    if v.Some? {
      WordSpaceFree(letter, v.value);
      WordRead(letter, v.value);
    }
  }

  /** The text of an axis word is its word preceded by a space. */
  lemma AxisWords(letter: char, v: Option<real>)
    ensures AxisWord(letter, v) == Prefixed(AxisList(letter, v))
  {
    if v.Some? {
      var w := [letter] + Fixed(v.value, Decimals);
      assert AxisList(letter, v) == [w];
      assert Prefixed([w]) == " " + w + Prefixed([]);
    }
  }

  /** The axis words of a move, X then Y then Z, only for the supplied axes. */
  function AxesList(x: Option<real>, y: Option<real>, z: Option<real>): seq<string> {
    AxisList('X', x) + AxisList('Y', y) + AxisList('Z', z)
  }

  /** What the axis words of a move read back as. */
  function AxesRead(x: Option<real>, y: Option<real>, z: Option<real>): seq<(char, real)> {
    AxisRead('X', x) + AxisRead('Y', y) + AxisRead('Z', z)
  }

  /** The axis words of a move in words-and-spaces form, and what they read back as. */
  lemma AxesWords(x: Option<real>, y: Option<real>, z: Option<real>)
    ensures AxisWord('X', x) + AxisWord('Y', y) + AxisWord('Z', z) == Prefixed(AxesList(x, y, z))
  {
    var lx, ly, lz := AxisList('X', x), AxisList('Y', y), AxisList('Z', z);
    AxisWords('X', x);
    AxisWords('Y', y);
    AxisWords('Z', z);
    PrefixedAppend(lx, ly);
    PrefixedAppend(lx + ly, lz);
  }

  /** The axis words of a move read back as the supplied axes. */
  lemma AxesReads(x: Option<real>, y: Option<real>, z: Option<real>)
    ensures ReadsAs(AxesList(x, y, z), AxesRead(x, y, z))
  {
    var lx, ly, lz := AxisList('X', x), AxisList('Y', y), AxisList('Z', z);
    AxisReads('X', x);
    AxisReads('Y', y);
    AxisReads('Z', z);
    ReadsAsAppend(lx, AxisRead('X', x), ly, AxisRead('Y', y));
    ReadsAsAppend(lx + ly, AxisRead('X', x) + AxisRead('Y', y), lz, AxisRead('Z', z));
  }

  /** A rapid move in words-and-spaces form. */
  lemma G0Words(x: Option<real>, y: Option<real>, z: Option<real>)
    ensures G0Command(x, y, z) == "G0" + Prefixed(AxesList(x, y, z))
  {
    AxesWords(x, y, z);
  }

  /** Words with a final feed word, whatever the words hold. */
  lemma FeedShape(head: string, a: string, b: string, c: string, ws: seq<string>, f: string)
    requires a + b + c == Prefixed(ws)
    ensures head + a + b + c + " F" + f == head + Prefixed(ws + ["F" + f])
  {
    PrefixedAppend(ws, ["F" + f]);
    assert Prefixed(["F" + f]) == " F" + f + Prefixed([]);
  }

  /** The shape of a jog, whatever its numbers. */
  lemma JogShape(axis: char, d: string, f: string)
    ensures "$J=G91 " + [axis] + d + " F" + f == "$J=G91" + Prefixed([[axis] + d, "F" + f])
  {
    assert [[axis] + d, "F" + f][1..] == ["F" + f];
    assert Prefixed(["F" + f]) == " F" + f + Prefixed([]);
  }

  /** A linear move in words-and-spaces form. */
  lemma G1Words(x: Option<real>, y: Option<real>, z: Option<real>, feed: real)
    ensures G1Command(x, y, z, feed) == "G1" + Prefixed(AxesList(x, y, z) + AxisList('F', Some(feed)))
  {
    var a, b, c := AxisWord('X', x), AxisWord('Y', y), AxisWord('Z', z);
    var f := Fixed(feed, Decimals);
    AxesWords(x, y, z);
    FeedShape("G1", a, b, c, AxesList(x, y, z), f);
    assert AxisList('F', Some(feed)) == ["F" + f];
  }

  /** A jog in words-and-spaces form. */
  lemma JogWords(axis: char, distance: real, feed: real)
    ensures JogCommand(axis, distance, feed) == "$J=G91" + Prefixed(AxisList(axis, Some(distance)) + AxisList('F', Some(feed)))
  {
    var d := Fixed(distance, Decimals);
    var f := Fixed(feed, Decimals);
    JogShape(axis, d, f);
    assert AxisList(axis, Some(distance)) + AxisList('F', Some(feed)) == [[axis] + d, "F" + f];
  }

  /** A rapid move reads back as "G0" followed by exactly the supplied axes, in X, Y, Z
      order, each with its value rounded to three decimals. */
  lemma G0CommandRead(x: Option<real>, y: Option<real>, z: Option<real>)
    ensures Parsed(G0Command(x, y, z)) == Some(("G0", AxesRead(x, y, z)))
  {
    var ws := AxesList(x, y, z);
    var vs := AxesRead(x, y, z);
    AxesReads(x, y, z);
    G0Words(x, y, z);
    CommandRead("G0", ws, vs);
  }

  /** A linear move reads back as "G1", the supplied axes in X, Y, Z order, then the feed
      rate, every value rounded to three decimals. */
  lemma G1CommandRead(x: Option<real>, y: Option<real>, z: Option<real>, feed: real)
    ensures Parsed(G1Command(x, y, z, feed)) == Some(("G1", AxesRead(x, y, z) + [('F', Round(feed, Decimals))]))
  {
    var ws := AxesList(x, y, z) + AxisList('F', Some(feed));
    var vs := AxesRead(x, y, z) + AxisRead('F', Some(feed));
    AxesReads(x, y, z);
    AxisReads('F', Some(feed));
    ReadsAsAppend(AxesList(x, y, z), AxesRead(x, y, z), AxisList('F', Some(feed)), AxisRead('F', Some(feed)));
    G1Words(x, y, z, feed);
    CommandRead("G1", ws, vs);
  }

  /** A jog reads back as "$J=G91", the axis with its distance, then the feed rate, both
      values rounded to three decimals. An axis character that is a space would split the
      words differently. */
  lemma JogCommandRead(axis: char, distance: real, feed: real)
    requires axis != ' '
    ensures Parsed(JogCommand(axis, distance, feed))
              == Some(("$J=G91", [(axis, Round(distance, Decimals)), ('F', Round(feed, Decimals))]))
  {
    var ws := AxisList(axis, Some(distance)) + AxisList('F', Some(feed));
    var vs := AxisRead(axis, Some(distance)) + AxisRead('F', Some(feed));
    AxisReads(axis, Some(distance));
    AxisReads('F', Some(feed));
    ReadsAsAppend(AxisList(axis, Some(distance)), AxisRead(axis, Some(distance)), AxisList('F', Some(feed)), AxisRead('F', Some(feed)));
    JogWords(axis, distance, feed);
    CommandRead("$J=G91", ws, vs);
    JogValues(axis, distance, feed);
  }

  /** The words a jog is read back as: the axis, then the feed. */
  lemma JogValues(axis: char, distance: real, feed: real)
    ensures AxisRead(axis, Some(distance)) + AxisRead('F', Some(feed))
         == [(axis, Round(distance, Decimals)), ('F', Round(feed, Decimals))]
  {
  }
}
