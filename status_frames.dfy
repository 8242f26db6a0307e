/** Status reports as the controller prints them, and the proof that parsing one gives back
    the values it was printed from. */
module StatusFrames {
  import opened Wrappers
  import opened Text
  import opened Numerals
  import opened GrblTypes
  import opened StatusReport

  // ---------------------------------------------------------------------------------------
  // Printed numbers read back

  /** The pieces joined by commas. */
  function Commas(fs: seq<string>): string
    requires |fs| >= 1
    decreases |fs|
  {
    if |fs| == 1 then fs[0] else fs[0] + "," + Commas(fs[1..])
  }

  /** Where the first piece and the comma after it fall. */
  lemma CommasHead(fs: seq<string>, tail: string, t: string)
    requires |fs| >= 2 && t == Commas(fs) + tail
    ensures |fs[0]| < |t| && t[..|fs[0]|] == fs[0] && t[|fs[0]|] == ','
    ensures t[|fs[0]| + 1..] == Commas(fs[1..]) + tail
    ensures t == fs[0] + ("," + (Commas(fs[1..]) + tail))
  {
    assert t == fs[0] + ("," + (Commas(fs[1..]) + tail));
  }

  /** One step of ScanInts: an integer, a comma, and the rest. */
  lemma IntsStep(t: string, a: int, n: nat, k: nat, t': string, k': nat, r: Option<seq<int>>)
    requires k >= 2 && ScanInt(t) == Some((a, n)) && n < |t| && t[n] == ','
    requires t' == t[n + 1..] && k' == k - 1 && ScanInts(t', k') == r
    ensures ScanInts(t, k) == if r.Some? then Some([a] + r.value) else None
  {
    assert ScanInts(t[n + 1..], k - 1) == r;
  }

  /** One step of ScanReals. */
  lemma RealsStep(t: string, a: real, n: nat, k: nat, t': string, k': nat, r: Option<seq<real>>)
    requires k >= 2 && ScanReal(t) == Some((a, n)) && n < |t| && t[n] == ','
    requires t' == t[n + 1..] && k' == k - 1 && ScanReals(t', k') == r
    ensures ScanReals(t, k) == if r.Some? then Some([a] + r.value) else None
  {
    assert ScanReals(t[n + 1..], k - 1) == r;
  }

  /** The head integer of a list and the comma after it. */
  lemma IntsHead(fs: seq<string>, a: int, tail: string, t: string)
    requires |fs| >= 2 && ReadsInt(fs[0], a) && t == Commas(fs) + tail
    ensures var n := |fs[0]|;
      ScanInt(t) == Some((a, n)) && n < |t| && t[n] == ',' && t[n + 1..] == Commas(fs[1..]) + tail
  {
    var rest := Commas(fs[1..]) + tail;
    CommasHead(fs, tail, t);
    assert Ends("," + rest);
    assert ScanInt(fs[0] + ("," + rest)) == Some((a, |fs[0]|));
  }

  /** The head number of a list and the comma after it. */
  lemma RealsHead(fs: seq<string>, v: real, tail: string, t: string)
    requires |fs| >= 2 && ReadsReal(fs[0], v) && t == Commas(fs) + tail
    ensures var n := |fs[0]|;
      ScanReal(t) == Some((v, n)) && n < |t| && t[n] == ',' && t[n + 1..] == Commas(fs[1..]) + tail
  {
    var rest := Commas(fs[1..]) + tail;
    CommasHead(fs, tail, t);
    assert Ends("," + rest);
    assert ScanReal(fs[0] + ("," + rest)) == Some((v, |fs[0]|));
  }

  /** The texts of a list's first integer and of the rest of its integers. */
  lemma IntsTail(fs: seq<string>, xs: seq<int>)
    requires |fs| == |xs| >= 1 && forall j :: 0 <= j < |fs| ==> ReadsInt(fs[j], xs[j])
    ensures ReadsInt(fs[0], xs[0])
    ensures forall j :: 0 <= j < |fs| - 1 ==> ReadsInt(fs[1..][j], xs[1..][j])
  {
    forall j | 0 <= j < |fs| - 1 ensures ReadsInt(fs[1..][j], xs[1..][j]) {
      assert fs[1..][j] == fs[j + 1] && xs[1..][j] == xs[j + 1];
    }
  }

  /** The same for numbers. */
  lemma RealsTail(fs: seq<string>, xs: seq<real>)
    requires |fs| == |xs| >= 1 && forall j :: 0 <= j < |fs| ==> ReadsReal(fs[j], xs[j])
    ensures ReadsReal(fs[0], xs[0])
    ensures forall j :: 0 <= j < |fs| - 1 ==> ReadsReal(fs[1..][j], xs[1..][j])
  {
    forall j | 0 <= j < |fs| - 1 ensures ReadsReal(fs[1..][j], xs[1..][j]) {
      assert fs[1..][j] == fs[j + 1] && xs[1..][j] == xs[j + 1];
    }
  }

  /** The step of ScanIntsOf. */
  lemma IntsJoin(fs: seq<string>, xs: seq<int>, k: nat, n: nat, tail: string, t: string,
                 t': string, xs': seq<int>, k': nat)
    requires |fs| == |xs| == k >= 2 && n == |fs[0]| && ReadsInt(fs[0], xs[0]) && t == Commas(fs) + tail
    requires t' == t[n + 1..] && xs' == xs[1..] && k' == k - 1
    requires ScanInts(t', k') == Some(xs')
    ensures ScanInts(t, k) == Some(xs)
  {
    IntsHead(fs, xs[0], tail, t);
    IntsStep(t, xs[0], n, k, t', k', Some(xs'));
    assert [xs[0]] + xs[1..] == xs;
  }

  /** sscanf reads back every integer of a comma-separated list. */
  lemma {:induction false} ScanIntsOf(fs: seq<string>, xs: seq<int>, k: nat, tail: string, t: string)
    requires |fs| == |xs| == k >= 1 && Ends(tail) && t == Commas(fs) + tail
    requires forall j :: 0 <= j < k ==> ReadsInt(fs[j], xs[j])
    ensures ScanInts(t, k) == Some(xs)
    decreases k
  {
    if k == 1 {
      assert ScanInt(fs[0] + tail) == Some((xs[0], |fs[0]|));
      assert [xs[0]] == xs;
    } else {
      var n := |fs[0]|;
      IntsTail(fs, xs);
      IntsHead(fs, xs[0], tail, t);
      var t' := t[n + 1..];
      var xs' := xs[1..];
      var k' := k - 1;
      ScanIntsOf(fs[1..], xs', k', tail, t');
      IntsJoin(fs, xs, k, n, tail, t, t', xs', k');
    }
  }

  /** A list with fewer integers than sscanf asks for, not followed by a comma, reads as
      nothing at all. */
  lemma {:induction false} ScanIntsShort(fs: seq<string>, xs: seq<int>, k: nat, tail: string, t: string)
    requires |fs| == |xs| && 1 <= |xs| < k && t == Commas(fs) + tail
    requires Ends(tail) && (tail == [] || tail[0] != ',')
    requires forall j :: 0 <= j < |fs| ==> ReadsInt(fs[j], xs[j])
    ensures ScanInts(t, k) == None
    decreases |xs|
  {
    var n := |fs[0]|;
    if |xs| == 1 {
      assert ScanInt(fs[0] + tail) == Some((xs[0], n));
      assert n < |t| ==> t[n] == tail[0];
    } else {
      IntsTail(fs, xs);
      IntsHead(fs, xs[0], tail, t);
      var t' := t[n + 1..];
      var k' := k - 1;
      ScanIntsShort(fs[1..], xs[1..], k', tail, t');
      IntsStep(t, xs[0], n, k, t', k', None);
    }
  }

  /** The step of ScanRealsOf. */
  lemma RealsJoin(fs: seq<string>, xs: seq<real>, k: nat, n: nat, tail: string, t: string,
                  t': string, xs': seq<real>, k': nat)
    requires |fs| == |xs| == k >= 2 && n == |fs[0]| && ReadsReal(fs[0], xs[0]) && t == Commas(fs) + tail
    requires t' == t[n + 1..] && xs' == xs[1..] && k' == k - 1
    requires ScanReals(t', k') == Some(xs')
    ensures ScanReals(t, k) == Some(xs)
  {
    RealsHead(fs, xs[0], tail, t);
    RealsStep(t, xs[0], n, k, t', k', Some(xs'));
    assert [xs[0]] + xs[1..] == xs;
  }

  /** A list of one number. */
  lemma RealsOne(fs: seq<string>, xs: seq<real>, tail: string, t: string)
    requires |fs| == |xs| == 1 && Ends(tail) && t == Commas(fs) + tail && ReadsReal(fs[0], xs[0])
    ensures ScanReals(t, 1) == Some(xs)
  {
    assert ScanReal(fs[0] + tail) == Some((xs[0], |fs[0]|));
    assert [xs[0]] == xs;
  }

  /** sscanf reads back every number of a comma-separated list. */
  lemma {:induction false} ScanRealsOf(fs: seq<string>, xs: seq<real>, k: nat, tail: string, t: string)
    requires |fs| == |xs| == k >= 1 && Ends(tail) && t == Commas(fs) + tail
    requires forall j :: 0 <= j < k ==> ReadsReal(fs[j], xs[j])
    ensures ScanReals(t, k) == Some(xs)
    decreases k
  {
    if k == 1 {
      RealsOne(fs, xs, tail, t);
    } else {
      var n := |fs[0]|;
      RealsTail(fs, xs);
      CommasHead(fs, tail, t);
      var t' := t[n + 1..];
      var xs' := xs[1..];
      var k' := k - 1;
      ScanRealsOf(fs[1..], xs', k', tail, t');
      RealsJoin(fs, xs, k, n, tail, t, t', xs', k');
    }
  }

  /** A comma is the separator the extraction into a char takes. */
  lemma CommaChar(u: string)
    requires u != [] && u[0] == ','
    ensures ExtractChar(u) == Some(u[1..])
  {
    assert SkipSpaces(u, 0) == 0;
  }

  /** One step of ReadReals: a number that reads `n` characters, the comma after them, and
      the rest of the text. */
  lemma ReadStep(t: string, v: real, n: nat, rest: string, k: nat, r: seq<real>)
    requires k >= 2 && ScanReal(t) == Some((v, n)) && n < |t| && t[n] == ',' && t[n + 1..] == rest
    requires ReadReals(Some(rest), k - 1) == r
    ensures ReadReals(Some(t), k) == [v] + r
  {
    var u := t[n..];
    assert u[1..] == rest;
    CommaChar(u);
    assert NextAt(Some(t)) == Some(rest);
  }

  /** The first of `k` >= 2 numbers sscanf reads, the comma after it, and the rest. */
  lemma ScansFirst(t: string, k: nat, xs: seq<real>) returns (n: nat)
    requires k >= 2 && ScanReals(t, k) == Some(xs)
    ensures ScanReal(t) == Some((xs[0], n)) && n < |t| && t[n] == ','
    ensures ScanReals(t[n + 1..], k - 1) == Some(xs[1..])
  {
    n := ScanReal(t).value.1;
    var r := ScanReals(t[n + 1..], k - 1).value;
    assert RealsAfter(xs[0], t[n + 1..], k) == Some(xs);
    assert xs == [xs[0]] + r;
    assert xs[1..] == r;
  }

  /** A single number sscanf reads is the one extracted. */
  lemma ScansOne(t: string, xs: seq<real>)
    requires ScanReals(t, 1) == Some(xs)
    ensures ReadReals(Some(t), 1) == xs
  {
    assert ValueAt(Some(t)) == xs[0];
  }

  /** Where sscanf reads `k` comma-separated numbers, the stream extractions read the same
      numbers: each value, then the comma as the separator character. */
  lemma {:induction false} ReadsLikeScans(t: string, k: nat, xs: seq<real>)
    requires k >= 1 && ScanReals(t, k) == Some(xs)
    ensures ReadReals(Some(t), k) == xs
    decreases k
  {
    if k == 1 {
      ScansOne(t, xs);
    } else {
      var n := ScansFirst(t, k, xs);
      ReadsLikeScans(t[n + 1..], k - 1, xs[1..]);
      ReadStep(t, xs[0], n, t[n + 1..], k, xs[1..]);
      assert [xs[0]] + xs[1..] == xs;
    }
  }

  // ---------------------------------------------------------------------------------------
  // Piped segments

  /** The segments, each led by a '|'. */
  function Piped(segs: seq<string>): string
    decreases |segs|
  {
    if segs == [] then "" else "|" + segs[0] + Piped(segs[1..])
  }

  /** Segment `k` opens with `key`, followed by `body`, and neither the head nor an earlier
      segment holds `key`, which has no '|'. */
  predicate KeyOpens(head: string, segs: seq<string>, k: nat, key: string, body: string) {
    && k < |segs| && '|' !in key && key != []
    && !Contains(head, key) && (forall j :: 0 <= j < k ==> !Contains(segs[j], key))
    && segs[k] == key + body
  }

  /** The first occurrence of `key` in a head followed by piped segments is at the start of
      segment `k` when neither the head nor an earlier segment holds it; what follows the
      key there is the rest of that segment and the later segments. */
  lemma {:induction false} SegmentAt(head: string, segs: seq<string>, k: nat, key: string, body: string)
    returns (p: nat)
    requires KeyOpens(head, segs, k, key, body)
    ensures var s := head + Piped(segs);
      FindFrom(s, key, 0) == Some(p) && p + |key| <= |s| && s[p + |key|..] == body + Piped(segs[k + 1..])
    decreases k
  {
    var rest := segs[1..];
    var s := head + Piped(segs);
    if k == 0 {
      var b := key + (body + Piped(rest));
      assert s == head + ['|'] + b;
      FindAfter(head, '|', b, key);
      p := |head| + 1;
      assert s[p + |key|..] == body + Piped(rest);
    } else {
      var head' := head + ['|'] + segs[0];
      assert s == head' + Piped(rest);
      ContainsAcross(head, '|', segs[0], key);
      var k' := k - 1;
      forall j | 0 <= j < k' ensures !Contains(rest[j], key) {
        assert rest[j] == segs[j + 1];
      }
      p := SegmentAt(head', rest, k', key, body);
      assert rest[k' + 1..] == segs[k + 1..];
    }
  }

  /** find_first_of from `start` stops right after `body` when `body` holds none of `cs` and
      one of them follows it. */
  lemma UpTo(s: string, start: nat, body: string, rest: string, cs: string)
    requires start <= |s| && s[start..] == body + rest
    requires (forall k :: 0 <= k < |body| ==> body[k] !in cs) && rest != [] && rest[0] in cs
    ensures FindFirstOf(s, cs, start) == Some(start + |body|)
    ensures Until(s, start, Some(start + |body|)) == body
  {
    forall j | start <= j < start + |body| ensures s[j] !in cs {
      assert s[j] == s[start..][j - start] == body[j - start];
    }
    assert s[start + |body|] == s[start..][|body|] == rest[0];
    FirstOfAt(s, cs, start, start + |body|);
    assert s[start..start + |body|] == s[start..][..|body|];
  }

  /** No segment starts with `u`, and none holds a '|', so no "|" + u occurs. */
  lemma {:induction false} PipedLacks(segs: seq<string>, u: string)
    requires '|' !in u
    requires forall j :: 0 <= j < |segs| ==> '|' !in segs[j] && |u| <= |segs[j]| && segs[j][..|u|] != u
    ensures !Contains(Piped(segs), "|" + u)
    decreases |segs|
  {
    if segs != [] {
      var t := "|" + u;
      var seg := segs[0];
      var rest := segs[1..];
      var p := Piped(segs);
      var q := Piped(rest);
      var a := ['|'] + seg;
      assert p == a + q;
      forall j | 0 <= j < |rest| ensures '|' !in rest[j] && |u| <= |rest[j]| && rest[j][..|u|] != u {
        assert rest[j] == segs[j + 1];
      }
      PipedLacks(rest, u);
      assert p[1..1 + |u|] == seg[..|u|];
      assert t[1..] == u;
      assert p[..|t|][1..] == p[1..1 + |u|];
      forall j | 1 <= j <= |seg| ensures p[j] != '|' {
        assert p[j] == seg[j - 1];
      }
      forall i: nat ensures !OccursAt(p, t, i) {
        if i >= |a| {
          OccursInRight(a, q, t, i - |a|);
        } else if OccursAt(p, t, i) {
          OccursCovers(p, t, i, i);
        }
      }
    }
  }

  /** A head without '|' adds no occurrence of a token starting with '|'. */
  lemma HeadLacks(head: string, segs: seq<string>, t: string)
    requires '|' !in head && t != [] && t[0] == '|' && !Contains(Piped(segs), t)
    ensures !Contains(head + Piped(segs), t)
  {
    var s := head + Piped(segs);
    forall i: nat ensures !OccursAt(s, t, i) {
      if OccursAt(s, t, i) {
        OccursCovers(s, t, i, i);
        if i >= |head| {
          OccursInRight(head, Piped(segs), t, i - |head|);
        }
      }
    }
  }

  // ---------------------------------------------------------------------------------------
  // Number texts

  /** Text made of numeral characters and commas. */
  predicate NumberText(t: string) {
    forall k :: 0 <= k < |t| ==> IsNumeralChar(t[k]) || t[k] == ','
  }

  lemma {:induction false} CommasNumber(fs: seq<string>)
    requires |fs| >= 1 && forall j :: 0 <= j < |fs| ==> NumberText(fs[j])
    ensures NumberText(Commas(fs))
    decreases |fs|
  {
    if |fs| > 1 {
      var rest := fs[1..];
      forall j | 0 <= j < |rest| ensures NumberText(rest[j]) {
        assert rest[j] == fs[j + 1];
      }
      CommasNumber(rest);
      var r := Commas(rest);
      var t := Commas(fs);
      assert t == fs[0] + "," + r;
      forall k | 0 <= k < |t| ensures IsNumeralChar(t[k]) || t[k] == ',' {
        if k < |fs[0]| {
          assert t[k] == fs[0][k];
        } else if k > |fs[0]| {
          assert t[k] == r[k - |fs[0]| - 1];
        }
      }
    }
  }

  /** A character that is neither a numeral character nor a comma is missing from a key
      followed by number text. */
  lemma KeyedLacks(key: string, t: string, c: char)
    requires NumberText(t) && c !in key && !IsNumeralChar(c) && c != ','
    ensures c !in key + t
  {
  }

  /** The decimal texts of integers, as `std::to_string` and `<<` print them. */
  function IntTexts(xs: seq<int>): (fs: seq<string>)
    ensures |fs| == |xs| && forall j :: 0 <= j < |xs| ==> fs[j] == IntToString(xs[j])
  {
    seq(|xs|, j requires 0 <= j < |xs| => IntToString(xs[j]))
  }

  /** The fixed-point texts of numbers with `p` decimals. */
  function RealTexts(xs: seq<real>, p: nat): (fs: seq<string>)
    ensures |fs| == |xs| && forall j :: 0 <= j < |xs| ==> fs[j] == Fixed(xs[j], p)
  {
    seq(|xs|, j requires 0 <= j < |xs| => Fixed(xs[j], p))
  }

  /** The numbers rounded to `p` decimals. */
  function RoundAll(xs: seq<real>, p: nat): (r: seq<real>)
    ensures |r| == |xs| && forall j :: 0 <= j < |xs| ==> r[j] == Round(xs[j], p)
  {
    seq(|xs|, j requires 0 <= j < |xs| => Round(xs[j], p))
  }

  lemma IntTextsRead(xs: seq<int>)
    ensures forall j :: 0 <= j < |xs| ==> ReadsInt(IntTexts(xs)[j], xs[j])
  {
    forall j | 0 <= j < |xs| ensures ReadsInt(IntTexts(xs)[j], xs[j]) {
      var f := IntToString(xs[j]);
      forall tail | Ends(tail) ensures ScanInt(f + tail) == Some((xs[j], |f|)) {
        ScanIntToString(xs[j], tail);
      }
    }
  }

  lemma RealTextsRead(xs: seq<real>, p: nat)
    requires p > 0
    ensures forall j :: 0 <= j < |xs| ==> ReadsReal(RealTexts(xs, p)[j], RoundAll(xs, p)[j])
  {
    forall j | 0 <= j < |xs| ensures ReadsReal(RealTexts(xs, p)[j], RoundAll(xs, p)[j]) {
      var f := Fixed(xs[j], p);
      forall tail | Ends(tail) ensures ScanReal(f + tail) == Some((Round(xs[j], p), |f|)) {
        ScanFixed(xs[j], p, tail);
      }
    }
  }

  lemma IntTextsNumber(xs: seq<int>)
    requires |xs| >= 1
    ensures NumberText(Commas(IntTexts(xs)))
  {
    var fs := IntTexts(xs);
    forall j | 0 <= j < |fs| ensures NumberText(fs[j]) {
      IntToStringChars(xs[j]);
    }
    CommasNumber(fs);
  }

  lemma RealTextsNumber(xs: seq<real>, p: nat)
    requires |xs| >= 1
    ensures NumberText(Commas(RealTexts(xs, p)))
  {
    var fs := RealTexts(xs, p);
    forall j | 0 <= j < |fs| ensures NumberText(fs[j]) {
      FixedChars(xs[j], p);
    }
    CommasNumber(fs);
  }

  // ---------------------------------------------------------------------------------------
  // Locating the fields of a report

  /** The texts a report carries after its keys: number texts for the two positions, the
      buffer counters, feed and spindle speed and the overrides, and the pins. */
  datatype Texts = Texts(m: string, w: string, bf: string, fs: string, ov: string, pins: string)

  /** The segments of a report carrying every field. */
  function Parts(x: Texts): (segs: seq<string>)
    ensures |segs| == 6
  {
    ["MPos:" + x.m, "WPos:" + x.w, "Bf:" + x.bf, "FS:" + x.fs, "Ov:" + x.ov, "Pn:" + (x.pins + ">")]
  }

  /** The keys the parser looks for, in the order a report carries them. */
  const Keys: seq<string> := ["MPos:", "WPos:", "Bf:", "FS:", "Ov:", "Pn:"]

  /** A state name that neither ends the state early nor holds a key. */
  predicate PlainState(state: string) {
    '|' !in state && forall k :: 0 <= k < |Keys| ==> !Contains(state, Keys[k])
  }

  /** Number texts, and pins that hold neither '|' nor '>'. */
  predicate WellFormed(x: Texts) {
    && NumberText(x.m) && NumberText(x.w) && NumberText(x.bf) && NumberText(x.fs) && NumberText(x.ov)
    && '|' !in x.pins && '>' !in x.pins
  }

  /** The opening '<' adds no occurrence of a key. */
  lemma HeadLacksKey(state: string, key: string)
    requires !Contains(state, key) && '<' !in key && key != []
    ensures !Contains("<" + state, key)
  {
    assert "<" + state == [] + ['<'] + state;
    ContainsAcross([], '<', state, key);
  }
  /** A segment of a key and number text lacks a later key having a letter it does not. */
  lemma SegmentLacks(key: string, body: string, later: string, i: nat)
    requires NumberText(body) && i < |later| && later[i] !in key
    requires !IsNumeralChar(later[i]) && later[i] != ','
    ensures !Contains(key + body, later)
  {
    KeyedLacks(key, body, later[i]);
    MissingChar(key + body, later, i);
  }
  /** A segment of a key and number text holds no '|'. */
  lemma SegmentBarFree(key: string, body: string)
    requires NumberText(body) && '|' !in key
    ensures '|' !in key + body
  {
    KeyedLacks(key, body, '|');
  }
  /** The text after `key` up to the next '|', when `key` opens a segment followed by
      another. */
  lemma BarredAt(s: string, head: string, segs: seq<string>, k: nat, key: string, body: string)
    returns (start: nat)
    requires s == head + Piped(segs) && k + 1 < |segs| && KeyOpens(head, segs, k, key, body)
    requires NumberText(body)
    ensures FindFrom(s, key, 0) == Some(start - |key|) && |key| <= start <= |s|
    ensures FindFirstOf(s, "|", start) == Some(start + |body|)
    ensures Until(s, start, Some(start + |body|)) == body
  {
    var p := SegmentAt(head, segs, k, key, body);
    start := p + |key|;
    var rest := Piped(segs[k + 1..]);
    assert rest[0] == '|';
    UpTo(s, start, body, rest, "|");
  }
  lemma MachinePosAt(s: string, head: string, segs: seq<string>, k: nat, body: string)
    requires s == head + Piped(segs) && k + 1 < |segs| && KeyOpens(head, segs, k, "MPos:", body)
    requires NumberText(body)
    ensures MachinePosText(s) == Some(body)
  {
    var start := BarredAt(s, head, segs, k, "MPos:", body);
    MachinePosFrom(s, start, body);
  }

  /** The machine position read where the search found it. */
  lemma MachinePosFrom(s: string, start: nat, body: string)
    requires FindFrom(s, "MPos:", 0) == Some(start - 5) && 5 <= start <= |s|
    requires FindFirstOf(s, "|", start) == Some(start + |body|)
    requires Until(s, start, Some(start + |body|)) == body
    ensures MachinePosText(s) == Some(body)
  {
  }

  lemma WorkPosAt(s: string, head: string, segs: seq<string>, k: nat, body: string)
    requires s == head + Piped(segs) && k + 1 < |segs| && KeyOpens(head, segs, k, "WPos:", body)
    requires NumberText(body)
    ensures WorkPosText(s) == Some(body)
  {
    var start := BarredAt(s, head, segs, k, "WPos:", body);
  }

  /** What follows `key` when it opens segment `k`: the rest of that segment, then the later
      segments, which start with '|' if there are any. */
  lemma AfterKeyAt(s: string, head: string, segs: seq<string>, k: nat, key: string, body: string)
    returns (tail: string)
    requires s == head + Piped(segs) && KeyOpens(head, segs, k, key, body)
    ensures AfterKey(s, key) == Some(body + tail) && Ends(tail) && (tail == [] || tail[0] == '|')
  {
    var p := SegmentAt(head, segs, k, key, body);
    var later := segs[k + 1..];
    tail := Piped(later);
    PipedStart(later);
  }
  /** Piped segments start with '|', so they end any number before them. */
  lemma PipedStart(segs: seq<string>)
    ensures Ends(Piped(segs)) && (Piped(segs) == [] || Piped(segs)[0] == '|')
  {
  }
  /** The pins, when "Pn:" opens the last segment and '>' closes it. */
  lemma PinsAt(s: string, head: string, segs: seq<string>, pins: string)
    requires s == head + Piped(segs) && |segs| >= 1 && '|' !in pins && '>' !in pins
    requires KeyOpens(head, segs, |segs| - 1, "Pn:", pins + ">")
    ensures PinsText(s) == Some(pins)
  {
    var p := SegmentAt(head, segs, |segs| - 1, "Pn:", pins + ">");
    assert segs[|segs|..] == [];
    assert s[p + 3..] == pins + ">";
    PinsFrom(s, p, pins);
  }

  /** The pin list read where the search found "Pn:", the frame's closing '>' after it. */
  lemma PinsFrom(s: string, p: nat, pins: string)
    requires FindFrom(s, "Pn:", 0) == Some(p) && p + 3 <= |s| && s[p + 3..] == pins + ">"
    requires '|' !in pins && '>' !in pins
    ensures PinsText(s) == Some(pins)
  {
    PinsEnd(s, p, pins);
    PinsRead(s, p, pins);
  }

  /** The pin list after "Pn:" at `p` runs up to the frame's closing '>'. */
  lemma PinsEnd(s: string, p: nat, pins: string)
    requires p + 3 <= |s| && s[p + 3..] == pins + ">" && '|' !in pins && '>' !in pins
    ensures FindFirstOf(s, "|>", p + 3) == Some(p + 3 + |pins|)
    ensures Until(s, p + 3, Some(p + 3 + |pins|)) == pins
  {
    UpTo(s, p + 3, pins, ">", "|>");
  }

  /** The pin list read where "Pn:" was found and where its end was found. */
  lemma PinsRead(s: string, p: nat, pins: string)
    requires FindFrom(s, "Pn:", 0) == Some(p) && p + 3 <= |s|
    requires FindFirstOf(s, "|>", p + 3) == Some(p + 3 + |pins|)
    ensures PinsText(s) == Some(Until(s, p + 3, Some(p + 3 + |pins|)))
  {
  }
  /** The state name runs up to the first '|'. */
  lemma LayoutState(s: string, state: string, x: Texts)
    requires s == "<" + state + Piped(Parts(x)) && PlainState(state)
    ensures StateOf(s) == state
  {
    var n := |state| + 1;
    assert s[n] == '|';
    forall j | 0 <= j < n ensures s[j] !in "|" {
      if j > 0 { assert s[j] == state[j - 1]; }
    }
    FirstOfAt(s, "|", 0, n);
    assert s[1..n] == state;
  }

  lemma LayoutMachinePos(s: string, state: string, x: Texts)
    requires s == "<" + state + Piped(Parts(x)) && PlainState(state) && WellFormed(x)
    ensures MachinePosText(s) == Some(x.m)
  {
    assert !Contains(state, Keys[0]);
    HeadLacksKey(state, "MPos:");
    MachinePosAt(s, "<" + state, Parts(x), 0, x.m);
  }

  lemma LayoutWorkPos(s: string, state: string, x: Texts)
    requires s == "<" + state + Piped(Parts(x)) && PlainState(state) && WellFormed(x)
    ensures WorkPosText(s) == Some(x.w)
  {
    assert !Contains(state, Keys[1]);
    HeadLacksKey(state, "WPos:");
    SegmentLacks("MPos:", x.m, "WPos:", 0);
    WorkPosAt(s, "<" + state, Parts(x), 1, x.w);
  }

  lemma LayoutBuffers(s: string, state: string, x: Texts) returns (tail: string)
    requires s == "<" + state + Piped(Parts(x)) && PlainState(state) && WellFormed(x)
    ensures AfterKey(s, "Bf:") == Some(x.bf + tail) && Ends(tail)
  {
    assert !Contains(state, Keys[2]);
    HeadLacksKey(state, "Bf:");
    SegmentLacks("MPos:", x.m, "Bf:", 0);
    SegmentLacks("WPos:", x.w, "Bf:", 0);
    tail := AfterKeyAt(s, "<" + state, Parts(x), 2, "Bf:", x.bf);
  }

  lemma LayoutFeedSpindle(s: string, state: string, x: Texts) returns (tail: string)
    requires s == "<" + state + Piped(Parts(x)) && PlainState(state) && WellFormed(x)
    ensures AfterKey(s, "FS:") == Some(x.fs + tail) && Ends(tail)
  {
    assert !Contains(state, Keys[3]);
    HeadLacksKey(state, "FS:");
    SegmentLacks("MPos:", x.m, "FS:", 0);
    SegmentLacks("WPos:", x.w, "FS:", 0);
    SegmentLacks("Bf:", x.bf, "FS:", 0);
    tail := AfterKeyAt(s, "<" + state, Parts(x), 3, "FS:", x.fs);
  }

  lemma LayoutOverrides(s: string, state: string, x: Texts) returns (tail: string)
    requires s == "<" + state + Piped(Parts(x)) && PlainState(state) && WellFormed(x)
    ensures AfterKey(s, "Ov:") == Some(x.ov + tail) && Ends(tail)
  {
    assert !Contains(state, Keys[4]);
    HeadLacksKey(state, "Ov:");
    SegmentLacks("MPos:", x.m, "Ov:", 0);
    SegmentLacks("WPos:", x.w, "Ov:", 0);
    SegmentLacks("Bf:", x.bf, "Ov:", 0);
    SegmentLacks("FS:", x.fs, "Ov:", 0);
    tail := AfterKeyAt(s, "<" + state, Parts(x), 4, "Ov:", x.ov);
  }

  lemma LayoutPins(s: string, state: string, x: Texts)
    requires s == "<" + state + Piped(Parts(x)) && PlainState(state) && WellFormed(x)
    ensures PinsText(s) == Some(x.pins)
  {
    assert !Contains(state, Keys[5]);
    HeadLacksKey(state, "Pn:");
    SegmentLacks("MPos:", x.m, "Pn:", 1);
    SegmentLacks("WPos:", x.w, "Pn:", 1);
    SegmentLacks("Bf:", x.bf, "Pn:", 1);
    SegmentLacks("FS:", x.fs, "Pn:", 1);
    SegmentLacks("Ov:", x.ov, "Pn:", 1);
    PinsAt(s, "<" + state, Parts(x), x.pins);
  }

  /** A report of these segments has no older "|F:" field. */
  lemma LayoutNoLegacyFeed(s: string, state: string, x: Texts)
    requires s == "<" + state + Piped(Parts(x)) && PlainState(state) && WellFormed(x)
    ensures !Contains(s, "|F:")
  {
    var segs := Parts(x);
    SegmentBarFree("MPos:", x.m);
    SegmentBarFree("WPos:", x.w);
    SegmentBarFree("Bf:", x.bf);
    SegmentBarFree("FS:", x.fs);
    SegmentBarFree("Ov:", x.ov);
    forall j | 0 <= j < 6 ensures '|' !in segs[j] && 2 <= |segs[j]| && segs[j][..2] != "F:" {
      assert segs[j][1] == Keys[j][1] && segs[j][..2] == segs[j][0..1] + [segs[j][1]];
      assert Keys[j][1] != ':' by {
        if j == 0 { } else if j == 1 { } else if j == 2 { } else if j == 3 { } else if j == 4 { } else { }
      }
    }
    PipedLacks(segs, "F:");
    assert "|" + "F:" == "|F:";
    HeadLacks("<" + state, segs, "|F:");
  }

  // ---------------------------------------------------------------------------------------
  // Printed reports

  /** A position's coordinates with three decimals, comma separated. */
  function Coords(p: Position): string {
    Commas(RealTexts([p.x, p.y, p.z], Decimals))
  }

  /** A position with each coordinate rounded to three decimals. */
  function RoundPos(p: Position): Position {
    Position(Round(p.x, Decimals), Round(p.y, Decimals), Round(p.z, Decimals))
  }

  function IntList(xs: seq<int>): string
    requires |xs| >= 1
  {
    Commas(IntTexts(xs))
  }

  function RealList(xs: seq<real>): string
    requires |xs| >= 1
  {
    Commas(RealTexts(xs, Decimals))
  }

  /** The texts a status prints after the keys. */
  function TextsOf(st: GrblStatus): Texts {
    Texts(Coords(st.machinePos), Coords(st.workPos),
          IntList([st.bufferPlannerAvail, st.bufferRxAvail]),
          RealList([st.feedRate, st.spindleSpeed]),
          IntList([st.feedOverride, st.rapidOverride, st.spindleOverride]),
          st.inputPins)
  }

  /** The report of a status in GRBL 1.1 form with every field present, positions and speeds
      printed with three decimals. */
  function StatusFrame(st: GrblStatus): string {
    "<" + st.state + Piped(Parts(TextsOf(st)))
  }

  /** A status whose report reads back: its state holds neither '|' nor any key, and its pins
      hold neither '|' nor '>'. */
  predicate Framable(st: GrblStatus) {
    PlainState(st.state) && '|' !in st.inputPins && '>' !in st.inputPins
  }

  /** What a report keeps of a status: positions and speeds rounded to three decimals. */
  function Rounded(st: GrblStatus): GrblStatus {
    st.(machinePos := RoundPos(st.machinePos), workPos := RoundPos(st.workPos),
        feedRate := Round(st.feedRate, Decimals), spindleSpeed := Round(st.spindleSpeed, Decimals))
  }

  lemma TextsWellFormed(st: GrblStatus)
    requires Framable(st)
    ensures WellFormed(TextsOf(st))
  {
    var m := st.machinePos;
    var w := st.workPos;
    RealTextsNumber([m.x, m.y, m.z], Decimals);
    RealTextsNumber([w.x, w.y, w.z], Decimals);
    IntTextsNumber([st.bufferPlannerAvail, st.bufferRxAvail]);
    RealTextsNumber([st.feedRate, st.spindleSpeed], Decimals);
    IntTextsNumber([st.feedOverride, st.rapidOverride, st.spindleOverride]);
  }

  /** The stream extractions read a printed position back, rounded. */
  lemma PositionRead(p: Position)
    ensures ReadPosition(Coords(p)) == RoundPos(p)
  {
    var xs := [p.x, p.y, p.z];
    var fs := RealTexts(xs, Decimals);
    var c := Commas(fs);
    RealTextsRead(xs, Decimals);
    assert c == c + "";
    ScanRealsOf(fs, RoundAll(xs, Decimals), 3, "", c);
    ReadsLikeScans(c, 3, RoundAll(xs, Decimals));
  }
  /** sscanf reads both printed buffer counters back. */
  lemma BuffersFrom(s: string, tail: string, xs: seq<int>)
    requires |xs| == 2 && Ends(tail) && AfterKey(s, "Bf:") == Some(IntList(xs) + tail)
    ensures BuffersOf(s) == (xs[0], xs[1])
  {
    IntTextsRead(xs);
    ScanIntsOf(IntTexts(xs), xs, 2, tail, IntList(xs) + tail);
  }

  /** sscanf reads the printed feed and spindle speed back, rounded. */
  lemma FeedSpindleFrom(s: string, tail: string, xs: seq<real>)
    requires |xs| == 2 && Ends(tail) && AfterKey(s, "FS:") == Some(RealList(xs) + tail)
    ensures FeedSpindleOf(s) == (Round(xs[0], Decimals), Round(xs[1], Decimals))
  {
    RealTextsRead(xs, Decimals);
    ScanRealsOf(RealTexts(xs, Decimals), RoundAll(xs, Decimals), 2, tail, RealList(xs) + tail);
  }

  /** sscanf reads all three printed overrides back. */
  lemma OverridesFrom(s: string, tail: string, xs: seq<int>)
    requires |xs| == 3 && Ends(tail) && AfterKey(s, "Ov:") == Some(IntList(xs) + tail)
    ensures OverridesOf(s) == (xs[0], xs[1], xs[2])
  {
    IntTextsRead(xs);
    ScanIntsOf(IntTexts(xs), xs, 3, tail, IntList(xs) + tail);
  }

  // ---------------------------------------------------------------------------------------
  // Round trip

  lemma FramePositions(st: GrblStatus)
    requires Framable(st)
    ensures MachinePosOf(StatusFrame(st)) == RoundPos(st.machinePos)
    ensures WorkPosOf(StatusFrame(st)) == RoundPos(st.workPos)
  {
    var s := StatusFrame(st);
    var x := TextsOf(st);
    TextsWellFormed(st);
    LayoutMachinePos(s, st.state, x);
    LayoutWorkPos(s, st.state, x);
    PositionRead(st.machinePos);
    PositionRead(st.workPos);
  }

  lemma FrameCounters(st: GrblStatus)
    requires Framable(st)
    ensures BuffersOf(StatusFrame(st)) == (st.bufferPlannerAvail, st.bufferRxAvail)
    ensures OverridesOf(StatusFrame(st)) == (st.feedOverride, st.rapidOverride, st.spindleOverride)
  {
    var s := StatusFrame(st);
    var x := TextsOf(st);
    TextsWellFormed(st);
    var bfTail := LayoutBuffers(s, st.state, x);
    BuffersFrom(s, bfTail, [st.bufferPlannerAvail, st.bufferRxAvail]);
    var ovTail := LayoutOverrides(s, st.state, x);
    OverridesFrom(s, ovTail, [st.feedOverride, st.rapidOverride, st.spindleOverride]);
  }

  lemma FrameSpeeds(st: GrblStatus)
    requires Framable(st)
    ensures FeedSpindleOf(StatusFrame(st)) == (Round(st.feedRate, Decimals), Round(st.spindleSpeed, Decimals))
    ensures LegacyFeedOf(StatusFrame(st)) == 0.0
  {
    var s := StatusFrame(st);
    var x := TextsOf(st);
    TextsWellFormed(st);
    var fsTail := LayoutFeedSpindle(s, st.state, x);
    FeedSpindleFrom(s, fsTail, [st.feedRate, st.spindleSpeed]);
    LayoutNoLegacyFeed(s, st.state, x);
  }

  lemma FrameText(st: GrblStatus)
    requires Framable(st)
    ensures StateOf(StatusFrame(st)) == st.state && PinsText(StatusFrame(st)) == Some(st.inputPins)
  {
    var s := StatusFrame(st);
    var x := TextsOf(st);
    TextsWellFormed(st);
    LayoutState(s, st.state, x);
    LayoutPins(s, st.state, x);
  }

  /** Parsing the report of a status gives the status back, with positions and speeds
      rounded to the three decimals the report carries. */
  lemma ParseStatusFrame(st: GrblStatus)
    requires Framable(st)
    ensures ParseStatus(StatusFrame(st)) == Rounded(st)
  {
    FramePositions(st);
    FrameCounters(st);
    FrameSpeeds(st);
    FrameText(st);
  }

  // ---------------------------------------------------------------------------------------
  // Fields that do not fully read

  /** What may follow the last number of a list sscanf asks more numbers of. */
  predicate Unlisted(tail: string) {
    Ends(tail) && (tail == [] || tail[0] != ',')
  }

  /** A "Bf:" field carrying one counter leaves both counters at 0. */
  lemma BuffersNeedBoth(s: string, a: int, tail: string)
    requires AfterKey(s, "Bf:") == Some(IntToString(a) + tail) && Unlisted(tail)
    ensures BuffersOf(s) == (0, 0)
  {
    IntTextsRead([a]);
    ScanIntsShort(IntTexts([a]), [a], 2, tail, IntToString(a) + tail);
  }

  /** An "Ov:" field carrying fewer than three overrides leaves all three at 100. */
  lemma OverridesNeedAll(s: string, xs: seq<int>, tail: string)
    requires 1 <= |xs| <= 2 && AfterKey(s, "Ov:") == Some(IntList(xs) + tail) && Unlisted(tail)
    ensures OverridesOf(s) == (DefaultOverride, DefaultOverride, DefaultOverride)
  {
    IntTextsRead(xs);
    ScanIntsShort(IntTexts(xs), xs, 3, tail, IntList(xs) + tail);
  }

  /** An "FS:" field carrying only a feed leaves both speeds at 0 as far as "FS:" goes. */
  lemma FeedSpindleNeedBoth(s: string, f: real, tail: string)
    requires AfterKey(s, "FS:") == Some(Fixed(f, Decimals) + tail) && Unlisted(tail)
    ensures FeedSpindleOf(s) == (0.0, 0.0)
  {
    var t := Fixed(f, Decimals) + tail;
    ScanFixed(f, Decimals, tail);
    var n := |Fixed(f, Decimals)|;
    assert n < |t| ==> t[n] == tail[0];
  }

  /** A report whose "FS:" gives no feed takes the feed from an older "|F:" field. */
  lemma LegacyFeedRead(s: string, f: real, tail: string)
    requires FeedSpindleOf(s).0 == 0.0 && AfterKey(s, "|F:") == Some(Fixed(f, Decimals) + tail) && Ends(tail)
    ensures ParseStatus(s).feedRate == Round(f, Decimals)
  {
    ScanFixed(f, Decimals, tail);
  }

  /** A report whose "FS:" gives a nonzero feed ignores any "|F:" field. */
  lemma LegacyFeedIgnored(s: string, xs: seq<real>, tail: string)
    requires |xs| == 2 && Ends(tail) && AfterKey(s, "FS:") == Some(RealList(xs) + tail)
    requires Round(xs[0], Decimals) != 0.0
    ensures ParseStatus(s).feedRate == Round(xs[0], Decimals)
    ensures ParseStatus(s).spindleSpeed == Round(xs[1], Decimals)
  {
    FeedSpindleFrom(s, tail, xs);
  }
}
