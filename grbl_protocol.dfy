/** How the client collects the machine's answers: waitForOk reads lines until one ends the
    answer or the deadline passes, and getSettings reads the `$$` listing until an empty
    read, a line holding "ok", or five seconds. Both read one line at a time, waiting up to
    500 ms for each. */
module Protocol {
  import opened Wrappers
  import opened Text
  import opened Serial
  import opened Commands

  /** A line that ends an answer: one holding "ok", "error" or "ALARM". */
  predicate Terminal(line: string) {
    Contains(line, "ok") || Contains(line, "error") || Contains(line, "ALARM")
  }

  /** What a wait for an answer read: the non-empty lines, in order, whether it gave up at
      the deadline, what is left to read and the clock afterwards. */
  datatype Answer = Answer(lines: seq<string>, timedOut: bool, rest: seq<Arrival>, now: nat)

  /** The text waitForOk returns: each line kept followed by "\n", then "timeout" when the
      wait gave up. */
  function AnswerText(a: Answer): string {
    Joined(a.lines) + (if a.timedOut then "timeout" else "")
  }

  /** The line read, kept only when it is not empty. */
  function Kept(line: string): seq<string> {
    if line == [] then [] else [line]
  }

  /** The time left before `start + timeout`. */
  function Left(now: nat, start: nat, timeout: int): nat {
    if start + timeout > now then start + timeout - now else 0
  }

  /** One line read with the 500 ms a line is given: the clock only moves on, a read that
      gave up reached its deadline, the line holds no '\n', and a read that consumed nothing
      timed out with nothing. */
  function NextLine(rx: seq<Arrival>, now: nat): (r: LineRead)
    ensures now <= r.now && (r.ending == TimedOut ==> r.now >= now + LineTimeout)
    ensures '\n' !in r.line
    ensures Size(r.rest) < Size(rx) || (r.ending == TimedOut && r.line == [] && r.rest == rx)
  {
    ReadLineClock(rx, now, now + LineTimeout, []);
    ReadLineSize(rx, now, now + LineTimeout, []);
    ReadLineNoNewline(rx, now, now + LineTimeout, []);
    ReadLineFrom(rx, now, now + LineTimeout, [])
  }

  /** waitForOk's loop from time `now`, the wait having started at `start`: a line is read;
      a non-empty one is kept, and a terminal one ends the answer; otherwise the wait gives
      up once `timeout` ms have passed since `start`, and goes on reading if not. */
  function WaitFrom(rx: seq<Arrival>, now: nat, start: nat, timeout: int): Answer
    requires start <= now
    decreases Left(now, start, timeout), Size(rx)
  {
    var r := NextLine(rx, now);
    if r.line != [] && Terminal(r.line) then Answer([r.line], false, r.rest, r.now)
    else if r.now - start >= timeout then Answer(Kept(r.line), true, r.rest, r.now)
    else
      var more := WaitFrom(r.rest, r.now, start, timeout);
      Answer(Kept(r.line) + more.lines, more.timedOut, more.rest, more.now)
  }

  /** The answer `a` after the lines `done` kept before it. */
  function After(done: seq<string>, a: Answer): Answer {
    a.(lines := done + a.lines)
  }

  /** One round of waitForOk's loop: the line read either ends the answer, or is kept
      before the answer the loop goes on to collect. */
  lemma WaitStep(rx: seq<Arrival>, now: nat, start: nat, timeout: int, done: seq<string>)
    requires start <= now
    ensures var r := NextLine(rx, now);
            var a := After(done, WaitFrom(rx, now, start, timeout));
            && (r.line != [] && Terminal(r.line) ==> a == Answer(done + [r.line], false, r.rest, r.now))
            && (!(r.line != [] && Terminal(r.line)) && r.now - start >= timeout ==>
                  a == Answer(done + Kept(r.line), true, r.rest, r.now))
            && (!(r.line != [] && Terminal(r.line)) && r.now - start < timeout ==>
                  a == After(done + Kept(r.line), WaitFrom(r.rest, r.now, start, timeout)))
  {
    var r := NextLine(rx, now);
    if !(r.line != [] && Terminal(r.line)) && r.now - start < timeout {
      var more := WaitFrom(r.rest, r.now, start, timeout);
      assert done + (Kept(r.line) + more.lines) == done + Kept(r.line) + more.lines;
    }
  }

  /** The shape of every answer: non-empty lines without '\n'; no terminal line before the
      last; the last terminal unless the wait gave up, and then none is. */
  predicate Settled(a: Answer) {
    && (forall k :: 0 <= k < |a.lines| ==> a.lines[k] != [] && '\n' !in a.lines[k])
    && (forall k :: 0 <= k < |a.lines| - 1 ==> !Terminal(a.lines[k]))
    && (a.timedOut ==> forall k :: 0 <= k < |a.lines| ==> !Terminal(a.lines[k]))
    && (!a.timedOut ==> a.lines != [] && Terminal(a.lines[|a.lines| - 1]))
  }

  /** A line kept before more lines of a settled answer that did not end it. */
  lemma SettledPrefix(line: string, more: Answer)
    requires Settled(more) && '\n' !in line && (line != [] ==> !Terminal(line))
    ensures Settled(Answer(Kept(line) + more.lines, more.timedOut, more.rest, more.now))
  {
    var ls := Kept(line) + more.lines;
    if line != [] {
      forall k | 1 <= k < |ls| ensures ls[k] == more.lines[k - 1] {
      }
    } else {
      assert ls == more.lines;
    }
  }

  /** Every answer waitForOk collects is settled; the clock only moves on, and an answer
      that gave up did so at or after its deadline. */
  lemma {:induction false} WaitShape(rx: seq<Arrival>, now: nat, start: nat, timeout: int)
    requires start <= now
    ensures Settled(WaitFrom(rx, now, start, timeout))
    ensures now <= WaitFrom(rx, now, start, timeout).now
    ensures WaitFrom(rx, now, start, timeout).timedOut ==> WaitFrom(rx, now, start, timeout).now >= start + timeout
    decreases Left(now, start, timeout), Size(rx)
  {
    var r := NextLine(rx, now);
    if r.line != [] && Terminal(r.line) {
    } else if r.now - start >= timeout {
    } else {
      WaitShape(r.rest, r.now, start, timeout);
      SettledPrefix(r.line, WaitFrom(r.rest, r.now, start, timeout));
    }
  }

  /** "ok" is not in "timeout", which has no 'k'. */
  lemma NoOkInTimeout()
    ensures !Contains("timeout", "ok") && !Contains("", "ok")
  {
    MissingChar("timeout", "ok", 1);
    MissingChar("", "ok", 1);
  }

  /** The answer text holds "ok" exactly when the wait did not give up and the line that
      ended it holds "ok". After a timeout it never does, so the commands that look for
      "ok" in it report failure. */
  lemma AnswerOk(a: Answer)
    requires Settled(a)
    ensures Contains(AnswerText(a), "ok") <==> !a.timedOut && Contains(a.lines[|a.lines| - 1], "ok")
  {
    var tail := if a.timedOut then "timeout" else "";
    assert AnswerText(a) == Joined(a.lines) + tail;
    JoinedContains(a.lines, tail, "ok");
    NoOkInTimeout();
    forall k | 0 <= k < |a.lines| && Contains(a.lines[k], "ok")
      ensures k == |a.lines| - 1 && !a.timedOut
    {
      assert Terminal(a.lines[k]);
    }
  }

  /** An answer acknowledged by the machine: the wait did not give up, and the line that
      ended it holds "ok". */
  predicate Acknowledged(a: Answer) {
    !a.timedOut && a.lines != [] && Contains(a.lines[|a.lines| - 1], "ok")
  }

  /** The answer waitForOk returns holds "ok" exactly when it did not time out and its last
      line holds "ok"; after a timeout it holds none. */
  lemma WaitOk(rx: seq<Arrival>, now: nat, timeout: int)
    ensures var a := WaitFrom(rx, now, now, timeout);
            Contains(AnswerText(a), "ok") <==> Acknowledged(a)
  {
    WaitShape(rx, now, now, timeout);
    AnswerOk(WaitFrom(rx, now, now, timeout));
  }

  // ---------------------------------------------------------------------------------------
  // Reading the settings listing

  /** What getSettings read: the lines, in order, what is left to read and the clock. */
  datatype Dump = Dump(lines: seq<string>, rest: seq<Arrival>, now: nat)

  /** getSettings' loop from time `now`, started at `start`: a line is read; an empty one
      ends the listing and is dropped; otherwise it is kept, and the listing ends with a line
      holding "ok" or once more than 5000 ms have passed since `start`. */
  function DumpFrom(rx: seq<Arrival>, now: nat, start: nat): Dump
    requires start <= now
    decreases Size(rx)
  {
    var r := NextLine(rx, now);
    if r.line == [] then Dump([], r.rest, r.now)
    else if Contains(r.line, "ok") || r.now - start > SettingsReadLimit then Dump([r.line], r.rest, r.now)
    else
      var more := DumpFrom(r.rest, r.now, start);
      Dump([r.line] + more.lines, more.rest, more.now)
  }

  /** The listing `d` after the lines `done` read before it. */
  function Preceded(done: seq<string>, d: Dump): Dump {
    d.(lines := done + d.lines)
  }

  /** One round of getSettings' loop: an empty line ends the listing; a line holding "ok",
      or read once the 5 s are over, is its last; any other is kept before the rest. */
  lemma DumpStep(rx: seq<Arrival>, now: nat, start: nat, done: seq<string>)
    requires start <= now
    ensures var r := NextLine(rx, now);
            var d := Preceded(done, DumpFrom(rx, now, start));
            && (r.line == [] ==> d == Dump(done, r.rest, r.now))
            && (r.line != [] && (Contains(r.line, "ok") || r.now - start > SettingsReadLimit) ==>
                  d == Dump(done + [r.line], r.rest, r.now))
            && (r.line != [] && !(Contains(r.line, "ok") || r.now - start > SettingsReadLimit) ==>
                  d == Preceded(done + [r.line], DumpFrom(r.rest, r.now, start)))
  {
    var r := NextLine(rx, now);
    if r.line == [] {
      assert done + [] == done;
    } else if !(Contains(r.line, "ok") || r.now - start > SettingsReadLimit) {
      var more := DumpFrom(r.rest, r.now, start);
      assert done + ([r.line] + more.lines) == done + [r.line] + more.lines;
    }
  }

  /** The lines of a listing are non-empty, hold no '\n', and only the last can hold "ok". */
  predicate DumpShape(lines: seq<string>) {
    && (forall k :: 0 <= k < |lines| ==> lines[k] != [] && '\n' !in lines[k])
    && (forall k :: 0 <= k < |lines| - 1 ==> !Contains(lines[k], "ok"))
  }

  /** A line without "ok" before the lines of a listing. */
  lemma DumpPrefix(line: string, more: seq<string>)
    requires DumpShape(more) && line != [] && '\n' !in line && !Contains(line, "ok")
    ensures DumpShape([line] + more)
  {
    var ls := [line] + more;
    forall k | 1 <= k < |ls| ensures ls[k] == more[k - 1] {
    }
  }

  /** Every listing getSettings collects has that shape. */
  lemma {:induction false} DumpLines(rx: seq<Arrival>, now: nat, start: nat)
    requires start <= now
    ensures DumpShape(DumpFrom(rx, now, start).lines)
    decreases Size(rx)
  {
    var r := NextLine(rx, now);
    if r.line != [] && !(Contains(r.line, "ok") || r.now - start > SettingsReadLimit) {
      DumpLines(r.rest, r.now, start);
      DumpPrefix(r.line, DumpFrom(r.rest, r.now, start).lines);
    }
  }

  /** Splitting the text getSettings collects gives back the lines it read. */
  lemma DumpText(rx: seq<Arrival>, now: nat)
    ensures Lines(Joined(DumpFrom(rx, now, now).lines)) == DumpFrom(rx, now, now).lines
  {
    DumpLines(rx, now, now);
    LinesOfJoined(DumpFrom(rx, now, now).lines);
  }
}
