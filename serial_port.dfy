/** The serial transport beneath the GRBL client: a POSIX tty opened, configured,
    written to and read from with deadlines, and the listing of candidate devices.

    The operating system is a scripted environment (`Env`): a millisecond steady clock,
    the endpoints successive `open` calls reach, and the entries of `/dev`. What a
    device sends is a sequence of timed bursts of bytes (`Arrival`). */
module Serial {
  import opened Wrappers
  import opened Ordering

  /** Bytes the device makes readable at time `at` (ms). An arrival with no bytes stands
      for a `read` that fails or reports end of file at that time. */
  datatype Arrival = Arrival(at: nat, bytes: string)

  /** What an `open` call reaches: the descriptor it returns (negative when the open
      fails), whether `tcgetattr`/`tcsetattr` succeed on it, what the device will send,
      and the results of successive `write` calls (once these run out, every write is
      accepted in full). */
  datatype Link = Link(fd: int, configures: bool, incoming: seq<Arrival>, writeResults: seq<int>)

  /** The endpoint the next `open` reaches: the next scripted one, or a failing one when
      none is left. */
  function NextLink(links: seq<Link>): Link {
    if links == [] then Link(-1, false, [], []) else links[0]
  }

  /** The endpoints left after one `open`. */
  function LaterLinks(links: seq<Link>): seq<Link> {
    if links == [] then [] else links[1..]
  }

  /** An endpoint that `open` and `configurePort` both succeed on. */
  predicate Opens(link: Link) {
    link.fd >= 0 && link.configures
  }

  /** The scripted operating system shared by every port. */
  class Env {
    /** The steady clock, in milliseconds. */
    var now: nat
    /** The endpoints the next `open` calls reach, in order. */
    var links: seq<Link>
    /** The paths `open` was called on, in order. */
    var openCalls: seq<string>
    /** The names in `/dev`, in directory order; None when `/dev` cannot be opened. */
    const devEntries: Option<seq<string>>

    constructor (links: seq<Link>, devEntries: Option<seq<string>>)
      ensures this.now == 0 && this.links == links && this.openCalls == []
      ensures this.devEntries == devEntries
    {
      this.now := 0;
      this.links := links;
      this.openCalls := [];
      this.devEntries := devEntries;
    }

    /** The endpoint an `open` of `path` reaches: the next scripted one, or a failing
        one when none is left. */
    method Connect(path: string) returns (link: Link)
      modifies this
      ensures link == NextLink(old(links)) && links == LaterLinks(old(links))
      ensures openCalls == old(openCalls) + [path] && now == old(now)
    {
      if links == [] {
        link := Link(-1, false, [], []);
      } else {
        link := links[0];
        links := links[1..];
      }
      openCalls := openCalls + [path];
    }

    /** `std::this_thread::sleep_for`. */
    method Sleep(ms: nat)
      modifies this`now
      ensures now == old(now) + ms
    {
      now := now + ms;
    }
  }

  // ---------------------------------------------------------------- baud rates

  const SupportedBauds: set<int> := {9600, 19200, 38400, 57600, 115200, 230400}

  /** The line speed `configurePort` selects for a requested baud rate. */
  function BaudSpeed(baudRate: int): (speed: int)
    ensures speed in SupportedBauds
    ensures speed == baudRate <==> baudRate in SupportedBauds
    ensures baudRate !in SupportedBauds ==> speed == 115200
  {
    if baudRate in SupportedBauds then baudRate else 115200
  }

  // ---------------------------------------------------------------- framing

  /** What `write` sends: a newline is added to non-empty data not already ending in one. */
  function Framed(data: string): (out: string)
    ensures data == [] ==> out == []
    ensures data != [] ==> |out| > 0 && out[|out| - 1] == '\n'
    ensures |data| <= |out| <= |data| + 1 && out[..|data|] == data
    ensures |out| == |data| + 1 <==> data != [] && data[|data| - 1] != '\n'
  {
    if data != [] && data[|data| - 1] != '\n' then data + "\n" else data
  }

  /** Framing is idempotent: framed data is sent unchanged. */
  lemma FramedIdempotent(data: string)
    ensures Framed(Framed(data)) == Framed(data)
  {
  }

  // ---------------------------------------------------------------- incoming bytes

  /** Every byte still to come, in order. */
  function Bytes(rx: seq<Arrival>): string {
    if rx == [] then [] else rx[0].bytes + Bytes(rx[1..])
  }

  /** A measure that every read makes smaller. */
  function Size(rx: seq<Arrival>): nat {
    if rx == [] then 0 else |rx[0].bytes| + 1 + Size(rx[1..])
  }

  /** Every arrival in `rx` had come by time `now`. */
  predicate ArrivedBy(rx: seq<Arrival>, now: nat) {
    rx == [] || (rx[0].at <= now && ArrivedBy(rx[1..], now))
  }

  /** The arrivals after a flush at time `now`: the leading arrivals that had come by then
      are discarded, and the first one kept comes after it. */
  function Flushed(rx: seq<Arrival>, now: nat): (rest: seq<Arrival>)
    ensures |rest| <= |rx| && rest == rx[|rx| - |rest|..]
    ensures ArrivedBy(rx[..|rx| - |rest|], now)
    ensures rest != [] ==> rest[0].at > now
  {
    if rx == [] || rx[0].at > now then rx
    else
      var rest := Flushed(rx[1..], now);
      assert rx[..|rx| - |rest|][1..] == rx[1..][..|rx| - 1 - |rest|];
      rest
  }

  /** The arrivals after `n` bytes of the head arrival are read. */
  function Consume(rx: seq<Arrival>, n: nat): (rest: seq<Arrival>)
    requires rx != [] && 0 < n <= |rx[0].bytes|
    ensures Bytes(rx) == rx[0].bytes[..n] + Bytes(rest)
    ensures Size(rest) < Size(rx)
  {
    if n == |rx[0].bytes| then
      assert rx[0].bytes[..n] == rx[0].bytes;
      rx[1..]
    else
      var rest := [Arrival(rx[0].at, rx[0].bytes[n..])] + rx[1..];
      assert rest[1..] == rx[1..];
      assert rx[0].bytes == rx[0].bytes[..n] + rx[0].bytes[n..];
      rest
  }

  lemma BytesOfFailure(rx: seq<Arrival>)
    requires rx != [] && rx[0].bytes == []
    ensures Bytes(rx) == Bytes(rx[1..]) && Size(rx[1..]) < Size(rx)
  {
  }

  /** How a `readLine` ended. */
  datatype Ending = TimedOut | ReadFailed | Newline | CrNewline

  /** The outcome of a `readLine`: the line, how it ended, what is left to read and the
      clock afterwards. */
  datatype LineRead = LineRead(line: string, ending: Ending, rest: seq<Arrival>, now: nat)

  /** `readLine`'s loop from time `now` with deadline `deadline` and `acc` read so far:
      one byte at a time until a newline, a failed read, or no byte before the deadline.
      A newline ends the line and is dropped, with one carriage return before it. */
  function ReadLineFrom(rx: seq<Arrival>, now: nat, deadline: int, acc: string): LineRead
    decreases Size(rx)
  {
    if now >= deadline then LineRead(acc, TimedOut, rx, now)
    else if rx == [] || rx[0].at >= deadline then LineRead(acc, TimedOut, rx, deadline)
    else
      var t := if rx[0].at > now then rx[0].at else now;
      if rx[0].bytes == [] then
        BytesOfFailure(rx);
        LineRead(acc, ReadFailed, rx[1..], t)
      else
        var c := rx[0].bytes[0];
        var rest := Consume(rx, 1);
        if c == '\n' then
          if acc != [] && acc[|acc| - 1] == '\r' then LineRead(acc[..|acc| - 1], CrNewline, rest, t)
          else LineRead(acc, Newline, rest, t)
        else ReadLineFrom(rest, t, deadline, acc + [c])
  }

  /** The bytes a `readLine` consumed. */
  function Terminator(e: Ending): string {
    match e
    case TimedOut => ""
    case ReadFailed => ""
    case Newline => "\n"
    case CrNewline => "\r\n"
  }

  /** A line read never holds a newline. */
  lemma {:induction false} ReadLineNoNewline(rx: seq<Arrival>, now: nat, deadline: int, acc: string)
    requires '\n' !in acc
    ensures '\n' !in ReadLineFrom(rx, now, deadline, acc).line
    decreases Size(rx)
  {
    if now >= deadline || rx == [] || rx[0].at >= deadline || rx[0].bytes == [] {
    } else {
      var t := if rx[0].at > now then rx[0].at else now;
      var c := rx[0].bytes[0];
      if c == '\n' {
        if acc != [] && acc[|acc| - 1] == '\r' {
          assert forall k :: 0 <= k < |acc| - 1 ==> acc[..|acc| - 1][k] == acc[k];
        }
      } else {
        ReadLineNoNewline(Consume(rx, 1), t, deadline, acc + [c]);
      }
    }
  }

  /** The bytes consumed are the line followed by its terminator. */
  lemma {:induction false} ReadLineBytes(rx: seq<Arrival>, now: nat, deadline: int, acc: string)
    ensures var r := ReadLineFrom(rx, now, deadline, acc);
            acc + Bytes(rx) == r.line + Terminator(r.ending) + Bytes(r.rest)
    decreases Size(rx)
  {
    if now >= deadline || rx == [] || rx[0].at >= deadline {
    } else if rx[0].bytes == [] {
      BytesOfFailure(rx);
    } else {
      var t := if rx[0].at > now then rx[0].at else now;
      var c := rx[0].bytes[0];
      var rest := Consume(rx, 1);
      assert Bytes(rx) == [c] + Bytes(rest);
      if c == '\n' && acc != [] && acc[|acc| - 1] == '\r' {
        CrJoin(acc, Bytes(rest));
      } else {
        AppendAssoc(acc, [c], Bytes(rest));
        if c != '\n' {
          var acc' := acc + [c];
          assert ReadLineFrom(rx, now, deadline, acc) == ReadLineFrom(rest, t, deadline, acc');
          ReadLineBytes(rest, t, deadline, acc');
        }
      }
    }
  }

  /** A newline after a carriage return: the pair ends the line together. */
  lemma CrJoin(a: string, b: string)
    requires a != [] && a[|a| - 1] == '\r'
    ensures a + (['\n'] + b) == a[..|a| - 1] + "\r\n" + b
  {
    assert a == a[..|a| - 1] + "\r";
  }

  /** A carriage return is removed only together with a newline, exactly one: a line ended
      by a bare newline does not end in a carriage return. */
  lemma {:induction false} ReadLineCr(rx: seq<Arrival>, now: nat, deadline: int, acc: string)
    ensures var r := ReadLineFrom(rx, now, deadline, acc);
            r.ending == Newline ==> r.line == [] || r.line[|r.line| - 1] != '\r'
    decreases Size(rx)
  {
    if now >= deadline || rx == [] || rx[0].at >= deadline || rx[0].bytes == [] {
    } else if rx[0].bytes[0] != '\n' {
      var t := if rx[0].at > now then rx[0].at else now;
      var acc' := acc + [rx[0].bytes[0]];
      var rest := Consume(rx, 1);
      assert ReadLineFrom(rx, now, deadline, acc) == ReadLineFrom(rest, t, deadline, acc');
      ReadLineCr(rest, t, deadline, acc');
    }
  }

  /** A line cut short by the deadline or a failed read keeps everything read before. */
  lemma {:induction false} ReadLinePartial(rx: seq<Arrival>, now: nat, deadline: int, acc: string)
    ensures var r := ReadLineFrom(rx, now, deadline, acc);
            r.ending in {TimedOut, ReadFailed} ==> |acc| <= |r.line| && r.line[..|acc|] == acc
    decreases Size(rx)
  {
    if now >= deadline || rx == [] || rx[0].at >= deadline || rx[0].bytes == [] {
    } else if rx[0].bytes[0] != '\n' {
      var t := if rx[0].at > now then rx[0].at else now;
      var acc' := acc + [rx[0].bytes[0]];
      var rest := Consume(rx, 1);
      assert ReadLineFrom(rx, now, deadline, acc) == ReadLineFrom(rest, t, deadline, acc');
      ReadLinePartial(rest, t, deadline, acc');
      var line := ReadLineFrom(rest, t, deadline, acc').line;
      if |acc'| <= |line| && line[..|acc'|] == acc' {
        assert line[..|acc|] == acc'[..|acc|];
      }
    }
  }

  /** A read that does not time out with nothing, consumes something. */
  lemma {:induction false} ReadLineSize(rx: seq<Arrival>, now: nat, deadline: int, acc: string)
    ensures var r := ReadLineFrom(rx, now, deadline, acc);
            Size(r.rest) < Size(rx) || (r.ending == TimedOut && r.line == acc && r.rest == rx)
    decreases Size(rx)
  {
    if now >= deadline || rx == [] || rx[0].at >= deadline {
    } else if rx[0].bytes == [] {
      BytesOfFailure(rx);
    } else if rx[0].bytes[0] != '\n' {
      var t := if rx[0].at > now then rx[0].at else now;
      ReadLineSize(Consume(rx, 1), t, deadline, acc + [rx[0].bytes[0]]);
    }
  }

  /** The clock only moves forwards, and a timed-out read has reached the deadline. */
  lemma {:induction false} ReadLineClock(rx: seq<Arrival>, now: nat, deadline: int, acc: string)
    ensures var r := ReadLineFrom(rx, now, deadline, acc);
            && now <= r.now
            && (r.ending == TimedOut ==> r.now >= deadline)
            && (r.now <= now || r.now <= deadline)
    decreases Size(rx)
  {
    if now >= deadline || rx == [] || rx[0].at >= deadline {
    } else if rx[0].bytes == [] {
    } else if rx[0].bytes[0] != '\n' {
      var t := if rx[0].at > now then rx[0].at else now;
      ReadLineClock(Consume(rx, 1), t, deadline, acc + [rx[0].bytes[0]]);
    }
  }

  /** A `readLine` that timed out left nothing that came before the deadline: a byte, and so
      a line, that arrives in time is read. Called at or after its deadline, it reads
      nothing. */
  lemma {:induction false} ReadLineTimely(rx: seq<Arrival>, now: nat, deadline: int, acc: string)
    ensures var r := ReadLineFrom(rx, now, deadline, acc);
            && (now < deadline && r.ending == TimedOut ==> r.rest == [] || r.rest[0].at >= deadline)
            && (now >= deadline ==> r.ending == TimedOut && r.rest == rx && r.line == acc)
    decreases Size(rx)
  {
    if now >= deadline || rx == [] || rx[0].at >= deadline || rx[0].bytes == [] {
    } else if rx[0].bytes[0] != '\n' {
      var t := if rx[0].at > now then rx[0].at else now;
      ReadLineTimely(Consume(rx, 1), t, deadline, acc + [rx[0].bytes[0]]);
    }
  }

  /** The outcome of a `readAll`: what it returns; the chunks of at most 255 bytes that
      single `read` calls delivered, before the C-string append cut each at a NUL; what
      is left; and the clock afterwards. */
  datatype BlobRead = BlobRead(text: string, chunks: seq<string>, rest: seq<Arrival>, now: nat)

  /** A read buffer appended as a C string: up to its first NUL byte. */
  function CString(chunk: string): (s: string)
    ensures s <= chunk && '\0' !in s
    ensures '\0' !in chunk ==> s == chunk
    ensures |s| < |chunk| ==> chunk[|s|] == '\0'
  {
    if chunk == [] || chunk[0] == '\0' then [] else [chunk[0]] + CString(chunk[1..])
  }

  function Concat(chunks: seq<string>): string {
    if chunks == [] then [] else chunks[0] + Concat(chunks[1..])
  }

  function ConcatCStrings(chunks: seq<string>): string {
    if chunks == [] then [] else CString(chunks[0]) + ConcatCStrings(chunks[1..])
  }

  const ReadChunk := 255

  /** `readAll`'s loop: reads of up to 255 bytes, each appended up to its first NUL,
      until a failed read or no byte before the deadline. */
  function ReadAllFrom(rx: seq<Arrival>, now: nat, deadline: int): BlobRead
    decreases Size(rx)
  {
    if now >= deadline then BlobRead([], [], rx, now)
    else if rx == [] || rx[0].at >= deadline then BlobRead([], [], rx, deadline)
    else
      var t := if rx[0].at > now then rx[0].at else now;
      if rx[0].bytes == [] then
        BytesOfFailure(rx);
        BlobRead([], [], rx[1..], t)
      else
        var n := if |rx[0].bytes| < ReadChunk then |rx[0].bytes| else ReadChunk;
        var chunk := rx[0].bytes[..n];
        var more := ReadAllFrom(Consume(rx, n), t, deadline);
        BlobRead(CString(chunk) + more.text, [chunk] + more.chunks, more.rest, more.now)
  }

  /** One step of `readAll`'s loop: the chunk read first, then the rest of the loop. */
  lemma ReadAllStep(rx: seq<Arrival>, now: nat, deadline: int) returns (chunk: string, rest: seq<Arrival>, t: nat)
    requires now < deadline && rx != [] && rx[0].at < deadline && rx[0].bytes != []
    ensures 0 < |chunk| <= ReadChunk && Bytes(rx) == chunk + Bytes(rest)
    ensures var r := ReadAllFrom(rx, now, deadline);
            var more := ReadAllFrom(rest, t, deadline);
            && r.chunks == [chunk] + more.chunks
            && r.text == CString(chunk) + more.text
            && r.rest == more.rest && r.now == more.now
            && now <= t
    ensures Size(rest) < Size(rx)
  {
    t := if rx[0].at > now then rx[0].at else now;
    var n := if |rx[0].bytes| < ReadChunk then |rx[0].bytes| else ReadChunk;
    chunk := rx[0].bytes[..n];
    rest := Consume(rx, n);
  }

  /** `readAll` returns the chunks it read, each cut at its first NUL. */
  lemma {:induction false} ReadAllText(rx: seq<Arrival>, now: nat, deadline: int)
    ensures var r := ReadAllFrom(rx, now, deadline);
            r.text == ConcatCStrings(r.chunks)
    decreases Size(rx)
  {
    if now >= deadline || rx == [] || rx[0].at >= deadline || rx[0].bytes == [] {
    } else {
      var chunk, rest, t := ReadAllStep(rx, now, deadline);
      ReadAllText(rest, t, deadline);
      var r := ReadAllFrom(rx, now, deadline);
      assert r.chunks[1..] == ReadAllFrom(rest, t, deadline).chunks;
    }
  }

  /** The chunks are the bytes consumed, in order. */
  lemma {:induction false} ReadAllBytes(rx: seq<Arrival>, now: nat, deadline: int)
    ensures var r := ReadAllFrom(rx, now, deadline);
            Bytes(rx) == Concat(r.chunks) + Bytes(r.rest)
    decreases Size(rx)
  {
    if now >= deadline || rx == [] || rx[0].at >= deadline {
    } else if rx[0].bytes == [] {
      BytesOfFailure(rx);
    } else {
      var chunk, rest, t := ReadAllStep(rx, now, deadline);
      ReadAllBytes(rest, t, deadline);
      var cs := ReadAllFrom(rx, now, deadline).chunks;
      var more := ReadAllFrom(rest, t, deadline);
      assert cs[1..] == more.chunks;
      assert Concat(cs) == chunk + Concat(more.chunks);
    }
  }

  /** The clock only moves on. */
  lemma {:induction false} ReadAllClock(rx: seq<Arrival>, now: nat, deadline: int)
    ensures now <= ReadAllFrom(rx, now, deadline).now
    decreases Size(rx)
  {
    if now >= deadline || rx == [] || rx[0].at >= deadline || rx[0].bytes == [] {
    } else {
      var chunk, rest, t := ReadAllStep(rx, now, deadline);
      ReadAllClock(rest, t, deadline);
    }
  }

  /** A `readAll` that ran into its deadline left nothing that came before the deadline:
      every burst that arrived in time was read. */
  lemma {:induction false} ReadAllTimely(rx: seq<Arrival>, now: nat, deadline: int)
    ensures var r := ReadAllFrom(rx, now, deadline);
            now < deadline && r.now >= deadline ==> r.rest == [] || r.rest[0].at >= deadline
    decreases Size(rx)
  {
    if now >= deadline || rx == [] || rx[0].at >= deadline || rx[0].bytes == [] {
    } else {
      var t := if rx[0].at > now then rx[0].at else now;
      var n := if |rx[0].bytes| < ReadChunk then |rx[0].bytes| else ReadChunk;
      ReadAllTimely(Consume(rx, n), t, deadline);
    }
  }

  /** Text appended in two steps. */
  lemma AppendAssoc(a: string, b: string, c: string)
    ensures a + (b + c) == a + b + c
  {
  }

  /** Each chunk holds 1 to 255 bytes. */
  lemma {:induction false} ReadAllChunks(rx: seq<Arrival>, now: nat, deadline: int)
    ensures var cs := ReadAllFrom(rx, now, deadline).chunks;
            forall k :: 0 <= k < |cs| ==> 0 < |cs[k]| <= ReadChunk
    decreases Size(rx)
  {
    if now >= deadline || rx == [] || rx[0].at >= deadline || rx[0].bytes == [] {
    } else {
      var chunk, rest, t := ReadAllStep(rx, now, deadline);
      ReadAllChunks(rest, t, deadline);
      ChunksCons(chunk, ReadAllFrom(rest, t, deadline).chunks);
    }
  }

  /** A chunk of 1 to 255 bytes before chunks of 1 to 255 bytes. */
  lemma ChunksCons(chunk: string, more: seq<string>)
    requires 0 < |chunk| <= ReadChunk
    requires forall k :: 0 <= k < |more| ==> 0 < |more[k]| <= ReadChunk
    ensures forall k :: 0 <= k < |[chunk] + more| ==> 0 < |([chunk] + more)[k]| <= ReadChunk
  {
    var cs := [chunk] + more;
    forall k | 1 <= k < |cs| ensures cs[k] == more[k - 1] {
    }
  }

  /** A NUL byte missing from a concatenation is missing from each part. */
  lemma NulFreeParts(a: string, b: string)
    requires '\0' !in a + b
    ensures '\0' !in a && '\0' !in b
  {
    forall k | 0 <= k < |a| ensures a[k] != '\0' {
      assert a[k] == (a + b)[k];
    }
    forall k | 0 <= k < |b| ensures b[k] != '\0' {
      assert b[k] == (a + b)[|a| + k];
    }
  }

  /** Without NUL bytes the result is exactly the bytes consumed. */
  lemma {:induction false} ReadAllNulFree(rx: seq<Arrival>, now: nat, deadline: int)
    ensures var r := ReadAllFrom(rx, now, deadline);
            '\0' !in Concat(r.chunks) ==> r.text == Concat(r.chunks)
    decreases Size(rx)
  {
    if now >= deadline || rx == [] || rx[0].at >= deadline || rx[0].bytes == [] {
    } else {
      var chunk, rest, t := ReadAllStep(rx, now, deadline);
      ReadAllNulFree(rest, t, deadline);
      var r := ReadAllFrom(rx, now, deadline);
      var more := ReadAllFrom(rest, t, deadline);
      assert r.chunks[1..] == more.chunks;
      assert Concat(r.chunks) == chunk + Concat(more.chunks);
      if '\0' !in Concat(r.chunks) {
        NulFreeParts(chunk, Concat(more.chunks));
      }
    }
  }

  /** `readAll` returns the chunks it read, each cut at its first NUL; the chunks are the
      bytes consumed, in order, each of 1 to 255 bytes; without NUL bytes the result is
      exactly the bytes consumed. */
  lemma ReadAllFacts(rx: seq<Arrival>, now: nat, deadline: int)
    ensures var r := ReadAllFrom(rx, now, deadline);
            && r.text == ConcatCStrings(r.chunks)
            && Bytes(rx) == Concat(r.chunks) + Bytes(r.rest)
            && (forall k :: 0 <= k < |r.chunks| ==> 0 < |r.chunks[k]| <= ReadChunk)
            && ('\0' !in Concat(r.chunks) ==> r.text == Concat(r.chunks))
            && now <= r.now
  {
    ReadAllText(rx, now, deadline);
    ReadAllBytes(rx, now, deadline);
    ReadAllChunks(rx, now, deadline);
    ReadAllClock(rx, now, deadline);
    ReadAllNulFree(rx, now, deadline);
  }

  // ---------------------------------------------------------------- writing

  /** What a write of `size` bytes returns, given the scripted results still to come. */
  function Accepted(results: seq<int>, size: nat): int {
    if results == [] then size else results[0]
  }

  /** The scripted results left after one write. */
  function Later(results: seq<int>): seq<int> {
    if results == [] then [] else results[1..]
  }

  /** The bytes of `out` the device receives from a write that returned `w`. */
  function Delivered(out: string, w: int): (d: string)
    ensures d <= out
    ensures w >= |out| ==> d == out
  {
    if w <= 0 then [] else out[..if w < |out| then w else |out|]
  }

  // ---------------------------------------------------------------- the port

  /** A serial device: the descriptor (negative when closed), the device path, the line
      speed configured, what the device will still send, the scripted results of the
      next writes, and every byte the device has accepted. */
  class SerialPort {
    var fd: int
    var device: string
    var speed: int
    var rx: seq<Arrival>
    var writeResults: seq<int>
    var sent: string
    const env: Env

    constructor (env: Env)
      ensures this.env == env && fd == -1 && device == [] && rx == [] && writeResults == [] && sent == []
    {
      this.env := env;
      fd := -1;
      device := [];
      speed := 0;
      rx := [];
      writeResults := [];
      sent := [];
    }

    function IsOpen(): bool
      reads this
    {
      fd >= 0
    }

    /** Opens `path` at `baudRate`, closing the descriptor already open. A failed open
        or configuration leaves the port closed and the device name unchanged; on
        success the name is recorded and what the device sent before now is flushed. */
    method Open(path: string, baudRate: int) returns (ok: bool)
      modifies this, env
      ensures env.now == old(env.now) && env.openCalls == old(env.openCalls) + [path]
      ensures env.links == LaterLinks(old(env.links))
      ensures sent == old(sent)
      ensures ok <==> Opens(NextLink(old(env.links)))
      ensures ok == (fd >= 0)
      ensures ok ==> && fd == NextLink(old(env.links)).fd && device == path && speed == BaudSpeed(baudRate)
                     && rx == Flushed(NextLink(old(env.links)).incoming, env.now)
                     && writeResults == NextLink(old(env.links)).writeResults
      ensures !ok ==> device == old(device)
    {
      // ::open; an environment with no endpoint left fails the open
      var link := env.Connect(path);
      assert link == NextLink(old(env.links)) && env.now == old(env.now);
      if !Opens(link) {
        fd := -1;
        return false;
      }
      fd := link.fd;
      speed := BaudSpeed(baudRate);
      rx := Flushed(link.incoming, env.now);
      writeResults := link.writeResults;
      device := path;
      return true;
    }

    /** Closes an open port and forgets its device name; nothing happens otherwise. */
    method Close()
      modifies this
      ensures !IsOpen()
      ensures old(IsOpen()) ==> device == []
      ensures !old(IsOpen()) ==> device == old(device)
      ensures sent == old(sent) && rx == old(rx) && writeResults == old(writeResults)
    {
      if fd >= 0 {
        fd := -1;
        device := [];
      }
    }

    /** The result of the next write of `size` bytes, and whether it is accepted in full. */
    method NextWrite(size: nat) returns (written: int)
      modifies this`writeResults
      ensures writeResults == Later(old(writeResults))
      ensures written == Accepted(old(writeResults), size)
    {
      if writeResults == [] {
        written := size;
      } else {
        written := writeResults[0];
        writeResults := writeResults[1..];
      }
    }

    /** Writes `data`, framed by a newline. On a closed port nothing is sent and the
        result is false; otherwise the result says whether every framed byte was written. */
    method Write(data: string) returns (ok: bool)
      modifies this`writeResults, this`sent
      ensures !old(IsOpen()) ==> !ok && sent == old(sent) && writeResults == old(writeResults)
      ensures old(IsOpen()) ==>
                var out := Framed(data);
                var w := Accepted(old(writeResults), |out|);
                && writeResults == Later(old(writeResults))
                && (ok <==> w == |out|)
                && sent == old(sent) + Delivered(out, w)
    {
      if fd < 0 {
        return false;
      }
      var out := Framed(data);
      var w := NextWrite(|out|);
      if w < 0 {
        return false;
      }
      sent := sent + out[..if w < |out| then w else |out|];
      return w == |out|;
    }

    /** Writes one byte. */
    method WriteByte(b: char) returns (ok: bool)
      modifies this`writeResults, this`sent
      ensures !old(IsOpen()) ==> !ok && sent == old(sent) && writeResults == old(writeResults)
      ensures old(IsOpen()) ==>
                var w := Accepted(old(writeResults), 1);
                && writeResults == Later(old(writeResults))
                && (ok <==> w == 1)
                && sent == old(sent) + Delivered([b], w)
    {
      if fd < 0 {
        return false;
      }
      var w := NextWrite(1);
      if w > 0 {
        sent := sent + [b];
      }
      return w == 1;
    }

    /** Reads a line within `timeoutMs`. On a closed port the result is empty and nothing
        changes; otherwise it is `ReadLineFrom` from now with the deadline now + timeout. */
    method ReadLine(timeoutMs: int) returns (line: string)
      modifies this`rx, env`now
      ensures !old(IsOpen()) ==> line == [] && rx == old(rx) && env.now == old(env.now)
      ensures old(IsOpen()) ==>
                var r := ReadLineFrom(old(rx), old(env.now), old(env.now) + timeoutMs, []);
                line == r.line && rx == r.rest && env.now == r.now
    {
      line := [];
      if fd < 0 {
        return;
      }
      var start := env.now;
      ghost var goal := ReadLineFrom(rx, start, start + timeoutMs, []);
      while true
        invariant start <= env.now
        invariant ReadLineFrom(rx, env.now, start + timeoutMs, line) == goal
        decreases Size(rx)
      {
        var elapsed := env.now - start;
        if elapsed >= timeoutMs {
          break;
        }
        var remaining := timeoutMs - elapsed;
        // select(): the next arrival, if any comes before the deadline
        if rx == [] || rx[0].at >= env.now + remaining {
          env.now := env.now + remaining;
          break;
        }
        if rx[0].at > env.now {
          env.now := rx[0].at;
        }
        if rx[0].bytes == [] {
          rx := rx[1..];
          break;
        }
        var c := rx[0].bytes[0];
        rx := Consume(rx, 1);
        if c == '\n' {
          if line != [] && line[|line| - 1] == '\r' {
            line := line[..|line| - 1];
          }
          break;
        }
        line := line + [c];
      }
    }

    /** Reads everything the device sends within `timeoutMs`. On a closed port the result
        is empty and nothing changes; otherwise it is `ReadAllFrom` from now with the
        deadline now + timeout. */
    method ReadAll(timeoutMs: int) returns (text: string)
      modifies this`rx, env`now
      ensures !old(IsOpen()) ==> text == [] && rx == old(rx) && env.now == old(env.now)
      ensures old(IsOpen()) ==>
                var r := ReadAllFrom(old(rx), old(env.now), old(env.now) + timeoutMs);
                text == r.text && rx == r.rest && env.now == r.now
    {
      text := [];
      if fd < 0 {
        return;
      }
      var start := env.now;
      ghost var goal := ReadAllFrom(rx, start, start + timeoutMs);
      while true
        invariant start <= env.now
        invariant goal.text == text + ReadAllFrom(rx, env.now, start + timeoutMs).text
        invariant goal.rest == ReadAllFrom(rx, env.now, start + timeoutMs).rest
        invariant goal.now == ReadAllFrom(rx, env.now, start + timeoutMs).now
        decreases Size(rx)
      {
        var elapsed := env.now - start;
        if elapsed >= timeoutMs {
          break;
        }
        var remaining := timeoutMs - elapsed;
        if rx == [] || rx[0].at >= env.now + remaining {
          env.now := env.now + remaining;
          break;
        }
        if rx[0].at > env.now {
          env.now := rx[0].at;
        }
        if rx[0].bytes == [] {
          rx := rx[1..];
          break;
        }
        var n := if |rx[0].bytes| < ReadChunk then |rx[0].bytes| else ReadChunk;
        var chunk := rx[0].bytes[..n];
        ghost var before := text;
        rx := Consume(rx, n);
        text := text + CString(chunk);
        AppendAssoc(before, CString(chunk), ReadAllFrom(rx, env.now, start + timeoutMs).text);
      }
    }
  }

  // ---------------------------------------------------------------- listing ports

  predicate StartsWith(s: string, prefix: string) {
    |prefix| <= |s| && s[..|prefix|] == prefix
  }

  /** A `/dev` entry that names a USB serial adapter or a USB modem. */
  predicate IsPortName(name: string) {
    StartsWith(name, "ttyUSB") || StartsWith(name, "ttyACM")
  }

  /** The device paths of the candidate entries, in directory order. */
  function DevicePaths(entries: seq<string>): (paths: seq<string>)
    ensures forall p :: p in paths <==> exists name :: name in entries && IsPortName(name) && p == "/dev/" + name
  {
    if entries == [] then []
    else
      var more := DevicePaths(entries[1..]);
      assert forall name :: name in entries <==> name == entries[0] || name in entries[1..];
      if IsPortName(entries[0]) then ["/dev/" + entries[0]] + more else more
  }

  /** The candidate devices, sorted; none when `/dev` cannot be read. */
  function PortList(entries: Option<seq<string>>): seq<string> {
    match entries
    case None => []
    case Some(es) => Sort(DevicePaths(es))
  }

  /** The entry a candidate path was made from. */
  function EntryOf(p: string): Option<string> {
    if StartsWith(p, "/dev/") && IsPortName(p[5..]) then Some(p[5..]) else None
  }

  /** How often a path is listed is how often its entry is in the directory. */
  lemma {:induction false} DevicePathCount(entries: seq<string>, p: string)
    ensures multiset(DevicePaths(entries))[p] == match EntryOf(p) case Some(name) => multiset(entries)[name] case None => 0
    decreases |entries|
  {
    if entries != [] {
      var e := entries[0];
      assert entries == [e] + entries[1..];
      DevicePathCount(entries[1..], p);
      var q := "/dev/" + e;
      assert q[5..] == e && StartsWith(q, "/dev/");
      if IsPortName(e) && p == q {
        assert EntryOf(p) == Some(e);
      }
      if EntryOf(p).Some? && EntryOf(p).value == e {
        assert p == "/dev/" + p[5..];
      }
    }
  }

  /** Which paths are listed does not depend on the order of the entries. */
  lemma DevicePathsMultiset(a: seq<string>, b: seq<string>)
    requires multiset(a) == multiset(b)
    ensures multiset(DevicePaths(a)) == multiset(DevicePaths(b))
  {
    forall p ensures multiset(DevicePaths(a))[p] == multiset(DevicePaths(b))[p] {
      DevicePathCount(a, p);
      DevicePathCount(b, p);
    }
  }

  /** `listPorts`: exactly the `/dev/ttyUSB*` and `/dev/ttyACM*` devices, in ascending
      order, whatever order the directory lists them in. */
  lemma PortListFacts(entries: Option<seq<string>>)
    ensures Sorted(PortList(entries))
    ensures entries.None? ==> PortList(entries) == []
    ensures entries.Some? ==> forall p :: p in PortList(entries) <==>
              exists name :: name in entries.value && IsPortName(name) && p == "/dev/" + name
  {
    if entries.Some? {
      var paths := DevicePaths(entries.value);
      var sorted := Sort(paths);
      forall p ensures p in sorted <==> p in paths {
        assert p in sorted <==> p in multiset(sorted);
        assert p in paths <==> p in multiset(paths);
      }
    }
  }

  lemma PortListOrderIndependent(a: seq<string>, b: seq<string>)
    requires multiset(a) == multiset(b)
    ensures PortList(Some(a)) == PortList(Some(b))
  {
    DevicePathsMultiset(a, b);
    SortOrderIndependent(DevicePaths(a), DevicePaths(b));
  }

  /** `SerialPort::listPorts`: the directory scan, then the sort. */
  method ListPorts(env: Env) returns (ports: seq<string>)
    ensures ports == PortList(env.devEntries)
  {
    ports := [];
    if env.devEntries.None? {
      return;
    }
    var entries := env.devEntries.value;
    var i := 0;
    while i < |entries|
      invariant 0 <= i <= |entries|
      invariant ports + DevicePaths(entries[i..]) == DevicePaths(entries)
    {
      var name := entries[i];
      assert entries[i..] == [name] + entries[i + 1..];
      if StartsWith(name, "ttyUSB") || StartsWith(name, "ttyACM") {
        ports := ports + ["/dev/" + name];
      }
      i := i + 1;
    }
    assert entries[i..] == [];
    assert ports == DevicePaths(entries);
    ports := Sort(ports);
  }
}
