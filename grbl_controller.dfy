/** The GRBL client: one session over a serial port, opened on a named device or on the
    first device of the listing that answers a reset with the "Grbl" banner; every other
    operation writes a command or a real-time byte to the open port and reads the answer.
    Operations called while not connected return at once without touching any port.

    What the client tells its event handler is appended to `events`; sleeps advance the
    scripted clock. */
module Controller {
  import opened Wrappers
  import opened Text
  import opened Serial
  import opened GrblTypes
  import opened StatusReport
  import opened Settings
  import opened Commands
  import opened Protocol

  /** What sendCommand answers when there is no session. */
  const NotConnected := "error: not connected"

  /** The token the reset banner of a GRBL machine holds. */
  const BannerToken := "Grbl"

  /** How long the client lets the machine restart after a soft reset (ms). */
  const ResetSettle := 2000

  /** How long it then reads the banner for (ms). */
  const BannerTimeout := 1000

  /** How long softReset reads what the machine says after restarting (ms). */
  const ResetDrainTimeout := 500

  // ---------------------------------------------------------------------------------------
  // The banner

  /** The first line holding "Grbl", if any. */
  function BannerLine(ls: seq<string>): (v: Option<string>)
    ensures v.Some? <==> exists k :: 0 <= k < |ls| && Contains(ls[k], BannerToken)
    ensures v.Some? ==> exists k :: 0 <= k < |ls| && ls[k] == v.value && Contains(ls[k], BannerToken)
                                    && forall j :: 0 <= j < k ==> !Contains(ls[j], BannerToken)
  {
    if ls == [] then None
    else if Contains(ls[0], BannerToken) then Some(ls[0])
    else
      var v := BannerLine(ls[1..]);
      assert forall k :: 1 <= k < |ls| ==> ls[k] == ls[1..][k - 1];
      v
  }

  /** A response holds the banner token exactly when one of its lines does, so a banner is
      recognised exactly when a version line can be taken from it. */
  lemma BannerFound(response: string)
    ensures BannerLine(Lines(response)).Some? <==> Contains(response, BannerToken)
  {
    var ls := Lines(response);
    if Contains(response, BannerToken) {
      TokenOnSomeLine(response, BannerToken);
    }
    if BannerLine(ls).Some? {
      var k :| 0 <= k < |ls| && Contains(ls[k], BannerToken);
      TokenFromLine(response, BannerToken, k);
    }
  }

  /** The version line of a banner: the first line holding "Grbl", as getline yields it
      (a '\r' before the '\n' stays on the line). */
  method VersionOf(response: string) returns (v: Option<string>)
    ensures v == BannerLine(Lines(response))
  {
    var ls := Lines(response);
    var i := 0;
    while i < |ls|
      invariant i <= |ls|
      invariant BannerLine(ls[i..]) == BannerLine(ls)
    {
      if Contains(ls[i], BannerToken) {
        return Some(ls[i]);
      }
      assert ls[i..][1..] == ls[i + 1..];
      i := i + 1;
    }
    assert ls[i..] == [];
    return None;
  }

  /** What a port reads in the `timeoutMs` ms after the 2 s the machine is given to
      restart, reset at time `now` with `rx` still to come. */
  function Restarted(rx: seq<Arrival>, now: nat, timeoutMs: int): BlobRead {
    ReadAllFrom(rx, now + ResetSettle, now + ResetSettle + timeoutMs)
  }

  /** What a port opened on `link` at time `now` answers a reset with: what it reads for
      1 s after the restart. */
  function Banner(link: Link, now: nat): BlobRead {
    Restarted(Flushed(link.incoming, now), now, BannerTimeout)
  }

  /** The reset handshake on an open port: the reset byte, 2 s for the machine to restart,
      then everything it sends within `timeoutMs`. */
  method Restart(s: SerialPort, timeoutMs: int) returns (text: string)
    requires s.IsOpen()
    modifies s`writeResults, s`sent, s`rx, s.env`now
    ensures WroteByte(old(s.sent), old(s.writeResults), s.sent, s.writeResults, ResetByte)
    ensures var r := Restarted(old(s.rx), old(s.env.now), timeoutMs);
            text == r.text && s.rx == r.rest && s.env.now == r.now
  {
    RestartedRead(s.rx, s.env.now, timeoutMs);
    ResetPulse(s);
    text := s.ReadAll(timeoutMs);
  }

  /** The read after a restart is readAll's loop from the moment the 2 s have passed. */
  lemma RestartedRead(rx: seq<Arrival>, now: nat, timeoutMs: int)
    ensures Restarted(rx, now, timeoutMs) == ReadAllFrom(rx, now + ResetSettle, now + ResetSettle + timeoutMs)
  {
  }

  /** The reset byte, then the 2 s the machine is given to restart. */
  method ResetPulse(s: SerialPort)
    requires s.IsOpen()
    modifies s`writeResults, s`sent, s.env`now
    ensures WroteByte(old(s.sent), old(s.writeResults), s.sent, s.writeResults, ResetByte)
    ensures s.rx == old(s.rx) && s.env.now == old(s.env.now) + ResetSettle && s.IsOpen()
  {
    var _ := s.WriteByte(ResetByte);
    s.env.Sleep(ResetSettle);
  }

  /** A probe's banner: the reset handshake, after which the probe is closed. */
  method ReadBanner(probe: SerialPort) returns (text: string)
    requires probe.IsOpen()
    modifies probe, probe.env`now
    ensures var r := Restarted(old(probe.rx), old(probe.env.now), BannerTimeout);
            text == r.text && probe.env.now == r.now
  {
    text := Restart(probe, BannerTimeout);
    probe.Close();
  }

  // ---------------------------------------------------------------------------------------
  // Auto-detection

  /** Two opens of the same path, one after the other. */
  lemma TwoOpens(calls: seq<string>, p: string)
    ensures calls + [p] + [p] == calls + [p, p]
  {
  }

  /** The outcome of probing the candidate ports: the index of the port adopted, if any;
      the endpoints left and the clock afterwards; the paths opened, in order; and, for an
      adopted port, its banner and the endpoint its session runs on. */
  datatype Detection = Detection(found: Option<nat>, links: seq<Link>, now: nat, calls: seq<string>,
                                 banner: string, adopted: Link)

  /** The paths `calls` opened before the probes of `d`. */
  function Prepended(calls: seq<string>, d: Detection): Detection {
    d.(calls := calls + d.calls)
  }

  /** What a probe reads: for every endpoint and time of opening, the banner the reset
      handshake reads. Auto-detection is stated for any reading function, and the client
      runs it with this one. */
  ghost predicate ReadsBanner(read: (Link, nat) -> BlobRead) {
    forall link: Link, now: nat {:trigger Banner(link, now)} :: read(link, now) == Banner(link, now)
  }

  /** The probe of one port `p` at time `now`, `links` being the endpoints the next opens
      reach and `read` what a probe reads: a port that does not open, or whose banner lacks
      "Grbl", is passed over after one open; a port with the banner is opened again for the
      session, and adopted when that succeeds (`found` is then `Some(0)`), or passed over
      when it does not. */
  function Tried(p: string, links: seq<Link>, now: nat, read: (Link, nat) -> BlobRead): Detection {
    var link := NextLink(links);
    if !Opens(link) then Detection(None, LaterLinks(links), now, [p], [], link)
    else
      var b := read(link, now);
      if !Contains(b.text, BannerToken) then Detection(None, LaterLinks(links), b.now, [p], b.text, link)
      else
        var again := NextLink(LaterLinks(links));
        Detection(if Opens(again) then Some(0) else None, LaterLinks(LaterLinks(links)), b.now, [p, p], b.text, again)
  }

  /** autoDetectPort's loop from port `i`: each port is probed in turn, and the first one
      adopted ends the loop. */
  function DetectFrom(ports: seq<string>, i: nat, links: seq<Link>, now: nat, read: (Link, nat) -> BlobRead): Detection
    requires i <= |ports|
    decreases |ports| - i
  {
    if i == |ports| then Detection(None, links, now, [], [], NextLink([]))
    else
      var t := Tried(ports[i], links, now, read);
      if t.found.Some? then t.(found := Some(i))
      else Prepended(t.calls, DetectFrom(ports, i + 1, t.links, t.now, read))
  }

  /** A port passed over: the detection goes on from the next port, after its opens. */
  lemma DetectAdvance(ports: seq<string>, i: nat, links: seq<Link>, now: nat, read: (Link, nat) -> BlobRead,
                      calls: seq<string>, t: Detection)
    requires i < |ports| && t == Tried(ports[i], links, now, read) && t.found.None?
    ensures Prepended(calls, DetectFrom(ports, i, links, now, read))
         == Prepended(calls + t.calls, DetectFrom(ports, i + 1, t.links, t.now, read))
  {
    var d := DetectFrom(ports, i + 1, t.links, t.now, read);
    assert calls + (t.calls + d.calls) == calls + t.calls + d.calls;
  }

  /** A port adopted: the detection ends with it. */
  lemma DetectDone(ports: seq<string>, i: nat, links: seq<Link>, now: nat, read: (Link, nat) -> BlobRead,
                   calls: seq<string>, t: Detection)
    requires i < |ports| && t == Tried(ports[i], links, now, read) && t.found.Some?
    ensures Prepended(calls, DetectFrom(ports, i, links, now, read)) == Prepended(calls, t.(found := Some(i)))
  {
  }

  /** The probes a detection from port `i` made, one per port in list order, up to and
      including the port it adopted. */
  function Trace(ports: seq<string>, i: nat, links: seq<Link>, now: nat, read: (Link, nat) -> BlobRead): seq<Detection>
    requires i <= |ports|
    decreases |ports| - i
  {
    if i == |ports| then []
    else
      var t := Tried(ports[i], links, now, read);
      if t.found.Some? then [t] else [t] + Trace(ports, i + 1, t.links, t.now, read)
  }

  /** The paths the probes `ts` opened, in order. */
  function CallsOf(ts: seq<Detection>): seq<string> {
    if ts == [] then [] else ts[0].calls + CallsOf(ts[1..])
  }

  /** A probe `t` of port `p`: it opened `p` once, or twice exactly when its banner holds
      "Grbl", and it adopted `p` exactly when the banner holds "Grbl" and the second open
      succeeded. */
  predicate Probed(t: Detection, p: string) {
    && (t.calls == [p] || t.calls == [p, p])
    && (t.calls == [p, p] <==> Contains(t.banner, BannerToken))
    && (t.found.Some? <==> t.calls == [p, p] && Contains(t.banner, BannerToken) && Opens(t.adopted))
  }

  /** The probes `ts`, made from port `i` on, took the listed ports in order, one each: the
      `k`-th probe is a probe of port `i + k`, and every probe but the last passed its port
      over, so none of them saw the banner and then opened its port again. */
  predicate Walked(ts: seq<Detection>, ports: seq<string>, i: nat) {
    && i + |ts| <= |ports|
    && (forall k :: 0 <= k < |ts| ==> Probed(ts[k], ports[i + k]))
    && (forall k :: 0 <= k < |ts| - 1 ==> ts[k].found.None?)
  }

  /** A detection from port `i` and its probes `ts`: the ports were probed in list order, its
      opens are those of the probes, one block after another; a detection that found nothing
      probed every port from `i` on and passed each over; one that adopted a port stopped at
      it, after opening it twice, on a banner holding "Grbl" and a second open that
      succeeded. */
  predicate Ordered(d: Detection, ts: seq<Detection>, ports: seq<string>, i: nat) {
    && Walked(ts, ports, i)
    && d.calls == CallsOf(ts)
    && (d.found.None? ==> i + |ts| == |ports| && forall k :: 0 <= k < |ts| ==> ts[k].found.None?)
    && (d.found.Some? ==>
          && ts != [] && d.found.value == i + |ts| - 1
          && ts[|ts| - 1].found.Some?
          && ts[|ts| - 1].calls == [ports[d.found.value], ports[d.found.value]]
          && Contains(d.banner, BannerToken) && Opens(d.adopted))
  }

  /** Every detection is ordered: auto-detection walks the list forwards, probing each port
      once, and stops at the port it adopts, the first whose banner holds "Grbl" and that
      opens again: every port before it lacked the banner or failed the second open. */
  lemma {:induction false} DetectOrder(ports: seq<string>, i: nat, links: seq<Link>, now: nat,
                                       read: (Link, nat) -> BlobRead)
    requires i <= |ports|
    ensures Ordered(DetectFrom(ports, i, links, now, read), Trace(ports, i, links, now, read), ports, i)
    decreases |ports| - i
  {
    if i < |ports| {
      var t := Tried(ports[i], links, now, read);
      TriedCalls(ports[i], links, now, read);
      if t.found.Some? {
        DetectAdopt(ports, i, t);
      } else {
        DetectOrder(ports, i + 1, t.links, t.now, read);
        DetectStep(ports, i, t, DetectFrom(ports, i + 1, t.links, t.now, read), Trace(ports, i + 1, t.links, t.now, read));
      }
    }
  }

  /** A probe opens its port once or twice, and adopts it exactly on a banner holding
      "Grbl" and a second open that succeeded. The banner is what the reset handshake read
      from the port, and empty when the port did not open. */
  lemma TriedCalls(p: string, links: seq<Link>, now: nat, read: (Link, nat) -> BlobRead)
    ensures var t := Tried(p, links, now, read);
            && Probed(t, p)
            && (t.found.Some? ==> t.found == Some(0))
            && (!Opens(NextLink(links)) ==> t.calls == [p] && t.banner == [])
            && (Opens(NextLink(links)) ==> t.banner == read(NextLink(links), now).text)
  {
    assert !Contains([], BannerToken);
  }

  /** The detection that adopts port `i` on its first probe is ordered. */
  lemma DetectAdopt(ports: seq<string>, i: nat, t: Detection)
    requires i < |ports| && Probed(t, ports[i]) && t.found.Some?
    ensures Ordered(t.(found := Some(i)), [t], ports, i)
  {
    assert CallsOf([t]) == t.calls + CallsOf([]);
  }

  /** A probe of port `i` that passed it over, before an ordered detection from port
      `i + 1`. */
  lemma DetectStep(ports: seq<string>, i: nat, t: Detection, more: Detection, ts: seq<Detection>)
    requires i < |ports| && Probed(t, ports[i]) && t.found.None?
    requires Ordered(more, ts, ports, i + 1)
    ensures Ordered(Prepended(t.calls, more), [t] + ts, ports, i)
  {
    var all := [t] + ts;
    assert all[1..] == ts;
    assert CallsOf(all) == t.calls + CallsOf(ts);
    forall k | 0 <= k < |all|
      ensures Probed(all[k], ports[i + k])
    {
      if k > 0 {
        assert all[k] == ts[k - 1] && i + k == (i + 1) + (k - 1);
      }
    }
    forall k | 0 <= k < |all| - 1
      ensures all[k].found.None?
    {
      if k > 0 {
        assert all[k] == ts[k - 1];
      }
    }
    if more.found.None? {
      forall k | 0 <= k < |all|
        ensures all[k].found.None?
      {
        if k > 0 {
          assert all[k] == ts[k - 1];
        }
      }
    }
  }

  // ---------------------------------------------------------------------------------------
  // What the session writes

  /** The port's state after one write of `data`, given the state before it: the next
      scripted result is used up, and the device has received what the write delivered of
      the newline-framed data. */
  predicate Wrote(sent0: string, results0: seq<int>, sent: string, results: seq<int>, data: string) {
    var out := Framed(data);
    results == Later(results0) && sent == sent0 + Delivered(out, Accepted(results0, |out|))
  }

  /** The port's state after one write of the byte `b`. */
  predicate WroteByte(sent0: string, results0: seq<int>, sent: string, results: seq<int>, b: char) {
    results == Later(results0) && sent == sent0 + Delivered([b], Accepted(results0, 1))
  }

  /** The status getStatus reports for the line read after the query: a line opening with
      '<' is parsed; anything else, the empty line included, is an unknown state. */
  function Reported(line: string): (st: GrblStatus)
    ensures line != [] && line[0] == '<' ==> st == ParseStatus(line)
    ensures !(line != [] && line[0] == '<') ==> st.state == "Unknown" && st.(state := "") == FreshStatus
  {
    if line != [] && line[0] == '<' then ParseStatus(line) else FreshStatus.(state := "Unknown")
  }

  // ---------------------------------------------------------------------------------------
  // The client

  class GrblController {
    /** The session's port; none when not connected. */
    var serial: SerialPort?
    /** The device of the last session opened. */
    var port: string
    /** The banner line of the session. */
    var version: string
    var connected: bool
    /** What the client told its event handler, in order. */
    var events: seq<Event>
    /** The operating system the ports are opened in. */
    const env: Env

    /** A session exists exactly when the client is connected, and its port is open. */
    predicate Valid()
      reads this, serial
    {
      && (serial != null <==> connected)
      && (serial != null ==> serial.env == env && serial.IsOpen())
    }

    /** The session's port, as a set: empty when not connected. */
    function Session(): set<SerialPort>
      reads this
    {
      if serial == null then {} else {serial}
    }

    constructor (env: Env)
      ensures Valid() && !connected && port == [] && version == [] && events == [] && this.env == env
    {
      this.env := env;
      serial := null;
      port := [];
      version := [];
      connected := false;
      events := [];
    }

    /** Whether a session is open: in a valid client, exactly when there is a session port. */
    function IsConnected(): (c: bool)
      reads this, serial
      ensures Valid() ==> (c <==> Session() != {})
    {
      connected
    }

    function GetPort(): string
      reads this
    {
      port
    }

    function GetVersion(): string
      reads this
    {
      version
    }

    /** The candidate devices. */
    method ListPorts() returns (ports: seq<string>)
      ensures ports == PortList(env.devEntries)
    {
      ports := Serial.ListPorts(env);
    }

    // ------------------------------------------------------------------------- connecting

    /** Opens a session: on the device named, or by auto-detection when the name is empty.
        Connecting while connected succeeds and changes nothing. */
    method Connect(portName: string := DefaultPort, baudRate: int := DefaultBaud) returns (ok: bool)
      requires Valid()
      modifies this, env
      ensures Valid()
      ensures old(connected) ==> ok && unchanged(this) && unchanged(env)
      ensures !old(connected) ==> (connected <==> ok) && (!ok ==> serial == null)
      ensures !old(connected) && portName == [] ==>
                var d := DetectFrom(PortList(env.devEntries), 0, old(env.links), old(env.now), Banner);
                && (ok <==> d.found.Some?)
                && env.links == d.links && env.now == d.now && env.openCalls == old(env.openCalls) + d.calls
                && (ok ==> && fresh(serial) && Adopts(d, baudRate)
                           && events == old(events) + [Connected(port, version)])
                && (!ok ==> port == old(port) && version == old(version) && events == old(events))
      ensures !old(connected) && portName != [] ==>
                var link := NextLink(old(env.links));
                var b := Banner(link, old(env.now));
                && env.links == LaterLinks(old(env.links)) && env.openCalls == old(env.openCalls) + [portName]
                && (ok <==> Opens(link) && Contains(b.text, BannerToken))
                && (Opens(link) ==> port == portName && env.now == b.now)
                && (!Opens(link) ==> port == old(port) && env.now == old(env.now))
                && (ok ==> && fresh(serial) && Attached(portName, baudRate, link, b)
                           && events == old(events) + [Connected(portName, version)])
                && (!ok ==> version == old(version) && events == old(events))
    {
      if connected {
        return true;
      }
      serial := new SerialPort(env);
      if portName == [] {
        ok := AutoDetectPort(baudRate, Banner);
        if !ok {
          serial := null;
        }
        return;
      }
      ok := Attach(portName, baudRate);
    }

    /** The session adopted by auto-detection: the session a probe set up on the port
        detected. */
    predicate Adopts(d: Detection, baudRate: int)
      reads this, serial
    {
      && d.found.Some? && d.found.value < |PortList(env.devEntries)|
      && AdoptedOn(PortList(env.devEntries)[d.found.value], d.banner, d.adopted, d.now, baudRate)
    }

    /** The session auto-detection set up on `p`: the first line of its probe's banner
        holding "Grbl" as the version, and a port of its own opened at time `now` on the
        endpoint `adopted` of the second open. */
    predicate AdoptedOn(p: string, banner: string, adopted: Link, now: nat, baudRate: int)
      reads this, serial
    {
      && connected && serial != null && serial.env == env
      && port == p
      && BannerLine(Lines(banner)).Some? && version == BannerLine(Lines(banner)).value
      && serial.fd == adopted.fd && serial.IsOpen()
      && serial.device == p && serial.speed == BaudSpeed(baudRate)
      && serial.rx == Flushed(adopted.incoming, now)
      && serial.writeResults == adopted.writeResults && serial.sent == []
    }

    /** The session opened on a named device: its first banner line as the version, and a
        port that was sent the reset byte and has read the banner. */
    predicate Attached(portName: string, baudRate: int, link: Link, b: BlobRead)
      reads this, serial
    {
      && connected && serial != null && serial.env == env
      && port == portName
      && BannerLine(Lines(b.text)).Some? && version == BannerLine(Lines(b.text)).value
      && serial.fd == link.fd && serial.IsOpen()
      && serial.device == portName && serial.speed == BaudSpeed(baudRate)
      && serial.rx == b.rest
      && WroteByte([], link.writeResults, serial.sent, serial.writeResults, ResetByte)
    }

    /** connect on a named device: open it, reset the machine, wait 2 s and read the banner
        for 1 s; a banner holding "Grbl" starts the session, anything else closes the port.
        The device name is recorded once the open succeeds and is kept when no banner
        comes. */
    method Attach(portName: string, baudRate: int) returns (ok: bool)
      requires !connected && serial != null && serial.env == env
      requires serial.sent == []
      modifies this, env, serial
      ensures var link := NextLink(old(env.links));
              var b := Banner(link, old(env.now));
              && env.links == LaterLinks(old(env.links)) && env.openCalls == old(env.openCalls) + [portName]
              && (ok <==> Opens(link) && Contains(b.text, BannerToken))
              && (Opens(link) ==> port == portName && env.now == b.now)
              && (!Opens(link) ==> port == old(port) && env.now == old(env.now))
              && (ok ==> serial == old(serial) && Attached(portName, baudRate, link, b)
                         && events == old(events) + [Connected(portName, version)])
              && (!ok ==> !connected && serial == null && version == old(version) && events == old(events))
    {
      ghost var link := NextLink(env.links);
      ghost var now0 := env.now;
      var ready := serial.Open(portName, baudRate);
      if !ready {
        serial := null;
        return false;
      }
      port := portName;
      assert serial.rx == Flushed(link.incoming, now0) && serial.writeResults == link.writeResults;
      var response := Restart(serial, BannerTimeout);
      if Contains(response, BannerToken) {
        Greet(response);
        return true;
      }
      serial.Close();
      serial := null;
      return false;
    }

    /** The start of a session on a banner holding "Grbl": its first line holding "Grbl"
        becomes the version, and one event names the port and the version. */
    method Greet(response: string)
      requires Contains(response, BannerToken)
      modifies this`version, this`connected, this`events
      ensures BannerLine(Lines(response)).Some? && version == BannerLine(Lines(response)).value
      ensures connected && events == old(events) + [Connected(port, version)]
    {
      var v := VersionOf(response);
      BannerFound(response);
      if v.Some? {
        version := v.value;
      }
      connected := true;
      events := events + [Connected(port, version)];
    }

    /** One probe of auto-detection: a port of its own is opened on `p`, sent the reset
        byte, and read for 1 s after 2 s; then it is closed. The result is what it read,
        or none when the open failed. */
    method Probe(p: string, baudRate: int, ghost read: (Link, nat) -> BlobRead) returns (response: Option<string>)
      requires ReadsBanner(read)
      modifies env
      ensures var link := NextLink(old(env.links));
              && env.links == LaterLinks(old(env.links)) && env.openCalls == old(env.openCalls) + [p]
              && (Opens(link) ==> response == Some(read(link, old(env.now)).text)
                                  && env.now == read(link, old(env.now)).now)
              && (!Opens(link) ==> response == None && env.now == old(env.now))
    {
      ghost var link := NextLink(env.links);
      ghost var now := env.now;
      var probe := new SerialPort(env);
      var ready := probe.Open(p, baudRate);
      if !ready {
        return None;
      }
      assert probe.rx == Flushed(link.incoming, now);
      var text := ReadBanner(probe);
      assert read(link, now) == Banner(link, now);
      return Some(text);
    }

    /** The session's own port, opened on `p` once its probe found the banner; the port
        is recorded when the open succeeds and the session port dropped when it fails. */
    method Adopt(p: string, baudRate: int) returns (ready: bool)
      modifies this`serial, this`port, env
      ensures var link := NextLink(old(env.links));
              && env.links == LaterLinks(old(env.links)) && env.openCalls == old(env.openCalls) + [p]
              && env.now == old(env.now)
              && (ready <==> Opens(link))
              && (ready ==> && fresh(serial) && serial.env == env && serial.IsOpen()
                            && serial.fd == link.fd && serial.device == p && serial.speed == BaudSpeed(baudRate)
                            && serial.rx == Flushed(link.incoming, env.now)
                            && serial.writeResults == link.writeResults && serial.sent == []
                            && port == p)
              && (!ready ==> serial == null && port == old(port))
    {
      serial := new SerialPort(env);
      ready := serial.Open(p, baudRate);
      if !ready {
        serial := null;
        return;
      }
      port := p;
    }

    /** The second open of a port whose probe found the banner `response`: on success the
        session starts on it. */
    method Settle(p: string, baudRate: int, response: string) returns (ready: bool)
      requires !connected && Contains(response, BannerToken)
      modifies this, env
      ensures var link := NextLink(old(env.links));
              && env.links == LaterLinks(old(env.links)) && env.openCalls == old(env.openCalls) + [p]
              && env.now == old(env.now)
              && (ready <==> Opens(link))
              && (ready ==> && fresh(serial) && AdoptedOn(p, response, link, env.now, baudRate)
                            && events == old(events) + [Connected(p, version)])
              && (!ready ==> !connected && port == old(port) && version == old(version) && events == old(events))
    {
      ready := Adopt(p, baudRate);
      if ready {
        Greet(response);
      }
    }

    /** One round of autoDetectPort's loop: the probe of `p`, and the session on it when its
        banner holds "Grbl" and it opens again. */
    method TryPort(p: string, baudRate: int, ghost read: (Link, nat) -> BlobRead) returns (adopted: bool)
      requires !connected && ReadsBanner(read)
      modifies this, env
      ensures var t := Tried(p, old(env.links), old(env.now), read);
              && (adopted <==> t.found.Some?)
              && env.links == t.links && env.now == t.now && env.openCalls == old(env.openCalls) + t.calls
              && (adopted ==> && fresh(serial) && AdoptedOn(p, t.banner, t.adopted, t.now, baudRate)
                              && events == old(events) + [Connected(p, version)])
              && (!adopted ==> !connected && port == old(port) && version == old(version) && events == old(events))
    {
      ghost var links, now, calls := env.links, env.now, env.openCalls;
      var response := Probe(p, baudRate, read);
      if response.None? || !Contains(response.value, BannerToken) {
        return false;
      }
      adopted := Settle(p, baudRate, response.value);
      TwoOpens(calls, p);
    }

    /** autoDetectPort: each listed port in order is probed; the first whose banner holds
        "Grbl" and that opens again becomes the session, and no later port is tried. */
    method AutoDetectPort(baudRate: int, ghost read: (Link, nat) -> BlobRead) returns (found: bool)
      requires !connected && ReadsBanner(read)
      modifies this, env
      ensures var d := DetectFrom(PortList(env.devEntries), 0, old(env.links), old(env.now), read);
              && (found <==> d.found.Some?)
              && env.links == d.links && env.now == d.now && env.openCalls == old(env.openCalls) + d.calls
              && (found ==> && fresh(serial) && Adopts(d, baudRate)
                            && events == old(events) + [Connected(port, version)])
              && (!found ==> !connected && port == old(port) && version == old(version) && events == old(events))
    {
      var ports := Serial.ListPorts(env);
      ghost var goal := DetectFrom(ports, 0, env.links, env.now, read);
      var i := 0;
      while i < |ports|
        invariant i <= |ports|
        invariant !connected && port == old(port) && version == old(version) && events == old(events)
        invariant Prepended(old(env.openCalls), goal)
               == Prepended(env.openCalls, DetectFrom(ports, i, env.links, env.now, read))
        decreases |ports| - i
      {
        var p := ports[i];
        ghost var links, now, before := env.links, env.now, env.openCalls;
        ghost var t := Tried(p, links, now, read);
        var adopted := TryPort(p, baudRate, read);
        if adopted {
          DetectDone(ports, i, links, now, read, before, t);
          return true;
        }
        DetectAdvance(ports, i, links, now, read, before, t);
        i := i + 1;
      }
      return false;
    }

    /** Ends the session: the port is closed, one event names it, and the port and
        version are forgotten. Without a session nothing happens. */
    method Disconnect()
      requires Valid()
      modifies this, serial
      ensures Valid() && !connected && serial == null
      ensures old(connected) ==> && !old(serial).IsOpen() && old(serial).device == []
                                 && port == [] && version == []
                                 && events == old(events) + [Disconnected(old(port))]
      ensures !old(connected) ==> port == old(port) && version == old(version) && events == old(events)
    {
      if serial != null && connected {
        serial.Close();
        serial := null;
        connected := false;
        events := events + [Disconnected(port)];
        port := [];
        version := [];
      }
    }

    // ------------------------------------------------------------------------- answers

    /** One line of an answer, read with the 500 ms a line is given. */
    method ReadReply() returns (line: string)
      requires Valid() && connected
      modifies Session()`rx, env`now
      ensures var r := NextLine(old(serial.rx), old(env.now));
              line == r.line && serial.rx == r.rest && env.now == r.now
    {
      line := serial.ReadLine(LineTimeout);
    }

    /** waitForOk: lines are read until one ends the answer or `timeoutMs` ms have passed;
        the result is the answer's text. */
    method WaitForOk(timeoutMs: int := DefaultCommandTimeout) returns (text: string)
      requires Valid() && connected
      modifies Session()`rx, env`now
      ensures var a := WaitFrom(old(serial.rx), old(env.now), old(env.now), timeoutMs);
              text == AnswerText(a) && serial.rx == a.rest && env.now == a.now
    {
      var start := env.now;
      ghost var goal := WaitFrom(serial.rx, start, start, timeoutMs);
      ghost var done: seq<string> := [];
      text := [];
      while true
        invariant start <= env.now
        invariant text == Joined(done)
        invariant goal == After(done, WaitFrom(serial.rx, env.now, start, timeoutMs))
        decreases Left(env.now, start, timeoutMs), Size(serial.rx)
      {
        ghost var rx, now := serial.rx, env.now;
        ghost var r := NextLine(rx, now);
        WaitStep(rx, now, start, timeoutMs, done);
        var line := ReadReply();
        assert line == r.line && serial.rx == r.rest && env.now == r.now;
        ghost var kept := done + Kept(line);
        if line != [] {
          JoinedSnoc(done, line);
          text := text + line + "\n";
        } else {
          assert kept == done;
        }
        done := kept;
        if line != [] && (Contains(line, "ok") || Contains(line, "error") || Contains(line, "ALARM")) {
          assert goal == Answer(done, false, serial.rx, env.now);
          return;
        }
        if env.now - start >= timeoutMs {
          assert goal == Answer(done, true, serial.rx, env.now);
          text := text + "timeout";
          return;
        }
      }
    }

    /** One command line written, then the answer waitForOk collects for it within
        `timeoutMs`; the write's result is not looked at. */
    method Exchange(data: string, timeoutMs: int) returns (text: string)
      requires Valid() && connected
      modifies Session()`writeResults, Session()`sent, Session()`rx, env`now
      ensures Valid()
      ensures Wrote(old(serial.sent), old(serial.writeResults), serial.sent, serial.writeResults, data)
      ensures var a := WaitFrom(old(serial.rx), old(env.now), old(env.now), timeoutMs);
              text == AnswerText(a) && serial.rx == a.rest && env.now == a.now
    {
      var _ := serial.Write(data);
      text := WaitForOk(timeoutMs);
    }

    /** A command whose success is an answer holding "ok": it succeeds exactly when the
        machine acknowledged it before the deadline. */
    method Acknowledge(data: string, timeoutMs: int) returns (ok: bool)
      requires Valid() && connected
      modifies Session()`writeResults, Session()`sent, Session()`rx, env`now
      ensures Valid()
      ensures Wrote(old(serial.sent), old(serial.writeResults), serial.sent, serial.writeResults, data)
      ensures var a := WaitFrom(old(serial.rx), old(env.now), old(env.now), timeoutMs);
              serial.rx == a.rest && env.now == a.now && (ok <==> Acknowledged(a))
    {
      WaitOk(serial.rx, env.now, timeoutMs);
      var text := Exchange(data, timeoutMs);
      ok := Contains(text, "ok");
    }

    // ------------------------------------------------------------------------- commands

    /** home: `$H`, acknowledged within 30 s; success is told to the event handler. */
    method Home() returns (ok: bool)
      requires Valid()
      modifies this`events, Session()`writeResults, Session()`sent, Session()`rx, env`now
      ensures Valid()
      ensures !old(connected) ==> !ok && events == old(events) && env.now == old(env.now)
      ensures old(connected) ==>
                var a := WaitFrom(old(serial.rx), old(env.now), old(env.now), HomeTimeout);
                && Wrote(old(serial.sent), old(serial.writeResults), serial.sent, serial.writeResults, HomeCommand)
                && serial.rx == a.rest && env.now == a.now
                && (ok <==> Acknowledged(a))
                && events == old(events) + (if ok then [HomingComplete] else [])
    {
      if !connected || serial == null {
        return false;
      }
      ok := Acknowledge(HomeCommand, HomeTimeout);
      if ok {
        events := events + [HomingComplete];
      }
    }

    /** moveG0: the rapid move to the axes given, acknowledged within 5 s. */
    method MoveG0(x: Option<real>, y: Option<real>, z: Option<real>) returns (ok: bool)
      requires Valid()
      modifies Session()`writeResults, Session()`sent, Session()`rx, env`now
      ensures Valid()
      ensures !old(connected) ==> !ok && env.now == old(env.now)
      ensures old(connected) ==>
                var a := WaitFrom(old(serial.rx), old(env.now), old(env.now), MoveTimeout);
                && Wrote(old(serial.sent), old(serial.writeResults), serial.sent, serial.writeResults,
                         G0Command(x, y, z))
                && serial.rx == a.rest && env.now == a.now
                && (ok <==> Acknowledged(a))
    {
      if !connected || serial == null {
        return false;
      }
      ok := Acknowledge(G0Command(x, y, z), MoveTimeout);
    }

    /** moveG1: the feed move to the axes given at `feed`, acknowledged within 5 s. */
    method MoveG1(x: Option<real>, y: Option<real>, z: Option<real>, feed: real) returns (ok: bool)
      requires Valid()
      modifies Session()`writeResults, Session()`sent, Session()`rx, env`now
      ensures Valid()
      ensures !old(connected) ==> !ok && env.now == old(env.now)
      ensures old(connected) ==>
                var a := WaitFrom(old(serial.rx), old(env.now), old(env.now), MoveTimeout);
                && Wrote(old(serial.sent), old(serial.writeResults), serial.sent, serial.writeResults,
                         G1Command(x, y, z, feed))
                && serial.rx == a.rest && env.now == a.now
                && (ok <==> Acknowledged(a))
    {
      if !connected || serial == null {
        return false;
      }
      ok := Acknowledge(G1Command(x, y, z, feed), MoveTimeout);
    }

    /** jog: the relative jog of one axis at `feed`, acknowledged within 5 s. */
    method Jog(axis: char, distance: real, feed: real) returns (ok: bool)
      requires Valid()
      modifies Session()`writeResults, Session()`sent, Session()`rx, env`now
      ensures Valid()
      ensures !old(connected) ==> !ok && env.now == old(env.now)
      ensures old(connected) ==>
                var a := WaitFrom(old(serial.rx), old(env.now), old(env.now), MoveTimeout);
                && Wrote(old(serial.sent), old(serial.writeResults), serial.sent, serial.writeResults,
                         JogCommand(axis, distance, feed))
                && serial.rx == a.rest && env.now == a.now
                && (ok <==> Acknowledged(a))
    {
      if !connected || serial == null {
        return false;
      }
      ok := Acknowledge(JogCommand(axis, distance, feed), MoveTimeout);
    }

    /** unlock: `$X`, acknowledged within 2 s; success is told to the event handler. */
    method Unlock() returns (ok: bool)
      requires Valid()
      modifies this`events, Session()`writeResults, Session()`sent, Session()`rx, env`now
      ensures Valid()
      ensures !old(connected) ==> !ok && events == old(events) && env.now == old(env.now)
      ensures old(connected) ==>
                var a := WaitFrom(old(serial.rx), old(env.now), old(env.now), UnlockTimeout);
                && Wrote(old(serial.sent), old(serial.writeResults), serial.sent, serial.writeResults, UnlockCommand)
                && serial.rx == a.rest && env.now == a.now
                && (ok <==> Acknowledged(a))
                && events == old(events) + (if ok then [Unlocked] else [])
    {
      if !connected || serial == null {
        return false;
      }
      ok := Acknowledge(UnlockCommand, UnlockTimeout);
      if ok {
        events := events + [Unlocked];
      }
    }

    /** setSetting: `$<id>=<value>` with three decimals, acknowledged within 2 s; success
        is told to the event handler with the id and the value asked for. */
    method SetSetting(id: int, value: real) returns (ok: bool)
      requires Valid()
      modifies this`events, Session()`writeResults, Session()`sent, Session()`rx, env`now
      ensures Valid()
      ensures !old(connected) ==> !ok && events == old(events) && env.now == old(env.now)
      ensures old(connected) ==>
                var a := WaitFrom(old(serial.rx), old(env.now), old(env.now), SettingTimeout);
                && Wrote(old(serial.sent), old(serial.writeResults), serial.sent, serial.writeResults,
                         SettingText(id, value))
                && serial.rx == a.rest && env.now == a.now
                && (ok <==> Acknowledged(a))
                && events == old(events) + (if ok then [SettingChanged(id, value)] else [])
    {
      if !connected || serial == null {
        return false;
      }
      ok := Acknowledge(SettingText(id, value), SettingTimeout);
      if ok {
        events := events + [SettingChanged(id, value)];
      }
    }

    /** sendCommand: any command line, and the text of the answer collected within
        `timeoutMs`; without a session, the not-connected error text. */
    method SendCommand(cmd: string, timeoutMs: int := DefaultCommandTimeout) returns (text: string)
      requires Valid()
      modifies Session()`writeResults, Session()`sent, Session()`rx, env`now
      ensures Valid()
      ensures !old(connected) ==> text == NotConnected && env.now == old(env.now)
      ensures old(connected) ==>
                var a := WaitFrom(old(serial.rx), old(env.now), old(env.now), timeoutMs);
                && Wrote(old(serial.sent), old(serial.writeResults), serial.sent, serial.writeResults, cmd)
                && text == AnswerText(a) && serial.rx == a.rest && env.now == a.now
    {
      if !connected || serial == null {
        return NotConnected;
      }
      text := Exchange(cmd, timeoutMs);
    }

    // ------------------------------------------------------------------------- real-time bytes

    /** sendRealTimeCommand: one byte, unframed, with no answer awaited; the result is
        whether the byte was written. */
    method SendRealTimeCommand(b: char) returns (ok: bool)
      requires Valid() && b as int < 256
      modifies Session()`writeResults, Session()`sent
      ensures Valid()
      ensures !old(connected) ==> !ok
      ensures old(connected) ==>
                && WroteByte(old(serial.sent), old(serial.writeResults), serial.sent, serial.writeResults, b)
                && (ok <==> Accepted(old(serial.writeResults), 1) == 1)
    {
      if !connected || serial == null {
        return false;
      }
      ok := serial.WriteByte(b);
    }

    /** cancelJog: the jog-cancel byte. */
    method CancelJog() returns (ok: bool)
      requires Valid()
      modifies Session()`writeResults, Session()`sent
      ensures Valid()
      ensures !old(connected) ==> !ok
      ensures old(connected) ==>
                && WroteByte(old(serial.sent), old(serial.writeResults), serial.sent, serial.writeResults, JogCancelByte)
                && (ok <==> Accepted(old(serial.writeResults), 1) == 1)
    {
      ok := SendRealTimeCommand(JogCancelByte);
    }

    /** feedHold: the feed-hold byte; a successful write is told to the event handler. */
    method FeedHold() returns (ok: bool)
      requires Valid()
      modifies this`events, Session()`writeResults, Session()`sent
      ensures Valid()
      ensures !old(connected) ==> !ok && events == old(events)
      ensures old(connected) ==>
                && WroteByte(old(serial.sent), old(serial.writeResults), serial.sent, serial.writeResults, FeedHoldByte)
                && (ok <==> Accepted(old(serial.writeResults), 1) == 1)
                && events == old(events) + (if ok then [FeedHoldSent] else [])
    {
      ok := SendRealTimeCommand(FeedHoldByte);
      if ok {
        events := events + [FeedHoldSent];
      }
    }

    /** cycleStart: the cycle-start byte; a successful write is told to the event handler. */
    method CycleStart() returns (ok: bool)
      requires Valid()
      modifies this`events, Session()`writeResults, Session()`sent
      ensures Valid()
      ensures !old(connected) ==> !ok && events == old(events)
      ensures old(connected) ==>
                && WroteByte(old(serial.sent), old(serial.writeResults), serial.sent, serial.writeResults, CycleStartByte)
                && (ok <==> Accepted(old(serial.writeResults), 1) == 1)
                && events == old(events) + (if ok then [CycleStartSent] else [])
    {
      ok := SendRealTimeCommand(CycleStartByte);
      if ok {
        events := events + [CycleStartSent];
      }
    }

    /** softReset: the reset byte, whatever the write returns; 2 s for the machine to
        restart; everything it says within 500 ms is read and dropped. With a session it
        always succeeds, and tells the event handler. */
    method SoftReset() returns (ok: bool)
      requires Valid()
      modifies this`events, Session()`writeResults, Session()`sent, Session()`rx, env`now
      ensures Valid()
      ensures !old(connected) ==> !ok && events == old(events) && env.now == old(env.now)
      ensures old(connected) ==>
                var r := Restarted(old(serial.rx), old(env.now), ResetDrainTimeout);
                && ok
                && WroteByte(old(serial.sent), old(serial.writeResults), serial.sent, serial.writeResults, ResetByte)
                && serial.rx == r.rest && env.now == r.now
                && events == old(events) + [ResetSent]
    {
      if !connected || serial == null {
        return false;
      }
      var _ := Restart(serial, ResetDrainTimeout);
      events := events + [ResetSent];
      return true;
    }

    // ------------------------------------------------------------------------- status

    /** getStatus: the status query byte, then one line read within 500 ms; a status
        report is parsed, any other line gives the unknown state, and without a session
        the state is "Disconnected". */
    method GetStatus() returns (st: GrblStatus)
      requires Valid()
      modifies Session()`writeResults, Session()`sent, Session()`rx, env`now
      ensures Valid()
      ensures !old(connected) ==> st == FreshStatus.(state := "Disconnected") && env.now == old(env.now)
      ensures old(connected) ==>
                var r := NextLine(old(serial.rx), old(env.now));
                && WroteByte(old(serial.sent), old(serial.writeResults), serial.sent, serial.writeResults, StatusQuery)
                && serial.rx == r.rest && env.now == r.now
                && st == Reported(r.line)
    {
      if !connected || serial == null {
        return FreshStatus.(state := "Disconnected");
      }
      var _ := serial.WriteByte(StatusQuery);
      var line := ReadReply();
      st := Reported(line);
    }

    /** getState: the state of getStatus' report. */
    method GetState() returns (state: string)
      requires Valid()
      modifies Session()`writeResults, Session()`sent, Session()`rx, env`now
      ensures Valid()
      ensures !old(connected) ==> state == "Disconnected" && env.now == old(env.now)
      ensures old(connected) ==>
                var r := NextLine(old(serial.rx), old(env.now));
                && WroteByte(old(serial.sent), old(serial.writeResults), serial.sent, serial.writeResults, StatusQuery)
                && serial.rx == r.rest && env.now == r.now
                && state == (if r.line != [] && r.line[0] == '<' then StateOf(r.line) else "Unknown")
    {
      var st := GetStatus();
      state := st.state;
    }

    // ------------------------------------------------------------------------- settings

    /** getSettings' loop: lines read one at a time, each kept with its "\n", until an
        empty read, a line holding "ok", or a line read once 5 s have passed. */
    method ReadListing() returns (all: string)
      requires Valid() && connected
      modifies Session()`rx, env`now
      ensures Valid()
      ensures var d := DumpFrom(old(serial.rx), old(env.now), old(env.now));
              all == Joined(d.lines) && serial.rx == d.rest && env.now == d.now
    {
      var start := env.now;
      ghost var goal := DumpFrom(serial.rx, start, start);
      ghost var done: seq<string> := [];
      all := [];
      while true
        invariant start <= env.now
        invariant all == Joined(done)
        invariant goal == Preceded(done, DumpFrom(serial.rx, env.now, start))
        decreases Size(serial.rx)
      {
        ghost var rx, now := serial.rx, env.now;
        ghost var r := NextLine(rx, now);
        DumpStep(rx, now, start, done);
        var line := ReadReply();
        assert line == r.line && serial.rx == r.rest && env.now == r.now;
        if line == [] {
          assert goal == Dump(done, serial.rx, env.now);
          return;
        }
        JoinedSnoc(done, line);
        all := all + line + "\n";
        done := done + [line];
        if Contains(line, "ok") {
          assert goal == Dump(done, serial.rx, env.now);
          return;
        }
        var elapsed := env.now - start;
        if elapsed > SettingsReadLimit {
          assert goal == Dump(done, serial.rx, env.now);
          return;
        }
      }
    }

    /** getSettings: `$$`, then the listing, parsed line by line. The settings are those of
        the lines read, in order; none is the exception a line's number throws. Without a
        session the list is empty. */
    method GetSettings() returns (r: Option<seq<GrblSetting>>)
      requires Valid()
      modifies Session()`writeResults, Session()`sent, Session()`rx, env`now
      ensures Valid()
      ensures !old(connected) ==> r == Some([]) && env.now == old(env.now)
      ensures old(connected) ==>
                var d := DumpFrom(old(serial.rx), old(env.now), old(env.now));
                && Wrote(old(serial.sent), old(serial.writeResults), serial.sent, serial.writeResults, SettingsCommand)
                && serial.rx == d.rest && env.now == d.now
                && r == SettingsOf(d.lines)
    {
      if !connected || serial == null {
        return Some([]);
      }
      var _ := serial.Write(SettingsCommand);
      DumpText(serial.rx, env.now);
      var all := ReadListing();
      r := ParseSettings(all);
    }
  }
}
