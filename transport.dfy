/**
 * The adapters the logger can hold and what their `write` and `send` do to the
 * outside world. The socket is an external collaborator: `fsockopen` on
 * `udp://server:port` either yields a handle or an (errno, errstr) pair, and
 * the model takes that answer as a function of the endpoint. A successful send
 * writes one datagram, which the model records in a Network object.
 */
module Transport {
  import opened Wrappers
  import opened Php
  import opened AbstractAdapter
  import SyslogAdapter
  import LegacySyslogAdapter

  /** The constructor defaults shared by every SyslogAdapter copy. */
  const DefaultServer := "127.0.0.1"
  const DefaultPort := 514

  /**
   * A configured adapter: the current SyslogAdapter or the older copy. Server
   * and port are set by the constructor, with the defaults above, and never
   * changed afterwards, so an adapter is a value.
   */
  datatype Adapter =
    | Syslog(server: string := DefaultServer, port: int := DefaultPort)
    | LegacySyslog(server: string := DefaultServer, port: int := DefaultPort)

  /** What `fsockopen` reports for an endpoint. */
  datatype SendOutcome = Opened | OpenFailed(errno: int, errstr: string)

  /** The environment's answer to opening a UDP socket to (server, port). */
  type Opener = (string, int) -> SendOutcome

  /** One UDP datagram as it leaves the process. */
  datatype Datagram = Datagram(server: string, port: int, payload: string)

  /** The datagrams sent so far, in order. */
  class Network {
    var sent: seq<Datagram>

    constructor ()
      ensures sent == []
    {
      sent := [];
    }
  }

  /** The line an adapter's `write` hands to `send`, or None when it returns before sending. */
  function Payload(a: Adapter, e: SyslogAdapter.Event): (r: Option<string>)
    ensures r.Some? ==> |r.value| > 0 && r.value[0] == '<'
    ensures a.LegacySyslog? ==> r.Some?
  {
    match a
    case Syslog(_, _) => SyslogAdapter.Line(e)
    case LegacySyslog(_, _) => LegacySyslogAdapter.Line(e)
  }

  /** What `send` returns: the message itself, or "ERROR: <errno> - <errstr>". */
  function SendResult(message: string, outcome: SendOutcome): (r: string)
    ensures outcome.Opened? ==> r == message
    ensures outcome.OpenFailed? ==> |r| > 7 && r[..7] == "ERROR: "
  {
    match outcome
    case Opened => message
    case OpenFailed(errno, errstr) => "ERROR: " + IntToString(errno) + " - " + errstr
  }

  /** The PRI an adapter writes: unclamped for the current adapter, clamped for the older one. */
  function AdapterPriority(a: Adapter, facility: int, severity: int): int {
    match a
    case Syslog(_, _) => CalcPriority(facility, severity)
    case LegacySyslog(_, _) => ClampedPriority(facility, severity)
  }

  /** The datagrams one `write` puts on the wire: none or one. */
  function Emitted(a: Adapter, e: SyslogAdapter.Event, open: Opener): (r: seq<Datagram>)
    ensures |r| <= 1
    ensures forall d :: d in r ==> d.server == a.server && d.port == a.port && Payload(a, e) == Some(d.payload)
  {
    match Payload(a, e)
    case None => []
    case Some(line) =>
      if open(a.server, a.port).Opened? then [Datagram(a.server, a.port, line)] else []
  }

  /** `send`: open the socket, write the whole message as one datagram, close it. */
  method Send(a: Adapter, message: string, open: Opener, net: Network) returns (r: string)
    modifies net
    ensures r == SendResult(message, open(a.server, a.port))
    ensures net.sent == old(net.sent) +
              (if open(a.server, a.port).Opened? then [Datagram(a.server, a.port, message)] else [])
  {
    var outcome := open(a.server, a.port);
    if outcome.Opened? {
      net.sent := net.sent + [Datagram(a.server, a.port, message)];
      r := message;
    } else {
      r := "ERROR: " + IntToString(outcome.errno) + " - " + outcome.errstr;
    }
  }

  /** `write`: build the line and send it, or return nothing before any I/O. */
  method Write(a: Adapter, e: SyslogAdapter.Event, open: Opener, net: Network) returns (r: Option<string>)
    modifies net
    ensures Payload(a, e).None? ==> r == None
    ensures Payload(a, e).Some? ==> r == Some(SendResult(Payload(a, e).value, open(a.server, a.port)))
    ensures net.sent == old(net.sent) + Emitted(a, e, open)
  {
    var line := Payload(a, e);
    if line.None? {
      return None;
    }
    var result := Send(a, line.value, open, net);
    return Some(result);
  }

  /** An adapter built without arguments sends to 127.0.0.1:514, and `write` never changes where it sends. */
  lemma DefaultEndpoint(e: SyslogAdapter.Event, open: Opener)
    ensures Syslog().server == "127.0.0.1" && Syslog().port == 514
    ensures LegacySyslog().server == "127.0.0.1" && LegacySyslog().port == 514
    ensures forall d :: d in Emitted(Syslog(), e, open) ==> d.server == "127.0.0.1" && d.port == 514
  {
  }

  /**
   * A caller can tell the outcome from `write`'s result: it is the line exactly
   * when the socket opened, and otherwise starts with "ERROR: ".
   */
  lemma WriteResultReportsOutcome(a: Adapter, e: SyslogAdapter.Event, outcome: SendOutcome)
    requires Payload(a, e).Some?
    ensures SendResult(Payload(a, e).value, outcome) == Payload(a, e).value <==> outcome.Opened?
    ensures outcome.OpenFailed? ==> SendResult(Payload(a, e).value, outcome)[..7] == "ERROR: "
  {
    var line := Payload(a, e).value;
    if outcome.OpenFailed? {
      var r := SendResult(line, outcome);
      assert r[0] == 'E';
    }
  }

  /** A `write` puts at most one datagram on the wire, addressed to the adapter's endpoint and carrying its line. */
  lemma EmittedAtMostOne(a: Adapter, e: SyslogAdapter.Event, open: Opener)
    ensures |Emitted(a, e, open)| <= 1
    ensures |Emitted(a, e, open)| == 1 <==> Payload(a, e).Some? && open(a.server, a.port).Opened?
    ensures |Emitted(a, e, open)| == 1 ==>
              Emitted(a, e, open)[0] == Datagram(a.server, a.port, Payload(a, e).value)
  {
  }

  /** The severity never decides whether an adapter sends: only the message and the socket do. */
  lemma EmittedIgnoresSeverity(a: Adapter, e: SyslogAdapter.Event, open: Opener, severity: int)
    ensures |Emitted(a, e.(severity := severity), open)| == |Emitted(a, e, open)|
  {
  }

  /** A datagram an adapter sends carries that adapter's PRI for the event's facility and severity. */
  lemma EmittedPriority(a: Adapter, e: SyslogAdapter.Event, open: Opener)
    ensures forall d :: d in Emitted(a, e, open) ==>
              SyslogAdapter.ParsePriority(d.payload) == Some(AdapterPriority(a, e.facility, e.severity))
  {
    if Emitted(a, e, open) != [] {
      match a
      case Syslog(_, _) => SyslogAdapter.LinePriority(e);
      case LegacySyslog(_, _) => LegacySyslogAdapter.LinePriority(e);
    }
  }
}
