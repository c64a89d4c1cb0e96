/**
 * The Logger: its identity (facility, hostname, app name), a stored severity,
 * and the ordered list of adapters every log call is handed to. Setters replace
 * one field and nothing else; the level methods fix a severity and pass the
 * same event to every adapter in insertion order, without any filtering.
 * The process environment and the clock are parameters.
 */
module Logger {
  import opened Wrappers
  import opened Php
  import opened AbstractAdapter
  import opened SyslogAdapter
  import opened Transport

  /** The two environment variables the constructor consults, when set. */
  datatype Env = Env(computerName: Option<string>, hostName: Option<string>)

  const FallbackHostname := "webserver"
  const DefaultApp := "php"

  /** The constructor's hostname: the given one unless it is "", then COMPUTERNAME, HOSTNAME, "webserver". */
  function ResolveHostname(hostname: string, env: Env): (h: string)
    ensures hostname != "" ==> h == hostname
    ensures hostname == "" && env.computerName.Some? ==> h == env.computerName.value
    ensures hostname == "" && env.computerName.None? && env.hostName.Some? ==> h == env.hostName.value
    ensures hostname == "" && env.computerName.None? && env.hostName.None? ==> h == FallbackHostname
    ensures h == "" ==>
              hostname == "" &&
              (env.computerName == Some("") || (env.computerName.None? && env.hostName == Some("")))
  {
    if hostname != "" then hostname
    else if env.computerName.Some? then env.computerName.value
    else if env.hostName.Some? then env.hostName.value
    else FallbackHostname
  }

  /** The constructor's app name: the given one unless it is "", then "php". */
  function ResolveApp(app: string): (a: string)
    ensures a != ""
    ensures app != "" ==> a == app
    ensures app == "" ==> a == DefaultApp
  {
    if app == "" then DefaultApp else app
  }

  /** The datagrams one dispatch of `e` puts on the wire: each adapter's, in list order. */
  function Fanout(adapters: seq<Adapter>, e: Event, open: Opener): (r: seq<Datagram>)
    ensures forall d :: d in r ==> exists a :: a in adapters && d in Emitted(a, e, open)
    decreases |adapters|
  {
    if adapters == [] then []
    else Emitted(adapters[0], e, open) + Fanout(adapters[1..], e, open)
  }

  /** Dispatching to one more adapter appends exactly that adapter's datagrams. */
  lemma {:induction false} FanoutSnoc(adapters: seq<Adapter>, a: Adapter, e: Event, open: Opener)
    ensures Fanout(adapters + [a], e, open) == Fanout(adapters, e, open) + Emitted(a, e, open)
    decreases |adapters|
  {
    if adapters == [] {
      assert adapters + [a] == [a];
    } else {
      assert (adapters + [a])[1..] == adapters[1..] + [a];
      FanoutSnoc(adapters[1..], a, e, open);
    }
  }

  /** Dispatching to a concatenated list is dispatching to each part in turn. */
  lemma {:induction false} FanoutAppend(xs: seq<Adapter>, ys: seq<Adapter>, e: Event, open: Opener)
    ensures Fanout(xs + ys, e, open) == Fanout(xs, e, open) + Fanout(ys, e, open)
    decreases |xs|
  {
    if xs == [] {
      assert xs + ys == ys;
    } else {
      assert (xs + ys)[1..] == xs[1..] + ys;
      FanoutAppend(xs[1..], ys, e, open);
    }
  }

  /** At most one datagram per adapter. */
  lemma {:induction false} FanoutAtMost(adapters: seq<Adapter>, e: Event, open: Opener)
    ensures |Fanout(adapters, e, open)| <= |adapters|
    decreases |adapters|
  {
    if adapters != [] {
      EmittedAtMostOne(adapters[0], e, open);
      FanoutAtMost(adapters[1..], e, open);
    }
  }

  /**
   * No adapter is skipped: when every adapter builds a line and every socket
   * opens, datagram i is adapter i's line to adapter i's endpoint.
   */
  lemma {:induction false} FanoutEach(adapters: seq<Adapter>, e: Event, open: Opener)
    requires forall i :: 0 <= i < |adapters| ==>
               Payload(adapters[i], e).Some? && open(adapters[i].server, adapters[i].port).Opened?
    ensures |Fanout(adapters, e, open)| == |adapters|
    ensures forall i :: 0 <= i < |adapters| ==>
              Fanout(adapters, e, open)[i] ==
              Datagram(adapters[i].server, adapters[i].port, Payload(adapters[i], e).value)
    decreases |adapters|
  {
    if adapters != [] {
      var a, tail := adapters[0], adapters[1..];
      assert forall i :: 0 <= i < |tail| ==> tail[i] == adapters[i + 1];
      FanoutEach(tail, e, open);
      var first := Datagram(a.server, a.port, Payload(a, e).value);
      assert Emitted(a, e, open) == [first];
      assert Fanout(adapters, e, open) == [first] + Fanout(tail, e, open);
    }
  }

  /** The severity never changes how many datagrams a dispatch sends: there is no threshold. */
  lemma {:induction false} FanoutIgnoresSeverity(adapters: seq<Adapter>, e: Event, open: Opener, severity: int)
    ensures |Fanout(adapters, e.(severity := severity), open)| == |Fanout(adapters, e, open)|
    decreases |adapters|
  {
    if adapters != [] {
      EmittedIgnoresSeverity(adapters[0], e, open, severity);
      FanoutIgnoresSeverity(adapters[1..], e, open, severity);
    }
  }

  /**
   * Every datagram of a dispatch comes from one of the logger's adapters, goes
   * to that adapter's endpoint and carries that adapter's PRI for the event:
   * `facility * 8 + severity` from a current adapter, the clamped value from an
   * older one.
   */
  lemma FanoutPriorities(adapters: seq<Adapter>, e: Event, open: Opener)
    ensures forall d :: d in Fanout(adapters, e, open) ==>
              exists a :: a in adapters && d in Emitted(a, e, open) &&
                d.server == a.server && d.port == a.port &&
                ParsePriority(d.payload) == Some(AdapterPriority(a, e.facility, e.severity))
  {
    forall a | a in adapters
      ensures forall d :: d in Emitted(a, e, open) ==>
                ParsePriority(d.payload) == Some(AdapterPriority(a, e.facility, e.severity))
    {
      EmittedPriority(a, e, open);
    }
  }

  class Logger {
    var facility: int
    var severity: int
    var hostname: string
    var app: string
    var adapters: seq<Adapter>

    /** `new Logger($facility = 1, $severity = 7, $hostname = "", $app = "")`, reading the environment. */
    constructor (env: Env, facility: int := 1, severity: int := 7, hostname: string := "", app: string := "")
      ensures this.facility == facility && this.severity == severity
      ensures this.hostname == ResolveHostname(hostname, env)
      ensures this.app == ResolveApp(app)
      ensures adapters == []
    {
      this.facility := facility;
      this.severity := severity;
      this.hostname := hostname;
      this.app := app;
      adapters := [];
      new;
      if this.hostname == "" {
        if env.computerName.Some? {
          this.hostname := env.computerName.value;
        } else if env.hostName.Some? {
          this.hostname := env.hostName.value;
        } else {
          this.hostname := FallbackHostname;
        }
      }
      if this.app == "" {
        this.app := DefaultApp;
      }
    }

    /** `getFacility()`: the stored facility, as the constructor, the setters and the adapter-list methods left it. */
    function GetFacility(): (r: int)
      reads this
      ensures r == facility
    {
      facility
    }

    /** `getHostname()`: the stored hostname, as the constructor, the setters and the adapter-list methods left it. */
    function GetHostname(): (r: string)
      reads this
      ensures r == hostname
    {
      hostname
    }

    /** `getApp()`: the stored app name, as the constructor, the setters and the adapter-list methods left it. */
    function GetApp(): (r: string)
      reads this
      ensures r == app
    {
      app
    }

    /** `getAdapters()`: the stored adapters, as the constructor, the setters and the adapter-list methods left it. */
    function GetAdapters(): (r: seq<Adapter>)
      reads this
      ensures r == adapters
    {
      adapters
    }

    /** Replaces the facility, unvalidated; returns the logger itself. */
    method SetFacility(val: int) returns (self: Logger)
      modifies this
      ensures self == this
      ensures GetFacility() == val
      ensures severity == old(severity) && hostname == old(hostname) && app == old(app)
      ensures adapters == old(adapters)
    {
      facility := val;
      self := this;
    }

    /** Replaces the hostname, unvalidated; returns the logger itself. */
    method SetHostname(val: string) returns (self: Logger)
      modifies this
      ensures self == this
      ensures GetHostname() == val
      ensures facility == old(facility) && severity == old(severity) && app == old(app)
      ensures adapters == old(adapters)
    {
      hostname := val;
      self := this;
    }

    /** Replaces the app name, unvalidated; returns the logger itself. */
    method SetApp(val: string) returns (self: Logger)
      modifies this
      ensures self == this
      ensures GetApp() == val
      ensures facility == old(facility) && severity == old(severity) && hostname == old(hostname)
      ensures adapters == old(adapters)
    {
      app := val;
      self := this;
    }

    /** Empties the adapter list. */
    method ClearAdapters()
      modifies this
      ensures GetAdapters() == []
      ensures facility == old(facility) && severity == old(severity)
      ensures hostname == old(hostname) && app == old(app)
    {
      adapters := [];
    }

    /** Appends an adapter at the end of the list. */
    method AddAdapter(a: Adapter)
      modifies this
      ensures GetAdapters() == old(GetAdapters()) + [a]
      ensures |GetAdapters()| == |old(GetAdapters())| + 1
      ensures forall i :: 0 <= i < |old(GetAdapters())| ==> GetAdapters()[i] == old(GetAdapters())[i]
      ensures facility == old(facility) && severity == old(severity)
      ensures hostname == old(hostname) && app == old(app)
    {
      adapters := adapters + [a];
    }

    /**
     * `_log`: one event with the given severity, the logger's facility, hostname
     * and app name and the caller's timestamp, written by every adapter in order.
     * The stored severity plays no part.
     */
    method Dispatch(severity: int, message: string, date: string, open: Opener, net: Network)
      modifies net
      ensures net.sent == old(net.sent) +
                Fanout(adapters, Event(severity, facility, hostname, app, date, message), open)
      ensures unchanged(this)
    {
      var e := Event(severity, facility, hostname, app, date, message);
      var list := adapters;
      ghost var before := net.sent;
      var i := 0;
      while i < |list|
        invariant 0 <= i <= |list|
        invariant net.sent == before + Fanout(list[..i], e, open)
      {
        FanoutSnoc(list[..i], list[i], e, open);
        assert list[..i + 1] == list[..i] + [list[i]];
        var _ := Write(list[i], e, open, net);
        i := i + 1;
      }
      assert list[..i] == list;
    }

    /** `log`: severity 7. */
    method Log(message: string, date: string, open: Opener, net: Network)
      modifies net
      ensures net.sent == old(net.sent) + Fanout(adapters, Event(7, facility, hostname, app, date, message), open)
    {
      Dispatch(7, message, date, open, net);
    }

    /** `emerg`: severity 0. */
    method Emerg(message: string, date: string, open: Opener, net: Network)
      modifies net
      ensures net.sent == old(net.sent) + Fanout(adapters, Event(0, facility, hostname, app, date, message), open)
    {
      Dispatch(0, message, date, open, net);
    }

    /** `alert`: severity 1. */
    method Alert(message: string, date: string, open: Opener, net: Network)
      modifies net
      ensures net.sent == old(net.sent) + Fanout(adapters, Event(1, facility, hostname, app, date, message), open)
    {
      Dispatch(1, message, date, open, net);
    }

    /** `critical`: severity 2. */
    method Critical(message: string, date: string, open: Opener, net: Network)
      modifies net
      ensures net.sent == old(net.sent) + Fanout(adapters, Event(2, facility, hostname, app, date, message), open)
    {
      Dispatch(2, message, date, open, net);
    }

    /** `error`: severity 3. */
    method Error(message: string, date: string, open: Opener, net: Network)
      modifies net
      ensures net.sent == old(net.sent) + Fanout(adapters, Event(3, facility, hostname, app, date, message), open)
    {
      Dispatch(3, message, date, open, net);
    }

    /** `warning`: severity 4. */
    method Warning(message: string, date: string, open: Opener, net: Network)
      modifies net
      ensures net.sent == old(net.sent) + Fanout(adapters, Event(4, facility, hostname, app, date, message), open)
    {
      Dispatch(4, message, date, open, net);
    }

    /** `notice`: severity 5. */
    method Notice(message: string, date: string, open: Opener, net: Network)
      modifies net
      ensures net.sent == old(net.sent) + Fanout(adapters, Event(5, facility, hostname, app, date, message), open)
    {
      Dispatch(5, message, date, open, net);
    }

    /** `info`: severity 6. */
    method Info(message: string, date: string, open: Opener, net: Network)
      modifies net
      ensures net.sent == old(net.sent) + Fanout(adapters, Event(6, facility, hostname, app, date, message), open)
    {
      Dispatch(6, message, date, open, net);
    }

    /** `debug`: severity 7, the same as `log`. */
    method Debug(message: string, date: string, open: Opener, net: Network)
      modifies net
      ensures net.sent == old(net.sent) + Fanout(adapters, Event(7, facility, hostname, app, date, message), open)
    {
      Dispatch(7, message, date, open, net);
    }
  }
}
