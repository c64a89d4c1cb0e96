/**
 * The current syslog adapter's line assembly: the priority without clamping,
 * the cleaned message, and a BSD-style header `<PRI>DATE[ HOST][ APP:] MSG`,
 * close to section 4.1 of RFC 3164. `write` hands the line to `send`, except
 * when nothing survives cleaning: then it returns before any I/O.
 */
module SyslogAdapter {
  import opened Wrappers
  import opened Php
  import opened AbstractAdapter

  /** The six arguments every adapter's `write` receives from the logger. */
  datatype Event = Event(
    severity: int,
    facility: int,
    hostname: string,
    appName: string,
    date: string,
    message: string)

  /** `' ' . $hostname`, appended only when the hostname is truthy. */
  function HostSegment(hostname: string): (h: string)
    ensures |h| > 0 <==> Truthy(hostname)
    ensures |h| > 0 ==> h[0] == ' ' && h[1..] == hostname
  {
    if Truthy(hostname) then " " + hostname else ""
  }

  /** `' ' . $appName . ':'`, appended only when the app name is truthy. */
  function AppSegment(appName: string): (a: string)
    ensures |a| > 0 <==> Truthy(appName)
    ensures |a| > 0 ==> |a| == |appName| + 2 && a[0] == ' ' && a[1..|a| - 1] == appName && a[|a| - 1] == ':'
  {
    if Truthy(appName) then " " + appName + ":" else ""
  }

  /** `sprintf('<%s>%s', $priority, $date)` followed by the optional segments. */
  function Header(priority: int, date: string, hostname: string, appName: string): (h: string)
    ensures |h| >= |date| + 3 && h[0] == '<'
    ensures |h| == |IntToString(priority)| + 2 + |date| <==> !Truthy(hostname) && !Truthy(appName)
  {
    "<" + IntToString(priority) + ">" + date + HostSegment(hostname) + AppSegment(appName)
  }

  /** The line `write` hands to `send`, or None when it returns before sending. */
  function Line(e: Event): (r: Option<string>)
    ensures r.None? <==> CleanMessage(e.message) == []
    ensures r.Some? ==> |r.value| > 0 && r.value[0] == '<'
  {
    var priority := CalcPriority(e.facility, e.severity);
    var msg := CleanMessage(e.message);
    if |msg| == 0 then None
    else Some(Header(priority, e.date, e.hostname, e.appName) + " " + msg)
  }

  /** Reads the PRI back from a line: the integer between the leading '<' and the first '>'. */
  function ParsePriority(line: string): Option<int> {
    if |line| == 0 || line[0] != '<' then None
    else
      var k := IndexOf(line, '>');
      if k < 1 then None else ParseInt(line[1..k])
  }

  /** Whatever follows the PRI, the PRI can be read back from the line. */
  lemma ParsePriorityOfHeader(priority: int, rest: string)
    ensures ParsePriority("<" + IntToString(priority) + ">" + rest) == Some(priority)
  {
    var digits := IntToString(priority);
    var front := "<" + digits;
    assert "<" + digits + ">" + rest == front + ['>'] + rest;
    forall j | 0 <= j < |front| ensures front[j] != '>' {
      if j > 0 {
        assert front[j] == digits[j - 1];
      }
    }
    IndexOfAfter(front, '>', rest);
    assert (front + ['>'] + rest)[1..|front|] == digits;
    ParseIntToString(priority);
  }

  /** `write` sends nothing exactly when the message holds no byte the filter keeps. */
  lemma LineSkipsIff(e: Event)
    ensures Line(e).None? <==> forall i :: 0 <= i < |e.message| ==> !IsKept(e.message[i])
  {
    CleanEmptyIff(e.message);
  }

  /** A sent line carries `facility * 8 + severity` as its PRI; for a valid pair both decode back. */
  lemma LinePriority(e: Event)
    requires Line(e).Some?
    ensures ParsePriority(Line(e).value) == Some(CalcPriority(e.facility, e.severity))
    ensures 0 <= e.facility <= 23 && 0 <= e.severity <= 7 ==>
              CalcPriority(e.facility, e.severity) / 8 == e.facility &&
              CalcPriority(e.facility, e.severity) % 8 == e.severity
  {
    var p := CalcPriority(e.facility, e.severity);
    var msg := CleanMessage(e.message);
    var rest := e.date + HostSegment(e.hostname) + AppSegment(e.appName) + " " + msg;
    assert Line(e).value == "<" + IntToString(p) + ">" + rest;
    ParsePriorityOfHeader(p, rest);
    if 0 <= e.facility <= 23 && 0 <= e.severity <= 7 {
      PriorityDecodes(e.facility, e.severity);
    }
  }

  /** A sent line always ends with a space and the cleaned message. */
  lemma LineEndsWithMessage(e: Event)
    requires Line(e).Some?
    ensures var line, msg := Line(e).value, CleanMessage(e.message);
            |msg| + 1 < |line| && line[|line| - |msg| - 1..] == " " + msg
  {
  }

  /** A falsy hostname ("" or "0") and a falsy app name leave no trace in the line. */
  lemma LineFalsyNames(e: Event)
    ensures !Truthy(e.hostname) ==> Line(e) == Line(e.(hostname := ""))
    ensures !Truthy(e.appName) ==> Line(e) == Line(e.(appName := ""))
  {
  }

  /** With a truthy hostname, the line is a fixed front, the hostname, then a fixed back. */
  lemma LineAroundHostname(e: Event, h: string)
    requires Truthy(h) && Line(e).Some?
    ensures Line(e.(hostname := h)) == Some(
              ("<" + IntToString(CalcPriority(e.facility, e.severity)) + ">" + e.date + " ")
              + h + (AppSegment(e.appName) + " " + CleanMessage(e.message)))
  {
    var pri := "<" + IntToString(CalcPriority(e.facility, e.severity)) + ">";
    var app, msg := AppSegment(e.appName), CleanMessage(e.message);
    calc {
      Line(e.(hostname := h)).value;
      pri + e.date + (" " + h) + app + " " + msg;
      (pri + e.date + " ") + h + (app + " " + msg);
    }
  }

  /** The hostname the logger passes is the one on the wire: distinct truthy hostnames give distinct lines. */
  lemma LineKeepsHostname(e: Event, h1: string, h2: string)
    requires Truthy(h1) && Truthy(h2) && h1 != h2
    requires Line(e).Some?
    ensures Line(e.(hostname := h1)) != Line(e.(hostname := h2))
  {
    var front := "<" + IntToString(CalcPriority(e.facility, e.severity)) + ">" + e.date + " ";
    var back := AppSegment(e.appName) + " " + CleanMessage(e.message);
    LineAroundHostname(e, h1);
    LineAroundHostname(e, h2);
    var l1, l2 := front + h1 + back, front + h2 + back;
    assert l1[|front|..|front| + |h1|] == h1;
    assert l2[|front|..|front| + |h2|] == h2;
  }

  /** Every byte of `s` is one the message filter keeps. */
  predicate AllKept(s: string) {
    forall i :: 0 <= i < |s| ==> IsKept(s[i])
  }

  lemma AllKeptConcat(a: string, b: string)
    requires AllKept(a) && AllKept(b)
    ensures AllKept(a + b)
  {
    assert forall i :: |a| <= i < |a + b| ==> (a + b)[i] == b[i - |a|];
  }

  /** No control or high byte reaches the wire unless the date, hostname or app name carried it. */
  lemma LinePrintable(e: Event)
    requires Line(e).Some?
    requires AllKept(e.date) && AllKept(e.hostname) && AllKept(e.appName)
    ensures AllKept(Line(e).value)
  {
    var digits := IntToString(CalcPriority(e.facility, e.severity));
    assert AllKept(digits);
    var host, app, msg := HostSegment(e.hostname), AppSegment(e.appName), CleanMessage(e.message);
    AllKeptConcat(" ", e.hostname);
    AllKeptConcat(" " + e.appName, ":");
    AllKeptConcat(" ", e.appName);
    assert AllKept(host) && AllKept(app) && AllKept(msg);
    AllKeptConcat("<", digits);
    AllKeptConcat("<" + digits, ">");
    AllKeptConcat("<" + digits + ">", e.date);
    AllKeptConcat("<" + digits + ">" + e.date, host);
    AllKeptConcat("<" + digits + ">" + e.date + host, app);
    AllKeptConcat("<" + digits + ">" + e.date + host + app, " ");
    AllKeptConcat("<" + digits + ">" + e.date + host + app + " ", msg);
  }

  /** The header shapes of the adapter tests, for any date: hostname and app name both present, ... */
  lemma HeaderBoth(date: string)
    ensures Header(0, date, "localhost", "app") == "<0>" + date + " localhost app:"
  {
    assert IntToString(0) == "0";
    var host, app := HostSegment("localhost"), AppSegment("app");
    assert host == " localhost";
    assert app == " app:";
    calc {
      Header(0, date, "localhost", "app");
      ("<" + "0" + ">") + date + host + app;
      { assert "<" + "0" + ">" == "<0>"; }
      "<0>" + date + (host + app);
      { assert host + app == " localhost app:"; }
      "<0>" + date + " localhost app:";
    }
  }

  /** ... the hostname empty, ... */
  lemma HeaderNoHostname(date: string)
    ensures Header(0, date, "", "app") == "<0>" + date + " app:"
  {
    assert IntToString(0) == "0";
    assert HostSegment("") == "";
    assert AppSegment("app") == " app:";
  }

  /** ... the app name empty, ... */
  lemma HeaderNoApp(date: string)
    ensures Header(0, date, "localhost", "") == "<0>" + date + " localhost"
  {
    assert IntToString(0) == "0";
    assert HostSegment("localhost") == " localhost";
    assert AppSegment("") == "";
  }

  /** ... and both empty. */
  lemma HeaderNeither(date: string)
    ensures Header(0, date, "", "") == "<0>" + date
  {
    assert IntToString(0) == "0";
  }

  /** The adapter test end to end, for any date and any printable message: the full line handed to `send`. */
  lemma WriteExample(date: string, message: string)
    requires message != [] && forall i :: 0 <= i < |message| ==> IsKept(message[i])
    ensures Line(Event(0, 0, "localhost", "app", date, message))
            == Some("<0>" + date + " localhost app: " + message)
  {
    CleanKeepsPrintable(message);
    var e := Event(0, 0, "localhost", "app", date, message);
    HeaderBoth(date);
    assert Line(e) == Some(Header(0, date, "localhost", "app") + " " + message);
    calc {
      ("<0>" + date + " localhost app:") + " " + message;
      "<0>" + date + (" localhost app:" + " ") + message;
      { assert " localhost app:" + " " == " localhost app: "; }
      "<0>" + date + " localhost app: " + message;
    }
  }

  /** The adapter test with a message of control bytes only: nothing is sent, whatever the date. */
  lemma WriteSkipsControlBytes(date: string)
    ensures Line(Event(0, 0, "localhost", "app", date, "\U{1}\U{2}")) == None
  {
    CleanEmptyIff("\U{1}\U{2}");
  }
}
