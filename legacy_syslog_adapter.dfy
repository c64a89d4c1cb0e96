/**
 * The older syslog adapter, kept twice in the repository with the same logic
 * (src/Adapters and src/Syslog). It differs from the current one in three ways:
 * the priority is clamped into [0, 191]; its empty-message guard uses
 * `count()`, which is 1 for any string under PHP 7, so it never fires; and a
 * truthy hostname is replaced by the fixed name "www.megafon.ru".
 */
module LegacySyslogAdapter {
  import opened Wrappers
  import opened Php
  import opened AbstractAdapter
  import SyslogAdapter

  /** The hostname every line of this adapter carries in place of a truthy one. */
  const OverrideHostname := "www.megafon.ru"

  /** PHP 7's `count()` of a value that is neither an array nor Countable (and not null): always 1. */
  function Count(s: string): (n: int)
    ensures n > 0
  {
    1
  }

  /** The line this `write` hands to `send`, or None when its guard returns early. */
  function Line(e: SyslogAdapter.Event): (r: Option<string>)
    ensures r.Some? && |r.value| > 0 && r.value[0] == '<'
  {
    var priority := ClampedPriority(e.facility, e.severity);
    var msg := CleanMessage(e.message);
    if Count(msg) == 0 then None
    else
      var hostname := if Truthy(e.hostname) then OverrideHostname else e.hostname;
      Some(SyslogAdapter.Header(priority, e.date, hostname, e.appName) + " " + msg)
  }

  /** The `count` guard is dead: every call reaches `send`, even when nothing survived cleaning. */
  lemma AlwaysSends(e: SyslogAdapter.Event)
    ensures Line(e).Some?
    ensures CleanMessage(e.message) == [] ==>
              Line(e).value[|Line(e).value| - 1] == ' '
  {
  }

  /** What follows `<PRI>` in this variant's line. */
  function AfterPri(e: SyslogAdapter.Event): string {
    var hostname := if Truthy(e.hostname) then OverrideHostname else e.hostname;
    e.date + SyslogAdapter.HostSegment(hostname) + SyslogAdapter.AppSegment(e.appName)
    + " " + CleanMessage(e.message)
  }

  /** The line is `<PRI>` with the clamped PRI, then the rest. */
  lemma LineShape(e: SyslogAdapter.Event)
    ensures Line(e) == Some("<" + IntToString(ClampedPriority(e.facility, e.severity)) + ">" + AfterPri(e))
  {
    var pri := "<" + IntToString(ClampedPriority(e.facility, e.severity)) + ">";
    var hostname := if Truthy(e.hostname) then OverrideHostname else e.hostname;
    var host, app := SyslogAdapter.HostSegment(hostname), SyslogAdapter.AppSegment(e.appName);
    var msg := CleanMessage(e.message);
    calc {
      Line(e).value;
      SyslogAdapter.Header(ClampedPriority(e.facility, e.severity), e.date, hostname, e.appName) + " " + msg;
      pri + e.date + host + app + " " + msg;
      pri + (e.date + host + app + " " + msg);
    }
  }

  /** The PRI on the wire is always in [0, 191] and decodes to the clamped facility and severity. */
  lemma LinePriority(e: SyslogAdapter.Event)
    ensures var p := ClampedPriority(e.facility, e.severity);
            SyslogAdapter.ParsePriority(Line(e).value) == Some(p) &&
            0 <= p <= 191 && p / 8 == ClampFacility(e.facility) && p % 8 == ClampSeverity(e.severity)
  {
    var p := ClampedPriority(e.facility, e.severity);
    LineShape(e);
    SyslogAdapter.ParsePriorityOfHeader(p, AfterPri(e));
    ClampedDecodes(e.facility, e.severity);
  }

  /** Which truthy hostname the logger passes makes no difference to the line. */
  lemma HostnameIgnored(e: SyslogAdapter.Event, h1: string, h2: string)
    requires Truthy(h1) && Truthy(h2)
    ensures Line(e.(hostname := h1)) == Line(e.(hostname := h2))
  {
  }

  /** A falsy hostname ("" or "0") gives no host segment, exactly as an empty one. */
  lemma FalsyHostnameOmitted(e: SyslogAdapter.Event)
    requires !Truthy(e.hostname)
    ensures Line(e) == Line(e.(hostname := ""))
  {
  }

  /**
   * Against the current adapter: where that one sends at all and the facility
   * and severity are valid, this one sends the same line except that a truthy
   * hostname has become "www.megafon.ru".
   */
  lemma AgreesWithCurrent(e: SyslogAdapter.Event)
    requires 0 <= e.facility <= 23 && 0 <= e.severity <= 7
    requires SyslogAdapter.Line(e).Some?
    ensures Line(e) == SyslogAdapter.Line(
              e.(hostname := if Truthy(e.hostname) then OverrideHostname else e.hostname))
  {
    ClampedAgreesInRange(e.facility, e.severity);
  }

  /** Where the current adapter would stay silent, this one still sends a line with an empty message. */
  lemma SendsWhatCurrentSkips(e: SyslogAdapter.Event)
    requires SyslogAdapter.Line(e).None?
    ensures Line(e).Some? && CleanMessage(e.message) == []
  {
  }

  /** The header this variant builds for the adapter tests' arguments, for any date. */
  lemma HeaderOverridden(date: string)
    ensures SyslogAdapter.Header(0, date, OverrideHostname, "app") == "<0>" + date + " www.megafon.ru app:"
  {
    var host, app := SyslogAdapter.HostSegment(OverrideHostname), SyslogAdapter.AppSegment("app");
    assert IntToString(0) == "0";
    assert host == " www.megafon.ru";
    assert app == " app:";
    calc {
      SyslogAdapter.Header(0, date, OverrideHostname, "app");
      "<" + "0" + ">" + date + host + app;
      ("<" + "0" + ">") + date + (host + app);
      { assert host + app == " www.megafon.ru app:";
        assert "<" + "0" + ">" == "<0>"; }
      "<0>" + date + " www.megafon.ru app:";
    }
  }

  /** The line for the adapter tests' arguments, for any date and message, derived from LineShape. */
  lemma LineForTestArguments(date: string, message: string)
    ensures Line(SyslogAdapter.Event(0, 0, "localhost", "app", date, message))
            == Some("<0>" + date + " www.megafon.ru app: " + CleanMessage(message))
  {
    var e := SyslogAdapter.Event(0, 0, "localhost", "app", date, message);
    var msg := CleanMessage(message);
    var host, app := SyslogAdapter.HostSegment(OverrideHostname), SyslogAdapter.AppSegment("app");
    assert Truthy("localhost");
    assert AfterPri(e) == date + host + app + " " + msg;
    assert host == " www.megafon.ru";
    assert app == " app:";
    ClampedAgreesInRange(0, 0);
    assert IntToString(0) == "0";
    LineShape(e);
    calc {
      "<" + "0" + ">" + (date + host + app + " " + msg);
      { assert "<" + "0" + ">" == "<0>"; }
      "<0>" + date + (host + app + " ") + msg;
      { assert host + app + " " == " www.megafon.ru app: "; }
      "<0>" + date + " www.megafon.ru app: " + msg;
    }
  }

  /**
   * The adapter tests for this variant, for any date: the hostname "localhost"
   * comes out as "www.megafon.ru" (the tests expect "localhost"), ...
   */
  lemma WriteExample(date: string, message: string)
    requires message != [] && forall i :: 0 <= i < |message| ==> IsKept(message[i])
    ensures Line(SyslogAdapter.Event(0, 0, "localhost", "app", date, message))
            == Some("<0>" + date + " www.megafon.ru app: " + message)
  {
    CleanKeepsPrintable(message);
    LineForTestArguments(date, message);
  }

  /** ... and a message of control bytes only is still sent, with nothing after the header. */
  lemma WriteControlBytes(date: string)
    ensures Line(SyslogAdapter.Event(0, 0, "localhost", "app", date, "\U{1}\U{2}"))
            == Some("<0>" + date + " www.megafon.ru app: ")
  {
    CleanEmptyIff("\U{1}\U{2}");
    LineForTestArguments(date, "\U{1}\U{2}");
    assert CleanMessage("\U{1}\U{2}") == [];
    assert "<0>" + date + " www.megafon.ru app: " + [] == "<0>" + date + " www.megafon.ru app: ";
  }
}
