/**
 * The two helpers every syslog adapter inherits: the PRI value of
 * section 6.2.1 of RFC 5424 and the message filter linked to section 6.4.
 *
 * Two generations exist. The newer base class computes `facility * 8 +
 * severity` on whatever it is given (CalcPriority); the two older copies
 * first force the facility into [0, 23] and the severity into [0, 7]
 * (ClampedPriority). All three clean the message the same way.
 */
module AbstractAdapter {

  /**
   * PRI as the newer base class computes it: no range check at all. A valid
   * pair lands in [0, 191]; a severity in [0, 7] keeps each facility in its
   * own block of eight values.
   */
  function CalcPriority(facility: int, severity: int): (p: int)
    ensures 0 <= facility <= 23 && 0 <= severity <= 7 ==> 0 <= p <= 191
    ensures 0 <= severity <= 7 ==> 8 * facility <= p <= 8 * facility + 7
  {
    facility * 8 + severity
  }

  /** A facility below 0 is read as 0, one above 23 as 23. */
  function ClampFacility(facility: int): (f: int)
    ensures 0 <= f <= 23
  {
    if facility < 0 then 0 else if facility > 23 then 23 else facility
  }

  /** A severity below 0 is read as 0, one above 7 as 7. */
  function ClampSeverity(severity: int): (s: int)
    ensures 0 <= s <= 7
  {
    if severity < 0 then 0 else if severity > 7 then 7 else severity
  }

  /** PRI as the older base classes compute it: clamp first, then combine. */
  function ClampedPriority(facility: int, severity: int): (p: int)
    ensures 0 <= p <= 191
  {
    CalcPriority(ClampFacility(facility), ClampSeverity(severity))
  }

  /** The priority of a valid pair lies in [0, 191] and gives the pair back as p / 8 and p % 8. */
  lemma PriorityDecodes(facility: int, severity: int)
    requires 0 <= facility <= 23 && 0 <= severity <= 7
    ensures 0 <= CalcPriority(facility, severity) <= 191
    ensures CalcPriority(facility, severity) / 8 == facility
    ensures CalcPriority(facility, severity) % 8 == severity
  {
    var p := CalcPriority(facility, severity);
    assert p == 8 * facility + severity;
  }

  /** With severities in [0, 7], distinct pairs never share a priority, whatever the facilities. */
  lemma PriorityInjective(f1: int, s1: int, f2: int, s2: int)
    requires 0 <= s1 <= 7 && 0 <= s2 <= 7
    requires CalcPriority(f1, s1) == CalcPriority(f2, s2)
    ensures f1 == f2 && s1 == s2
  {
    assert 8 * (f1 - f2) == s2 - s1;
  }

  /** The two values the adapter tests check. */
  lemma PriorityExamples()
    ensures CalcPriority(20, 5) == 165
    ensures CalcPriority(0, 0) == 0
  {
  }

  /** On a valid pair the clamping variant agrees with the plain arithmetic. */
  lemma ClampedAgreesInRange(facility: int, severity: int)
    requires 0 <= facility <= 23 && 0 <= severity <= 7
    ensures ClampedPriority(facility, severity) == CalcPriority(facility, severity)
  {
  }

  /** Out-of-range inputs behave exactly like the nearest bound. */
  lemma ClampedOutOfRange(facility: int, severity: int)
    ensures facility < 0 ==> ClampedPriority(facility, severity) == ClampedPriority(0, severity)
    ensures facility > 23 ==> ClampedPriority(facility, severity) == ClampedPriority(23, severity)
    ensures severity < 0 ==> ClampedPriority(facility, severity) == ClampedPriority(facility, 0)
    ensures severity > 7 ==> ClampedPriority(facility, severity) == ClampedPriority(facility, 7)
  {
  }

  /** Clamping the arguments beforehand changes nothing. */
  lemma ClampFirstChangesNothing(facility: int, severity: int)
    ensures ClampedPriority(ClampFacility(facility), ClampSeverity(severity))
         == ClampedPriority(facility, severity)
  {
  }

  /** The clamped priority always decodes to the clamped pair. */
  lemma ClampedDecodes(facility: int, severity: int)
    ensures ClampedPriority(facility, severity) / 8 == ClampFacility(facility)
    ensures ClampedPriority(facility, severity) % 8 == ClampSeverity(severity)
  {
    PriorityDecodes(ClampFacility(facility), ClampSeverity(severity));
  }

  /**
   * The bytes `filter_var(..., FILTER_SANITIZE_STRING, FILTER_FLAG_STRIP_LOW |
   * FILTER_FLAG_STRIP_HIGH)` lets through: STRIP_LOW drops bytes below 0x20,
   * STRIP_HIGH drops bytes 127 and above, so DEL (0x7F) goes too.
   */
  predicate IsKept(c: char) {
    0x20 <= c as int < 0x7F
  }

  /** The message filter: drops every byte that is not kept, keeps the rest in order. */
  function CleanMessage(message: string): (r: string)
    ensures |r| <= |message|
    ensures forall i :: 0 <= i < |r| ==> IsKept(r[i])
  {
    if message == [] then []
    else (if IsKept(message[0]) then [message[0]] else []) + CleanMessage(message[1..])
  }

  /** Cleaning works piece by piece: cleaning a concatenation concatenates the cleaned parts. */
  lemma {:induction false} CleanConcat(a: string, b: string)
    ensures CleanMessage(a + b) == CleanMessage(a) + CleanMessage(b)
    decreases |a|
  {
    if a == [] {
      assert a + b == b;
    } else {
      var first := if IsKept(a[0]) then [a[0]] else [];
      assert (a + b)[0] == a[0];
      assert (a + b)[1..] == a[1..] + b;
      CleanConcat(a[1..], b);
      calc {
        CleanMessage(a + b);
        first + CleanMessage(a[1..] + b);
        first + (CleanMessage(a[1..]) + CleanMessage(b));
        (first + CleanMessage(a[1..])) + CleanMessage(b);
        CleanMessage(a) + CleanMessage(b);
      }
    }
  }

  /** A single byte is kept exactly when it is printable ASCII. */
  lemma CleanChar(c: char)
    ensures CleanMessage([c]) == if IsKept(c) then [c] else []
  {
    assert [c][1..] == [];
  }

  /** A message made only of kept bytes passes unchanged, so cleaning twice is cleaning once. */
  lemma {:induction false} CleanKeepsPrintable(message: string)
    requires forall i :: 0 <= i < |message| ==> IsKept(message[i])
    ensures CleanMessage(message) == message
  {
    if message != [] {
      CleanKeepsPrintable(message[1..]);
    }
  }

  lemma CleanIdempotent(message: string)
    ensures CleanMessage(CleanMessage(message)) == CleanMessage(message)
  {
    CleanKeepsPrintable(CleanMessage(message));
  }

  /** The cleaned message is empty exactly when the message holds no kept byte. */
  lemma {:induction false} CleanEmptyIff(message: string)
    ensures CleanMessage(message) == [] <==> forall i :: 0 <= i < |message| ==> !IsKept(message[i])
  {
    if message != [] {
      CleanEmptyIff(message[1..]);
      if !IsKept(message[0]) {
        forall i | 0 <= i < |message| && i > 0 ensures message[i] == message[1..][i - 1] { }
      }
    }
  }

  /** The example of the adapter tests: control bytes around the text are dropped. */
  lemma CleanExample()
    ensures CleanMessage("\U{12}" + "|this|is|sparta" + "\t\U{1}\U{2}") == "|this|is|sparta"
  {
    var head, text, tail := "\U{12}", "|this|is|sparta", "\t\U{1}\U{2}";
    CleanEmptyIff(head);
    CleanEmptyIff(tail);
    assert forall i :: 0 <= i < |text| ==> IsKept(text[i]);
    CleanKeepsPrintable(text);
    CleanConcat(head, text);
    CleanConcat(head + text, tail);
  }
}
