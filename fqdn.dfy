/**
 * The logger's hostname check `isValidFQDN`: not PHP-empty, and matched by
 * `/(?=^.{1,254}$)(^(?:(?!\d|-)[a-z0-9\-]{1,63}(?<!-)\.)+(?:[a-z]{2,})$)/i`.
 * The pattern is modelled piece by piece: a label, a top-level label, the
 * repeated `label.` group, the length lookahead, and PCRE's `$`, which also
 * matches just before a final newline.
 */
module Fqdn {
  import opened Php

  /** `[a-z]` under the `/i` flag. */
  predicate IsAlpha(c: char) {
    'a' <= c <= 'z' || 'A' <= c <= 'Z'
  }

  /** `[a-z0-9\-]` under the `/i` flag. */
  predicate IsLabelChar(c: char) {
    IsAlpha(c) || IsDigit(c) || c == '-'
  }

  /** `(?!\d|-)[a-z0-9\-]{1,63}(?<!-)`: 1 to 63 label characters, starting with a letter, not ending with '-'. */
  predicate IsLabel(l: string) {
    1 <= |l| <= 63 && IsAlpha(l[0]) && l[|l| - 1] != '-' &&
    forall i :: 0 <= i < |l| ==> IsLabelChar(l[i])
  }

  /** `[a-z]{2,}`: the last label, two or more letters. */
  predicate IsTld(t: string) {
    |t| >= 2 && forall i :: 0 <= i < |t| ==> IsAlpha(t[i])
  }

  /** `(?:label\.)+tld` on the whole of `t`, one `label.` at a time. */
  predicate MatchesLabels(t: string)
    decreases |t|
  {
    var k := IndexOf(t, '.');
    k >= 0 && IsLabel(t[..k]) && (IsTld(t[k + 1..]) || MatchesLabels(t[k + 1..]))
  }

  /** Both anchored parts of the pattern, where `$` is the very end of `t`. */
  predicate MatchesAtEnd(t: string) {
    1 <= |t| <= 254 && MatchesLabels(t)
  }

  /** `preg_match` of the pattern: `$` matches at the end or just before a final "\n". */
  predicate PregMatch(s: string) {
    MatchesAtEnd(s) || (|s| > 0 && s[|s| - 1] == '\n' && MatchesAtEnd(s[..|s| - 1]))
  }

  /** `isValidFQDN`: never true of a PHP-empty string, and at most one byte past the lookahead's 254. */
  predicate IsValidFQDN(s: string)
    ensures IsValidFQDN(s) ==> Truthy(s) && 1 <= |s| <= 255
  {
    !IsEmpty(s) && PregMatch(s)
  }

  /** The pieces of `s` between occurrences of `c`: a helper for the plain statement of a hostname, not a call the logger makes. */
  function Split(s: string, c: char): (parts: seq<string>)
    ensures |parts| >= 1
    decreases |s|
  {
    var k := IndexOf(s, c);
    if k < 0 then [s] else [s[..k]] + Split(s[k + 1..], c)
  }

  /** The plain statement of a hostname: at least two dot-separated pieces, the last a TLD, the others labels. */
  predicate WellFormedLabels(parts: seq<string>) {
    |parts| >= 2 && IsTld(parts[|parts| - 1]) &&
    forall i :: 0 <= i < |parts| - 1 ==> IsLabel(parts[i])
  }

  /** A single piece is left exactly when there is no separator, and then it is the whole string. */
  lemma SplitSingle(s: string, c: char)
    ensures |Split(s, c)| == 1 <==> IndexOf(s, c) < 0
    ensures IndexOf(s, c) < 0 ==> Split(s, c) == [s]
  {
  }

  /** A top-level label holds no dot, so Split leaves it whole. */
  lemma TldHasNoDot(t: string)
    requires IsTld(t)
    ensures IndexOf(t, '.') < 0
  {
  }

  /** Splitting at the first dot: the piece before it, then the pieces of the rest. */
  lemma SplitFirst(t: string, k: int)
    requires k == IndexOf(t, '.') && k >= 0
    ensures Split(t, '.') == [t[..k]] + Split(t[k + 1..], '.')
  {
  }

  /** Prepending a label to a well-formed piece list, or to a lone TLD, gives a well-formed list, and only these do. */
  lemma WellFormedCons(l: string, q: seq<string>)
    requires |q| >= 1
    ensures WellFormedLabels([l] + q) <==>
              IsLabel(l) && (WellFormedLabels(q) || (|q| == 1 && IsTld(q[0])))
  {
    var p := [l] + q;
    assert p[0] == l;
    assert forall i :: 1 <= i < |p| ==> p[i] == q[i - 1];
    if WellFormedLabels(p) && |q| >= 2 {
      forall i | 0 <= i < |q| - 1 ensures IsLabel(q[i]) {
        assert p[i + 1] == q[i];
      }
    }
  }

  /** The repeated-group recognizer accepts exactly the well-formed label sequences. */
  lemma {:induction false} MatchesLabelsIff(t: string)
    ensures MatchesLabels(t) <==> WellFormedLabels(Split(t, '.'))
    decreases |t|
  {
    var k := IndexOf(t, '.');
    if k >= 0 {
      var rest := t[k + 1..];
      var q := Split(rest, '.');
      SplitFirst(t, k);
      MatchesLabelsIff(rest);
      SplitSingle(rest, '.');
      if IsTld(rest) {
        TldHasNoDot(rest);
      }
      WellFormedCons(t[..k], q);
    } else {
      SplitSingle(t, '.');
    }
  }

  /** Whatever MatchesLabels accepts has at least 4 characters and ends with a letter, so never with "\n". */
  lemma {:induction false} MatchesLabelsEndsAlpha(t: string)
    requires MatchesLabels(t)
    ensures |t| >= 4 && IsAlpha(t[|t| - 1])
    decreases |t|
  {
    var k := IndexOf(t, '.');
    var rest := t[k + 1..];
    if !IsTld(rest) {
      MatchesLabelsEndsAlpha(rest);
    }
    assert t[|t| - 1] == rest[|rest| - 1];
  }

  /**
   * For a subject without a trailing newline, `isValidFQDN` holds exactly when
   * the length is 1 to 254 and the dot-separated pieces are labels ending in a TLD.
   */
  lemma IsValidFQDNIff(s: string)
    requires |s| == 0 || s[|s| - 1] != '\n'
    ensures IsValidFQDN(s) <==> 1 <= |s| <= 254 && WellFormedLabels(Split(s, '.'))
  {
    MatchesLabelsIff(s);
    if MatchesLabels(s) {
      var k := IndexOf(s, '.');
      assert s != "0";
    }
  }

  /** PCRE's `$` lets exactly one trailing newline through: `s + "\n"` is accepted exactly when `s` is. */
  lemma TrailingNewlineAccepted(s: string)
    requires |s| == 0 || s[|s| - 1] != '\n'
    ensures IsValidFQDN(s + "\n") <==> IsValidFQDN(s)
  {
    var t := s + "\n";
    assert t[..|t| - 1] == s;
    if MatchesLabels(t) {
      MatchesLabelsEndsAlpha(t);
    }
    if MatchesLabels(s) {
      var k := IndexOf(s, '.');
      assert s != "0";
    }
  }

  /** Anything accepted fits in 255 bytes and holds a dot. */
  lemma ValidFQDNBounds(s: string)
    requires IsValidFQDN(s)
    ensures 4 <= |s| <= 255
    ensures exists i :: 0 <= i < |s| && s[i] == '.'
  {
    var t := if MatchesAtEnd(s) then s else s[..|s| - 1];
    var k := IndexOf(t, '.');
    assert t[k] == s[k];
    var rest := t[k + 1..];
    MatchesLabelsEndsAlpha(t);
  }

  /** The first character of an accepted name is a letter: a leading digit, '-' or anything else is refused. */
  lemma ValidFQDNStartsAlpha(s: string)
    requires IsValidFQDN(s)
    ensures IsAlpha(s[0])
  {
    var t := if MatchesAtEnd(s) then s else s[..|s| - 1];
    var k := IndexOf(t, '.');
    assert IsLabel(t[..k]);
    assert t[..k][0] == s[0];
  }

  /** One label, a dot and a top-level label make an accepted name when the whole fits in 254 characters. */
  lemma LabelDotTldAccepted(l: string, t: string)
    requires IsLabel(l) && IsTld(t) && |l| + 1 + |t| <= 254
    ensures IsValidFQDN(l + "." + t)
  {
    var s := l + "." + t;
    assert s == l + ['.'] + t;
    IndexOfAfter(l, '.', t);
    assert s[..|l|] == l;
    assert s[|l| + 1..] == t;
  }

  /** The logger tests' hostname "awesome-site.ru" is accepted. */
  lemma AcceptedExample()
    ensures IsValidFQDN("awesome-site.ru")
  {
    LabelDotTldAccepted("awesome-site", "ru");
    assert "awesome-site" + "." + "ru" == "awesome-site.ru";
  }

  /** An IPv4 address and a name starting with '>' are refused: their first character is no letter. */
  lemma RejectedNotAlpha()
    ensures !IsValidFQDN("127.0.0.1")
    ensures !IsValidFQDN("> invalid")
  {
    if IsValidFQDN("127.0.0.1") {
      ValidFQDNStartsAlpha("127.0.0.1");
    }
    if IsValidFQDN("> invalid") {
      ValidFQDNStartsAlpha("> invalid");
    }
  }

  /** The empty string and a bare host name without a dot are refused. */
  lemma RejectedNoDot()
    ensures !IsValidFQDN("")
    ensures !IsValidFQDN("localhost")
  {
    if IsValidFQDN("localhost") {
      ValidFQDNBounds("localhost");
    }
  }
}
