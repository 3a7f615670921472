/** The two address-shape tests of the handler (src/index.js, lines 29-30).
    Both are syntactic: neither checks octet ranges nor IPv6 grammar. */
module Shapes {
  import opened Text

  /** An ASCII digit, what `\d` matches in a JavaScript regular expression
      without the `u` flag. */
  predicate IsDigit(c: char) {
    '0' <= c <= '9'
  }

  predicate AllDigits(s: string) {
    forall i :: 0 <= i < |s| ==> IsDigit(s[i])
  }

  /** The regular expression `^(\d{1,3}\.){3}\d{1,3}$` run as an automaton
      over the rest of the input: `dots` separators and `run` digits of the
      current group have been read so far. */
  predicate MatchQuad(s: string, dots: nat, run: nat)
    requires dots <= 3 && run <= 3
  {
    if s == [] then dots == 3 && run >= 1
    else if IsDigit(s[0]) then run < 3 && MatchQuad(s[1..], dots, run + 1)
    else if s[0] == '.' then run >= 1 && dots < 3 && MatchQuad(s[1..], dots + 1, 0)
    else false
  }

  /** `isIPv4(ip)`: the string is truthy (non-empty) and matches the
      dotted-quad pattern, so it holds nothing but digits and dots. */
  predicate IsIPv4(s: string): (b: bool)
    ensures b ==> s != [] && forall i :: 0 <= i < |s| ==> IsDigit(s[i]) || s[i] == '.'
  {
    QuadHasOnlyDigitsAndDots(s, 0, 0);
    s != [] && MatchQuad(s, 0, 0)
  }

  /** `isIPv6(ip)`: the string is truthy (non-empty) and contains a colon;
      no such string is also IPv4-shaped. */
  predicate IsIPv6(s: string): (b: bool)
    ensures b ==> s != [] && !IsIPv4(s)
  {
    s != [] && ':' in s
  }

  /** One group of the dotted quad: one to three ASCII digits. */
  predicate IsGroup(g: string) {
    1 <= |g| <= 3 && AllDigits(g)
  }

  /** The reference reading of the pattern: exactly four `.`-separated
      groups, each of one to three digits, and nothing else. */
  predicate IsDottedQuad(s: string) {
    var groups := Split(s, '.');
    |groups| == 4 && AllGroups(groups)
  }

  /** Every piece of `ps` is a group. */
  predicate AllGroups(ps: seq<string>) {
    forall i :: 0 <= i < |ps| ==> IsGroup(ps[i])
  }

  lemma AllGroupsCons(ps: seq<string>)
    requires ps != []
    ensures AllGroups(ps) <==> IsGroup(ps[0]) && AllGroups(ps[1..])
  {
    assert forall i :: 1 <= i < |ps| ==> ps[i] == ps[1..][i - 1];
  }

  lemma AllDigitsCons(c: char, s: string)
    ensures AllDigits([c] + s) <==> IsDigit(c) && AllDigits(s)
  {
    assert ([c] + s)[0] == c;
    assert forall i :: 0 <= i < |s| ==> ([c] + s)[i + 1] == s[i];
  }

  /** What the automaton accepts from a given state, in terms of the pieces
      the rest of the input splits into: the current group continues with
      the first piece, and every later piece is a whole group. */
  lemma {:induction false} MatchQuadSplit(s: string, dots: nat, run: nat)
    requires dots <= 3 && run <= 3
    ensures MatchQuad(s, dots, run) <==>
      var p := Split(s, '.');
      |p| == 4 - dots && 1 <= run + |p[0]| <= 3 && AllDigits(p[0]) && AllGroups(p[1..])
  {
    if s != [] {
      var p := Split(s, '.');
      var rest := Split(s[1..], '.');
      if IsDigit(s[0]) {
        if run < 3 {
          MatchQuadSplit(s[1..], dots, run + 1);
          assert p[0] == [s[0]] + rest[0] && p[1..] == rest[1..];
          AllDigitsCons(s[0], rest[0]);
        }
      } else if s[0] == '.' {
        assert p == [[]] + rest && p[1..] == rest;
        if dots < 3 {
          MatchQuadSplit(s[1..], dots + 1, 0);
          AllGroupsCons(rest);
        }
      } else {
        assert p[0][0] == s[0];
      }
    }
  }

  /** `isIPv4` holds exactly of the non-empty strings made of four
      `.`-separated groups of one to three ASCII digits. */
  lemma IsIPv4Groups(s: string)
    ensures IsIPv4(s) <==> IsDottedQuad(s)
  {
    MatchQuadSplit(s, 0, 0);
    var p := Split(s, '.');
    if |p| == 4 {
      AllGroupsCons(p);
    }
    if s == [] {
      assert |p| == 1;
    }
  }

  /** What the automaton accepts is made of digits and dots only. */
  lemma {:induction false} QuadHasOnlyDigitsAndDots(s: string, dots: nat, run: nat)
    requires dots <= 3 && run <= 3
    ensures MatchQuad(s, dots, run) ==> forall i :: 0 <= i < |s| ==> IsDigit(s[i]) || s[i] == '.'
  {
    if s != [] && MatchQuad(s, dots, run) {
      if IsDigit(s[0]) {
        QuadHasOnlyDigitsAndDots(s[1..], dots, run + 1);
      } else {
        QuadHasOnlyDigitsAndDots(s[1..], dots + 1, 0);
      }
      assert forall i :: 1 <= i < |s| ==> s[i] == s[1..][i - 1];
    }
  }

  /** A dotted quad never contains a comma or a colon, so no IPv4-shaped
      value is also IPv6-shaped. */
  lemma IPv4IsNotIPv6(s: string)
    ensures IsIPv4(s) ==> !IsIPv6(s) && ',' !in s
  {
  }

  /** There is no range check: each group may be any three digits. */
  lemma NoOctetRangeCheck()
    ensures IsIPv4("999.999.999.999")
  {
  }

  /** Ordinary dotted quads have the shape. */
  lemma PrivateQuadShape()
    ensures IsIPv4("10.0.0.1")
  {
  }

  lemma TestNet3QuadShape()
    ensures IsIPv4("203.0.113.5")
  {
    assert MatchQuad("113.5", 2, 0);
  }

  /** The pattern is anchored at both ends and counts groups and digits. */
  lemma PatternIsAnchored()
    ensures !IsIPv4("1.2.3") && !IsIPv4("1.2.3.4.5")
    ensures !IsIPv4("1.2.3.1234") && !IsIPv4(" 1.2.3.4")
  {
    assert !MatchQuad("1.2.3.4.5", 0, 0) by {
      assert !MatchQuad(".5", 3, 1);
    }
  }

  /** `"not-an-ip"` has neither shape. */
  lemma NotAnIpHasNoShape()
    ensures !IsIPv4("not-an-ip") && !IsIPv6("not-an-ip")
  {
  }
}
