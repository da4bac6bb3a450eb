/** The address check the connection view-model applies before it delegates:
    `isBlank()` and a whole-string match of `([0-9A-Fa-f]{2}[:-]){5}([0-9A-Fa-f]{2})`. */
module MacAddress {

  predicate IsHexDigit(c: char) {
    ('0' <= c <= '9') || ('a' <= c <= 'f') || ('A' <= c <= 'F')
  }

  predicate IsSeparator(c: char) {
    c == ':' || c == '-'
  }

  /** The regular expression `([0-9A-Fa-f]{2}[:-]){k}[0-9A-Fa-f]{2}`, matched against all of `s`,
      read group by group as the regex is written. */
  predicate MatchesGroups(s: string, k: nat)
    decreases k
  {
    if k == 0 then
      |s| == 2 && IsHexDigit(s[0]) && IsHexDigit(s[1])
    else
      |s| >= 3 && IsHexDigit(s[0]) && IsHexDigit(s[1]) && IsSeparator(s[2])
      && MatchesGroups(s[3..], k - 1)
  }

  /** `s.matches(Regex("([0-9A-Fa-f]{2}[:-]){5}([0-9A-Fa-f]{2})"))`. */
  predicate MatchesMacPattern(s: string) {
    MatchesGroups(s, 5)
  }

  /** What position `i` of a matching string must hold: a separator after every hex pair. */
  predicate SlotOk(c: char, i: int) {
    if i % 3 == 2 then IsSeparator(c) else IsHexDigit(c)
  }

  /** Kotlin's `Char.isWhitespace()`: the Java whitespace characters and the Unicode
      space, line and paragraph separators. */
  predicate IsWhitespace(c: char) {
    c == ' ' || ('\t' <= c <= '\r') || ('\U{1C}' <= c <= '\U{1F}') || c == '\U{A0}'
    || c == '\U{1680}' || ('\U{2000}' <= c <= '\U{200A}') || c == '\U{2028}' || c == '\U{2029}'
    || c == '\U{202F}' || c == '\U{205F}' || c == '\U{3000}'
  }

  /** `String.isBlank()`: empty or whitespace only. */
  predicate IsBlank(s: string) {
    forall i :: 0 <= i < |s| ==> IsWhitespace(s[i])
  }

  /** The guard of `connect`: the address is accepted only when it is not blank and matches. */
  predicate IsAcceptedAddress(s: string) {
    !IsBlank(s) && MatchesMacPattern(s)
  }

  /** Reading the regex group by group is the same as reading it position by position:
      `3k + 2` characters, a separator at every third place and hex digits elsewhere.
      Separators may be mixed and hex digits may be of either case. */
  lemma {:induction false} GroupsArePositional(s: string, k: nat)
    ensures MatchesGroups(s, k) <==> |s| == 3 * k + 2 && forall i :: 0 <= i < |s| ==> SlotOk(s[i], i)
    decreases k
  {
    if k > 0 && |s| >= 3 {
      var t := s[3..];
      GroupsArePositional(t, k - 1);
      forall i | 0 <= i < |t|
        ensures SlotOk(t[i], i) <==> SlotOk(s[i + 3], i + 3)
      {
        assert t[i] == s[i + 3];
        assert (i + 3) % 3 == i % 3;
      }
      if MatchesGroups(s, k) {
        forall i | 0 <= i < |s|
          ensures SlotOk(s[i], i)
        {
          if i >= 3 {
            assert SlotOk(t[i - 3], i - 3);
          }
        }
      }
      if |s| == 3 * k + 2 && forall i :: 0 <= i < |s| ==> SlotOk(s[i], i) {
        assert SlotOk(s[0], 0) && SlotOk(s[1], 1) && SlotOk(s[2], 2);
        assert forall i :: 0 <= i < |t| ==> SlotOk(t[i], i);
      }
    }
  }

  /** A MAC address has exactly 17 characters: six hex pairs joined by `:` or `-`. */
  lemma MacPatternPositional(s: string)
    ensures MatchesMacPattern(s) <==>
            |s| == 17 && forall i :: 0 <= i < 17 ==> SlotOk(s[i], i)
  {
    GroupsArePositional(s, 5);
  }

  /** The `isBlank()` test is subsumed by the pattern: no blank string matches it,
      so the guard accepts exactly the strings the pattern matches. */
  lemma AcceptedIsPattern(s: string)
    ensures IsAcceptedAddress(s) <==> MatchesMacPattern(s)
  {
    if MatchesMacPattern(s) {
      MacPatternPositional(s);
      assert SlotOk(s[0], 0);
      assert !IsWhitespace(s[0]);
    }
  }

  /** Upper-case hex digits with colons are accepted. */
  lemma AcceptedUpperCase()
    ensures MatchesMacPattern("AA:BB:CC:DD:EE:FF")
  {
    assert MatchesGroups("FF", 0);
    assert "EE:FF"[3..] == "FF";
    assert MatchesGroups("EE:FF", 1);
    assert "DD:EE:FF"[3..] == "EE:FF";
    assert MatchesGroups("DD:EE:FF", 2);
    assert "CC:DD:EE:FF"[3..] == "DD:EE:FF";
    assert MatchesGroups("CC:DD:EE:FF", 3);
    assert "BB:CC:DD:EE:FF"[3..] == "CC:DD:EE:FF";
    assert MatchesGroups("BB:CC:DD:EE:FF", 4);
    assert "AA:BB:CC:DD:EE:FF"[3..] == "BB:CC:DD:EE:FF";
  }

  /** Lower- and mixed-case hex digits with mixed separators are accepted. */
  lemma AcceptedMixed()
    ensures MatchesMacPattern("aa-bb:CC-dd:Ee:0f")
  {
    assert MatchesGroups("0f", 0);
    assert "Ee:0f"[3..] == "0f";
    assert MatchesGroups("Ee:0f", 1);
    assert "dd:Ee:0f"[3..] == "Ee:0f";
    assert MatchesGroups("dd:Ee:0f", 2);
    assert "CC-dd:Ee:0f"[3..] == "dd:Ee:0f";
    assert MatchesGroups("CC-dd:Ee:0f", 3);
    assert "bb:CC-dd:Ee:0f"[3..] == "CC-dd:Ee:0f";
    assert MatchesGroups("bb:CC-dd:Ee:0f", 4);
    assert "aa-bb:CC-dd:Ee:0f"[3..] == "bb:CC-dd:Ee:0f";
  }

  /** "not-a-mac", a trailing space and dots as separators are rejected. */
  lemma RejectedExamples()
    ensures !MatchesMacPattern("not-a-mac")
    ensures !MatchesMacPattern("AA:BB:CC:DD:EE:FF ")
    ensures !MatchesMacPattern("AA.BB.CC.DD.EE.FF")
  {
    MacPatternPositional("not-a-mac");
    MacPatternPositional("AA:BB:CC:DD:EE:FF ");
  }
}
