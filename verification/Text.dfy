/** The few string operations the modelled code uses. */
module Text {

  /** The characters Python's `str.strip()` removes. */
  predicate IsSpace(c: char) {
    || '\t' <= c <= '\r' || '\U{1c}' <= c <= ' ' || c == '\U{85}' || c == '\U{a0}' || c == '\U{1680}'
    || '\U{2000}' <= c <= '\U{200a}' || c == '\U{2028}' || c == '\U{2029}' || c == '\U{202f}'
    || c == '\U{205f}' || c == '\U{3000}'
  }

  function StripLeft(s: string): (r: string)
    ensures r == "" || !IsSpace(r[0])
    ensures s != "" && !IsSpace(s[0]) ==> r == s
  {
    if s != "" && IsSpace(s[0]) then StripLeft(s[1..]) else s
  }

  function StripRight(s: string): (r: string)
    ensures r == "" || !IsSpace(r[|r| - 1])
    ensures r <= s
    ensures s != "" && !IsSpace(s[|s| - 1]) ==> r == s
  {
    if s != "" && IsSpace(s[|s| - 1]) then StripRight(s[..|s| - 1]) else s
  }

  /** `str.strip()`. */
  function Strip(s: string): string { StripRight(StripLeft(s)) }

  /** Nothing but blanks. */
  predicate Blank(s: string) { forall k :: 0 <= k < |s| ==> IsSpace(s[k]) }

  lemma {:induction false} LeftOfBlank(s: string)
    ensures StripLeft(s) == "" <==> Blank(s)
  {
    if s != "" && IsSpace(s[0]) {
      LeftOfBlank(s[1..]);
      assert Blank(s[1..]) ==> Blank(s) by { assert s == [s[0]] + s[1..]; }
    }
  }

  lemma {:induction false} RightOfBlank(s: string)
    ensures StripRight(s) == "" <==> Blank(s)
  {
    if s != "" && IsSpace(s[|s| - 1]) {
      RightOfBlank(s[..|s| - 1]);
      assert Blank(s[..|s| - 1]) ==> Blank(s) by { assert s == s[..|s| - 1] + [s[|s| - 1]]; }
    }
  }

  lemma StripIsBlank(s: string)
    ensures Strip(s) == "" <==> Blank(s)
  {
    LeftOfBlank(s);
    RightOfBlank(StripLeft(s));
  }

  lemma BlankJoins(a: string, b: string)
    requires Blank(a) && Blank(b)
    ensures Blank(a + b)
  {
    hide IsSpace;
  }

  lemma OneBlank(c: char)
    requires IsSpace(c)
    ensures Blank([c])
  {
    hide IsSpace;
  }

  lemma {:induction false} LeftIs(s: string) returns (before: string)
    ensures Blank(before) && s == before + StripLeft(s)
  {
    before := "";
    assert Blank("");
    hide IsSpace, Blank;
    if s != "" && IsSpace(s[0]) {
      var more := LeftIs(s[1..]);
      before := [s[0]] + more;
      OneBlank(s[0]);
      BlankJoins([s[0]], more);
      assert s == [s[0]] + s[1..];
    }
  }

  lemma {:induction false} RightIs(s: string) returns (after: string)
    ensures Blank(after) && s == StripRight(s) + after
  {
    after := "";
    assert Blank("");
    hide IsSpace, Blank;
    if s != "" && IsSpace(s[|s| - 1]) {
      var more := RightIs(s[..|s| - 1]);
      after := more + [s[|s| - 1]];
      OneBlank(s[|s| - 1]);
      BlankJoins(more, [s[|s| - 1]]);
    }
  }

  /** The text without the blanks around it, and no more. */
  lemma StripIs(s: string) returns (before: string, after: string)
    ensures Blank(before) && Blank(after) && s == before + Strip(s) + after
    ensures Strip(s) != "" ==> !IsSpace(Strip(s)[0]) && !IsSpace(Strip(s)[|Strip(s)| - 1])
  {
    before := LeftIs(s);
    after := RightIs(StripLeft(s));
  }

  function UpperChar(c: char): char { if 'a' <= c <= 'z' then c - 'a' + 'A' else c }

  /** `str.upper()` on ASCII text. */
  function Upper(s: string): (r: string)
    ensures |r| == |s|
  {
    seq(|s|, i requires 0 <= i < |s| => UpperChar(s[i]))
  }

  function LowerChar(c: char): char { if 'A' <= c <= 'Z' then c - 'A' + 'a' else c }

  /** `str.lower()` on ASCII text. */
  function Lower(s: string): (r: string)
    ensures |r| == |s|
  {
    seq(|s|, i requires 0 <= i < |s| => LowerChar(s[i]))
  }

  /** The small letters, and the capitals, in order. */
  const SMALL := "abcdefghijklmnopqrstuvwxyz"
  const CAPITAL := "ABCDEFGHIJKLMNOPQRSTUVWXYZ"

  lemma AlphabetsAre(i: nat)
    requires i < 26
    ensures SMALL[i] == 'a' + i as char && CAPITAL[i] == 'A' + i as char
  {
  }

  /** The letter at a place of one alphabet becomes the one at that place of the other. */
  lemma CasesAre(s: string, k: nat, i: nat)
    requires k < |s| && i < 26
    ensures s[k] == SMALL[i] ==> Upper(s)[k] == CAPITAL[i] && Lower(s)[k] == s[k]
    ensures s[k] == CAPITAL[i] ==> Lower(s)[k] == SMALL[i] && Upper(s)[k] == s[k]
  {
    AlphabetsAre(i);
  }

  /** Every other character stays. */
  lemma OthersStay(s: string, k: nat)
    requires k < |s| && s[k] !in SMALL && s[k] !in CAPITAL
    ensures Upper(s)[k] == Lower(s)[k] == s[k]
  {
    if 'a' <= s[k] <= 'z' {
      AlphabetsAre((s[k] - 'a') as nat);
      assert false;
    }
    if 'A' <= s[k] <= 'Z' {
      AlphabetsAre((s[k] - 'A') as nat);
      assert false;
    }
  }
}
