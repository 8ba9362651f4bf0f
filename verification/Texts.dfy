/** Characters and texts as the services treat them: spaces, digits, letter case. */
module Texts {
  predicate IsSpace(c: char) {
    '\t' <= c <= '\r' || ('\U{1c}' <= c <= ' ') || c == '\U{85}' || c == '\U{a0}'
  }

  const SPACES: string := "\t\n\U{0b}\U{0c}\r\U{1c}\U{1d}\U{1e}\U{1f} \U{85}\U{a0}"

  /** The spaces are the twelve characters of the list. */
  lemma SpacesAre(c: char)
    ensures IsSpace(c) <==> c in SPACES
  {
    if IsSpace(c) {
      assert c == SPACES[0] || c == SPACES[1] || c == SPACES[2] || c == SPACES[3] || c == SPACES[4] || c == SPACES[5] || c == SPACES[6]
          || c == SPACES[7] || c == SPACES[8] || c == SPACES[9] || c == SPACES[10] || c == SPACES[11];
    }
  }

  function Strip(s: string): string
    decreases |s|
  {
    if s != "" && IsSpace(s[0]) then Strip(s[1..])
    else if s != "" && IsSpace(s[|s| - 1]) then Strip(s[..|s| - 1])
    else s
  }

  lemma SliceOfTail(s: string, i: nat, j: nat)
    requires i <= j < |s|
    ensures s[1..][i..j] == s[i + 1..j + 1]
  {
  }

  /** Stripping takes away the spaces at both ends and nothing else. */
  lemma {:induction false} StripIs(s: string) returns (before: nat, after: nat)
    ensures before + |Strip(s)| + after == |s| && s[before..|s| - after] == Strip(s)
    ensures forall i :: 0 <= i < before || |s| - after <= i < |s| ==> IsSpace(s[i])
    ensures Strip(s) != "" ==> !IsSpace(Strip(s)[0]) && !IsSpace(Strip(s)[|Strip(s)| - 1])
    decreases |s|
  {
    before, after := 0, 0;
    if s != "" && IsSpace(s[0]) {
      before, after := StripIs(s[1..]);
      SliceOfTail(s, before, |s| - 1 - after);
      before := before + 1;
      forall i | 0 <= i < before || |s| - after <= i < |s|
        ensures IsSpace(s[i])
      {
        assert i > 0 ==> s[i] == s[1..][i - 1];
      }
    } else if s != "" && IsSpace(s[|s| - 1]) {
      var shorter := s[..|s| - 1];
      before, after := StripIs(shorter);
      assert s[before..|s| - (after + 1)] == shorter[before..|shorter| - after];
      forall i | 0 <= i < before || |s| - (after + 1) <= i < |s|
        ensures IsSpace(s[i])
      {
        assert i < |s| - 1 ==> s[i] == shorter[i];
      }
      after := after + 1;
    }
  }

  predicate IsDigit(c: char) {
    '0' <= c <= '9'
  }

  function DigitValue(c: char): nat
    requires IsDigit(c)
  {
    c as nat - '0' as nat
  }

  function Digit(d: nat): (c: char)
    requires d < 10
    ensures IsDigit(c) && DigitValue(c) == d
  {
    (d + '0' as nat) as char
  }

  predicate AllDigits(s: string) {
    forall i :: 0 <= i < |s| ==> IsDigit(s[i])
  }

  /** The number that a text of digits shows. */
  function Value(s: string): nat
    requires AllDigits(s)
  {
    if s == "" then 0 else Value(s[..|s| - 1]) * 10 + DigitValue(s[|s| - 1])
  }

  predicate StartsWith(s: string, prefix: string) {
    |prefix| <= |s| && s[..|prefix|] == prefix
  }

  predicate IsUpper(c: char) {
    'A' <= c <= 'Z'
  }

  predicate IsLower(c: char) {
    'a' <= c <= 'z'
  }

  function LowerChar(c: char): char {
    if IsUpper(c) then (c as int - 'A' as int + 'a' as int) as char else c
  }

  function UpperChar(c: char): char {
    if IsLower(c) then (c as int - 'a' as int + 'A' as int) as char else c
  }

  const CAPITALS: string := "ABCDEFGHIJKLMNOPQRSTUVWXYZ"
  const SMALLS: string := "abcdefghijklmnopqrstuvwxyz"

  /** The k-th letters of both alphabets. */
  lemma LetterAt(k: nat)
    requires k < 26
    ensures CAPITALS[k] as int == 'A' as int + k && SMALLS[k] as int == 'a' as int + k
  {
  }

  /** The two alphabets are mapped onto each other, letter by letter, and other characters stay. */
  lemma LettersPair(k: nat, c: char)
    requires k < 26
    ensures LowerChar(CAPITALS[k]) == SMALLS[k] && UpperChar(SMALLS[k]) == CAPITALS[k]
    ensures LowerChar(SMALLS[k]) == SMALLS[k] && UpperChar(CAPITALS[k]) == CAPITALS[k]
    ensures c !in CAPITALS ==> LowerChar(c) == c
    ensures c !in SMALLS ==> UpperChar(c) == c
  {
    LetterAt(k);
    if IsUpper(c) {
      LetterAt(c as int - 'A' as int);
    }
    if IsLower(c) {
      LetterAt(c as int - 'a' as int);
    }
  }

  function Lower(s: string): string {
    if s == "" then "" else [LowerChar(s[0])] + Lower(s[1..])
  }

  function Upper(s: string): string {
    if s == "" then "" else [UpperChar(s[0])] + Upper(s[1..])
  }

  lemma {:induction false} LowerAt(s: string, k: nat)
    requires k < |s|
    ensures |Lower(s)| == |s| && Lower(s)[k] == LowerChar(s[k])
  {
    if |s| > 1 {
      LowerAt(s[1..], if k == 0 then 0 else k - 1);
    }
  }

  lemma {:induction false} UpperAt(s: string, k: nat)
    requires k < |s|
    ensures |Upper(s)| == |s| && Upper(s)[k] == UpperChar(s[k])
  {
    if |s| > 1 {
      UpperAt(s[1..], if k == 0 then 0 else k - 1);
    }
  }
}
