/**
 Fresh account codes: the teacher codes that the identity migration hands out
 and the student codes that the academic service mints.
 */
module Codes {
  import opened Wrappers
  import opened Texts
  import opened Sequences
  import opened Numbers

  // ------------------------------------------------------- printing and reading

  function Decimal(n: nat): string {
    if n < 10 then [Digit(n)] else Decimal(n / 10) + [Digit(n % 10)]
  }

  /** Zero-padded to a least width: the format 0<width>d. */
  function Padded(n: nat, width: nat): string {
    Zeros(if |Decimal(n)| < width then width - |Decimal(n)| else 0) + Decimal(n)
  }

  function Zeros(k: nat): string {
    if k == 0 then "" else Zeros(k - 1) + "0"
  }

  lemma {:induction false} DecimalValue(n: nat)
    ensures AllDigits(Decimal(n)) && Value(Decimal(n)) == n && |Decimal(n)| >= 1
  {
    if n >= 10 {
      DecimalValue(n / 10);
      assert Decimal(n)[..|Decimal(n)| - 1] == Decimal(n / 10);
    } else {
      assert Decimal(n)[..0] == "";
    }
  }

  lemma {:induction false} ZerosAhead(k: nat, s: string)
    requires AllDigits(s)
    ensures |Zeros(k)| == k && AllDigits(Zeros(k) + s) && Value(Zeros(k) + s) == Value(s)
    decreases k, |s|
  {
    if s == "" {
      assert Zeros(k) + s == Zeros(k);
      if k > 0 {
        ZerosAhead(k - 1, "");
        assert Zeros(k - 1) + "" == Zeros(k - 1);
        assert Zeros(k)[..k - 1] == Zeros(k - 1);
      }
    } else {
      ZerosAhead(k, s[..|s| - 1]);
      assert (Zeros(k) + s)[..|Zeros(k) + s| - 1] == Zeros(k) + s[..|s| - 1];
      assert (Zeros(k) + s)[|Zeros(k) + s| - 1] == s[|s| - 1];
      assert Zeros(k) + s == (Zeros(k) + s[..|s| - 1]) + [s[|s| - 1]];
    }
  }

  /** A padded number reads back as itself, whatever its width. */
  lemma PaddedValue(n: nat, width: nat)
    ensures AllDigits(Padded(n, width)) && Value(Padded(n, width)) == n && |Padded(n, width)| >= width
  {
    DecimalValue(n);
    ZerosAhead(if |Decimal(n)| < width then width - |Decimal(n)| else 0, Decimal(n));
  }

  function Power10(k: nat): nat {
    if k == 0 then 1 else 10 * Power10(k - 1)
  }

  lemma {:induction false} DecimalWidth(n: nat, width: nat)
    requires width >= 1
    ensures |Decimal(n)| <= width <==> n < Power10(width)
    decreases width
  {
    DecimalValue(n);
    assert Power10(1) == 10 * Power10(0) == 10;
    if n >= 10 {
      DecimalValue(n / 10);
      if width > 1 {
        DecimalWidth(n / 10, width - 1);
      } else {
        assert |Decimal(n)| >= 2;
      }
    } else {
      assert Power10(width) >= 10 by {
        PowerGrows(width);
      }
    }
  }

  lemma {:induction false} PowerGrows(k: nat)
    requires k >= 1
    ensures Power10(k) >= 10
  {
    if k > 1 {
      PowerGrows(k - 1);
    } else {
      assert Power10(1) == 10 * Power10(0);
    }
  }

  // -------------------------------------------------------------- teacher codes

  function TeacherCode(n: nat): string {
    "TCH" + Padded(n, 4)
  }

  /** ^TCH[0-9]{4}$, ignoring case. */
  predicate IsTeacherCode(s: string) {
    |s| == 7 && UpperChar(s[0]) == 'T' && UpperChar(s[1]) == 'C' && UpperChar(s[2]) == 'H' && AllDigits(s[3..])
  }

  lemma TeacherCodeInjective(a: nat, b: nat)
    requires TeacherCode(a) == TeacherCode(b)
    ensures a == b
  {
    PaddedValue(a, 4);
    PaddedValue(b, 4);
    assert TeacherCode(a)[3..] == Padded(a, 4) && TeacherCode(b)[3..] == Padded(b, 4);
  }

  /** A handed-out code has the form that later searches recognise exactly while its number has four digits. */
  lemma RecognisedExactly(n: nat)
    ensures IsTeacherCode(TeacherCode(n)) <==> n < 10000
  {
    PaddedValue(n, 4);
    DecimalWidth(n, 4);
    assert Power10(4) == 10 * Power10(3) == 100 * Power10(2) == 1000 * Power10(1) == 10000 * Power10(0);
    DecimalValue(n);
    ZerosAhead(if |Decimal(n)| < 4 then 4 - |Decimal(n)| else 0, Decimal(n));
    assert TeacherCode(n)[3..] == Padded(n, 4);
  }

  /** Concrete: the first code that is too wide. */
  lemma TenThousandIsUnseen()
    ensures TeacherCode(10000) == "TCH10000" && !IsTeacherCode("TCH10000")
  {
    assert Decimal(10) == [Digit(1)] + [Digit(0)] && Decimal(100) == Decimal(10) + [Digit(0)];
    assert Decimal(1000) == Decimal(100) + [Digit(0)] && Decimal(10000) == Decimal(1000) + [Digit(0)];
    assert Decimal(10000) == "10000" && Zeros(0) == "";
  }

  /** The codes of the numbers from 1 up to, but not including, a bound. */
  function CodesBelow(n: nat): set<string> {
    set k: nat | 1 <= k < n :: TeacherCode(k)
  }

  lemma {:induction false} CodesBelowCount(n: nat)
    requires n >= 1
    ensures |CodesBelow(n)| == n - 1
  {
    if n == 1 {
      assert CodesBelow(1) == {};
    } else {
      CodesBelowCount(n - 1);
      CodesBelowStep(n - 1);
    }
  }

  lemma CodesBelowStep(n: nat)
    requires n >= 1
    ensures CodesBelow(n + 1) == CodesBelow(n) + {TeacherCode(n)} && TeacherCode(n) !in CodesBelow(n)
  {
    if TeacherCode(n) in CodesBelow(n) {
      var k: nat :| 1 <= k < n && TeacherCode(k) == TeacherCode(n);
      TeacherCodeInjective(k, n);
    }
  }

  lemma BoundedByUsed(used: set<string>, n: nat)
    requires n >= 1 && CodesBelow(n) <= used
    ensures n <= |used| + 1
    ensures TeacherCode(n) in used ==> n <= |used|
  {
    CodesBelowCount(n);
    SubsetSize(CodesBelow(n), used);
    if TeacherCode(n) in used {
      CodesBelowStep(n);
      CodesBelowCount(n + 1);
      SubsetSize(CodesBelow(n + 1), used);
    }
  }

  /** The first number from n on whose code is unused. */
  function FirstFree(used: set<string>, n: nat): nat
    requires n >= 1 && CodesBelow(n) <= used
    decreases |used| + 1 - n
  {
    if TeacherCode(n) in used then
      BoundedByUsed(used, n);
      CodesBelowStep(n);
      FirstFree(used, n + 1)
    else n
  }

  function NextNumber(used: set<string>): nat {
    assert CodesBelow(1) == {};
    FirstFree(used, 1)
  }

  lemma {:induction false} FirstFreeIsLeast(used: set<string>, n: nat)
    requires n >= 1 && CodesBelow(n) <= used
    ensures TeacherCode(FirstFree(used, n)) !in used && FirstFree(used, n) >= n
    ensures forall k :: 1 <= k < FirstFree(used, n) ==> TeacherCode(k) in used
    decreases |used| + 1 - n
  {
    if TeacherCode(n) in used {
      BoundedByUsed(used, n);
      CodesBelowStep(n);
      FirstFreeIsLeast(used, n + 1);
    } else {
      forall k | 1 <= k < n
        ensures TeacherCode(k) in used
      {
        assert TeacherCode(k) in CodesBelow(n);
      }
    }
  }

  /** The search always ends, at the least positive number whose code is unused. */
  lemma NextNumberIsLeast(used: set<string>)
    ensures NextNumber(used) >= 1 && TeacherCode(NextNumber(used)) !in used
    ensures forall k :: 1 <= k < NextNumber(used) ==> TeacherCode(k) in used
    ensures NextNumber(used) <= |used| + 1
  {
    assert CodesBelow(1) == {};
    FirstFreeIsLeast(used, 1);
    forall c | c in CodesBelow(NextNumber(used))
      ensures c in used
    {
    }
    BoundedByUsed(used, NextNumber(used));
  }

  // ----------------------------------------------------------------- the backfill

  /** The texts of one teacher row; a missing one is empty. */
  datatype Teacher = Teacher(existingCode: string, existingLogin: string, legacyLogin: string)

  /** The code that the teacher already has, in the order in which the places are looked up. */
  function Adopted(t: Teacher): Option<string> {
    if IsTeacherCode(Upper(Strip(t.existingCode))) then Some(Upper(Strip(t.existingCode)))
    else if IsTeacherCode(Upper(Strip(t.existingLogin))) then Some(Upper(Strip(t.existingLogin)))
    else if IsTeacherCode(Strip(t.legacyLogin)) then Some(Upper(Strip(t.legacyLogin)))
    else None
  }

  function CodeFor(t: Teacher, used: set<string>): string {
    if Adopted(t).Some? then Adopted(t).value else TeacherCode(NextNumber(used))
  }

  /** The login given to each teacher, in table order. */
  function Logins(ts: seq<Teacher>, used: set<string>): seq<string> {
    if ts == [] then [] else [CodeFor(ts[0], used)] + Logins(ts[1..], used + {CodeFor(ts[0], used)})
  }

  /** The codes read before the backfill: every recognised code among profiles, accounts and staff. */
  function UsedCodes(rows: seq<string>): set<string> {
    set i | 0 <= i < |rows| && IsTeacherCode(Strip(rows[i])) :: Upper(Strip(rows[i]))
  }

  predicate AllAdoptedUsed(ts: seq<Teacher>, used: set<string>) {
    forall i :: 0 <= i < |ts| && Adopted(ts[i]).Some? ==> Adopted(ts[i]).value in used
  }

  predicate AdoptedDistinct(ts: seq<Teacher>) {
    forall i, j :: 0 <= i < j < |ts| && Adopted(ts[i]).Some? && Adopted(ts[j]).Some? ==>
                     Adopted(ts[i]).value != Adopted(ts[j]).value
  }

  lemma {:induction false} LoginsAt(ts: seq<Teacher>, used: set<string>)
    requires AllAdoptedUsed(ts, used)
    ensures |Logins(ts, used)| == |ts|
    ensures forall i :: 0 <= i < |ts| && Adopted(ts[i]).Some? ==> Logins(ts, used)[i] == Adopted(ts[i]).value
    ensures forall i :: 0 <= i < |ts| && Adopted(ts[i]).None? ==> Logins(ts, used)[i] !in used
    decreases |ts|
  {
    if ts != [] {
      NextNumberIsLeast(used);
      LoginsAt(ts[1..], used + {CodeFor(ts[0], used)});
    }
  }

  lemma {:induction false} FreshDistinct(ts: seq<Teacher>, used: set<string>)
    requires AllAdoptedUsed(ts, used)
    ensures |Logins(ts, used)| == |ts|
    ensures forall i, j :: 0 <= i < j < |ts| && (Adopted(ts[i]).None? || Adopted(ts[j]).None?) ==>
                             Logins(ts, used)[i] != Logins(ts, used)[j]
    decreases |ts|
  {
    LoginsAt(ts, used);
    if ts != [] {
      var more := used + {CodeFor(ts[0], used)};
      LoginsAt(ts[1..], more);
      FreshDistinct(ts[1..], more);
      forall j | 1 <= j < |ts| && (Adopted(ts[0]).None? || Adopted(ts[j]).None?)
        ensures Logins(ts, used)[0] != Logins(ts, used)[j]
      {
        assert Logins(ts, used)[j] == Logins(ts[1..], more)[j - 1] && ts[j] == ts[1..][j - 1];
      }
      forall i, j | 1 <= i < j < |ts| && (Adopted(ts[i]).None? || Adopted(ts[j]).None?)
        ensures Logins(ts, used)[i] != Logins(ts, used)[j]
      {
        assert ts[i] == ts[1..][i - 1] && ts[j] == ts[1..][j - 1];
        assert Logins(ts, used)[i] == Logins(ts[1..], more)[i - 1];
        assert Logins(ts, used)[j] == Logins(ts[1..], more)[j - 1];
      }
    }
  }

  /** All teachers end with distinct codes exactly when those that had one had distinct ones. */
  lemma BackfillDistinctExactly(ts: seq<Teacher>, used: set<string>)
    requires AllAdoptedUsed(ts, used)
    ensures Distinct(Logins(ts, used)) <==> AdoptedDistinct(ts)
  {
    LoginsAt(ts, used);
    FreshDistinct(ts, used);
    if Distinct(Logins(ts, used)) {
      forall i, j | 0 <= i < j < |ts| && Adopted(ts[i]).Some? && Adopted(ts[j]).Some?
        ensures Adopted(ts[i]).value != Adopted(ts[j]).value
      {
        assert Logins(ts, used)[i] != Logins(ts, used)[j];
      }
    }
  }

  lemma UpperIs(s: string)
    ensures |Upper(s)| == |s| && forall k :: 0 <= k < |s| ==> Upper(s)[k] == UpperChar(s[k])
  {
    if s != "" {
      UpperAt(s, 0);
      forall k | 0 <= k < |s|
        ensures Upper(s)[k] == UpperChar(s[k])
      {
        UpperAt(s, k);
      }
    }
  }

  lemma DigitsFrom3(s: string)
    requires |s| == 7
    ensures AllDigits(s[3..]) <==> forall k :: 3 <= k < 7 ==> IsDigit(s[k])
  {
    assert forall i :: 0 <= i < 4 ==> s[3..][i] == s[i + 3];
    assert forall k :: 3 <= k < 7 ==> s[k] == s[3..][k - 3];
  }

  lemma UpperKeepsCode(s: string)
    ensures IsTeacherCode(Upper(s)) <==> IsTeacherCode(s)
  {
    UpperIs(s);
    if |s| == 7 {
      DigitsFrom3(s);
      DigitsFrom3(Upper(s));
    }
  }

  /** In capitals the text is TCH and four digits. */
  predicate HasCode(text: string) {
    |text| == 7 && StartsWith(Upper(text), "TCH") && AllDigits(text[3..])
  }

  lemma HasCodeIs(s: string)
    ensures IsTeacherCode(s) <==> HasCode(s)
    ensures IsTeacherCode(Upper(s)) <==> IsTeacherCode(s)
  {
    UpperIs(s);
    UpperKeepsCode(s);
    if |s| == 7 {
      assert Upper(s)[..3] == [Upper(s)[0], Upper(s)[1], Upper(s)[2]];
    }
  }

  /**
   Which code a teacher keeps: that of the profile when it is one, otherwise
   that of the account, otherwise that of the staff login, always trimmed and in
   capitals; and the search runs exactly when none of the three is a code.
   */
  lemma KeepsFirstCode(ts: seq<Teacher>, used: set<string>, i: nat)
    requires AllAdoptedUsed(ts, used) && i < |ts|
    ensures |Logins(ts, used)| == |ts|
    ensures var t, login := ts[i], Logins(ts, used)[i];
            && (HasCode(Strip(t.existingCode)) ==> login == Upper(Strip(t.existingCode)))
            && (!HasCode(Strip(t.existingCode)) && HasCode(Strip(t.existingLogin)) ==> login == Upper(Strip(t.existingLogin)))
            && (!HasCode(Strip(t.existingCode)) && !HasCode(Strip(t.existingLogin)) && HasCode(Strip(t.legacyLogin)) ==>
                  login == Upper(Strip(t.legacyLogin)))
            && (Adopted(t).None? <==> !HasCode(Strip(t.existingCode)) && !HasCode(Strip(t.existingLogin)) && !HasCode(Strip(t.legacyLogin)))
  {
    LoginsAt(ts, used);
    HasCodeIs(Strip(ts[i].existingCode));
    HasCodeIs(Strip(ts[i].existingLogin));
    HasCodeIs(Strip(ts[i].legacyLogin));
  }

  /** The codes in use are the rows that are codes, trimmed and in capitals. */
  lemma UsedCodesAre(rows: seq<string>, code: string)
    ensures code in UsedCodes(rows)
            <==> exists i :: 0 <= i < |rows| && HasCode(Strip(rows[i])) && code == Upper(Strip(rows[i]))
  {
    forall i | 0 <= i < |rows|
      ensures HasCode(Strip(rows[i])) <==> IsTeacherCode(Strip(rows[i]))
    {
      HasCodeIs(Strip(rows[i]));
    }
  }

  /** Every text that a teacher's code may come from is one of the rows read beforehand. */
  predicate ReadFrom(ts: seq<Teacher>, rows: seq<string>) {
    forall i :: 0 <= i < |ts| ==>
      && (ts[i].existingCode == "" || ts[i].existingCode in rows)
      && (ts[i].existingLogin == "" || ts[i].existingLogin in rows)
      && (ts[i].legacyLogin == "" || ts[i].legacyLogin in rows)
  }

  lemma RowIsUsed(rows: seq<string>, text: string)
    requires text in rows && IsTeacherCode(Strip(text))
    ensures Upper(Strip(text)) in UsedCodes(rows)
  {
    var i :| 0 <= i < |rows| && rows[i] == text;
  }

  lemma AdoptedAreUsed(ts: seq<Teacher>, rows: seq<string>)
    requires ReadFrom(ts, rows)
    ensures AllAdoptedUsed(ts, UsedCodes(rows))
  {
    forall i | 0 <= i < |ts| && Adopted(ts[i]).Some?
      ensures Adopted(ts[i]).value in UsedCodes(rows)
    {
      var t := ts[i];
      UpperKeepsCode(Strip(t.existingCode));
      UpperKeepsCode(Strip(t.existingLogin));
      if IsTeacherCode(Strip(t.existingCode)) {
        RowIsUsed(rows, t.existingCode);
      } else if IsTeacherCode(Strip(t.existingLogin)) {
        RowIsUsed(rows, t.existingLogin);
      } else {
        RowIsUsed(rows, t.legacyLogin);
      }
    }
  }

  /** A code of five digits is never seen as used, however often it is stored. */
  lemma WideCodeUnseen(rows: seq<string>, n: nat)
    requires n >= 10000
    ensures TeacherCode(n) !in UsedCodes(rows)
  {
    RecognisedExactly(n);
    if TeacherCode(n) in UsedCodes(rows) {
      var i :| 0 <= i < |rows| && IsTeacherCode(Strip(rows[i])) && Upper(Strip(rows[i])) == TeacherCode(n);
      UpperKeepsCode(Strip(rows[i]));
    }
  }

  lemma {:induction false} UpperFixes(s: string)
    requires forall k :: 0 <= k < |s| ==> !IsLower(s[k])
    ensures Upper(s) == s
  {
    if s != "" {
      UpperFixes(s[1..]);
      assert s == [s[0]] + s[1..];
    }
  }

  lemma UpperTwice(s: string)
    ensures Upper(Upper(s)) == Upper(s)
  {
    forall k | 0 <= k < |Upper(s)|
      ensures !IsLower(Upper(s)[k])
    {
      if s != "" {
        UpperAt(s, 0);
        UpperAt(s, k);
      }
    }
    UpperFixes(Upper(s));
  }

  lemma TeacherCodeUpper(n: nat)
    ensures Upper(TeacherCode(n)) == TeacherCode(n)
  {
    PaddedValue(n, 4);
    UpperFixes(TeacherCode(n));
  }

  lemma {:induction false} LoginsUpper(ts: seq<Teacher>, used: set<string>)
    ensures forall i :: 0 <= i < |Logins(ts, used)| ==> Upper(Logins(ts, used)[i]) == Logins(ts, used)[i]
    decreases |ts|
  {
    if ts != [] {
      UpperTwice(Strip(ts[0].existingCode));
      UpperTwice(Strip(ts[0].existingLogin));
      UpperTwice(Strip(ts[0].legacyLogin));
      TeacherCodeUpper(NextNumber(used));
      LoginsUpper(ts[1..], used + {CodeFor(ts[0], used)});
    }
  }

  lemma KeepsItsCode(t: Teacher, login: string)
    requires t.existingCode == login && IsTeacherCode(login) && Upper(login) == login
    ensures Adopted(t) == Some(login)
  {
    assert Strip(login) == login by {
      assert !IsSpace(login[0]);
      assert login[6] == login[3..][3] && !IsSpace(login[6]);
    }
  }

  /** When every login is a recognised code, a second backfill over the stored codes gives every teacher the same one. */
  lemma SecondBackfillKeeps(ts: seq<Teacher>, used: set<string>, again: seq<Teacher>, usedAgain: set<string>)
    requires AllAdoptedUsed(ts, used) && AllAdoptedUsed(again, usedAgain) && |again| == |ts|
    requires forall i :: 0 <= i < |ts| && i < |Logins(ts, used)| ==> again[i].existingCode == Logins(ts, used)[i]
    requires forall i :: 0 <= i < |Logins(ts, used)| ==> IsTeacherCode(Logins(ts, used)[i])
    ensures Logins(again, usedAgain) == Logins(ts, used)
  {
    LoginsAt(ts, used);
    LoginsAt(again, usedAgain);
    LoginsUpper(ts, used);
    forall i | 0 <= i < |ts|
      ensures Logins(again, usedAgain)[i] == Logins(ts, used)[i]
    {
      KeepsItsCode(again[i], Logins(ts, used)[i]);
    }
  }

  /** The used codes when the loop reaches a teacher. */
  function UsedAt(ts: seq<Teacher>, used: set<string>, i: nat): set<string>
    requires i <= |ts|
    decreases i
  {
    if i == 0 then used else UsedAt(ts[1..], used + {CodeFor(ts[0], used)}, i - 1)
  }

  lemma {:induction false} LoginIsCode(ts: seq<Teacher>, used: set<string>, i: nat)
    requires i < |ts|
    ensures i < |Logins(ts, used)| && Logins(ts, used)[i] == CodeFor(ts[i], UsedAt(ts, used, i))
    decreases i
  {
    if i > 0 {
      LoginIsCode(ts[1..], used + {CodeFor(ts[0], used)}, i - 1);
    }
  }

  /** The numbers below one that are free. */
  function FreeBelow(used: set<string>, n: nat): set<nat> {
    set k: nat | 1 <= k < n && TeacherCode(k) !in used
  }

  /** How many of the first teachers have no code to adopt. */
  function Searching(ts: seq<Teacher>, i: nat): nat
    requires i <= |ts|
    decreases i
  {
    if i == 0 then 0 else (if Adopted(ts[0]).None? then 1 else 0) + Searching(ts[1..], i - 1)
  }

  /** Handing out the least free number removes it from those below every larger number. */
  lemma FreeBelowStep(used: set<string>, n: nat)
    requires n >= 1
    ensures var m := NextNumber(used);
            && FreeBelow(used + {TeacherCode(m)}, n) == FreeBelow(used, n) - {m}
            && (m in FreeBelow(used, n) <==> m < n)
            && (FreeBelow(used, n) == {} <==> n <= m)
            && (TeacherCode(n) in used + {TeacherCode(m)} <==> TeacherCode(n) in used || n == m)
  {
    var m := NextNumber(used);
    NextNumberIsLeast(used);
    forall k: nat | TeacherCode(k) == TeacherCode(m)
      ensures k == m
    {
      TeacherCodeInjective(k, m);
    }
    assert m < n ==> m in FreeBelow(used, n);
  }

  /**
   Read off the used codes before the loop: a teacher without a code of their
   own gets a number exactly when it is free and as many numbers below it are
   free as there are such teachers earlier in the table.
   */
  lemma {:induction false} NewCodeExactly(ts: seq<Teacher>, used: set<string>, i: nat, n: nat)
    requires AllAdoptedUsed(ts, used) && i < |ts| && Adopted(ts[i]).None?
    ensures i < |Logins(ts, used)|
    ensures Logins(ts, used)[i] == TeacherCode(n)
            <==> n >= 1 && TeacherCode(n) !in used && |FreeBelow(used, n)| == Searching(ts, i)
    decreases i
  {
    NextNumberIsLeast(used);
    if i == 0 {
      if n >= 1 {
        FreeBelowStep(used, n);
      }
      if TeacherCode(n) == TeacherCode(NextNumber(used)) {
        TeacherCodeInjective(n, NextNumber(used));
      }
    } else {
      var more := used + {CodeFor(ts[0], used)};
      NewCodeExactly(ts[1..], more, i - 1, n);
      if Adopted(ts[0]).Some? {
        assert more == used;
      } else if n >= 1 {
        FreeBelowStep(used, n);
      }
    }
  }

  /** The row after a backfill: the code is stored in both places, the staff login stays. */
  function Stored(t: Teacher, login: string): Teacher {
    Teacher(login, login, t.legacyLogin)
  }

  lemma StoredAdopts(t: Teacher, used: set<string>)
    ensures var login := CodeFor(t, used);
            Adopted(Stored(t, login)) == if IsTeacherCode(login) then Some(login) else None
  {
    var login := CodeFor(t, used);
    UpperTwice(Strip(t.existingCode));
    UpperTwice(Strip(t.existingLogin));
    UpperTwice(Strip(t.legacyLogin));
    UpperKeepsCode(Strip(t.legacyLogin));
    TeacherCodeUpper(NextNumber(used));
    if IsTeacherCode(login) {
      KeepsItsCode(Stored(t, login), login);
    } else {
      TeacherCodeStripped(NextNumber(used));
    }
  }

  lemma TeacherCodeStripped(n: nat)
    ensures Strip(TeacherCode(n)) == TeacherCode(n) && Upper(Strip(TeacherCode(n))) == TeacherCode(n)
  {
    TeacherCodeUpper(n);
    PaddedValue(n, 4);
    var s := TeacherCode(n);
    assert s[|s| - 1] == Padded(n, 4)[|Padded(n, 4)| - 1];
  }

  /** The rows after a backfill. */
  predicate AllStored(ts: seq<Teacher>, used: set<string>, again: seq<Teacher>) {
    && |again| == |ts|
    && forall i :: 0 <= i < |ts| && i < |Logins(ts, used)| ==> again[i] == Stored(ts[i], Logins(ts, used)[i])
  }

  /** How many of the codes have a form that is not recognised. */
  function Unrecognised(logins: seq<string>): nat {
    if logins == [] then 0 else (if IsTeacherCode(logins[0]) then 0 else 1) + Unrecognised(logins[1..])
  }

  lemma {:induction false} LoginsLength(ts: seq<Teacher>, used: set<string>)
    ensures |Logins(ts, used)| == |ts|
    decreases |ts|
  {
    if ts != [] {
      LoginsLength(ts[1..], used + {CodeFor(ts[0], used)});
    }
  }

  lemma StoredTail(ts: seq<Teacher>, used: set<string>, again: seq<Teacher>)
    requires AllStored(ts, used, again) && ts != []
    ensures AllStored(ts[1..], used + {CodeFor(ts[0], used)}, again[1..])
    ensures again[0] == Stored(ts[0], CodeFor(ts[0], used))
  {
    var more := used + {CodeFor(ts[0], used)};
    assert Logins(ts, used)[1..] == Logins(ts[1..], more);
    assert Logins(ts, used)[0] == CodeFor(ts[0], used);
  }

  lemma UnrecognisedFirst(logins: seq<string>, i: nat)
    requires 0 < i <= |logins|
    ensures Unrecognised(logins[..i]) == (if IsTeacherCode(logins[0]) then 0 else 1) + Unrecognised(logins[1..][..i - 1])
  {
    assert logins[..i][1..] == logins[1..][..i - 1];
  }

  lemma {:induction false} StoredSearch(ts: seq<Teacher>, used: set<string>, again: seq<Teacher>, i: nat)
    requires AllStored(ts, used, again) && i <= |ts|
    ensures |Logins(ts, used)| == |ts|
    ensures Searching(again, i) == Unrecognised(Logins(ts, used)[..i])
    decreases i
  {
    LoginsLength(ts, used);
    if i > 0 {
      var more, logins := used + {CodeFor(ts[0], used)}, Logins(ts, used);
      StoredTail(ts, used, again);
      StoredSearch(ts[1..], more, again[1..], i - 1);
      StoredAdopts(ts[0], used);
      assert logins[0] == CodeFor(ts[0], used) && logins[1..] == Logins(ts[1..], more);
      UnrecognisedFirst(logins, i);
    }
  }

  /**
   A second backfill over the stored codes gives a teacher the same code exactly
   when the code is recognised, or when its number is still unused and as many
   lower numbers are free as there are codes earlier in the table that are not
   recognised.  So a code of five digits changes when a lower number has become
   free, or when an earlier such code has gone.
   */
  lemma SecondBackfillExactly(ts: seq<Teacher>, used: set<string>, again: seq<Teacher>, usedAgain: set<string>, i: nat)
    requires AllStored(ts, used, again) && AllAdoptedUsed(again, usedAgain) && i < |ts|
    ensures |Logins(ts, used)| == |Logins(again, usedAgain)| == |ts|
    ensures var logins := Logins(ts, used);
            Logins(again, usedAgain)[i] == logins[i]
            <==> IsTeacherCode(logins[i])
                 || exists n :: logins[i] == TeacherCode(n) && TeacherCode(n) !in usedAgain
                                && |FreeBelow(usedAgain, n)| == Unrecognised(logins[..i])
  {
    var logins := Logins(ts, used);
    LoginIsCode(ts, used, i);
    StoredSearch(ts, used, again, i);
    LoginsAt(again, usedAgain);
    StoredAdopts(ts[i], UsedAt(ts, used, i));
    if !IsTeacherCode(logins[i]) {
      var n := NextNumber(UsedAt(ts, used, i));
      NextNumberIsLeast(UsedAt(ts, used, i));
      assert logins[i] == TeacherCode(n);
      NewCodeExactly(again, usedAgain, i, n);
      forall k | logins[i] == TeacherCode(k)
        ensures k == n
      {
        TeacherCodeInjective(k, n);
      }
    }
  }

  // Ten thousand teachers, and one number freed afterwards.

  /** The codes of the numbers from one up to, but not including, another, as rows. */
  function CodeRows(from: nat, to: nat): seq<string>
    requires from <= to
  {
    seq(to - from, i requires 0 <= i < to - from => TeacherCode(from + i))
  }

  ghost predicate AreCodes(rows: seq<string>) {
    forall i :: 0 <= i < |rows| ==> exists n: nat :: rows[i] == TeacherCode(n)
  }

  /** Of rows that hold codes, exactly those of four digits count as used. */
  lemma UsedOfCodes(rows: seq<string>, n: nat)
    requires AreCodes(rows)
    ensures TeacherCode(n) in UsedCodes(rows) <==> n < 10000 && TeacherCode(n) in rows
  {
    RecognisedExactly(n);
    TeacherCodeStripped(n);
    if TeacherCode(n) in UsedCodes(rows) {
      var i :| 0 <= i < |rows| && IsTeacherCode(Strip(rows[i])) && Upper(Strip(rows[i])) == TeacherCode(n);
      var k: nat :| rows[i] == TeacherCode(k);
      TeacherCodeStripped(k);
      UpperKeepsCode(Strip(rows[i]));
    }
    if n < 10000 && TeacherCode(n) in rows {
      RowIsUsed(rows, TeacherCode(n));
    }
  }

  lemma CodeInRows(from: nat, to: nat, n: nat)
    requires from <= to
    ensures AreCodes(CodeRows(from, to))
    ensures TeacherCode(n) in CodeRows(from, to) <==> from <= n < to
  {
    var rows := CodeRows(from, to);
    if from <= n < to {
      assert rows[n - from] == TeacherCode(n);
    }
    if TeacherCode(n) in rows {
      var i :| 0 <= i < |rows| && rows[i] == TeacherCode(n);
      TeacherCodeInjective(from + i, n);
    }
  }

  /** Every four-digit code is in use. */
  function FullRows(): seq<string> {
    CodeRows(1, 10000)
  }

  /** The same later, with number 5 gone and the first wide code stored. */
  function FreedRows(): seq<string> {
    CodeRows(1, 5) + CodeRows(6, 10000) + [TeacherCode(10000)]
  }

  lemma FullRowsUsed(n: nat)
    ensures TeacherCode(n) in UsedCodes(FullRows()) <==> 1 <= n < 10000
  {
    CodeInRows(1, 10000, n);
    UsedOfCodes(FullRows(), n);
  }

  lemma FreedRowsUsed(n: nat)
    ensures TeacherCode(n) in UsedCodes(FreedRows()) <==> 1 <= n < 10000 && n != 5
  {
    CodeInRows(1, 5, n);
    CodeInRows(6, 10000, n);
    var rows := FreedRows();
    assert rows == CodeRows(1, 5) + CodeRows(6, 10000) + [TeacherCode(10000)];
    FreedRowsAreCodes();
    UsedOfCodes(rows, n);
    if TeacherCode(n) == TeacherCode(10000) {
      TeacherCodeInjective(n, 10000);
    }
  }

  lemma FreedRowsAreCodes()
    ensures AreCodes(FreedRows())
  {
    var rows, a, b := FreedRows(), CodeRows(1, 5), CodeRows(6, 10000);
    CodeInRows(1, 5, 0);
    CodeInRows(6, 10000, 0);
    forall i | 0 <= i < |rows|
      ensures exists n: nat :: rows[i] == TeacherCode(n)
    {
      if i < |a| {
        assert rows[i] == a[i];
      } else if i < |a| + |b| {
        assert rows[i] == b[i - |a|];
      } else {
        assert rows[i] == TeacherCode(10000);
      }
    }
  }

  lemma NextIs(used: set<string>, n: nat)
    requires n >= 1 && TeacherCode(n) !in used && forall k :: 1 <= k < n ==> TeacherCode(k) in used
    ensures NextNumber(used) == n
  {
    NextNumberIsLeast(used);
  }

  lemma FullRowsNext()
    ensures NextNumber(UsedCodes(FullRows())) == 10000
  {
    forall n: nat | n <= 10000
      ensures TeacherCode(n) in UsedCodes(FullRows()) <==> 1 <= n < 10000
    {
      FullRowsUsed(n);
    }
    NextIs(UsedCodes(FullRows()), 10000);
  }

  lemma FreedRowsNext()
    ensures NextNumber(UsedCodes(FreedRows())) == 5
  {
    forall n: nat | n <= 5
      ensures TeacherCode(n) in UsedCodes(FreedRows()) <==> 1 <= n < 5
    {
      FreedRowsUsed(n);
    }
    NextIs(UsedCodes(FreedRows()), 5);
  }

  lemma OnlyTeacher(t: Teacher, used: set<string>)
    requires Adopted(t).None?
    ensures Logins([t], used) == [TeacherCode(NextNumber(used))]
  {
    assert [t][1..] == [];
  }

  lemma StoredIsRead(wide: nat)
    requires wide == 10000
    ensures ReadFrom([Stored(Teacher("", "", ""), TeacherCode(wide))], FreedRows())
  {
    var rows := FreedRows();
    assert rows[|rows| - 1] == TeacherCode(wide);
  }

  /** Concrete: the teacher who got TCH10000 gets number 5 as soon as that is free. */
  lemma FreedNumberChangesCode(wide: nat)
    requires wide == 10000
    ensures var before, stored := Teacher("", "", ""), Stored(Teacher("", "", ""), TeacherCode(wide));
            && ReadFrom([before], FullRows()) && Logins([before], UsedCodes(FullRows())) == [TeacherCode(wide)]
            && ReadFrom([stored], FreedRows()) && Logins([stored], UsedCodes(FreedRows())) == [TeacherCode(5)]
  {
    var before := Teacher("", "", "");
    FullRowsNext();
    FreedRowsNext();
    assert Adopted(before).None?;
    OnlyTeacher(before, UsedCodes(FullRows()));
    StoredAdopts(before, UsedCodes(FullRows()));
    RecognisedExactly(wide);
    OnlyTeacher(Stored(before, TeacherCode(wide)), UsedCodes(FreedRows()));
    StoredIsRead(wide);
  }

  /** The search loop; the code is added to the used ones. */
  method NextTeacherCode(used: set<string>) returns (code: string, more: set<string>)
    ensures code == TeacherCode(NextNumber(used)) && code !in used && more == used + {code}
  {
    var number := 1;
    assert CodesBelow(1) == {};
    while TeacherCode(number) in used
      invariant number >= 1 && CodesBelow(number) <= used && FirstFree(used, number) == NextNumber(used)
      decreases |used| + 1 - number
    {
      BoundedByUsed(used, number);
      CodesBelowStep(number);
      number := number + 1;
    }
    code := TeacherCode(number);
    more := used + {code};
  }

  /** One pass of the loop: adopt the first recognised code, or search. */
  method AssignCode(t: Teacher, used: set<string>) returns (login: string, more: set<string>)
    ensures login == CodeFor(t, used) && more == used + {login}
  {
    if IsTeacherCode(Upper(Strip(t.existingCode))) {
      login := Upper(Strip(t.existingCode));
      more := used + {login};
    } else if IsTeacherCode(Upper(Strip(t.existingLogin))) {
      login := Upper(Strip(t.existingLogin));
      more := used + {login};
    } else if IsTeacherCode(Strip(t.legacyLogin)) {
      login := Upper(Strip(t.legacyLogin));
      more := used + {login};
    } else {
      login, more := NextTeacherCode(used);
    }
  }

  /** The loop over all teachers, with the set of used codes growing as it goes. */
  method AssignCodes(ts: seq<Teacher>, initial: set<string>) returns (logins: seq<string>)
    ensures logins == Logins(ts, initial)
  {
    logins := [];
    var used := initial;
    for i := 0 to |ts|
      invariant logins + Logins(ts[i..], used) == Logins(ts, initial)
    {
      LoginsStep(ts, i, used);
      var login, more := AssignCode(ts[i], used);
      Associate(logins, [login], Logins(ts[i + 1..], more));
      logins := logins + [login];
      used := more;
    }
  }

  /** The backfill reads the used codes once and assigns. */
  method BackfillTeachers(ts: seq<Teacher>, rows: seq<string>) returns (logins: seq<string>)
    requires ReadFrom(ts, rows)
    ensures logins == Logins(ts, UsedCodes(rows))
    ensures Distinct(logins) <==> AdoptedDistinct(ts)
  {
    AdoptedAreUsed(ts, rows);
    BackfillDistinctExactly(ts, UsedCodes(rows));
    logins := AssignCodes(ts, UsedCodes(rows));
  }

  lemma LoginsStep(ts: seq<Teacher>, i: nat, used: set<string>)
    requires i < |ts|
    ensures Logins(ts[i..], used) == [CodeFor(ts[i], used)] + Logins(ts[i + 1..], used + {CodeFor(ts[i], used)})
  {
    assert ts[i..][1..] == ts[i + 1..];
  }

  // --------------------------------------------------------------- student codes

  /** str.isdigit() over ASCII: at least one digit and nothing else. */
  predicate IsNumeric(s: string) {
    s != "" && AllDigits(s)
  }

  /** The number behind the prefix, 0 when there is none. */
  function NumberOf(raw: string, prefix: string): nat {
    if StartsWith(raw, prefix) && IsNumeric(raw[|prefix|..]) then Value(raw[|prefix|..]) else 0
  }

  function MaxNumber(rows: seq<string>, prefix: string): nat {
    if rows == [] then 0 else Max(MaxNumber(rows[..|rows| - 1], prefix), NumberOf(Upper(Strip(rows[|rows| - 1])), prefix))
  }

  function Prefix(prefix: string): string {
    var text := Upper(Strip(if prefix == "" then "MSI" else prefix));
    if text == "" then "MSI" else text
  }

  function StudentCode(prefix: string, n: nat): string {
    prefix + Padded(n, 5)
  }

  lemma {:induction false} MaxNumberIsMax(rows: seq<string>, prefix: string)
    ensures forall i :: 0 <= i < |rows| ==> NumberOf(Upper(Strip(rows[i])), prefix) <= MaxNumber(rows, prefix)
    ensures MaxNumber(rows, prefix) == 0
            || exists i :: 0 <= i < |rows| && NumberOf(Upper(Strip(rows[i])), prefix) == MaxNumber(rows, prefix)
  {
    if rows != [] {
      var before := rows[..|rows| - 1];
      MaxNumberIsMax(before, prefix);
      assert forall i :: 0 <= i < |before| ==> before[i] == rows[i];
      if MaxNumber(before, prefix) == MaxNumber(rows, prefix) != 0 {
        var i :| 0 <= i < |before| && NumberOf(Upper(Strip(before[i])), prefix) == MaxNumber(before, prefix);
        assert rows[i] == before[i];
      }
    }
  }

  lemma StudentCodeNumber(prefix: string, n: nat)
    ensures NumberOf(StudentCode(prefix, n), prefix) == n
  {
    PaddedValue(n, 5);
    assert StudentCode(prefix, n)[|prefix|..] == Padded(n, 5);
    assert StudentCode(prefix, n)[..|prefix|] == prefix;
  }

  /** A listed code counts with the number that its digits show, when it is the prefix and digits and nothing else. */
  lemma CountsExactly(raw: string, prefix: string, n: nat)
    requires n > 0
    ensures NumberOf(raw, prefix) == n <==> exists digits :: IsNumeric(digits) && Value(digits) == n && raw == prefix + digits
  {
    if NumberOf(raw, prefix) == n {
      assert raw == prefix + raw[|prefix|..];
    }
    forall digits | IsNumeric(digits) && Value(digits) == n && raw == prefix + digits
      ensures NumberOf(raw, prefix) == n
    {
      assert raw[|prefix|..] == digits && raw[..|prefix|] == prefix;
    }
  }

  /** Codes have five digits below 100000 and as many as they need from there on. */
  lemma StudentCodeWidth(prefix: string, n: nat)
    ensures |StudentCode(prefix, n)| >= |prefix| + 5
    ensures |StudentCode(prefix, n)| == |prefix| + 5 <==> n < 100000
  {
    PaddedValue(n, 5);
    DecimalWidth(n, 5);
    assert Power10(5) == 10 * Power10(4) == 100 * Power10(3) == 1000 * Power10(2) == 10000 * Power10(1) == 100000 * Power10(0);
    DecimalValue(n);
    ZerosAhead(if |Decimal(n)| < 5 then 5 - |Decimal(n)| else 0, Decimal(n));
  }

  /** The prefix is the text asked for, trimmed and in capitals, and MSI when that leaves nothing. */
  lemma PrefixIs(wanted: string)
    ensures Strip(wanted) != "" ==> Prefix(wanted) == Upper(Strip(wanted))
    ensures Strip(wanted) == "" ==> Prefix(wanted) == "MSI"
  {
    UpperIs(Strip(wanted));
    var text := "MSI";
    assert Strip(text) == text;
    UpperFixes(text);
  }

  /** Distinct numbers give distinct codes, also beyond five digits. */
  lemma StudentCodeInjective(prefix: string, a: nat, b: nat)
    requires StudentCode(prefix, a) == StudentCode(prefix, b)
    ensures a == b
  {
    StudentCodeNumber(prefix, a);
    StudentCodeNumber(prefix, b);
  }

  /** The scan for the largest number; the new code is none of the listed ones, and no number is skipped. */
  method NextStudentCode(rows: seq<string>, wanted: string) returns (code: string)
    ensures code == StudentCode(Prefix(wanted), MaxNumber(rows, Prefix(wanted)) + 1)
    ensures forall i :: 0 <= i < |rows| ==> Upper(Strip(rows[i])) != code
    ensures NumberOf(code, Prefix(wanted)) == 1
            || exists i :: 0 <= i < |rows| && NumberOf(Upper(Strip(rows[i])), Prefix(wanted)) + 1 == NumberOf(code, Prefix(wanted))
  {
    var prefix := Prefix(wanted);
    var most := 0;
    for i := 0 to |rows|
      invariant most == MaxNumber(rows[..i], prefix)
    {
      assert rows[..i + 1][..i] == rows[..i];
      var raw := Upper(Strip(rows[i]));
      if !StartsWith(raw, prefix) {
        continue;
      }
      var digits := raw[|prefix|..];
      if IsNumeric(digits) {
        most := Max(most, Value(digits));
      }
    }
    assert rows[..|rows|] == rows;
    code := StudentCode(prefix, most + 1);
    StudentCodeNumber(prefix, most + 1);
    MaxNumberIsMax(rows, prefix);
  }
}
