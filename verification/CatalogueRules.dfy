/**
 The consolidation of outcome reasons read off the tables: which reason every
 decision ends with, and which options the catalogue keeps.
 */
module CatalogueRules {
  import opened Texts
  import opened Catalogue

  // --------------------------------------------------------------- decisions

  function ReasonText(d: Decision): string {
    if d.outcome == Rejected then d.rejectionReason else d.withdrawalReason
  }

  predicate Concerned(d: Decision, g: Group) {
    (d.outcome == Rejected && g.category == Rejection) || (d.outcome == Withdrew && g.category == Withdrawal)
  }

  /** Some option with this reason bears one of the group's labels. */
  predicate OptionListed(settings: map<nat, Setting>, reason: string, g: Group) {
    exists id :: id in settings && settings[id].category == g.category && settings[id].value == reason
                 && Norm(settings[id].title) in g.sourceLabels
  }

  /** The reason is the group's own, is listed as a value or a label, or belongs to an option with a listed label. */
  predicate Claims(settings: map<nat, Setting>, d: Decision, g: Group) {
    && Concerned(d, g)
    && (|| ReasonText(d) == g.value || ReasonText(d) in g.sourceValues || Norm(ReasonText(d)) in g.sourceLabels
        || OptionListed(settings, ReasonText(d), g))
  }

  /** A withdrawal's own words are one of the group's labels. */
  predicate DetailClaims(d: Decision, g: Group) {
    d.outcome == Withdrew && g.category == Withdrawal && Norm(d.detail) in g.sourceLabels
  }

  predicate Unclaimed(settings: map<nat, Setting>, d: Decision, groups: seq<Group>) {
    forall j :: 0 <= j < |groups| ==> !Claims(settings, d, groups[j]) && !DetailClaims(d, groups[j])
  }

  lemma AppliesIs(settings: map<nat, Setting>, d: Decision, g: Group)
    ensures Claims(settings, d, g) || DetailClaims(d, g) <==> Applies(settings, d, g) || (Concerned(d, g) && ReasonText(d) == g.value)
    ensures Concerned(d, g) ==> Reason(d, g.category) == ReasonText(d)
    ensures Concerned(d, g) <==> HasReason(d, g.category)
  {
    if LabelNamed(settings, d, g) {
      var id :| id in settings && IsOption(settings[id], g.category, Reason(d, g.category)) && Norm(settings[id].title) in g.sourceLabels;
      assert settings[id].category == g.category;
    }
    if OptionListed(settings, Reason(d, g.category), g) {
      var id :| id in settings && settings[id].category == g.category && settings[id].value == Reason(d, g.category)
                && Norm(settings[id].title) in g.sourceLabels;
      assert IsOption(settings[id], g.category, Reason(d, g.category));
    }
  }

  /** A round for a group that claims nothing of the decision leaves the other groups' claims alone. */
  lemma ClaimsKept(db: Db, g: Group, h: Group, now: Time, d: Decision)
    requires CatalogueOk(db) && Compatible(g, h) && !Claims(db.settings, d, g)
    ensures Claims(Round(db, g, now).settings, d, h) <==> Claims(db.settings, d, h)
  {
    if Concerned(d, h) {
      ListedKept(db, g, h, now, ReasonText(d), Concerned(d, g));
    }
  }

  lemma ListedKept(db: Db, g: Group, h: Group, now: Time, reason: string, concerned: bool)
    requires CatalogueOk(db) && Compatible(g, h)
    requires g.category == h.category ==>
               reason != g.value && reason !in g.sourceValues && !OptionListed(db.settings, reason, g)
    ensures OptionListed(Round(db, g, now).settings, reason, h) <==> OptionListed(db.settings, reason, h)
  {
    var after := Round(db, g, now).settings;
    if OptionListed(db.settings, reason, h) {
      var id :| id in db.settings && db.settings[id].category == h.category && db.settings[id].value == reason
                && Norm(db.settings[id].title) in h.sourceLabels;
      UntouchedStays(db, g, now, id);
    }
    if OptionListed(after, reason, h) {
      var id :| id in after && after[id].category == h.category && after[id].value == reason && Norm(after[id].title) in h.sourceLabels;
      OnlyCanonicalIsNew(db, g, now, id);
    }
  }

  /** After its round a group's own reason is claimed by no other group. */
  lemma OwnReasonUnclaimed(db: Db, g: Group, h: Group, now: Time, d: Decision)
    requires CatalogueOk(db) && Compatible(g, h) && Norm(g.value) !in h.sourceLabels
    requires Concerned(d, g) && ReasonText(d) == g.value
    ensures !Claims(Round(db, g, now).settings, d, h)
  {
    var after := Round(db, g, now).settings;
    if Concerned(d, h) && OptionListed(after, g.value, h) {
      var id :| id in after && after[id].category == h.category && after[id].value == g.value && Norm(after[id].title) in h.sourceLabels;
      OnlyCanonicalIsNew(db, g, now, id);
    }
  }

  lemma {:induction false} UnclaimedStays(db: Db, groups: seq<Group>, now: Time, k: nat)
    requires CatalogueOk(db) && GroupsOk(groups) && k < |db.decisions| && Unclaimed(db.settings, db.decisions[k], groups)
    ensures k < |Rounds(db, groups, now).decisions| && Rounds(db, groups, now).decisions[k] == db.decisions[k]
    decreases |groups|
  {
    if groups != [] {
      var g, rest, d := groups[0], groups[1..], db.decisions[k];
      AppliesIs(db.settings, d, g);
      GroupsOkTail(groups);
      RoundKeepsCatalogue(db, g, now);
      forall j | 0 <= j < |rest|
        ensures !Claims(Round(db, g, now).settings, d, rest[j]) && !DetailClaims(d, rest[j])
      {
        assert rest[j] == groups[j + 1];
        ClaimsKept(db, g, rest[j], now, d);
      }
      UnclaimedStays(Round(db, g, now), rest, now, k);
    }
  }

  /** After the round of a group that claims it, a decision has the group's reason and keeps it. */
  lemma ClaimedStays(db: Db, groups: seq<Group>, now: Time, k: nat)
    requires CatalogueOk(db) && GroupsOk(groups) && groups != [] && k < |db.decisions|
    requires Claims(db.settings, db.decisions[k], groups[0]) || DetailClaims(db.decisions[k], groups[0])
    requires forall j :: 1 <= j < |groups| ==> !DetailClaims(db.decisions[k], groups[j])
    ensures k < |Rounds(db, groups, now).decisions| && ReasonText(Rounds(db, groups, now).decisions[k]) == groups[0].value
  {
    var g, rest, d := groups[0], groups[1..], db.decisions[k];
    var after := Round(db, g, now);
    AppliesIs(db.settings, d, g);
    GroupsOkTail(groups);
    RoundKeepsCatalogue(db, g, now);
    assert ReasonText(after.decisions[k]) == g.value && Concerned(after.decisions[k], g);
    forall j | 0 <= j < |rest|
      ensures !Claims(after.settings, after.decisions[k], rest[j]) && !DetailClaims(after.decisions[k], rest[j])
    {
      assert rest[j] == groups[j + 1];
      OwnReasonUnclaimed(db, g, rest[j], now, after.decisions[k]);
    }
    UnclaimedStays(after, rest, now, k);
  }

  lemma {:induction false} DetailDecides(db: Db, groups: seq<Group>, now: Time, k: nat, i: nat)
    requires CatalogueOk(db) && GroupsOk(groups) && k < |db.decisions| && i < |groups| && DetailClaims(db.decisions[k], groups[i])
    ensures k < |Rounds(db, groups, now).decisions| && ReasonText(Rounds(db, groups, now).decisions[k]) == groups[i].value
    decreases |groups|
  {
    if i == 0 {
      forall j | 1 <= j < |groups|
        ensures !DetailClaims(db.decisions[k], groups[j])
      {
        assert Compatible(groups[0], groups[j]);
      }
      ClaimedStays(db, groups, now, k);
    } else {
      GroupsOkTail(groups);
      RoundKeepsCatalogue(db, groups[0], now);
      assert groups[1..][i - 1] == groups[i];
      DetailDecides(Round(db, groups[0], now), groups[1..], now, k, i - 1);
    }
  }

  lemma {:induction false} FirstClaimDecides(db: Db, groups: seq<Group>, now: Time, k: nat, i: nat)
    requires CatalogueOk(db) && GroupsOk(groups) && k < |db.decisions| && i < |groups|
    requires forall j :: 0 <= j < |groups| ==> !DetailClaims(db.decisions[k], groups[j])
    requires Claims(db.settings, db.decisions[k], groups[i])
    requires forall j :: 0 <= j < i ==> !Claims(db.settings, db.decisions[k], groups[j])
    ensures k < |Rounds(db, groups, now).decisions| && ReasonText(Rounds(db, groups, now).decisions[k]) == groups[i].value
    decreases |groups|
  {
    if i == 0 {
      ClaimedStays(db, groups, now, k);
    } else {
      var g, rest, d := groups[0], groups[1..], db.decisions[k];
      AppliesIs(db.settings, d, g);
      GroupsOkTail(groups);
      RoundKeepsCatalogue(db, g, now);
      forall j | 0 <= j < |rest|
        ensures Claims(Round(db, g, now).settings, d, rest[j]) <==> Claims(db.settings, d, groups[j + 1])
        ensures !DetailClaims(d, rest[j])
      {
        assert rest[j] == groups[j + 1];
        ClaimsKept(db, g, rest[j], now, d);
      }
      FirstClaimDecides(Round(db, g, now), rest, now, k, i - 1);
    }
  }

  /**
   The reason that a decision ends with: that of the group whose labels hold a
   withdrawal's own words; otherwise that of the first group that claims the
   reason; otherwise, with nobody claiming it, the decision is untouched.
   */
  lemma NewReasonExactly(db: Db, groups: seq<Group>, now: Time, k: nat, i: nat)
    requires CatalogueOk(db) && GroupsOk(groups) && k < |db.decisions| && i < |groups|
    ensures k < |Rounds(db, groups, now).decisions|
    ensures var d, result := db.decisions[k], Rounds(db, groups, now).decisions[k];
            && (DetailClaims(d, groups[i]) ==> ReasonText(result) == groups[i].value)
            && ((forall j :: 0 <= j < |groups| ==> !DetailClaims(d, groups[j]))
                && Claims(db.settings, d, groups[i]) && (forall j :: 0 <= j < i ==> !Claims(db.settings, d, groups[j])) ==>
                  ReasonText(result) == groups[i].value)
            && (Unclaimed(db.settings, d, groups) ==> result == d)
  {
    var d := db.decisions[k];
    RoundsKeepCatalogue(db, groups, now);
    if DetailClaims(d, groups[i]) {
      DetailDecides(db, groups, now, k, i);
    } else if Unclaimed(db.settings, d, groups) {
      UnclaimedStays(db, groups, now, k);
    }
    if (forall j :: 0 <= j < |groups| ==> !DetailClaims(d, groups[j]))
       && Claims(db.settings, d, groups[i]) && (forall j :: 0 <= j < i ==> !Claims(db.settings, d, groups[j])) {
      FirstClaimDecides(db, groups, now, k, i);
    }
  }

  // ------------------------------------------------------------------- options

  /** The option is the group's by its value or its label, own or listed. */
  predicate Belongs(s: Setting, g: Group) {
    && s.category == g.category
    && (s.value in {g.value} + g.sourceValues || Norm(s.title) in {Norm(g.title)} + g.sourceLabels)
  }

  /** The group's one option: its own value and title, active and in its place, dated now. */
  predicate OwnOption(s: Setting, g: Group, now: Time) {
    && s.category == g.category && s.value == g.value && s.title == g.title && s.sortOrder == g.sortOrder
    && s.isActive && !s.isSystem && !s.isLegacy && s.updatedAt == now
  }

  lemma OwnIsNobodyElses(s: Setting, g: Group, h: Group, now: Time)
    requires Compatible(g, h) && Compatible(h, g) && OwnOption(s, g, now)
    ensures !Belongs(s, h)
  {
  }

  lemma RoundOptions(db: Db, g: Group, now: Time, id: nat)
    requires CatalogueOk(db)
    ensures var after := Round(db, g, now).settings;
            && (id in db.settings && !Belongs(db.settings[id], g) ==> id in after && after[id] == db.settings[id])
            && (id in after ==> OwnOption(after[id], g, now) || (id in db.settings && after[id] == db.settings[id] && !Belongs(after[id], g)))
            && KeptId(db, g) in after && OwnOption(after[KeptId(db, g)], g, now)
  {
    Installed(db, g, now);
    if id in db.settings && !Belongs(db.settings[id], g) {
      UntouchedStays(db, g, now, id);
    }
    if id in Round(db, g, now).settings {
      OnlyCanonicalIsNew(db, g, now, id);
    }
  }

  /**
   The catalogue afterwards: every option that belongs to no group, unchanged,
   and for each group its own one; nothing else.
   */
  lemma {:induction false} OptionsExactly(db: Db, groups: seq<Group>, now: Time, id: nat)
    requires CatalogueOk(db) && GroupsOk(groups)
    ensures var after := Rounds(db, groups, now).settings;
            && (id in db.settings && (forall j :: 0 <= j < |groups| ==> !Belongs(db.settings[id], groups[j])) ==>
                  id in after && after[id] == db.settings[id])
            && (id in after ==>
                  || (exists j :: 0 <= j < |groups| && OwnOption(after[id], groups[j], now))
                  || (id in db.settings && after[id] == db.settings[id] && forall j :: 0 <= j < |groups| ==> !Belongs(after[id], groups[j])))
    decreases |groups|
  {
    if groups != [] {
      var g, rest := groups[0], groups[1..];
      var mid := Round(db, g, now);
      GroupsOkTail(groups);
      RoundKeepsCatalogue(db, g, now);
      RoundOptions(db, g, now, id);
      OptionsExactly(mid, rest, now, id);
      assert forall j :: 0 <= j < |rest| ==> rest[j] == groups[j + 1];
      var after := Rounds(db, groups, now).settings;
      if id in after {
        if j :| 0 <= j < |rest| && OwnOption(after[id], rest[j], now) {
          assert OwnOption(after[id], groups[j + 1], now);
        } else if OwnOption(mid.settings[id], g, now) {
          assert OwnOption(after[id], groups[0], now);
        }
      }
    }
  }

  lemma {:induction false} EachGroupHasItsOption(db: Db, groups: seq<Group>, now: Time, i: nat) returns (id: nat)
    requires CatalogueOk(db) && GroupsOk(groups) && i < |groups|
    ensures id in Rounds(db, groups, now).settings && OwnOption(Rounds(db, groups, now).settings[id], groups[i], now)
    decreases |groups|
  {
    var g, rest := groups[0], groups[1..];
    GroupsOkTail(groups);
    RoundKeepsCatalogue(db, g, now);
    if i > 0 {
      id := EachGroupHasItsOption(Round(db, g, now), rest, now, i - 1);
    } else {
      id := KeptId(db, g);
      RoundOptions(db, g, now, id);
      forall j | 0 <= j < |rest|
        ensures !Belongs(Round(db, g, now).settings[id], rest[j])
      {
        OwnIsNobodyElses(Round(db, g, now).settings[id], g, rest[j], now);
      }
      OptionsExactly(Round(db, g, now), rest, now, id);
    }
  }

  /** Trimming takes away the spaces at both ends and nothing else. */
  lemma {:induction false} TrimIs(s: string) returns (before: nat, after: nat)
    ensures before + |Trim(s)| + after == |s| && s[before..|s| - after] == Trim(s)
    ensures forall i :: 0 <= i < before || |s| - after <= i < |s| ==> s[i] == ' '
    ensures Trim(s) != "" ==> Trim(s)[0] != ' ' && Trim(s)[|Trim(s)| - 1] != ' '
    decreases |s|
  {
    before, after := 0, 0;
    if s != "" && s[0] == ' ' {
      before, after := TrimIs(s[1..]);
      SliceOfTail(s, before, |s| - 1 - after);
      before := before + 1;
      forall i | 0 <= i < before || |s| - after <= i < |s|
        ensures s[i] == ' '
      {
        assert i > 0 ==> s[i] == s[1..][i - 1];
      }
    } else if s != "" && s[|s| - 1] == ' ' {
      var shorter := s[..|s| - 1];
      before, after := TrimIs(shorter);
      assert s[before..|s| - (after + 1)] == shorter[before..|shorter| - after];
      forall i | 0 <= i < before || |s| - (after + 1) <= i < |s|
        ensures s[i] == ' '
      {
        assert i < |s| - 1 ==> s[i] == shorter[i];
      }
      after := after + 1;
    }
  }
}
