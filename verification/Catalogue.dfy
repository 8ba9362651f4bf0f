/**
 The consolidation of outcome reasons: each round remaps the decisions of one
 group of reasons, keeps one catalogue option for the group, deletes its other
 options and turns the kept one into the canonical option.
 */
module Catalogue {
  import opened Texts

  type Time = int

  datatype Category = Rejection | Withdrawal | OtherCategory(name: string)

  datatype Setting = Setting(
    category: Category,
    value: string,
    title: string,
    isActive: bool,
    sortOrder: int,
    isSystem: bool,
    isLegacy: bool,
    updatedAt: Time)

  datatype Outcome = Rejected | Withdrew | OtherOutcome

  datatype Decision = Decision(outcome: Outcome, rejectionReason: string, withdrawalReason: string, detail: string)

  datatype Db = Db(settings: map<nat, Setting>, decisions: seq<Decision>, nextId: nat)

  datatype Group = Group(
    category: Category,
    value: string,
    title: string,
    preferred: string,
    sourceValues: set<string>,
    sourceLabels: set<string>,
    sortOrder: int)

  // ------------------------------------------------------------------ labels

  /** btrim removes spaces only. */
  function Trim(s: string): string {
    if s != "" && s[0] == ' ' then Trim(s[1..])
    else if s != "" && s[|s| - 1] == ' ' then Trim(s[..|s| - 1])
    else s
  }

  /** lower(btrim(...)), the form in which labels are compared. */
  function Norm(text: string): string {
    Lower(Trim(text))
  }

  // --------------------------------------------------------------- one round

  /** The reason of a decision in a category, if its outcome has one there. */
  predicate HasReason(d: Decision, c: Category) {
    (c.Rejection? && d.outcome.Rejected?) || (c.Withdrawal? && d.outcome.Withdrew?)
  }

  function Reason(d: Decision, c: Category): string {
    if c.Rejection? then d.rejectionReason else d.withdrawalReason
  }

  function WithReason(d: Decision, c: Category, reason: string): Decision {
    if c.Rejection? then d.(rejectionReason := reason) else d.(withdrawalReason := reason)
  }

  /** The decision's own text names the group. */
  predicate Named(d: Decision, g: Group) {
    || Reason(d, g.category) in g.sourceValues
    || Norm(Reason(d, g.category)) in g.sourceLabels
    || (g.category.Withdrawal? && Norm(d.detail) in g.sourceLabels)
  }

  predicate IsOption(s: Setting, c: Category, value: string) {
    s.category == c && s.value == value
  }

  /** The catalogue option behind the decision's reason has one of the group's labels. */
  predicate LabelNamed(settings: map<nat, Setting>, d: Decision, g: Group) {
    exists id :: id in settings && IsOption(settings[id], g.category, Reason(d, g.category))
                 && Norm(settings[id].title) in g.sourceLabels
  }

  predicate Applies(settings: map<nat, Setting>, d: Decision, g: Group) {
    HasReason(d, g.category) && (Named(d, g) || LabelNamed(settings, d, g))
  }

  function Remap(settings: map<nat, Setting>, d: Decision, g: Group): Decision {
    if Applies(settings, d, g) then WithReason(d, g.category, g.value) else d
  }

  /** The option belongs to the group: it is either kept as canonical or deleted. */
  predicate Touches(s: Setting, g: Group) {
    s.category == g.category
    && (s.value == g.value || Norm(s.title) == Norm(g.title) || s.value in g.sourceValues || Norm(s.title) in g.sourceLabels)
  }

  function TouchedIds(settings: map<nat, Setting>, g: Group): set<nat> {
    set id | id in settings && Touches(settings[id], g)
  }

  function Rank(s: Setting, g: Group): nat {
    if s.value == g.value then 0
    else if Norm(s.title) == Norm(g.title) then 1
    else if s.value == g.preferred then 2
    else 3
  }

  predicate Precedes(settings: map<nat, Setting>, g: Group, a: nat, b: nat)
    requires a in settings && b in settings
  {
    Rank(settings[a], g) < Rank(settings[b], g) || (Rank(settings[a], g) == Rank(settings[b], g) && a < b)
  }

  predicate IsBest(settings: map<nat, Setting>, g: Group, ids: set<nat>, m: nat)
    requires ids <= settings.Keys
  {
    m in ids && forall o :: o in ids && o != m ==> Precedes(settings, g, m, o)
  }

  lemma {:induction false} BestExists(settings: map<nat, Setting>, g: Group, ids: set<nat>) returns (m: nat)
    requires ids != {} && ids <= settings.Keys
    ensures IsBest(settings, g, ids, m)
    decreases |ids|
  {
    var x :| x in ids;
    if ids == {x} {
      m := x;
    } else {
      assert ids - {x} != {};
      var rest := BestExists(settings, g, ids - {x});
      m := if Precedes(settings, g, x, rest) then x else rest;
      forall o | o in ids && o != m
        ensures Precedes(settings, g, m, o)
      {
        assert o == x || o in ids - {x};
      }
    }
  }

  /** ORDER BY rank, id LIMIT 1. */
  function Best(settings: map<nat, Setting>, g: Group, ids: set<nat>): (m: nat)
    requires ids != {} && ids <= settings.Keys
    ensures IsBest(settings, g, ids, m)
  {
    assert exists m :: IsBest(settings, g, ids, m) by {
      var m := BestExists(settings, g, ids);
    }
    var m :| m in ids && IsBest(settings, g, ids, m);
    m
  }

  function Canonical(g: Group, now: Time): Setting {
    Setting(g.category, g.value, g.title, true, g.sortOrder, false, false, now)
  }

  /** The option that the round keeps or inserts. */
  function KeptId(db: Db, g: Group): nat {
    var ids := TouchedIds(db.settings, g);
    if ids == {} then db.nextId else Best(db.settings, g, ids)
  }

  function Round(db: Db, g: Group, now: Time): Db {
    var ids := TouchedIds(db.settings, g);
    var decisions := seq(|db.decisions|, i requires 0 <= i < |db.decisions| => Remap(db.settings, db.decisions[i], g));
    Db((map id | id in db.settings && id !in ids :: db.settings[id])[KeptId(db, g) := Canonical(g, now)],
       decisions,
       if ids == {} then db.nextId + 1 else db.nextId)
  }

  function Rounds(db: Db, groups: seq<Group>, now: Time): Db
    decreases |groups|
  {
    if groups == [] then db else Rounds(Round(db, groups[0], now), groups[1..], now)
  }

  /**
   The row kept for a group is an existing one when there is any; a canonical
   value goes before a canonical label, and that before the preferred value;
   among the others the oldest is kept.
   */
  lemma KeptRow(db: Db, g: Group)
    requires TouchedIds(db.settings, g) != {}
    ensures var kept := KeptId(db, g);
            && kept in TouchedIds(db.settings, g)
            && (forall o :: o in TouchedIds(db.settings, g) ==>
                  && (db.settings[o].value == g.value ==> db.settings[kept].value == g.value)
                  && (Norm(db.settings[o].title) == Norm(g.title) && db.settings[kept].value != g.value ==>
                        Norm(db.settings[kept].title) == Norm(g.title))
                  && (db.settings[o].value == g.preferred ==>
                        db.settings[kept].value == g.value || Norm(db.settings[kept].title) == Norm(g.title)
                        || db.settings[kept].value == g.preferred))
            && ((forall o :: o in TouchedIds(db.settings, g) ==>
                   db.settings[o].value != g.value && Norm(db.settings[o].title) != Norm(g.title) && db.settings[o].value != g.preferred) ==>
                  forall o :: o in TouchedIds(db.settings, g) ==> kept <= o)
  {
    var kept := KeptId(db, g);
    assert IsBest(db.settings, g, TouchedIds(db.settings, g), kept);
    forall o | o in TouchedIds(db.settings, g)
      ensures Rank(db.settings[kept], g) <= Rank(db.settings[o], g)
      ensures Rank(db.settings[kept], g) == Rank(db.settings[o], g) ==> kept <= o
    {
      if o != kept {
        assert Precedes(db.settings, g, kept, o);
      }
    }
  }

  // -------------------------------------------------------------- invariants

  /** Values and labels are unique within a category, as the catalogue's indexes demand. */
  predicate CatalogueOk(db: Db) {
    && (forall id :: id in db.settings ==> id < db.nextId)
    && (forall i, j :: i in db.settings && j in db.settings && db.settings[i].category == db.settings[j].category
          && (db.settings[i].value == db.settings[j].value || Norm(db.settings[i].title) == Norm(db.settings[j].title))
          ==> i == j)
  }

  predicate Resolves(settings: map<nat, Setting>, c: Category, value: string) {
    exists id :: id in settings && IsOption(settings[id], c, value)
  }

  /** The outcome reason names an existing option. */
  predicate Resolved(settings: map<nat, Setting>, d: Decision) {
    && (d.outcome.Rejected? ==> Resolves(settings, Rejection, d.rejectionReason))
    && (d.outcome.Withdrew? ==> Resolves(settings, Withdrawal, d.withdrawalReason))
  }

  /** No canonical form of one group is listed by another group of its category. */
  predicate Compatible(g: Group, h: Group) {
    g.category == h.category ==>
      && g.value != h.value
      && Norm(g.title) != Norm(h.title)
      && g.value !in h.sourceValues
      && Norm(g.title) !in h.sourceLabels
      && g.sourceLabels !! h.sourceLabels
  }

  predicate SelfConsistent(g: Group) {
    (g.category.Rejection? || g.category.Withdrawal?) && g.value !in g.sourceValues
  }

  predicate GroupsOk(groups: seq<Group>) {
    && (forall i :: 0 <= i < |groups| ==> SelfConsistent(groups[i]))
    && (forall i, j :: 0 <= i < |groups| && 0 <= j < |groups| && i != j ==> Compatible(groups[i], groups[j]))
    && (forall i, j :: 0 <= i < |groups| && 0 <= j < |groups| ==> Norm(groups[i].value) !in groups[j].sourceLabels)
  }

  lemma GroupsOkTail(groups: seq<Group>)
    requires GroupsOk(groups) && groups != []
    ensures GroupsOk(groups[1..])
    ensures forall j :: 0 <= j < |groups[1..]| ==> Compatible(groups[0], groups[1..][j]) && Compatible(groups[1..][j], groups[0])
  {
  }

  lemma RoundKeepsCatalogue(db: Db, g: Group, now: Time)
    requires CatalogueOk(db)
    ensures CatalogueOk(Round(db, g, now))
  {
  }

  /** Values and labels stay unique through all rounds, and no decision is lost. */
  lemma {:induction false} RoundsKeepCatalogue(db: Db, groups: seq<Group>, now: Time)
    requires CatalogueOk(db)
    ensures CatalogueOk(Rounds(db, groups, now))
    ensures |Rounds(db, groups, now).decisions| == |db.decisions|
    decreases |groups|
  {
    if groups != [] {
      RoundKeepsCatalogue(db, groups[0], now);
      RoundsKeepCatalogue(Round(db, groups[0], now), groups[1..], now);
    }
  }

  /** Same decision, except for the reasons. */
  predicate SameButReason(d: Decision, e: Decision) {
    e.outcome == d.outcome && e.detail == d.detail
    && (!d.outcome.Rejected? ==> e.rejectionReason == d.rejectionReason)
    && (!d.outcome.Withdrew? ==> e.withdrawalReason == d.withdrawalReason)
  }

  lemma {:induction false} DecisionsOtherwiseUnchanged(db: Db, groups: seq<Group>, now: Time, k: nat)
    requires k < |db.decisions| && GroupsOk(groups)
    ensures k < |Rounds(db, groups, now).decisions|
    ensures SameButReason(db.decisions[k], Rounds(db, groups, now).decisions[k])
    decreases |groups|
  {
    if groups != [] {
      GroupsOkTail(groups);
      DecisionsOtherwiseUnchanged(Round(db, groups[0], now), groups[1..], now, k);
    }
  }

  // -------------------------------------------- which decisions keep an option

  /** The option's label leads somewhere: listed by a group, or no group's canonical label. */
  predicate Survives(s: Setting, groups: seq<Group>) {
    || (exists i :: 0 <= i < |groups| && groups[i].category == s.category && Norm(s.title) in groups[i].sourceLabels)
    || (forall i :: 0 <= i < |groups| && groups[i].category == s.category ==> Norm(s.title) != Norm(groups[i].title))
  }

  /** The decision's reason or text names one of the groups, or is canonical already. */
  predicate NamedBySome(groups: seq<Group>, d: Decision, c: Category) {
    exists i :: 0 <= i < |groups| && groups[i].category == c && (Named(d, groups[i]) || Reason(d, c) == groups[i].value)
  }

  predicate NamedByOne(g: Group, d: Decision, c: Category) {
    g.category == c && (Named(d, g) || Reason(d, c) == g.value)
  }

  /** Read off the tables before the loop: will the decision's reason name an option afterwards? */
  predicate Keeps(settings: map<nat, Setting>, groups: seq<Group>, d: Decision, c: Category) {
    || NamedBySome(groups, d, c)
    || (exists id :: id in settings && IsOption(settings[id], c, Reason(d, c)) && Survives(settings[id], groups))
  }

  lemma Installed(db: Db, g: Group, now: Time)
    ensures var r := Round(db, g, now).settings;
            KeptId(db, g) in r && r[KeptId(db, g)] == Canonical(g, now)
  {
  }

  lemma UntouchedStays(db: Db, g: Group, now: Time, id: nat)
    requires CatalogueOk(db) && id in db.settings && !Touches(db.settings[id], g)
    ensures id in Round(db, g, now).settings && Round(db, g, now).settings[id] == db.settings[id]
  {
  }

  lemma OnlyCanonicalIsNew(db: Db, g: Group, now: Time, id: nat)
    requires CatalogueOk(db) && id in Round(db, g, now).settings
    ensures var r := Round(db, g, now).settings;
            if id == KeptId(db, g) then r[id] == Canonical(g, now)
            else id in db.settings && r[id] == db.settings[id] && !Touches(db.settings[id], g)
  {
  }

  /** Without groups, keeping an option means having one. */
  lemma KeepsNothingLeft(settings: map<nat, Setting>, d: Decision, c: Category)
    ensures Keeps(settings, [], d, c) <==> Resolves(settings, c, Reason(d, c))
  {
    if Resolves(settings, c, Reason(d, c)) {
      var id :| id in settings && IsOption(settings[id], c, Reason(d, c));
      assert Survives(settings[id], []);
    }
  }

  lemma CanonicalSurvives(g: Group, rest: seq<Group>, now: Time)
    requires forall j :: 0 <= j < |rest| ==> Compatible(g, rest[j])
    ensures Survives(Canonical(g, now), rest)
  {
  }

  lemma SurvivesStep(s: Setting, groups: seq<Group>)
    requires groups != [] && GroupsOk(groups)
    requires !(s.category == groups[0].category && Norm(s.title) in groups[0].sourceLabels)
    ensures s.category == groups[0].category && Norm(s.title) == Norm(groups[0].title) ==> !Survives(s, groups)
    ensures !(s.category == groups[0].category && Norm(s.title) == Norm(groups[0].title)) ==>
              (Survives(s, groups) <==> Survives(s, groups[1..]))
  {
    var g, rest := groups[0], groups[1..];
    forall i | 0 <= i < |rest|
      ensures rest[i] == groups[i + 1] && Compatible(g, rest[i])
    {
    }
    if Survives(s, rest) && !(s.category == g.category && Norm(s.title) == Norm(g.title)) {
      if i :| 0 <= i < |rest| && rest[i].category == s.category && Norm(s.title) in rest[i].sourceLabels {
        assert groups[i + 1].category == s.category;
      }
    }
  }

  /** One round: the reading before the round agrees with the reading after it. */
  lemma KeepsStepOtherCategory(db: Db, groups: seq<Group>, now: Time, d: Decision, c: Category)
    requires CatalogueOk(db) && GroupsOk(groups) && groups != []
    requires groups[0].category != c
    ensures Keeps(db.settings, groups, d, c) <==> Keeps(Round(db, groups[0], now).settings, groups[1..], d, c)
  {
    var g, rest := groups[0], groups[1..];
    var after := Round(db, g, now).settings;
    NamedTail(groups, d, c);
    forall id | id in db.settings && IsOption(db.settings[id], c, Reason(d, c))
      ensures id in after && after[id] == db.settings[id]
      ensures Survives(db.settings[id], groups) <==> Survives(db.settings[id], rest)
    {
      UntouchedStays(db, g, now, id);
      SurvivesStep(db.settings[id], groups);
    }
    forall id | id in after && IsOption(after[id], c, Reason(d, c))
      ensures id in db.settings && after[id] == db.settings[id]
    {
      OnlyCanonicalIsNew(db, g, now, id);
    }
  }

  lemma NamedTail(groups: seq<Group>, d: Decision, c: Category)
    requires groups != []
    ensures NamedBySome(groups, d, c) <==> NamedByOne(groups[0], d, c) || NamedBySome(groups[1..], d, c)
  {
    var rest := groups[1..];
    if NamedBySome(rest, d, c) {
      var i :| 0 <= i < |rest| && rest[i].category == c && (Named(d, rest[i]) || Reason(d, c) == rest[i].value);
      assert groups[i + 1] == rest[i];
    }
    if NamedBySome(groups, d, c) && !NamedByOne(groups[0], d, c) {
      var i :| 0 <= i < |groups| && groups[i].category == c && (Named(d, groups[i]) || Reason(d, c) == groups[i].value);
      assert rest[i - 1] == groups[i];
    }
  }

  lemma KeepsStepApplied(db: Db, groups: seq<Group>, now: Time, d: Decision, c: Category)
    requires CatalogueOk(db) && GroupsOk(groups) && groups != []
    requires groups[0].category == c && Applies(db.settings, d, groups[0])
    ensures Keeps(db.settings, groups, d, c)
    ensures Keeps(Round(db, groups[0], now).settings, groups[1..], Remap(db.settings, d, groups[0]), c)
  {
    var g, rest := groups[0], groups[1..];
    GroupsOkTail(groups);
    Installed(db, g, now);
    CanonicalSurvives(g, rest, now);
    var after := Round(db, g, now).settings;
    assert IsOption(after[KeptId(db, g)], c, Reason(Remap(db.settings, d, g), c));
    if Named(d, g) {
      NamedTail(groups, d, c);
    } else {
      var id :| id in db.settings && IsOption(db.settings[id], c, Reason(d, c)) && Norm(db.settings[id].title) in g.sourceLabels;
      assert Survives(db.settings[id], groups);
    }
  }

  lemma KeepsStepCanonical(db: Db, groups: seq<Group>, now: Time, d: Decision, c: Category)
    requires CatalogueOk(db) && GroupsOk(groups) && groups != []
    requires groups[0].category == c && Reason(d, c) == groups[0].value
    ensures Keeps(db.settings, groups, d, c)
    ensures Keeps(Round(db, groups[0], now).settings, groups[1..], d, c)
  {
    var g, rest := groups[0], groups[1..];
    GroupsOkTail(groups);
    NamedTail(groups, d, c);
    Installed(db, g, now);
    CanonicalSurvives(g, rest, now);
    var after := Round(db, g, now).settings;
    assert IsOption(after[KeptId(db, g)], c, Reason(d, c));
  }

  /** The decisive case: the round does not remap the decision, but may take its option away. */
  lemma KeepsStepLeftAlone(db: Db, groups: seq<Group>, now: Time, d: Decision, c: Category)
    requires CatalogueOk(db) && GroupsOk(groups) && groups != []
    requires groups[0].category == c && HasReason(d, c) && !Applies(db.settings, d, groups[0])
    requires Reason(d, c) != groups[0].value
    ensures Keeps(db.settings, groups, d, c) <==> Keeps(Round(db, groups[0], now).settings, groups[1..], d, c)
  {
    var g, rest := groups[0], groups[1..];
    var after := Round(db, g, now).settings;
    NamedTail(groups, d, c);
    forall id | id in db.settings && IsOption(db.settings[id], c, Reason(d, c))
      ensures Touches(db.settings[id], g) ==> !Survives(db.settings[id], groups)
      ensures !Touches(db.settings[id], g) ==>
                && id in after && after[id] == db.settings[id]
                && (Survives(db.settings[id], groups) <==> Survives(db.settings[id], rest))
    {
      assert Norm(db.settings[id].title) !in g.sourceLabels;
      SurvivesStep(db.settings[id], groups);
      if !Touches(db.settings[id], g) {
        UntouchedStays(db, g, now, id);
      }
    }
    forall id | id in after && IsOption(after[id], c, Reason(d, c))
      ensures id in db.settings && after[id] == db.settings[id] && !Touches(db.settings[id], g)
    {
      OnlyCanonicalIsNew(db, g, now, id);
    }
  }

  lemma KeepsStep(db: Db, groups: seq<Group>, now: Time, d: Decision, c: Category)
    requires CatalogueOk(db) && GroupsOk(groups) && groups != [] && HasReason(d, c)
    ensures Keeps(db.settings, groups, d, c)
            <==> Keeps(Round(db, groups[0], now).settings, groups[1..], Remap(db.settings, d, groups[0]), c)
    ensures HasReason(Remap(db.settings, d, groups[0]), c)
  {
    if groups[0].category != c {
      KeepsStepOtherCategory(db, groups, now, d, c);
      assert Remap(db.settings, d, groups[0]) == d;
    } else if Applies(db.settings, d, groups[0]) {
      KeepsStepApplied(db, groups, now, d, c);
    } else if Reason(d, c) == groups[0].value {
      KeepsStepCanonical(db, groups, now, d, c);
    } else {
      KeepsStepLeftAlone(db, groups, now, d, c);
    }
  }

  /**
   For every decision, resolved before or not: after all rounds its reason
   names an option if and only if Keeps held of the tables beforehand.
   */
  lemma {:induction false} ResolvesExactly(db: Db, groups: seq<Group>, now: Time, k: nat, c: Category)
    requires CatalogueOk(db) && GroupsOk(groups)
    requires k < |db.decisions| && HasReason(db.decisions[k], c)
    ensures k < |Rounds(db, groups, now).decisions|
    ensures var after := Rounds(db, groups, now);
            Resolves(after.settings, c, Reason(after.decisions[k], c)) <==> Keeps(db.settings, groups, db.decisions[k], c)
    decreases |groups|
  {
    if groups == [] {
      KeepsNothingLeft(db.settings, db.decisions[k], c);
    } else {
      GroupsOkTail(groups);
      KeepsStep(db, groups, now, db.decisions[k], c);
      RoundKeepsCatalogue(db, groups[0], now);
      ResolvesExactly(Round(db, groups[0], now), groups[1..], now, k, c);
    }
  }

  /** An option that carries a group's canonical label under a value the group does not list. */
  predicate Stray(s: Setting, g: Group) {
    && s.category == g.category && Norm(s.title) == Norm(g.title)
    && s.value != g.value && s.value !in g.sourceValues && Norm(s.title) !in g.sourceLabels
  }

  predicate NoStrays(settings: map<nat, Setting>, groups: seq<Group>) {
    forall id, i :: id in settings && 0 <= i < |groups| ==> !Stray(settings[id], groups[i])
  }

  /** Without stray options, every reason that resolved before resolves afterwards. */
  lemma MergeKeepsResolved(db: Db, groups: seq<Group>, now: Time, k: nat)
    requires CatalogueOk(db) && GroupsOk(groups) && NoStrays(db.settings, groups)
    requires k < |db.decisions| && Resolved(db.settings, db.decisions[k])
    ensures k < |Rounds(db, groups, now).decisions|
    ensures Resolved(Rounds(db, groups, now).settings, Rounds(db, groups, now).decisions[k])
  {
    var d := db.decisions[k];
    DecisionsOtherwiseUnchanged(db, groups, now, k);
    if d.outcome.Rejected? {
      NoStraysKeeps(db, groups, d, Rejection);
      ResolvesExactly(db, groups, now, k, Rejection);
    } else if d.outcome.Withdrew? {
      NoStraysKeeps(db, groups, d, Withdrawal);
      ResolvesExactly(db, groups, now, k, Withdrawal);
    }
  }

  /** Every decision whose reason resolved still has one that does. */
  predicate NoneLost(before: Db, after: Db) {
    && |after.decisions| == |before.decisions|
    && forall k :: 0 <= k < |before.decisions| && Resolved(before.settings, before.decisions[k])
                   ==> Resolved(after.settings, after.decisions[k])
  }

  lemma MergeLosesNone(db: Db, groups: seq<Group>, now: Time)
    requires CatalogueOk(db) && GroupsOk(groups)
    ensures NoStrays(db.settings, groups) ==> NoneLost(db, Rounds(db, groups, now))
  {
    RoundsKeepCatalogue(db, groups, now);
    if NoStrays(db.settings, groups) {
      forall k | 0 <= k < |db.decisions| && Resolved(db.settings, db.decisions[k])
        ensures Resolved(Rounds(db, groups, now).settings, Rounds(db, groups, now).decisions[k])
      {
        MergeKeepsResolved(db, groups, now, k);
      }
    }
  }

  lemma NoStraysKeeps(db: Db, groups: seq<Group>, d: Decision, c: Category)
    requires NoStrays(db.settings, groups) && Resolves(db.settings, c, Reason(d, c)) && HasReason(d, c)
    ensures Keeps(db.settings, groups, d, c)
  {
    var id :| id in db.settings && IsOption(db.settings[id], c, Reason(d, c));
    var s := db.settings[id];
    if !Survives(s, groups) {
      var i :| 0 <= i < |groups| && groups[i].category == s.category && Norm(s.title) == Norm(groups[i].title);
      assert !Stray(s, groups[i]);
      assert NamedBySome(groups, d, c);
    }
  }

  // ------------------------------------------------------------ running it twice

  /** Nothing left to do for a group: one canonical option, and no decision to remap. */
  predicate SettledOptions(settings: map<nat, Setting>, g: Group) {
    && (exists id :: id in settings && settings[id].(updatedAt := 0) == Canonical(g, 0))
    && (forall id :: id in settings && Touches(settings[id], g) ==> settings[id].(updatedAt := 0) == Canonical(g, 0))
  }

  predicate SettledDecision(d: Decision, g: Group) {
    HasReason(d, g.category) ==>
      && Reason(d, g.category) !in g.sourceValues
      && Norm(Reason(d, g.category)) !in g.sourceLabels
      && (g.category.Withdrawal? && Norm(d.detail) in g.sourceLabels ==> Reason(d, g.category) == g.value)
  }

  predicate Settled(db: Db, g: Group) {
    && SettledOptions(db.settings, g)
    && forall k :: 0 <= k < |db.decisions| ==> SettledDecision(db.decisions[k], g)
  }

  predicate ValuesUnlisted(g: Group, h: Group) {
    Norm(g.value) !in h.sourceLabels
  }

  lemma RoundSettles(db: Db, g: Group, now: Time)
    requires CatalogueOk(db) && SelfConsistent(g) && ValuesUnlisted(g, g)
    ensures Settled(Round(db, g, now), g)
  {
    Installed(db, g, now);
    var after := Round(db, g, now);
    forall id | id in after.settings && Touches(after.settings[id], g)
      ensures after.settings[id].(updatedAt := 0) == Canonical(g, 0)
    {
      OnlyCanonicalIsNew(db, g, now, id);
    }
    assert after.settings[KeptId(db, g)].(updatedAt := 0) == Canonical(g, 0);
  }

  lemma CanonicalIsUntouched(s: Setting, g: Group, h: Group)
    requires Compatible(g, h) && Compatible(h, g) && s.(updatedAt := 0) == Canonical(g, 0)
    ensures !Touches(s, h)
  {
  }

  lemma RoundKeepsSettledOptions(db: Db, g: Group, h: Group, now: Time)
    requires CatalogueOk(db) && SettledOptions(db.settings, g) && Compatible(g, h) && Compatible(h, g)
    ensures SettledOptions(Round(db, h, now).settings, g)
  {
    var after := Round(db, h, now).settings;
    var id :| id in db.settings && db.settings[id].(updatedAt := 0) == Canonical(g, 0);
    CanonicalIsUntouched(db.settings[id], g, h);
    UntouchedStays(db, h, now, id);
    assert after[id].(updatedAt := 0) == Canonical(g, 0);
    forall j | j in after && Touches(after[j], g)
      ensures after[j].(updatedAt := 0) == Canonical(g, 0)
    {
      OnlyCanonicalIsNew(db, h, now, j);
    }
  }

  lemma RemapKeepsSettledDecision(settings: map<nat, Setting>, d: Decision, g: Group, h: Group)
    requires SettledOptions(settings, g) && SettledDecision(d, g)
    requires Compatible(g, h) && Compatible(h, g) && ValuesUnlisted(g, h) && ValuesUnlisted(h, g)
    requires SelfConsistent(g) && SelfConsistent(h)
    ensures SettledDecision(Remap(settings, d, h), g)
  {
    if g.category == h.category && Applies(settings, d, h)
       && g.category.Withdrawal? && Norm(d.detail) in g.sourceLabels {
      var id :| id in settings && IsOption(settings[id], h.category, g.value) && Norm(settings[id].title) in h.sourceLabels;
      assert Touches(settings[id], g);
    }
  }

  lemma RoundKeepsSettled(db: Db, g: Group, h: Group, now: Time)
    requires CatalogueOk(db) && Settled(db, g)
    requires Compatible(g, h) && Compatible(h, g) && ValuesUnlisted(g, h) && ValuesUnlisted(h, g)
    requires SelfConsistent(g) && SelfConsistent(h)
    ensures Settled(Round(db, h, now), g)
  {
    RoundKeepsSettledOptions(db, g, h, now);
    var after := Round(db, h, now);
    forall k | 0 <= k < |after.decisions|
      ensures SettledDecision(after.decisions[k], g)
    {
      RemapKeepsSettledDecision(db.settings, db.decisions[k], g, h);
    }
  }

  lemma {:induction false} RoundsKeepSettled(db: Db, g: Group, groups: seq<Group>, now: Time)
    requires CatalogueOk(db) && Settled(db, g) && SelfConsistent(g)
    requires forall j :: 0 <= j < |groups| ==>
               && SelfConsistent(groups[j]) && Compatible(g, groups[j]) && Compatible(groups[j], g)
               && ValuesUnlisted(g, groups[j]) && ValuesUnlisted(groups[j], g)
    ensures Settled(Rounds(db, groups, now), g)
    decreases |groups|
  {
    if groups != [] {
      RoundKeepsSettled(db, g, groups[0], now);
      RoundKeepsCatalogue(db, groups[0], now);
      RoundsKeepSettled(Round(db, groups[0], now), g, groups[1..], now);
    }
  }

  /** After all rounds every group is settled. */
  lemma {:induction false} RoundsSettle(db: Db, groups: seq<Group>, now: Time)
    requires CatalogueOk(db) && GroupsOk(groups)
    ensures forall j :: 0 <= j < |groups| ==> Settled(Rounds(db, groups, now), groups[j])
    decreases |groups|
  {
    if groups != [] {
      var g, rest := groups[0], groups[1..];
      var mid := Round(db, g, now);
      GroupsOkTail(groups);
      RoundSettles(db, g, now);
      RoundKeepsCatalogue(db, g, now);
      forall j | 0 <= j < |rest|
        ensures ValuesUnlisted(g, rest[j]) && ValuesUnlisted(rest[j], g)
      {
        assert rest[j] == groups[j + 1];
      }
      RoundsKeepSettled(mid, g, rest, now);
      RoundsSettle(mid, rest, now);
      forall j | 0 <= j < |groups|
        ensures Settled(Rounds(db, groups, now), groups[j])
      {
        if j > 0 {
          assert groups[j] == rest[j - 1];
        }
      }
    }
  }

  /** The same tables but for the timestamps of options. */
  predicate SameButTimes(a: Db, b: Db) {
    && a.decisions == b.decisions && a.nextId == b.nextId
    && a.settings.Keys == b.settings.Keys
    && forall id :: id in a.settings ==> a.settings[id].(updatedAt := 0) == b.settings[id].(updatedAt := 0)
  }

  lemma SettledRoundIsIdle(db: Db, g: Group, now: Time)
    requires CatalogueOk(db) && Settled(db, g)
    ensures SameButTimes(db, Round(db, g, now))
  {
    var after := Round(db, g, now);
    var id :| id in db.settings && db.settings[id].(updatedAt := 0) == Canonical(g, 0);
    assert Touches(db.settings[id], g) && id in TouchedIds(db.settings, g);
    forall j | j in TouchedIds(db.settings, g)
      ensures j == id
    {
      assert db.settings[j].(updatedAt := 0).value == db.settings[id].(updatedAt := 0).value;
    }
    assert TouchedIds(db.settings, g) == {id};
    assert KeptId(db, g) == id;
    assert after.settings.Keys == db.settings.Keys;
    forall k | 0 <= k < |db.decisions|
      ensures after.decisions[k] == db.decisions[k]
    {
      SettledRemapIsIdle(db, g, db.decisions[k]);
    }
  }

  lemma SettledRemapIsIdle(db: Db, g: Group, d: Decision)
    requires SettledOptions(db.settings, g) && SettledDecision(d, g)
    ensures Remap(db.settings, d, g) == d
  {
    if Applies(db.settings, d, g) && LabelNamed(db.settings, d, g) {
      var id :| id in db.settings && IsOption(db.settings[id], g.category, Reason(d, g.category))
                && Norm(db.settings[id].title) in g.sourceLabels;
      assert db.settings[id].(updatedAt := 0).value == g.value;
    }
  }

  lemma SameButTimesSettled(a: Db, b: Db, g: Group)
    requires SameButTimes(a, b) && Settled(a, g)
    ensures Settled(b, g)
  {
    var id :| id in a.settings && a.settings[id].(updatedAt := 0) == Canonical(g, 0);
    assert b.settings[id].(updatedAt := 0) == Canonical(g, 0);
    forall j | j in b.settings && Touches(b.settings[j], g)
      ensures b.settings[j].(updatedAt := 0) == Canonical(g, 0)
    {
      TouchesIgnoresTime(a.settings[j], b.settings[j], g);
    }
  }

  lemma TouchesIgnoresTime(s: Setting, t: Setting, g: Group)
    requires s.(updatedAt := 0) == t.(updatedAt := 0)
    ensures Touches(s, g) == Touches(t, g)
  {
    assert s.value == s.(updatedAt := 0).value && t.value == t.(updatedAt := 0).value;
    assert s.title == s.(updatedAt := 0).title && t.title == t.(updatedAt := 0).title;
    assert s.category == s.(updatedAt := 0).category && t.category == t.(updatedAt := 0).category;
  }

  lemma {:induction false} SettledRoundsAreIdle(db: Db, groups: seq<Group>, now: Time)
    requires CatalogueOk(db) && forall j :: 0 <= j < |groups| ==> Settled(db, groups[j])
    ensures SameButTimes(db, Rounds(db, groups, now))
    decreases |groups|
  {
    if groups != [] {
      var mid := Round(db, groups[0], now);
      SettledRoundIsIdle(db, groups[0], now);
      RoundKeepsCatalogue(db, groups[0], now);
      forall j | 0 <= j < |groups[1..]|
        ensures Settled(mid, groups[1..][j])
      {
        assert groups[1..][j] == groups[j + 1];
        SameButTimesSettled(db, mid, groups[j + 1]);
      }
      SettledRoundsAreIdle(mid, groups[1..], now);
    }
  }

  /** A second run changes nothing but timestamps. */
  lemma SecondRunIsIdle(db: Db, groups: seq<Group>, now: Time, later: Time)
    requires CatalogueOk(db) && GroupsOk(groups)
    ensures SameButTimes(Rounds(db, groups, now), Rounds(Rounds(db, groups, now), groups, later))
  {
    RoundsKeepCatalogue(db, groups, now);
    RoundsSettle(db, groups, now);
    SettledRoundsAreIdle(Rounds(db, groups, now), groups, later);
  }

  // ------------------------------------------------------------------- the loop

  const LOW_ENGLISH_LEVEL := Group(
    Rejection, "low_english_level", "Low English Level", "insufficient_english_level",
    {"failed_job_interview", "insufficient_english_level", "other"},
    {"failed job interview", "insufficient english level", "other"},
    10)

  const LOW_SUBJECT_KNOWLEDGE := Group(
    Rejection, "low_subject_knowledge", "Low Subject Knowledge", "insufficient_subject_knowledge",
    {"insufficient_subject_knowledge", "failed_subject_test"},
    {"insufficient subject knowledge", "failed subject test"},
    20)

  const POOR_SOFT_SKILLS := Group(
    Rejection, "poor_soft_skills", "Poor Soft Skills", "failed_demo_lesson",
    {"failed_demo_lesson", "insufficient_experience"},
    {"failed demo lesson", "insufficient experience"},
    30)

  const RECEIVED_COUNTER_OFFER := Group(
    Withdrawal, "received_counter_offer", "Recieved Counter-Offer", "accepted_another_offer",
    {"accepted_another_offer"},
    {"accepted another offer", "hired by another private school", "hired by other education center",
     "hired by other private school", "hunted by other education center", "hunted by other private school",
     "she got offer", "she got another job offer", "she got another offer"},
    20)

  const PERSONAL_REASONS := Group(
    Withdrawal, "personal_reasons", "Personal Reasons", "personal_circumstances",
    {"personal_circumstances"},
    {"personal circumstances", "personal reasons", "plans changed"},
    30)

  const REASON_GROUPS: seq<Group> :=
    [LOW_ENGLISH_LEVEL, LOW_SUBJECT_KNOWLEDGE, POOR_SOFT_SKILLS, RECEIVED_COUNTER_OFFER, PERSONAL_REASONS]

  /** Enough of a text to tell the literals of the groups apart. */
  function Sketch(s: string): (int, char, char) {
    if |s| <= 8 then (|s|, ' ', ' ') else (|s|, s[0], s[8])
  }

  /** The text has no spaces at its ends, and this is its sketch. */
  predicate Drawn(s: string, sketch: (int, char, char)) {
    |s| > 8 && s[0] != ' ' && s[|s| - 1] != ' ' && Sketch(s) == sketch
  }

  lemma NormDrawn(s: string, sketch: (int, char, char))
    requires Drawn(s, sketch)
    ensures Sketch(Norm(s)) == Lowered(sketch)
  {
    LowerAt(s, 0);
    LowerAt(s, 8);
  }

  /** A group's value and title and all that it lists, as sketches. */
  datatype Look = Look(value: (int, char, char), title: (int, char, char), listed: seq<(int, char, char)>)

  function LookAt(i: nat): Look
    requires i < 5
  {
    match i
    case 0 => Look((17, 'l', 'i'), (17, 'L', 'i'), [(20, 'f', 'o'), (26, 'i', 'i'), (5, ' ', ' ')])
    case 1 => Look((21, 'l', 'e'), (21, 'L', 'e'), [(30, 'i', 'i'), (19, 'f', 'u')])
    case 2 => Look((16, 'p', 't'), (16, 'P', 't'), [(18, 'f', 'e'), (23, 'i', 'i')])
    case 3 => Look((22, 'r', '_'), (22, 'R', ' '),
                   [(22, 'a', '_'), (22, 'a', ' '), (31, 'h', ' '), (29, 'h', ' '), (32, 'h', 'y'), (30, 'h', 'y'), (13, 's', 'o'), (25, 's', 'a'), (21, 's', 'a')])
    case 4 => Look((16, 'p', '_'), (16, 'P', ' '), [(22, 'p', '_'), (22, 'p', ' '), (16, 'p', ' '), (13, 'p', 'a')])
  }

  predicate Looks(g: Group, look: Look) {
    && Drawn(g.value, look.value) && Drawn(g.title, look.title)
    && (forall x :: x in g.sourceValues ==> Sketch(x) in look.listed)
    && (forall x :: x in g.sourceLabels ==> Sketch(x) in look.listed)
  }

  lemma LooksLowEnglishLevel()
    ensures Looks(LOW_ENGLISH_LEVEL, LookAt(0))
  {
  }

  lemma LooksLowSubjectKnowledge()
    ensures Looks(LOW_SUBJECT_KNOWLEDGE, LookAt(1))
  {
  }

  lemma LooksPoorSoftSkills()
    ensures Looks(POOR_SOFT_SKILLS, LookAt(2))
  {
  }

  lemma LooksReceivedCounterOffer()
    ensures Looks(RECEIVED_COUNTER_OFFER, LookAt(3))
  {
    CounterOfferNames();
    CounterOfferLabels();
  }

  lemma CounterOfferNames()
    ensures Drawn(RECEIVED_COUNTER_OFFER.value, LookAt(3).value) && Drawn(RECEIVED_COUNTER_OFFER.title, LookAt(3).title)
    ensures forall x :: x in RECEIVED_COUNTER_OFFER.sourceValues ==> Sketch(x) in LookAt(3).listed
  {
  }

  lemma CounterOfferLabels()
    ensures forall x :: x in RECEIVED_COUNTER_OFFER.sourceLabels ==> Sketch(x) in LookAt(3).listed
  {
  }

  lemma LooksPersonalReasons()
    ensures Looks(PERSONAL_REASONS, LookAt(4))
  {
  }

  predicate Apart(a: Look, b: Look) {
    && a.value != b.value
    && Lowered(a.title) != Lowered(b.title)
    && Lowered(a.title) !in b.listed
    && a.value !in b.listed
    && forall x :: x in a.listed ==> x !in b.listed
  }

  function Lowered(sketch: (int, char, char)): (int, char, char) {
    (sketch.0, LowerChar(sketch.1), LowerChar(sketch.2))
  }

  lemma LooksAll(i: nat)
    requires i < 5
    ensures Looks(REASON_GROUPS[i], LookAt(i))
    ensures REASON_GROUPS[i].category == if i < 3 then Rejection else Withdrawal
  {
    match i
    case 0 => LooksLowEnglishLevel();
    case 1 => LooksLowSubjectKnowledge();
    case 2 => LooksPoorSoftSkills();
    case 3 => LooksReceivedCounterOffer();
    case 4 => LooksPersonalReasons();
  }

  lemma CanonicalSketches(i: nat, j: nat)
    requires i < 5 && j < 5
    ensures LookAt(i).value !in LookAt(j).listed
    ensures Lowered(LookAt(i).value) == LookAt(i).value
  {
  }

  lemma RejectionSketches(i: nat, j: nat)
    requires i < 3 && j < 3 && i != j
    ensures Apart(LookAt(i), LookAt(j))
  {
  }

  lemma WithdrawalSketches()
    ensures Apart(LookAt(3), LookAt(4)) && Apart(LookAt(4), LookAt(3))
  {
    var a, b := LookAt(3), LookAt(4);
    assert forall x :: x in b.listed ==> x.1 == 'p';
    assert forall x :: x in a.listed ==> x.1 != 'p';
  }

  /** The five groups of the migration meet every condition the proofs need. */
  lemma ReasonGroupsOk()
    ensures GroupsOk(REASON_GROUPS)
  {
    forall i: nat, j: nat | i < 5 && j < 5
      ensures REASON_GROUPS[i].value !in REASON_GROUPS[j].sourceValues
      ensures Norm(REASON_GROUPS[i].value) !in REASON_GROUPS[j].sourceLabels
      ensures i != j ==> Compatible(REASON_GROUPS[i], REASON_GROUPS[j])
    {
      PairOk(i, j);
    }
    forall i | 0 <= i < |REASON_GROUPS|
      ensures SelfConsistent(REASON_GROUPS[i])
    {
      LooksAll(i);
    }
  }

  lemma PairOk(i: nat, j: nat)
    requires i < 5 && j < 5
    ensures REASON_GROUPS[i].value !in REASON_GROUPS[j].sourceValues
    ensures Norm(REASON_GROUPS[i].value) !in REASON_GROUPS[j].sourceLabels
    ensures i != j ==> Compatible(REASON_GROUPS[i], REASON_GROUPS[j])
  {
    LooksAll(i);
    LooksAll(j);
    CanonicalSketches(i, j);
    if i < 3 && j < 3 && i != j {
      RejectionSketches(i, j);
    } else if i >= 3 && j >= 3 && i != j {
      WithdrawalSketches();
    }
    var g, h := REASON_GROUPS[i], REASON_GROUPS[j];
    NormDrawn(g.value, LookAt(i).value);
    NormDrawn(g.title, LookAt(i).title);
    NormDrawn(h.title, LookAt(j).title);
  }

  /**
   What stays lost: a reason that resolved before no longer resolves exactly
   when nothing names a group for it and its option bears a group's canonical
   label that is not a listed one.
   */
  lemma LosesExactly(db: Db, groups: seq<Group>, now: Time, k: nat, c: Category, id: nat)
    requires CatalogueOk(db) && GroupsOk(groups)
    requires k < |db.decisions| && HasReason(db.decisions[k], c)
    requires id in db.settings && IsOption(db.settings[id], c, Reason(db.decisions[k], c))
    ensures k < |Rounds(db, groups, now).decisions|
    ensures var after := Rounds(db, groups, now);
            !Resolves(after.settings, c, Reason(after.decisions[k], c))
            <==> !NamedBySome(groups, db.decisions[k], c) && !Survives(db.settings[id], groups)
  {
    ResolvesExactly(db, groups, now, k, c);
    if Keeps(db.settings, groups, db.decisions[k], c) && !NamedBySome(groups, db.decisions[k], c) {
      var other :| other in db.settings && IsOption(db.settings[other], c, Reason(db.decisions[k], c))
                   && Survives(db.settings[other], groups);
      assert other == id;
    }
  }

  /** A catalogue in which an administrator had already added the new label under a value of their own. */
  function StrayExample(): Db {
    Db(map[1 := Setting(Rejection, "weak_english_skills", LOW_ENGLISH_LEVEL.title, true, 70, false, false, 0)],
       [Decision(Rejected, "weak_english_skills", "", "")],
       2)
  }

  lemma Unlisted(g: Group, look: Look, text: string)
    requires Looks(g, look) && Sketch(text) !in look.listed && Sketch(text) != look.value
    ensures text !in g.sourceValues && text !in g.sourceLabels && text != g.value
  {
  }

  lemma StraySketches(i: nat)
    requires i < 3
    ensures (19, 'w', 'l') !in LookAt(i).listed && (19, 'w', 'l') != LookAt(i).value
    ensures (17, 'l', 'i') !in LookAt(i).listed
  {
  }

  lemma StrayIsUnnamed(d: Decision, g: Group, look: Look)
    requires g.category == Rejection && Drawn(d.rejectionReason, (19, 'w', 'l'))
    requires Looks(g, look) && (19, 'w', 'l') !in look.listed && (19, 'w', 'l') != look.value
    ensures !NamedByOne(g, d, Rejection)
  {
    NormDrawn(d.rejectionReason, (19, 'w', 'l'));
    Unlisted(g, look, d.rejectionReason);
    Unlisted(g, look, Norm(d.rejectionReason));
  }

  lemma StrayReason()
    ensures Drawn(StrayExample().decisions[0].rejectionReason, (19, 'w', 'l'))
    ensures Drawn(StrayExample().settings[1].title, (17, 'L', 'i'))
    ensures CatalogueOk(StrayExample()) && Resolved(StrayExample().settings, StrayExample().decisions[0])
    ensures IsOption(StrayExample().settings[1], Rejection, StrayExample().decisions[0].rejectionReason)
    ensures StrayExample().settings[1].title == REASON_GROUPS[0].title
  {
    var db := StrayExample();
    assert IsOption(db.settings[1], Rejection, db.decisions[0].rejectionReason);
  }

  lemma StrayMeetsGroup(i: nat, d: Decision, title: string)
    requires i < 5
    requires Drawn(d.rejectionReason, (19, 'w', 'l')) && Drawn(title, (17, 'L', 'i'))
    ensures !NamedByOne(REASON_GROUPS[i], d, Rejection)
    ensures REASON_GROUPS[i].category == Rejection ==> Norm(title) !in REASON_GROUPS[i].sourceLabels
  {
    LooksAll(i);
    if i < 3 {
      StraySketches(i);
      StrayMeetsLook(REASON_GROUPS[i], LookAt(i), d, title);
    }
  }

  lemma StrayMeetsLook(g: Group, look: Look, d: Decision, title: string)
    requires Looks(g, look) && g.category == Rejection
    requires (19, 'w', 'l') !in look.listed && (19, 'w', 'l') != look.value && (17, 'l', 'i') !in look.listed
    requires Drawn(d.rejectionReason, (19, 'w', 'l')) && Drawn(title, (17, 'L', 'i'))
    ensures !NamedByOne(g, d, Rejection)
    ensures Norm(title) !in g.sourceLabels
  {
    StrayIsUnnamed(d, g, look);
    NormDrawn(title, (17, 'L', 'i'));
  }

  lemma StrayMeetsGroups(d: Decision, title: string)
    requires Drawn(d.rejectionReason, (19, 'w', 'l')) && Drawn(title, (17, 'L', 'i'))
    ensures forall i :: 0 <= i < |REASON_GROUPS| ==> !NamedByOne(REASON_GROUPS[i], d, Rejection)
    ensures forall i :: 0 <= i < |REASON_GROUPS| && REASON_GROUPS[i].category == Rejection ==>
              Norm(title) !in REASON_GROUPS[i].sourceLabels
  {
    forall i | 0 <= i < |REASON_GROUPS|
      ensures !NamedByOne(REASON_GROUPS[i], d, Rejection)
      ensures REASON_GROUPS[i].category == Rejection ==> Norm(title) !in REASON_GROUPS[i].sourceLabels
    {
      StrayMeetsGroup(i, d, title);
    }
  }

  lemma StrayLoses(db: Db, groups: seq<Group>, now: Time)
    requires GroupsOk(groups) && CatalogueOk(db) && |db.decisions| == 1 && db.decisions[0].outcome == Rejected
    requires 1 in db.settings && IsOption(db.settings[1], Rejection, db.decisions[0].rejectionReason)
    requires forall i :: 0 <= i < |groups| ==> !NamedByOne(groups[i], db.decisions[0], Rejection)
    requires groups != [] && groups[0].category == Rejection && db.settings[1].title == groups[0].title
    requires forall i :: 0 <= i < |groups| && groups[i].category == Rejection ==>
               Norm(db.settings[1].title) !in groups[i].sourceLabels
    ensures var after := Rounds(db, groups, now);
            |after.decisions| == 1 && !Resolved(after.settings, after.decisions[0])
  {
    forall i | 0 <= i < |groups|
      ensures !NamedByOne(groups[i], db.decisions[0], Rejection)
    {
    }
    assert !Survives(db.settings[1], groups);
    LosesExactly(db, groups, now, 0, Rejection, 1);
    DecisionsOtherwiseUnchanged(db, groups, now, 0);
    RoundsKeepCatalogue(db, groups, now);
  }

  /** The reason resolved, and after the migration it names no option at all. */
  lemma StrayLosesReason(now: Time)
    ensures CatalogueOk(StrayExample()) && Resolved(StrayExample().settings, StrayExample().decisions[0])
    ensures var after := Rounds(StrayExample(), REASON_GROUPS, now);
            |after.decisions| == 1 && !Resolved(after.settings, after.decisions[0])
  {
    ReasonGroupsOk();
    StrayReason();
    StrayMeetsGroups(StrayExample().decisions[0], StrayExample().settings[1].title);
    StrayLoses(StrayExample(), REASON_GROUPS, now);
  }

  /** The migration as it runs: one pass of the loop per group, on the tables in place. */
  class ReasonTables {
    var settings: map<nat, Setting>
    var decisions: seq<Decision>
    var nextId: nat

    function Tables(): Db
      reads this
    {
      Db(settings, decisions, nextId)
    }

    constructor (db: Db)
      ensures Tables() == db
    {
      settings, decisions, nextId := db.settings, db.decisions, db.nextId;
    }

    /** UPDATE of the final decisions whose reason belongs to the group. */
    method RemapDecisions(g: Group)
      modifies this
      ensures settings == old(settings) && nextId == old(nextId) && |decisions| == old(|decisions|)
      ensures forall k :: 0 <= k < |decisions| ==> decisions[k] == Remap(settings, old(decisions)[k], g)
    {
      decisions := seq(|decisions|, k requires 0 <= k < |decisions| reads this => Remap(settings, decisions[k], g));
    }

    /** One pass: remap, keep or insert the canonical option, delete its aliases. */
    method MergeGroup(g: Group, now: Time)
      modifies this
      ensures Tables() == Round(old(Tables()), g, now)
    {
      RemapDecisions(g);
      var ids := TouchedIds(settings, g);
      if ids == {} {
        settings := settings[nextId := Canonical(g, now)];
        nextId := nextId + 1;
      } else {
        var kept := Best(settings, g, ids);
        settings := map id | id in settings && (id == kept || !Touches(settings[id], g)) :: settings[id];
        settings := settings[kept := Canonical(g, now)];
      }
    }

    /** All five groups in order: unique values and labels are kept, and every group ends settled. */
    method Consolidate(now: Time)
      requires CatalogueOk(Tables())
      modifies this
      ensures Tables() == Rounds(old(Tables()), REASON_GROUPS, now)
      ensures CatalogueOk(Tables()) && |decisions| == old(|decisions|)
      ensures forall g :: g in REASON_GROUPS ==> Settled(Tables(), g)
      ensures NoStrays(old(settings), REASON_GROUPS) ==> NoneLost(old(Tables()), Tables())
    {
      for i := 0 to |REASON_GROUPS|
        invariant Rounds(Tables(), REASON_GROUPS[i..], now) == Rounds(old(Tables()), REASON_GROUPS, now)
      {
        assert REASON_GROUPS[i..] == [REASON_GROUPS[i]] + REASON_GROUPS[i + 1..];
        MergeGroup(REASON_GROUPS[i], now);
      }
      ReasonGroupsOk();
      RoundsKeepCatalogue(old(Tables()), REASON_GROUPS, now);
      RoundsSettle(old(Tables()), REASON_GROUPS, now);
      MergeLosesNone(old(Tables()), REASON_GROUPS, now);
    }
  }
}
