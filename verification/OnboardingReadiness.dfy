/**
 Completion gate of the adaptive questionnaire: which answers count as which
 topic, what the answered rows have established, and when nothing is missing.
 */
module OnboardingReadiness {
  import opened Common
  import opened OnboardingTypes

  datatype GroupKey = NoBranch | BranchTopic(topic: Topic) | UnknownGroup

  function GroupBranchKey(group: Option<Text>): GroupKey {
    if group.None? then UnknownGroup
    else
      match group.value.word
      case Couple => BranchTopic(CoupleStyle)
      case Family | FamilyWithKids | FamilyWithChildren | FamilyKids => BranchTopic(FamilyNeeds)
      case Friends | FriendsGroup => BranchTopic(FriendsVibe)
      case Solo | SoloTraveller | SoloTraveler => NoBranch
      case _ => UnknownGroup
  }

  predicate CoupleSignal(w: Word) {
    w.Romance? || w.Adventure? || w.Decompression? || w.Relaxation?
  }

  function CanonicalBranch(w: Word): Option<Branch> {
    match w
    case Beach | Coast | BeachAndCoast => Some(BeachCoast)
    case Hills | Mountains | MountainsAndHills => Some(MountainsHills)
    case City | Town | CityAndTown => Some(CityTown)
    case Rural | Countryside | CountrysideAndRural => Some(CountrysideRural)
    case _ => None
  }

  predicate Truthy(t: Option<Text>) {
    t.Some? && t.value.Truthy()
  }

  /** The topic a question covers: its key, or the legacy reading of its dimensions. */
  function CanonicalKey(q: Question, a: Answer): Option<Topic> {
    var value := AnswerText(a);
    if q.key.Key? && q.key.topic.Canonical() then Some(q.key.topic)
    else if q.key.GroupTypeKey? then Some(TravelGroup)
    else if q.key.DestinationTypeKey? then Some(DestinationBranch)
    else if q.dimensions == {OfTopic(CoupleStyle)} && Truthy(value) && CoupleSignal(value.value.word) then Some(CoupleStyle)
    else if q.dimensions != {} && q.dimensions <= {GroupTypeDim, OfTopic(TravelGroup), TravelContext}
            && Truthy(value) && !GroupBranchKey(value).UnknownGroup? then Some(TravelGroup)
    else if q.dimensions == {OfTopic(TravelGroup)} then Some(TravelGroup)
    else if q.dimensions != {} && q.dimensions <= {Price, OfTopic(PriceValue), BudgetSensitivity, ValueExpectation} then Some(PriceValue)
    else if q.dimensions != {} && q.dimensions <= {Activities, OfTopic(TravelPace), ActivityLevel} then Some(TravelPace)
    else if q.dimensions != {} && q.dimensions <= {Food, OfTopic(FoodPreference), DiningPreference} then Some(FoodPreference)
    else if q.dimensions == {UrbanLocation} then Some(CityLocation)
    else SoleMatchingTopic(q.dimensions)
  }

  /** The single dimension of the set, when it names a destination-matching topic. */
  function SoleMatchingTopic(dimensions: set<Dimension>): Option<Topic> {
    if dimensions == {OfTopic(DestinationDetail)} then Some(DestinationDetail)
    else if dimensions == {OfTopic(DestinationPreference)} then Some(DestinationPreference)
    else if dimensions == {OfTopic(DestinationMatching)} then Some(DestinationMatching)
    else if dimensions == {OfTopic(BeachActivity)} then Some(BeachActivity)
    else if dimensions == {OfTopic(BeachProximity)} then Some(BeachProximity)
    else if dimensions == {OfTopic(MountainOutdoors)} then Some(MountainOutdoors)
    else if dimensions == {OfTopic(MountainScenery)} then Some(MountainScenery)
    else if dimensions == {OfTopic(MountainRecovery)} then Some(MountainRecovery)
    else if dimensions == {OfTopic(CityFocus)} then Some(CityFocus)
    else if dimensions == {OfTopic(CityLocation)} then Some(CityLocation)
    else if dimensions == {OfTopic(RuralIsolation)} then Some(RuralIsolation)
    else if dimensions == {OfTopic(RuralStayStyle)} then Some(RuralStayStyle)
    else None
  }

  // ----- what one row contributes

  function KeyOf(r: Row): Option<Topic> {
    CanonicalKey(r.question, r.answer)
  }

  predicate Covers(r: Row, t: Topic) {
    KeyOf(r) == Some(t)
  }

  function BranchOf(r: Row): Option<Branch> {
    var key := KeyOf(r);
    if key == Some(DestinationBranch) then
      (var value := AnswerText(r.answer); if value.Some? then CanonicalBranch(value.value.word) else None)
    else if key.Some? then key.value.BranchByKey()
    else None
  }

  function GroupOf(r: Row): Option<Text> {
    var value := AnswerText(r.answer);
    if Covers(r, TravelGroup) && Truthy(value) then value else None
  }

  predicate MatchesDestination(r: Row) {
    KeyOf(r).Some? && KeyOf(r).value.MatchesDestination()
  }

  predicate AsksGroupBranch(r: Row) {
    KeyOf(r).Some? && KeyOf(r).value.GroupBranch()
  }

  predicate IsClarification(r: Row) {
    r.question.kind.Clarification?
  }

  /** An answer to a group-branch question that says something usable. */
  predicate GivesGroupSignal(r: Row, t: Topic) {
    var value := AnswerText(r.answer);
    if t.CoupleStyle? then value.Some? && CoupleSignal(value.value.word) else Truthy(value)
  }

  /** The group branch is answered, and its first answer is usable. */
  ghost predicate GroupSignal(t: Topic, rows: seq<Row>) {
    exists i ::
      && 0 <= i < |rows|
      && Covers(rows[i], t) && GivesGroupSignal(rows[i], t)
      && forall j :: 0 <= j < i ==> !Covers(rows[j], t)
  }

  ghost predicate GroupKeySignal(key: GroupKey, rows: seq<Row>) {
    key.BranchTopic? && GroupSignal(key.topic, rows)
  }

  method GroupSignalCaptured(key: GroupKey, rows: seq<Row>) returns (captured: bool)
    ensures captured <==> GroupKeySignal(key, rows)
  {
    if !key.BranchTopic? {
      return false;
    }
    for i := 0 to |rows|
      invariant forall j :: 0 <= j < i ==> !Covers(rows[j], key.topic)
    {
      if !Covers(rows[i], key.topic) {
        continue;
      }
      return GivesGroupSignal(rows[i], key.topic);
    }
    return false;
  }

  // ----- what the rows together have established

  datatype BranchState = BranchState(
    branchQuestions: nat, matchingQuestions: nat, groupQuestions: nat, clarifications: nat,
    branch: Option<Branch>, groupType: Option<Text>, groupKey: GroupKey, groupSignal: bool)

  ghost predicate Describes(st: BranchState, rows: seq<Row>) {
    && st.branchQuestions == Count(rows, r => Covers(r, DestinationBranch))
    && st.matchingQuestions == Count(rows, MatchesDestination)
    && st.groupQuestions == Count(rows, AsksGroupBranch)
    && st.clarifications == Count(rows, IsClarification)
    && st.branch == LastSome(rows, BranchOf)
    && st.groupType == LastSome(rows, GroupOf)
    && st.groupKey == GroupBranchKey(st.groupType)
    && (st.groupSignal <==>
          GroupKeySignal(st.groupKey, rows) ||
          (st.groupKey.NoBranch? && st.groupType.Some? && st.groupType.value.raw == "solo"))
  }

  method ComputeBranchState(rows: seq<Row>) returns (st: BranchState)
    ensures Describes(st, rows)
  {
    var branchQuestions, matchingQuestions, groupQuestions, clarifications := 0, 0, 0, 0;
    var branch: Option<Branch> := None;
    var groupType: Option<Text> := None;
    ghost var coversBranch := r => Covers(r, DestinationBranch);
    for i := 0 to |rows|
      invariant branchQuestions == Count(rows[..i], coversBranch)
      invariant matchingQuestions == Count(rows[..i], MatchesDestination)
      invariant groupQuestions == Count(rows[..i], AsksGroupBranch)
      invariant clarifications == Count(rows[..i], IsClarification)
      invariant branch == LastSome(rows[..i], BranchOf)
      invariant groupType == LastSome(rows[..i], GroupOf)
    {
      CountSnoc(rows, i, coversBranch);
      CountSnoc(rows, i, MatchesDestination);
      CountSnoc(rows, i, AsksGroupBranch);
      CountSnoc(rows, i, IsClarification);
      LastSomeSnoc(rows, i, BranchOf);
      LastSomeSnoc(rows, i, GroupOf);
      var row := rows[i];
      var key := KeyOf(row);
      var value := AnswerText(row.answer);
      if row.question.kind == Clarification {
        clarifications := clarifications + 1;
      }
      if key == Some(DestinationBranch) {
        branchQuestions := branchQuestions + 1;
        if value.Some? && CanonicalBranch(value.value.word).Some? {
          branch := CanonicalBranch(value.value.word);
        }
      }
      if key.Some? && key.value.BranchByKey().Some? {
        branch := key.value.BranchByKey();
      }
      if key.Some? && key.value.MatchesDestination() {
        matchingQuestions := matchingQuestions + 1;
      }
      if key == Some(TravelGroup) && Truthy(value) {
        groupType := value;
      }
      if key.Some? && key.value.GroupBranch() {
        groupQuestions := groupQuestions + 1;
      }
    }
    assert rows[..|rows|] == rows;
    var groupKey := GroupBranchKey(groupType);
    var groupSignal := GroupSignalCaptured(groupKey, rows);
    if groupKey.NoBranch? && groupType.Some? && groupType.value.raw == "solo" {
      groupSignal := true;
    }
    st := BranchState(branchQuestions, matchingQuestions, groupQuestions, clarifications,
                      branch, groupType, groupKey, groupSignal);
  }

  // ----- the gate

  datatype Blocker =
    | MinimumQuestionCount | DestinationContext | TravelGroupMissing
    | GroupBranchMissing(key: GroupKey)
    | DestinationBranchMissing | MatchingSignalMissing
    | CoreTopicMissing(topic: Topic)

  ghost predicate LocationAnswered(rows: seq<Row>) {
    exists i :: 0 <= i < |rows| && rows[i].question.locationCode
  }

  ghost predicate TopicAnswered(rows: seq<Row>, t: Topic) {
    exists i :: 0 <= i < |rows| && Covers(rows[i], t)
  }

  predicate UsableSignal(inferred: Inferred, t: Topic) {
    t in inferred && inferred[t].Usable()
  }

  ghost function Group(rows: seq<Row>): GroupKey {
    GroupBranchKey(LastSome(rows, GroupOf))
  }

  ghost predicate BranchSelected(rows: seq<Row>, inferred: Inferred) {
    || (exists i :: 0 <= i < |rows| && BranchOf(rows[i]).Some?)
    || (UsableSignal(inferred, DestinationBranch) && CanonicalBranch(inferred[DestinationBranch].value.word).Some?)
  }

  ghost predicate DestinationMatched(rows: seq<Row>, inferred: Inferred) {
    || (exists i :: 0 <= i < |rows| && MatchesDestination(rows[i]))
    || (exists t: Topic :: t.MatchesDestination() && UsableSignal(inferred, t))
  }

  ghost predicate GroupBranchSatisfied(t: Topic, rows: seq<Row>, inferred: Inferred) {
    || GroupSignal(t, rows)
    || (UsableSignal(inferred, t) && (t.CoupleStyle? ==> CoupleSignal(inferred[t].value.word)))
  }

  predicate Core(t: Topic) {
    t.PriceValue? || t.TravelPace? || t.FoodPreference?
  }

  /** The questionnaire has everything a profile needs. */
  ghost predicate Ready(rows: seq<Row>, inferred: Inferred, answered: nat) {
    && answered >= MIN_QUESTIONS
    && LocationAnswered(rows)
    && !Group(rows).UnknownGroup?
    && (Group(rows).BranchTopic? ==> GroupBranchSatisfied(Group(rows).topic, rows, inferred))
    && BranchSelected(rows, inferred)
    && DestinationMatched(rows, inferred)
    && forall t: Topic :: Core(t) ==> TopicAnswered(rows, t)
  }

  /** Exactly when each blocker is reported. */
  ghost predicate Blocks(b: Blocker, rows: seq<Row>, inferred: Inferred, answered: nat) {
    match b
    case MinimumQuestionCount => answered < MIN_QUESTIONS
    case DestinationContext => !LocationAnswered(rows)
    case TravelGroupMissing => Group(rows).UnknownGroup?
    case GroupBranchMissing(key) =>
      key == Group(rows) && (key.UnknownGroup? || (key.BranchTopic? && !GroupBranchSatisfied(key.topic, rows, inferred)))
    case DestinationBranchMissing => !BranchSelected(rows, inferred)
    case MatchingSignalMissing => !DestinationMatched(rows, inferred)
    case CoreTopicMissing(t) => Core(t) && !TopicAnswered(rows, t)
  }

  lemma ReadyIffUnblocked(rows: seq<Row>, inferred: Inferred, answered: nat)
    ensures Ready(rows, inferred, answered) <==> forall b :: !Blocks(b, rows, inferred, answered)
  {
    if forall b :: !Blocks(b, rows, inferred, answered) {
      assert !Blocks(MinimumQuestionCount, rows, inferred, answered);
      assert !Blocks(DestinationContext, rows, inferred, answered);
      assert !Blocks(TravelGroupMissing, rows, inferred, answered);
      assert !Blocks(GroupBranchMissing(Group(rows)), rows, inferred, answered);
      assert !Blocks(DestinationBranchMissing, rows, inferred, answered);
      assert !Blocks(MatchingSignalMissing, rows, inferred, answered);
      forall t: Topic | Core(t) ensures TopicAnswered(rows, t) {
        assert !Blocks(CoreTopicMissing(t), rows, inferred, answered);
      }
    }
  }

  /** What the gate asks of the travel group named last: couples, families and friends say more about themselves, a solo traveller need not. */
  lemma GroupsAskTheirOwn(rows: seq<Row>, inferred: Inferred, answered: nat, group: Text)
    requires LastSome(rows, GroupOf) == Some(group) && Ready(rows, inferred, answered)
    ensures group.word.Couple? ==> GroupBranchSatisfied(CoupleStyle, rows, inferred)
    ensures group.word in {Family, FamilyWithKids, FamilyWithChildren, FamilyKids} ==> GroupBranchSatisfied(FamilyNeeds, rows, inferred)
    ensures group.word in {Friends, FriendsGroup} ==> GroupBranchSatisfied(FriendsVibe, rows, inferred)
    ensures group.word in {
      Couple, Family, FamilyWithKids, FamilyWithChildren, FamilyKids, Friends, FriendsGroup, Solo, SoloTraveller, SoloTraveler}
  {
    hide BranchSelected, DestinationMatched, TopicAnswered, LocationAnswered, GroupBranchSatisfied;
  }

  /** Naming a coast, mountains, a city or the country selects that branch, and no other word does. */
  lemma DestinationsSelectTheirBranch(rows: seq<Row>, i: nat)
    requires i < |rows| && Covers(rows[i], DestinationBranch) && AnswerText(rows[i].answer).Some?
    ensures var word := AnswerText(rows[i].answer).value.word;
      && (BranchOf(rows[i]) == Some(BeachCoast) <==> word in {Beach, Coast, BeachAndCoast})
      && (BranchOf(rows[i]) == Some(MountainsHills) <==> word in {Hills, Mountains, MountainsAndHills})
      && (BranchOf(rows[i]) == Some(CityTown) <==> word in {City, Town, CityAndTown})
      && (BranchOf(rows[i]) == Some(CountrysideRural) <==> word in {Rural, Countryside, CountrysideAndRural})
  {
    hide KeyOf;
  }

  /** The core topics no answered row covers, in the fixed order. */
  method UnansweredCore(rows: seq<Row>) returns (missing: seq<Topic>)
    ensures Distinct(missing)
    ensures forall t :: t in missing <==> Core(t) && !TopicAnswered(rows, t)
  {
    var keys: set<Topic> := {};
    for i := 0 to |rows|
      invariant forall t :: t in keys <==> exists j :: 0 <= j < i && Covers(rows[j], t)
    {
      var key := KeyOf(rows[i]);
      if key.Some? {
        keys := keys + {key.value};
      }
    }
    assert forall t :: t in keys <==> TopicAnswered(rows, t);
    missing := [];
    if PriceValue !in keys { missing := missing + [PriceValue]; }
    if TravelPace !in keys { missing := missing + [TravelPace]; }
    if FoodPreference !in keys { missing := missing + [FoodPreference]; }
  }

  method LocationIsAnswered(rows: seq<Row>) returns (answered: bool)
    ensures answered <==> LocationAnswered(rows)
  {
    for i := 0 to |rows|
      invariant forall j :: 0 <= j < i ==> !rows[j].question.locationCode
    {
      if rows[i].question.locationCode {
        return true;
      }
    }
    return false;
  }

  /** The state after the usable inferred signals have been merged in. */
  method MergeInferred(st: BranchState, rows: seq<Row>, inferred: Inferred)
    returns (branchSelected: bool, matched: bool, groupSignal: bool)
    requires Describes(st, rows)
    ensures branchSelected <==> BranchSelected(rows, inferred)
    ensures matched <==> DestinationMatched(rows, inferred)
    ensures st.groupKey.BranchTopic? ==> (groupSignal <==> GroupBranchSatisfied(st.groupKey.topic, rows, inferred))
    ensures st.groupKey.UnknownGroup? ==> !groupSignal
  {
    LastSomeExists(rows, BranchOf);
    CountPositive(rows, MatchesDestination);
    branchSelected := st.branch.Some?;
    if UsableSignal(inferred, DestinationBranch) && CanonicalBranch(inferred[DestinationBranch].value.word).Some? {
      branchSelected := true;
    }
    matched := st.matchingQuestions > 0;
    if exists t :: t in inferred.Keys && t.MatchesDestination() && UsableSignal(inferred, t) {
      matched := true;
    }
    groupSignal := st.groupSignal;
    if st.groupKey.BranchTopic? && UsableSignal(inferred, st.groupKey.topic) {
      if st.groupKey.topic != CoupleStyle {
        groupSignal := true;
      } else {
        groupSignal := groupSignal || CoupleSignal(inferred[CoupleStyle].value.word);
      }
    }
  }

  method AddIf(blockers: seq<Blocker>, condition: bool, b: Blocker) returns (extended: seq<Blocker>)
    requires Distinct(blockers) && b !in blockers
    ensures Distinct(extended)
    ensures forall x :: x in extended <==> x in blockers || (condition && x == b)
  {
    extended := if condition then blockers + [b] else blockers;
  }

  /** The blockers ahead of the core topics, in the order they are reported. */
  method BranchBlockers(enough: bool, located: bool, key: GroupKey, groupSignal: bool, branchSelected: bool, matched: bool)
    returns (blockers: seq<Blocker>)
    ensures Distinct(blockers)
    ensures MinimumQuestionCount in blockers <==> !enough
    ensures DestinationContext in blockers <==> !located
    ensures TravelGroupMissing in blockers <==> key.UnknownGroup?
    ensures forall k :: GroupBranchMissing(k) in blockers <==> k == key && !key.NoBranch? && !groupSignal
    ensures DestinationBranchMissing in blockers <==> !branchSelected
    ensures MatchingSignalMissing in blockers <==> !matched
    ensures forall t :: CoreTopicMissing(t) !in blockers
  {
    blockers := [];
    blockers := AddIf(blockers, !enough, MinimumQuestionCount);
    blockers := AddIf(blockers, !located, DestinationContext);
    blockers := AddIf(blockers, key.UnknownGroup?, TravelGroupMissing);
    blockers := AddIf(blockers, !key.NoBranch? && !groupSignal, GroupBranchMissing(key));
    blockers := AddIf(blockers, !branchSelected, DestinationBranchMissing);
    blockers := AddIf(blockers, !matched, MatchingSignalMissing);
  }

  /** Each core topic that is missing, as a blocker behind the others. */
  method AppendCore(head: seq<Blocker>, core: seq<Topic>) returns (blockers: seq<Blocker>)
    requires Distinct(head) && Distinct(core)
    requires forall t :: CoreTopicMissing(t) !in head
    ensures Distinct(blockers)
    ensures forall b :: b in blockers <==> if b.CoreTopicMissing? then b.topic in core else b in head
  {
    blockers := head;
    for i := 0 to |core|
      invariant Distinct(blockers)
      invariant forall b :: b in blockers <==> if b.CoreTopicMissing? then b.topic in core[..i] else b in head
    {
      assert core[i] !in core[..i];
      blockers := blockers + [CoreTopicMissing(core[i])];
    }
    assert core[..|core|] == core;
  }

  method CompletionReadiness(rows: seq<Row>, inferred: Inferred, answered: nat)
    returns (ready: bool, blockers: seq<Blocker>)
    ensures ready <==> Ready(rows, inferred, answered)
    ensures Distinct(blockers)
    ensures forall b :: b in blockers <==> Blocks(b, rows, inferred, answered)
  {
    var st := ComputeBranchState(rows);
    var branchSelected, matched, groupSignal := MergeInferred(st, rows, inferred);
    var located := LocationIsAnswered(rows);
    var core := UnansweredCore(rows);
    var head := BranchBlockers(answered >= MIN_QUESTIONS, located, st.groupKey, groupSignal, branchSelected, matched);
    blockers := AppendCore(head, core);
    forall b ensures b in blockers <==> Blocks(b, rows, inferred, answered) {
      match b
      case GroupBranchMissing(key) =>
      case CoreTopicMissing(t) =>
      case _ =>
    }
    ready := blockers == [];
    ReadyIffUnblocked(rows, inferred, answered);
    if blockers != [] {
      assert Blocks(blockers[0], rows, inferred, answered);
    }
  }
}
