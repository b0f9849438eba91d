/**
 Persisted rows and provider messages of the adaptive onboarding questionnaire.
 Free text is carried as `Text`: the raw characters, which decide equality of
 two answers, and the word they fold to, which decides routing.
 */
module OnboardingTypes {
  import opened Common

  const MIN_QUESTIONS := 5
  const MAX_QUESTIONS := 8
  const MAX_CLARIFICATIONS := 1
  const USABLE_CONFIDENCE := 0.85

  datatype Topic =
    | AdaptiveLocation | TravelGroup | PriceValue | TravelPace | FoodPreference
    | DestinationBranch
    | BeachActivity | BeachProximity
    | MountainOutdoors | MountainScenery | MountainRecovery
    | CityFocus | CityLocation
    | RuralIsolation | RuralStayStyle
    | DestinationDetail | DestinationPreference | DestinationMatching
    | CoupleStyle | FamilyNeeds | FriendsVibe
  {
    /** Topics a generated question may carry as its key; the two excluded ones exist only as dimensions. */
    predicate Canonical() {
      !DestinationPreference? && !DestinationMatching?
    }

    predicate MatchesDestination() {
      DestinationDetail? || DestinationPreference? || DestinationMatching? || BranchByKey().Some?
    }

    /** The destination branch a branch-specific question implies. */
    function BranchByKey(): Option<Branch> {
      match this
      case BeachActivity | BeachProximity => Some(BeachCoast)
      case MountainOutdoors | MountainScenery | MountainRecovery => Some(MountainsHills)
      case CityFocus | CityLocation => Some(CityTown)
      case RuralIsolation | RuralStayStyle => Some(CountrysideRural)
      case _ => None
    }

    predicate GroupBranch() {
      FamilyNeeds? || CoupleStyle? || FriendsVibe?
    }
  }

  type CanonicalTopic = t: Topic | t.Canonical() witness AdaptiveLocation

  datatype Branch = BeachCoast | MountainsHills | CityTown | CountrysideRural

  /** The folded words that routing recognises; every other text is `Plain`. */
  datatype Word =
    | Couple
    | Family | FamilyWithKids | FamilyWithChildren | FamilyKids
    | Friends | FriendsGroup
    | Solo | SoloTraveller | SoloTraveler
    | Romance | Adventure | Decompression | Relaxation
    | Beach | Coast | BeachAndCoast
    | Hills | Mountains | MountainsAndHills
    | City | Town | CityAndTown
    | Rural | Countryside | CountrysideAndRural
    | Plain(text: string)

  datatype Text = Text(raw: string, word: Word) {
    predicate Truthy() { word != Plain("") }
  }

  /** Text produced by stringifying a value that is not a string. */
  const STRINGIFIED := Text("<value>", Plain("<value>"))

  datatype Scalar = Null | Str(text: Text) | Num(number: real) | Flag(flag: bool)

  datatype Field = Missing | One(scalar: Scalar) | Many(items: seq<Scalar>) | Nested

  /** An answer object; `extra` stands for keys the service never reads but compares. */
  datatype Answer = Answer(selected: Field, value: Field, extra: string)

  datatype Dimension =
    | OfTopic(topic: Topic)
    | GroupTypeDim | TravelContext
    | Price | BudgetSensitivity | ValueExpectation
    | Activities | ActivityLevel
    | Food | DiningPreference
    | UrbanLocation
    | OtherDimension(text: string)

  datatype RawKey = Key(topic: Topic) | GroupTypeKey | DestinationTypeKey | NoKey

  datatype Kind = Standard | Clarification

  datatype Control =
    | SingleChoice(options: set<string>)
    | MultiChoice(options: set<string>)
    | Scale(low: Option<real>, high: Option<real>)
    | FreeText
    | Unsupported

  datatype Question = Question(
    id: nat, position: int, prompt: string, key: RawKey, locationCode: bool,
    kind: Kind, dimensions: set<Dimension>, control: Control)

  datatype Row = Row(question: Question, answer: Answer)

  datatype Signal = Signal(value: Text, confidence: real) {
    predicate Usable() { confidence >= USABLE_CONFIDENCE }
  }

  type Inferred = map<Topic, Signal>

  /** A question proposed by the provider. */
  datatype Proposal = Proposal(
    prompt: string, key: CanonicalTopic, kind: Kind, dimensions: set<Dimension>, control: Control)

  /** One provider call: an outage, or any decision whatever. */
  datatype Reply =
    | Unavailable
    | Decision(complete: bool, signals: seq<(Topic, Signal)>, reason: Option<string>, question: Option<Proposal>)

  // ----- text folding (ASCII)

  predicate Space(c: char) {
    c == ' ' || c == '\t' || c == '\n' || c == '\r'
  }

  function Strip(s: string): string {
    if s != "" && Space(s[0]) then Strip(s[1..])
    else if s != "" && Space(s[|s| - 1]) then Strip(s[..|s| - 1])
    else s
  }

  function Normal(prompt: string): string {
    Folded(Strip(prompt))
  }

  const LOCATION_PROMPT := "Where are you travelling to?"

  function LocationProposal(): Proposal {
    Proposal(LOCATION_PROMPT, AdaptiveLocation, Standard, {OtherDimension("location")}, FreeText)
  }

  // ----- answers

  function ScalarText(s: Scalar): Option<Text> {
    match s
    case Null => None
    case Str(text) => Some(text)
    case _ => Some(STRINGIFIED)
  }

  function FieldText(f: Field): Option<Text> {
    match f
    case Missing => None
    case One(s) => ScalarText(s)
    case _ => Some(STRINGIFIED)
  }

  /** The first selected option, or else the plain value. */
  function AnswerText(a: Answer): Option<Text> {
    var selected :=
      match a.selected
      case Many(items) => if items == [] then None else ScalarText(items[0])
      case other => FieldText(other);
    if selected.Some? then selected else FieldText(a.value)
  }

  /** The option is one of the offered strings. */
  predicate Offered(s: Scalar, options: set<string>) {
    s.Str? && s.text.raw in options
  }

  predicate ValidAnswer(control: Control, a: Answer) {
    match control
    case SingleChoice(options) =>
      (match a.selected
       case One(s) => Offered(s, options)
       case Many(items) => |items| == 1 && Offered(items[0], options)
       case _ => false)
    case MultiChoice(options) =>
      && a.selected.Many?
      && 0 < |a.selected.items| <= 8
      && (forall i :: 0 <= i < |a.selected.items| ==> Offered(a.selected.items[i], options))
      && (forall i, j :: 0 <= i < j < |a.selected.items| ==>
            Offered(a.selected.items[i], options) && Offered(a.selected.items[j], options) &&
            a.selected.items[i].text.raw != a.selected.items[j].text.raw)
    case Scale(low, high) =>
      && a.value.One? && a.value.scalar.Num?
      && (low.Some? ==> low.value <= a.value.scalar.number)
      && (high.Some? ==> a.value.scalar.number <= high.value)
    case FreeText =>
      && a.value.One? && a.value.scalar.Str?
      && Strip(a.value.scalar.text.raw) != ""
      && |a.value.scalar.text.raw| <= 500
    case Unsupported => false
  }
}
