/** The records and the enumeration shared by the practice session and the stats
    aggregation (types.ts). */
module Types {

  datatype Option<+T> = None | Some(value: T)

  /** The five exam sections; Mock is the composite full-exam category. */
  datatype Category = Reading | Vocabulary | Grammar | Math | Mock

  /** Every category once, in declaration order (the order in which the initial
      profile lists its keys). */
  const AllCategories: seq<Category> := [Reading, Vocabulary, Grammar, Math, Mock]

  /** The display name the enumeration carries as its string value. That no
      two categories share one is part of `AllCategoriesExact`. */
  function Name(c: Category): (s: string)
    ensures |s| > 0
  {
    match c
    case Reading => "Reading Comprehension"
    case Vocabulary => "Vocabulary"
    case Grammar => "Grammar & Writing"
    case Math => "Mathematics"
    case Mock => "Full Mock Test"
  }

  /** A list of categories without repetitions. */
  predicate Distinct(cs: seq<Category>) {
    forall i, j :: 0 <= i < j < |cs| ==> cs[i] != cs[j]
  }

  /** The enumeration is closed: the five values are pairwise distinct and
      every category is among them. */
  lemma AllCategoriesExact()
    ensures |AllCategories| == 5
    ensures forall c: Category :: c in AllCategories
    ensures Distinct(AllCategories)
    ensures forall c, d: Category :: Name(c) == Name(d) ==> c == d
  {
    forall c: Category ensures c in AllCategories {
      match c
      case Reading => assert AllCategories[0] == c;
      case Vocabulary => assert AllCategories[1] == c;
      case Grammar => assert AllCategories[2] == c;
      case Math => assert AllCategories[3] == c;
      case Mock => assert AllCategories[4] == c;
    }
  }

  /** One multiple-choice question. It carries exactly one category, and its
      correct answer is a zero-based index into its options. */
  datatype Question = Question(
    id: string,
    category: Category,
    passage: Option<string>,
    questionText: string,
    options: seq<string>,
    correctAnswer: int,
    explanation: string)
  {
    /** Nothing in the program checks this; the session takes it as given. */
    predicate WellFormed() {
      0 <= correctAnswer < |options|
    }
  }

  /** The durable profile. The category scores are a percentage per category. */
  datatype UserStats = UserStats(
    completedQuizzes: int,
    averageScore: int,
    categoryScores: map<Category, int>,
    questionsAnswered: int)

  /** A category scores map keyed by every category. */
  predicate Total(scores: map<Category, int>) {
    forall c: Category :: c in scores
  }

  /** Every category is one of the five constructors. */
  lemma CategoryCases(c: Category)
    ensures c in AllCategories
    ensures c == Reading || c == Vocabulary || c == Grammar || c == Math || c == Mock
  {}

  /** The profile used before anything has been practised: every category at 0. */
  function InitialStats(): (s: UserStats)
    ensures Total(s.categoryScores)
    ensures forall c: Category :: s.categoryScores[c] == 0
    ensures s.completedQuizzes == 0 && s.averageScore == 0 && s.questionsAnswered == 0
  {
    var scores := map[Reading := 0, Vocabulary := 0, Grammar := 0, Math := 0, Mock := 0];
    assert forall c: Category :: c in scores by {
      forall c: Category ensures c in scores {
        CategoryCases(c);
      }
    }
    UserStats(0, 0, scores, 0)
  }
}
