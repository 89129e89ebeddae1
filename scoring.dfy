/** The per-section bookkeeping of a practice session (components/Practice.tsx,
    the tally step of handleSubmit), and reference definitions of what a history
    of submitted answers should add up to. */
module Scoring {
  import opened Types

  /** How many questions of one category were submitted, and how many of those
      were answered correctly. */
  datatype Tally = Tally(correct: nat, total: nat)

  /** A category missing from the tallies reads as nothing answered yet. */
  function TallyAt(m: map<Category, Tally>, c: Category): Tally {
    if c in m then m[c] else Tally(0, 0)
  }

  /** Does `selected` pick the correct option of `q`? On a well-formed
      question a correct selection is always one of its options. */
  predicate IsCorrect(q: Question, selected: int)
    ensures IsCorrect(q, selected) && q.WellFormed() ==> 0 <= selected < |q.options|
  {
    selected == q.correctAnswer
  }

  /** The copy-and-update step: the entry of `cat` gains one question, and one
      correct answer when `correct` holds; every other entry is left as it was. */
  function TallyUpdate(m: map<Category, Tally>, cat: Category, correct: bool): (r: map<Category, Tally>)
    ensures r.Keys == m.Keys + {cat}
    ensures r[cat].total == TallyAt(m, cat).total + 1
    ensures r[cat].correct == TallyAt(m, cat).correct + (if correct then 1 else 0)
    ensures forall c :: c != cat ==> TallyAt(r, c) == TallyAt(m, c)
  {
    var current := TallyAt(m, cat);
    m[cat := Tally(current.correct + (if correct then 1 else 0), current.total + 1)]
  }

  // ---------------------------------------------------------------------------
  // Reference definitions over a history: the first |answers| questions of the
  // batch, each with the option that was locked in for it.

  /** The tallies obtained by submitting the answers one after another. */
  function Tallies(qs: seq<Question>, answers: seq<int>): map<Category, Tally>
    requires |qs| == |answers|
  {
    if |qs| == 0 then map[]
    else
      var n := |qs| - 1;
      TallyUpdate(Tallies(qs[..n], answers[..n]), qs[n].category, IsCorrect(qs[n], answers[n]))
  }

  /** The number of submitted questions answered correctly. */
  function CountCorrect(qs: seq<Question>, answers: seq<int>): nat
    requires |qs| == |answers|
  {
    if |qs| == 0 then 0
    else
      var n := |qs| - 1;
      CountCorrect(qs[..n], answers[..n]) + (if IsCorrect(qs[n], answers[n]) then 1 else 0)
  }

  /** The number of questions of category `c`. */
  function CountIn(qs: seq<Question>, c: Category): nat {
    if |qs| == 0 then 0
    else
      var n := |qs| - 1;
      CountIn(qs[..n], c) + (if qs[n].category == c then 1 else 0)
  }

  /** The number of questions of category `c` answered correctly. */
  function CorrectIn(qs: seq<Question>, answers: seq<int>, c: Category): nat
    requires |qs| == |answers|
  {
    if |qs| == 0 then 0
    else
      var n := |qs| - 1;
      CorrectIn(qs[..n], answers[..n], c)
        + (if qs[n].category == c && IsCorrect(qs[n], answers[n]) then 1 else 0)
  }

  /** Sums of a tally field over a list of categories. */
  function CorrectOver(cs: seq<Category>, m: map<Category, Tally>): nat {
    if |cs| == 0 then 0 else TallyAt(m, cs[0]).correct + CorrectOver(cs[1..], m)
  }

  function TotalOver(cs: seq<Category>, m: map<Category, Tally>): nat {
    if |cs| == 0 then 0 else TallyAt(m, cs[0]).total + TotalOver(cs[1..], m)
  }

  /** The sums over every category. */
  function SumCorrect(m: map<Category, Tally>): nat {
    CorrectOver(AllCategories, m)
  }

  function SumTotal(m: map<Category, Tally>): nat {
    TotalOver(AllCategories, m)
  }

  // ---------------------------------------------------------------------------
  // Lemmas

  /** Each entry of the folded tallies counts exactly the questions of its own
      category: its total is how many there are, its correct how many of them
      were answered correctly. */
  lemma {:induction false} TalliesCount(qs: seq<Question>, answers: seq<int>, c: Category)
    requires |qs| == |answers|
    ensures TallyAt(Tallies(qs, answers), c) == Tally(CorrectIn(qs, answers, c), CountIn(qs, c))
  {
    if |qs| > 0 {
      var n := |qs| - 1;
      TalliesCount(qs[..n], answers[..n], c);
    }
  }

  /** Within one category, the correct answers never outnumber the questions. */
  lemma {:induction false} CorrectInAtMostCountIn(qs: seq<Question>, answers: seq<int>, c: Category)
    requires |qs| == |answers|
    ensures CorrectIn(qs, answers, c) <= CountIn(qs, c)
  {
    if |qs| > 0 {
      var n := |qs| - 1;
      CorrectInAtMostCountIn(qs[..n], answers[..n], c);
    }
  }

  /** Updating one entry moves the sums over a duplicate-free list of
      categories by that entry's change, and only if the list holds it. */
  lemma {:induction false} OverUpdate(cs: seq<Category>, m: map<Category, Tally>, cat: Category, correct: bool)
    requires Distinct(cs)
    ensures CorrectOver(cs, TallyUpdate(m, cat, correct))
         == CorrectOver(cs, m) + (if cat in cs && correct then 1 else 0)
    ensures TotalOver(cs, TallyUpdate(m, cat, correct))
         == TotalOver(cs, m) + (if cat in cs then 1 else 0)
  {
    if |cs| > 0 {
      assert Distinct(cs[1..]) by {
        forall i, j | 0 <= i < j < |cs[1..]| ensures cs[1..][i] != cs[1..][j] {
          assert cs[1..][i] == cs[i + 1] && cs[1..][j] == cs[j + 1];
        }
      }
      OverUpdate(cs[1..], m, cat, correct);
      if cs[0] == cat {
        assert cat !in cs[1..] by {
          forall k | 0 <= k < |cs[1..]| ensures cs[1..][k] != cat {
            assert cs[1..][k] == cs[k + 1];
          }
        }
      }
      assert cat in cs <==> cs[0] == cat || cat in cs[1..];
    }
  }

  /** Submitting one answer adds one to the total over all categories, and one
      to the correct count exactly when the answer is right. */
  lemma SumsAfterUpdate(m: map<Category, Tally>, cat: Category, correct: bool)
    ensures SumCorrect(TallyUpdate(m, cat, correct)) == SumCorrect(m) + (if correct then 1 else 0)
    ensures SumTotal(TallyUpdate(m, cat, correct)) == SumTotal(m) + 1
  {
    AllCategoriesExact();
    OverUpdate(AllCategories, m, cat, correct);
  }

  /** The invariant the session keeps: over any history, the tallies' correct
      counts add up to the number of correct answers, their totals to the number
      of submitted questions, and no entry has more correct than total. */
  lemma {:induction false} TalliesInvariant(qs: seq<Question>, answers: seq<int>)
    requires |qs| == |answers|
    ensures SumCorrect(Tallies(qs, answers)) == CountCorrect(qs, answers)
    ensures SumTotal(Tallies(qs, answers)) == |qs|
    ensures CountCorrect(qs, answers) <= |qs|
    ensures forall c :: TallyAt(Tallies(qs, answers), c).correct <= TallyAt(Tallies(qs, answers), c).total
  {
    if |qs| > 0 {
      var n := |qs| - 1;
      TalliesInvariant(qs[..n], answers[..n]);
      SumsAfterUpdate(Tallies(qs[..n], answers[..n]), qs[n].category, IsCorrect(qs[n], answers[n]));
    } else {
      assert SumCorrect(map[]) == 0 && SumTotal(map[]) == 0;
    }
    forall c ensures TallyAt(Tallies(qs, answers), c).correct <= TallyAt(Tallies(qs, answers), c).total {
      TalliesCount(qs, answers, c);
      CorrectInAtMostCountIn(qs, answers, c);
    }
  }
}
