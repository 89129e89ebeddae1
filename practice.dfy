/** The practice session state machine of components/Practice.tsx: one batch of
    questions, walked through forward, each question first selected, then
    submitted (locked and scored), then left with Next. */
module Practice {
  import opened Types
  import opened Scoring

  /** What Next did: moved to the following question, or, on the last one,
      reported the session's result to the caller. */
  datatype NextOutcome = Advanced | Finished(score: nat, total: nat)

  class Session {
    /** The category the session was started for (Mock for the full exam). */
    const category: Category
    /** The batch, fixed once it has been loaded. */
    const questions: seq<Question>

    var currentIndex: nat
    /** The tentative choice for the current question. */
    var selectedOption: Option<int>
    /** Whether the current question has been submitted (and is locked). */
    var isAnswered: bool
    var score: nat
    var sectionResults: map<Category, Tally>
    var tutorMessage: Option<string>

    /** The option locked in for each submitted question, in order. */
    ghost var answers: seq<int>

    /** The session invariant. The score and the tallies are those of the
        submitted history; the number submitted is the position plus one once
        the current question is locked; from these follow the facts a reader
        of the screen relies on: the score is the sum of the tallies' correct
        counts, no tally has more correct than total, and the score never
        exceeds the batch length. */
    ghost predicate Valid()
      reads this
    {
      && 0 < |questions|
      && (forall i :: 0 <= i < |questions| ==> questions[i].WellFormed())
      && currentIndex < |questions|
      && |answers| == currentIndex + (if isAnswered then 1 else 0)
      && (isAnswered ==> selectedOption == Some(answers[currentIndex]))
      && score == CountCorrect(questions[..|answers|], answers)
      && sectionResults == Tallies(questions[..|answers|], answers)
      && score == SumCorrect(sectionResults)
      && SumTotal(sectionResults) == |answers| <= currentIndex + 1 <= |questions|
      && score <= |questions|
      && (forall c :: TallyAt(sectionResults, c).correct <= TallyAt(sectionResults, c).total)
    }

    /** The session once its batch has arrived: first question, nothing chosen,
        nothing scored. An empty batch is not handled by the program (the first
        render reads the first question), so it is excluded here. */
    constructor (category: Category, questions: seq<Question>)
      requires 0 < |questions|
      requires forall i :: 0 <= i < |questions| ==> questions[i].WellFormed()
      ensures Valid()
      ensures this.category == category && this.questions == questions
      ensures currentIndex == 0 && selectedOption == None && !isAnswered
      ensures score == 0 && sectionResults == map[] && tutorMessage == None && answers == []
    {
      this.category := category;
      this.questions := questions;
      currentIndex := 0;
      selectedOption := None;
      isAnswered := false;
      score := 0;
      sectionResults := map[];
      tutorMessage := None;
      answers := [];
      TalliesInvariant([], []);
    }

    /** The question on screen. */
    function CurrentQuestion(): (q: Question)
      reads this
      requires Valid()
      ensures q.WellFormed()
      ensures q == questions[currentIndex]
    {
      questions[currentIndex]
    }

    /** Whether Next will finish the session rather than advance. Once the
        last question is locked, every question of the batch has been submitted. */
    predicate IsLastQuestion()
      reads this
      ensures Valid() && isAnswered && IsLastQuestion() ==> |answers| == |questions|
    {
      currentIndex == |questions| - 1
    }

    /** Choosing an option: ignored once the question is locked; otherwise it
        replaces whatever was chosen before. */
    method HandleSelect(idx: int)
      requires Valid()
      modifies this`selectedOption
      ensures Valid()
      ensures old(isAnswered) ==> selectedOption == old(selectedOption)
      ensures !old(isAnswered) ==> selectedOption == Some(idx)
    {
      if isAnswered {
        return;
      }
      selectedOption := Some(idx);
    }

    /** Submitting the tentative choice. The button is rendered only while the
        question is unanswered, hence the precondition. With nothing chosen the
        call changes nothing; otherwise it locks the question, adds one to the
        score exactly when the choice is correct, and counts the question in
        the tally of its own category. */
    method HandleSubmit()
      requires Valid()
      requires !isAnswered
      modifies this`isAnswered, this`score, this`sectionResults, this`answers
      ensures Valid()
      ensures old(selectedOption).None? ==>
        && !isAnswered && score == old(score)
        && sectionResults == old(sectionResults) && answers == old(answers)
      ensures old(selectedOption).Some? ==>
        var q := questions[currentIndex];
        var correct := IsCorrect(q, old(selectedOption).value);
        && isAnswered
        && score == old(score) + (if correct then 1 else 0)
        && sectionResults == TallyUpdate(old(sectionResults), q.category, correct)
        && answers == old(answers) + [old(selectedOption).value]
    {
      if selectedOption.None? {
        return;
      }
      isAnswered := true;
      var q := questions[currentIndex];
      var correct := IsCorrect(q, selectedOption.value);
      if correct {
        score := score + 1;
      }
      sectionResults := TallyUpdate(sectionResults, q.category, correct);
      ghost var before := |answers|;
      answers := answers + [selectedOption.value];
      assert questions[..|answers|][..before] == questions[..before];
      assert answers[..before] == old(answers);
      TalliesInvariant(questions[..|answers|], answers);
    }

    /** The explanation for a submitted question arriving. It only writes the
        display text; no part of the game state moves. */
    method ReceiveTutorFeedback(msg: string)
      requires Valid()
      modifies this`tutorMessage
      ensures Valid()
      ensures tutorMessage == Some(msg)
    {
      tutorMessage := Some(msg);
    }

    /** Leaving a submitted question. The button is rendered only once the
        question is locked, hence the precondition. Before the last question it
        moves one forward and clears the choice, the lock and the explanation;
        on the last question it reports (score, batch length) and stays put. */
    method HandleNext() returns (outcome: NextOutcome)
      requires Valid()
      requires isAnswered
      modifies this`currentIndex, this`selectedOption, this`isAnswered, this`tutorMessage
      ensures Valid()
      ensures old(currentIndex) <= currentIndex
      ensures old(!IsLastQuestion()) ==>
        && outcome == Advanced
        && currentIndex == old(currentIndex) + 1
        && selectedOption == None && !isAnswered && tutorMessage == None
      ensures old(IsLastQuestion()) ==>
        && outcome == Finished(score, |questions|)
        && currentIndex == old(currentIndex) && selectedOption == old(selectedOption)
        && isAnswered && tutorMessage == old(tutorMessage)
      ensures outcome.Finished? ==>
        && |answers| == |questions|
        && outcome.score == CountCorrect(questions, answers)
        && outcome.score <= outcome.total
    {
      if currentIndex < |questions| - 1 {
        currentIndex := currentIndex + 1;
        selectedOption := None;
        isAnswered := false;
        tutorMessage := None;
        outcome := Advanced;
      } else {
        assert questions[..|answers|] == questions;
        outcome := Finished(score, |questions|);
      }
    }
  }
}
