/** The application shell of App.tsx: which view is active, which category is
    being practised, and the profile that finished sessions are folded into. */
module App {
  import opened Types
  import opened Stats
  import Practice
  import Scoring

  const DashboardView: string := "dashboard"
  const PracticeView: string := "practice"

  /** The navigation views that start a practice session, and for which category. */
  function ViewCategory(view: string): (r: Option<Category>)
    ensures r == Some(Reading) <==> view == "reading"
    ensures r == Some(Vocabulary) <==> view == "vocab"
    ensures r == Some(Grammar) <==> view == "grammar"
    ensures r == Some(Math) <==> view == "math"
    ensures r == Some(Mock) <==> view == "mock"
    ensures view == DashboardView || view == PracticeView ==> r == None
  {
    if view == "reading" then Some(Reading)
    else if view == "vocab" then Some(Vocabulary)
    else if view == "grammar" then Some(Grammar)
    else if view == "math" then Some(Math)
    else if view == "mock" then Some(Mock)
    else None
  }

  class AppState {
    var activeView: string
    var stats: UserStats
    var currentPracticeCategory: Option<Category>

    /** The profile holds percentages and counts. */
    ghost predicate Valid()
      reads this
    {
      InRange(stats)
    }

    /** The application as it opens, before any saved profile is read. */
    constructor ()
      ensures Valid()
      ensures activeView == DashboardView && stats == InitialStats() && currentPracticeCategory == None
    {
      activeView := DashboardView;
      stats := InitialStats();
      currentPracticeCategory := None;
      InitialInRange();
    }

    /** Starting a session for `cat`: remember the category, show the session. */
    method StartPractice(cat: Category)
      modifies this`currentPracticeCategory, this`activeView
      ensures currentPracticeCategory == Some(cat) && activeView == PracticeView
    {
      currentPracticeCategory := Some(cat);
      activeView := PracticeView;
    }

    /** Navigating to a view; the effect that follows maps the five subject
        views to a session start, and leaves every other view as chosen. */
    method SetActiveView(view: string)
      modifies this`currentPracticeCategory, this`activeView
      ensures ViewCategory(view).Some? ==>
        currentPracticeCategory == ViewCategory(view) && activeView == PracticeView
      ensures ViewCategory(view).None? ==>
        currentPracticeCategory == old(currentPracticeCategory) && activeView == view
    {
      activeView := view;
      var cat := ViewCategory(view);
      if cat.Some? {
        StartPractice(cat.value);
      }
    }

    /** The session's completion callback. Without a current category nothing
        happens. Otherwise the profile becomes the folded one and the shell
        returns to the dashboard with no category. `total` is the batch length,
        never 0 for a session that reached its last question, and the session
        guarantees 0 <= score <= total; under those the profile stays in range. */
    method HandleFinishPractice(score: int, total: int)
      requires Valid()
      requires total > 0 && 0 <= score <= total
      modifies this`stats, this`activeView, this`currentPracticeCategory
      ensures Valid()
      ensures old(currentPracticeCategory).None? ==>
        stats == old(stats) && activeView == old(activeView) && currentPracticeCategory == None
      ensures old(currentPracticeCategory).Some? ==>
        && stats == ApplySessionResult(old(stats), old(currentPracticeCategory).value, score, total)
        && activeView == DashboardView && currentPracticeCategory == None
    {
      if currentPracticeCategory.None? {
        return;
      }
      ApplyKeepsInRange(stats, currentPracticeCategory.value, score, total);
      stats := ApplySessionResult(stats, currentPracticeCategory.value, score, total);
      activeView := DashboardView;
      currentPracticeCategory := None;
    }

    /** Leaving a session part-way: back to the dashboard, profile untouched. */
    method ExitPractice()
      modifies this`activeView, this`currentPracticeCategory
      ensures activeView == DashboardView && currentPracticeCategory == None
      ensures stats == old(stats)
    {
      activeView := DashboardView;
      currentPracticeCategory := None;
    }

    /** Pressing Next in a running session, with the completion callback wired
        to HandleFinishPractice: every finish reaches the profile with a result
        the fold accepts, and any other Next leaves the profile as it was. */
    method PressNext(session: Practice.Session) returns (outcome: Practice.NextOutcome)
      requires Valid() && session.Valid() && session.isAnswered
      modifies this`stats, this`activeView, this`currentPracticeCategory
      modifies session`currentIndex, session`selectedOption, session`isAnswered, session`tutorMessage
      ensures Valid() && session.Valid()
      ensures outcome.Finished? <==> old(session.currentIndex) == |session.questions| - 1
      ensures outcome.Advanced? ==>
        && stats == old(stats) && activeView == old(activeView)
        && currentPracticeCategory == old(currentPracticeCategory)
      ensures outcome.Finished? ==>
        && outcome.total == |session.questions| > 0
        && outcome.score == session.score == Scoring.CountCorrect(session.questions, session.answers)
        && 0 <= outcome.score <= outcome.total
        && currentPracticeCategory == None
      ensures outcome.Advanced? ==>
        && session.currentIndex == old(session.currentIndex) + 1
        && session.selectedOption == None && !session.isAnswered && session.tutorMessage == None
      ensures outcome.Finished? ==>
        && session.currentIndex == old(session.currentIndex)
        && session.selectedOption == old(session.selectedOption)
        && session.isAnswered && session.tutorMessage == old(session.tutorMessage)
      ensures outcome.Finished? && old(currentPracticeCategory).Some? ==>
        && stats == ApplySessionResult(old(stats), old(currentPracticeCategory).value, outcome.score, outcome.total)
        && activeView == DashboardView
      ensures outcome.Finished? && old(currentPracticeCategory).None? ==>
        stats == old(stats) && activeView == old(activeView)
      // wired as the shell wires it, the session's own category is the one folded
      ensures outcome.Finished? && old(currentPracticeCategory) == Some(session.category) ==>
        stats == ApplySessionResult(old(stats), session.category, outcome.score, outcome.total)
    {
      outcome := session.HandleNext();
      if outcome.Finished? {
        HandleFinishPractice(outcome.score, outcome.total);
      }
    }
  }
}
