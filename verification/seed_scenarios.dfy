/** Worked examples on the seed catalogue, joining the store, the grading,
    the search, sign-in and routing. */
module SeedScenarios {
  import opened Wrappers
  import opened LessonTypes
  import opened UserTypes
  import opened SeedCatalogue
  import SeedFacts
  import Text
  import Search
  import Auth
  import Router
  import LessonQuiz
  import LessonProgressStore
  import ResourceFilter

  lemma AdminEmailMatches()
    ensures Auth.SameEmail("admin@sustainability.edu", "Admin@Sustainability.EDU")
  {
    var a := Text.ToLower("admin@sustainability.edu");
    var b := Text.ToLower("Admin@Sustainability.EDU");
    assert a == b;
  }

  /** Signing in as the seed administrator, with the email in any case and
      any password, gives the seed admin account. */
  lemma AdminSignInScenario(createdAt: string, password: string, token: string)
    ensures var step := Auth.Login(Users(createdAt), None, "Admin@Sustainability.EDU", password, token);
            && step.error.None?
            && step.user.Some? && step.user.value.role == Admin && step.user.value.id == "admin-1"
  {
    AdminEmailMatches();
  }

  /** The seed administrator, once signed in, is sent from the student
      dashboard on to /admin. */
  lemma AdminSignInLandsOnAdmin(createdAt: string, password: string, token: string)
    ensures var step := Auth.Login(Users(createdAt), None, "Admin@Sustainability.EDU", password, token);
            step.user.Some? && Router.Navigate("/dashboard", Some(step.user.value.role)) == Router.Moved("/admin")
  {
    AdminSignInScenario(createdAt, password, token);
    Router.AdminLeavesDashboard();
  }

  /** The first seed lesson, as built from any text. */
  lemma RenewableLessonShape(p: Prose)
    ensures LessonsWith(p)[0].id == "lesson-renewable-1"
    ensures LessonsWith(p)[0].quiz == [Question("q1", p.renewableQ1, "c"), Question("q2", p.renewableQ2, "a")]
  {
  }

  /** Selecting the option a seed question names as correct answers it
      correctly. */
  lemma ChosenCorrect(id: string, text: QuestionProse, correct: string, answers: LessonQuiz.Answers)
    requires correct == "a" || correct == "b" || correct == "c" || correct == "d"
    requires id in answers && answers[id] == correct
    ensures LessonQuiz.AnsweredCorrectly(Question(id, text, correct), answers)
  {
    SeedFacts.QuestionHasOneCorrect(id, text, correct);
  }

  /** Choosing option c for q1 and option a for q2 answers the first seed
      lesson's quiz fully correctly. */
  lemma RenewableQuizPerfect(p: Prose)
    ensures LessonQuiz.QuizScore([Question("q1", p.renewableQ1, "c"), Question("q2", p.renewableQ2, "a")],
                                 map["q1" := "c", "q2" := "a"]) == 100
  {
    var quiz := [Question("q1", p.renewableQ1, "c"), Question("q2", p.renewableQ2, "a")];
    var answers := map["q1" := "c", "q2" := "a"];
    assert answers["q1"] == "c" && answers["q2"] == "a";
    ChosenCorrect("q1", p.renewableQ1, "c", answers);
    ChosenCorrect("q2", p.renewableQ2, "a", answers);
    LessonQuiz.AllCorrectIsPerfect(quiz, answers);
  }

  /** Answering the first seed lesson's quiz correctly scores 100, shows the
      perfect-score message and records the lesson as completed with 100. */
  lemma SeedPerfectQuiz(p: Prose, progress: seq<LessonProgress>)
    ensures var lesson := LessonsWith(p)[0];
            var outcome := LessonQuiz.SubmitQuiz(lesson, map["q1" := "c", "q2" := "a"], progress);
            && outcome.score == 100
            && outcome.feedback == LessonQuiz.Perfect
            && LessonProgressStore.GetLessonProgress(outcome.progress, "lesson-renewable-1")
               == Some(LessonProgress("lesson-renewable-1", true, 100))
  {
    RenewableLessonShape(p);
    RenewableQuizPerfect(p);
  }

  lemma EnergyKey()
    ensures Search.SearchKey(" Energy ") == "energy"
  {
    var padded := " Energy ";
    var rest := padded[1..];
    assert rest == "Energy ";
    assert !Text.IsSpace(rest[0]);
    assert Text.LeadingSpaces(padded) == 1;
    assert rest[..6] == "Energy";
    assert !Text.IsSpace(rest[5]);
    assert Text.TrailingSpaces(rest) == 1;
    assert Text.Trim(padded) == "Energy";
    EnergyLower();
  }

  lemma EnergyLower()
    ensures Text.ToLower("Energy") == "energy"
  {
    var lower := Text.ToLower("Energy");
    assert lower[0] == 'e';
  }

  /** A title with "Energy" in it mentions energy in any case. */
  lemma MentionsEnergy(before: string, after: string)
    ensures Text.Contains(Text.ToLower(before + "Energy" + after), "energy")
  {
    var title := before + "Energy" + after;
    var i := |before|;
    assert title[i..][..6] == "Energy";
    Search.LowerDrop(title, i);
    Search.LowerTake(title[i..], 6);
    EnergyLower();
    var lower := Text.ToLower(title);
    assert lower[i..][..6] == "energy";
    Text.OccurrenceContains(lower, "energy", i);
  }

  /** Searching the resources for " Energy " (padded and capitalised) with
      every category lists the energy checklist, whose shipped title is
      "Household Energy Savings Checklist (PDF)". */
  lemma SeedEnergySearch(p: Prose)
    requires p.checklist.title == "Household " + "Energy" + " Savings Checklist (PDF)"
    ensures var resources := ResourcesWith(p);
            resources[1] in ResourceFilter.FilteredResources(resources, ResourceFilter.Filters(" Energy ", ResourceFilter.All))
  {
    EnergyKey();
    MentionsEnergy("Household ", " Savings Checklist (PDF)");
    ResourceFilter.KeepIff(ResourcesWith(p)[1], ResourceFilter.Filters(" Energy ", ResourceFilter.All));
  }
}
