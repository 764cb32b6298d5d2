/** The seed catalogue the application ships with, as the rest of the model
    sees it: ids, categories, correct-answer flags and the one account. The
    display text enters through a `Prose` value, so facts about the
    catalogue's structure hold whatever the text is; the shipped text is
    `SeedData.Shipped`. */
module SeedCatalogue {
  import opened LessonTypes
  import opened ProjectTypes
  import opened ResourceTypes
  import opened UserTypes

  /** The one seed account; its creation time is read from the clock when
      the module loads, so it is a parameter here. */
  function Users(createdAt: string): seq<User> {
    [User("admin-1", "Admin", "admin@sustainability.edu", Admin, createdAt)]
  }

  datatype LessonProse = LessonProse(title: string, shortDescription: string, content: string)

  /** A question's wording and the captions of its options "a" to "d". */
  datatype QuestionProse = QuestionProse(question: string, a: string, b: string, c: string, d: string)

  datatype ProjectProse = ProjectProse(title: string, description: string, impact: string, estimatedDuration: string)

  datatype ResourceProse = ResourceProse(title: string, description: string, url: string, source: string)

  /** All display text of the catalogue, record by record. */
  datatype Prose = Prose(
    renewable: LessonProse, renewableQ1: QuestionProse, renewableQ2: QuestionProse,
    waste: LessonProse, wasteQ1: QuestionProse,
    lifestyle: LessonProse, lifestyleQ1: QuestionProse,
    compost: ProjectProse, audit: ProjectProse, plastic: ProjectProse,
    article: ResourceProse, checklist: ResourceProse, goal: ResourceProse)

  /** Every seed question offers options "a" to "d", of which the one named
      `correct` is flagged correct. */
  function Question(id: string, text: QuestionProse, correct: string): QuizQuestion {
    QuizQuestion(id, text.question, [
      QuizOption("a", text.a, correct == "a"),
      QuizOption("b", text.b, correct == "b"),
      QuizOption("c", text.c, correct == "c"),
      QuizOption("d", text.d, correct == "d")])
  }

  function LessonsWith(p: Prose): seq<Lesson> {
    [
      Lesson("lesson-renewable-1", p.renewable.title, RenewableEnergy, p.renewable.shortDescription, p.renewable.content,
             [Question("q1", p.renewableQ1, "c"), Question("q2", p.renewableQ2, "a")]),
      Lesson("lesson-waste-1", p.waste.title, WasteReduction, p.waste.shortDescription, p.waste.content,
             [Question("q1", p.wasteQ1, "b")]),
      Lesson("lesson-lifestyle-1", p.lifestyle.title, EcoFriendlyLifestyle, p.lifestyle.shortDescription, p.lifestyle.content,
             [Question("q1", p.lifestyleQ1, "b")])
    ]
  }

  function ProjectsWith(p: Prose): seq<Project> {
    [
      Project("project-compost", p.compost.title, p.compost.description, p.compost.impact, Intermediate, p.compost.estimatedDuration),
      Project("project-energy-audit", p.audit.title, p.audit.description, p.audit.impact, Beginner, p.audit.estimatedDuration),
      Project("project-plastic-free", p.plastic.title, p.plastic.description, p.plastic.impact, Beginner, p.plastic.estimatedDuration)
    ]
  }

  function ResourcesWith(p: Prose): seq<Resource> {
    [
      Resource("res-article-1", p.article.title, p.article.description, p.article.url, Article, p.article.source),
      Resource("res-pdf-1", p.checklist.title, p.checklist.description, p.checklist.url, Pdf, p.checklist.source),
      Resource("res-site-1", p.goal.title, p.goal.description, p.goal.url, Website, p.goal.source)
    ]
  }

  const LessonCategories: seq<LessonCategory> := [RenewableEnergy, WasteReduction, EcoFriendlyLifestyle]
}

/** The catalogue exactly as shipped. */
module SeedData {
  import opened LessonTypes
  import opened ProjectTypes
  import opened ResourceTypes
  import opened SeedCatalogue

  const RenewableProse: LessonProse := LessonProse(
    "Introduction to Renewable Energy",
    "Understand the basics of renewable energy sources and why they matter.",
    "Renewable energy comes from sources that are naturally replenished, such as sunlight, wind, rain, tides, and geothermal heat. Unlike fossil fuels, renewable sources do not run out on a human time scale and typically produce far fewer greenhouse gas emissions. In this lesson you will explore the main types of renewable energy and how they can replace fossil fuels in electricity, heating, and transportation.")

  const WasteProse: LessonProse := LessonProse(
    "Waste Reduction at Home",
    "Learn how to prevent waste, reuse materials, and recycle correctly.",
    "Reducing waste starts with refusing what you do not need, reusing items you already have, and recycling only when necessary. By analyzing your daily habits—such as food shopping, packaging use, and disposal practices—you can significantly cut the amount of waste that goes to landfill. Small actions like using reusable bags, bottles, and containers make a measurable difference over time.")

  const LifestyleProse: LessonProse := LessonProse(
    "Eco-Friendly Lifestyle Habits",
    "Discover simple daily habits that lower your environmental footprint.",
    "Living an eco-friendly lifestyle means making conscious decisions about what you buy, how you travel, and how you use energy and water. Examples include choosing plant-rich meals, walking or cycling for short trips, and turning off devices when they are not in use. Over time, consistent habits like these can significantly reduce your personal carbon footprint.")

  const RenewableQ1Prose: QuestionProse := QuestionProse(
    "Which of the following is a renewable energy source?",
    "Coal",
    "Natural gas",
    "Solar power",
    "Diesel")

  const RenewableQ2Prose: QuestionProse := QuestionProse(
    "Why are renewable energy sources important for sustainability?",
    "They reduce greenhouse gas emissions and air pollution.",
    "They are always cheaper than fossil fuels.",
    "They work only in warm climates.",
    "They do not require any infrastructure.")

  const WasteQ1Prose: QuestionProse := QuestionProse(
    "Which action follows the waste reduction hierarchy most closely?",
    "Buying bottled water and recycling the bottles",
    "Using a reusable water bottle every day",
    "Throwing plastic in the trash",
    "Burning waste at home")

  const LifestyleQ1Prose: QuestionProse := QuestionProse(
    "Which habit most directly lowers your carbon footprint?",
    "Driving alone for every short trip",
    "Taking a bike or walking when possible",
    "Leaving lights on all day",
    "Using disposable cups every day")

  const CompostProse: ProjectProse := ProjectProse(
    "Start a Home Compost System",
    "Design and set up a small compost system at home to turn food scraps and yard waste into nutrient-rich soil.",
    "Diverts organic waste from landfill, reduces methane emissions, and creates natural fertilizer for plants.",
    "2–4 weeks")

  const AuditProse: ProjectProse := ProjectProse(
    "Conduct a Home Energy Audit",
    "Inspect your home to find where energy is wasted and create a simple action plan to improve efficiency.",
    "Reduces electricity and heating demand, lowers energy bills, and cuts greenhouse gas emissions.",
    "1–2 weeks")

  const PlasticProse: ProjectProse := ProjectProse(
    "Plastic-Free Week Challenge",
    "Complete one week of daily life while avoiding single-use plastics wherever possible and documenting alternatives.",
    "Raises awareness about hidden plastics in everyday products and inspires long-term behavior change.",
    "1 week")

  const ArticleProse: ResourceProse := ResourceProse(
    "Beginner’s Guide to Sustainable Living",
    "A practical article that explains how to start living more sustainably today.",
    "https://www.un.org/en/climatechange/sustainable-lifestyle",
    "United Nations Climate Action")

  const ChecklistProse: ResourceProse := ResourceProse(
    "Household Energy Savings Checklist (PDF)",
    "A printable checklist of actions you can take to reduce energy use at home.",
    "https://example.org/energy-savings-checklist.pdf",
    "Local Sustainability Council")

  const GoalProse: ResourceProse := ResourceProse(
    "Sustainable Development Goal 12 – Responsible Consumption",
    "Overview of the United Nations goal focused on sustainable consumption and production.",
    "https://sdgs.un.org/goals/goal12",
    "United Nations")

  const Shipped: Prose := Prose(
    RenewableProse, RenewableQ1Prose, RenewableQ2Prose,
    WasteProse, WasteQ1Prose,
    LifestyleProse, LifestyleQ1Prose,
    CompostProse, AuditProse, PlasticProse,
    ArticleProse, ChecklistProse, GoalProse)

  const Lessons: seq<Lesson> := LessonsWith(Shipped)

  const Projects: seq<Project> := ProjectsWith(Shipped)

  const Resources: seq<Resource> := ResourcesWith(Shipped)
}

/** Facts about the seed catalogue that the rest of the model relies on. */
module SeedFacts {
  import opened Wrappers
  import opened LessonTypes
  import opened ProjectTypes
  import opened ResourceTypes
  import opened UserTypes
  import opened SeedCatalogue
  import LessonQuiz

  /** No two entries share an id. */
  predicate DistinctIds(ids: seq<string>) {
    forall i, j :: 0 <= i < j < |ids| ==> ids[i] != ids[j]
  }

  function LessonIds(lessons: seq<Lesson>): (r: seq<string>)
    ensures |r| == |lessons| && forall i :: 0 <= i < |lessons| ==> r[i] == lessons[i].id
  {
    seq(|lessons|, i requires 0 <= i < |lessons| => lessons[i].id)
  }

  function ProjectIds(projects: seq<Project>): (r: seq<string>)
    ensures |r| == |projects| && forall i :: 0 <= i < |projects| ==> r[i] == projects[i].id
  {
    seq(|projects|, i requires 0 <= i < |projects| => projects[i].id)
  }

  function ResourceIds(resources: seq<Resource>): (r: seq<string>)
    ensures |r| == |resources| && forall i :: 0 <= i < |resources| ==> r[i] == resources[i].id
  {
    seq(|resources|, i requires 0 <= i < |resources| => resources[i].id)
  }

  function QuestionIds(quiz: seq<QuizQuestion>): (r: seq<string>)
    ensures |r| == |quiz| && forall i :: 0 <= i < |quiz| ==> r[i] == quiz[i].id
  {
    seq(|quiz|, i requires 0 <= i < |quiz| => quiz[i].id)
  }

  /** How many options of a question are flagged correct. */
  function CorrectOptions(options: seq<QuizOption>): (n: nat)
    ensures n <= |options|
    ensures n == 0 <==> forall i :: 0 <= i < |options| ==> !options[i].isCorrect
    decreases |options|
  {
    if options == [] then 0
    else
      assert forall i :: 1 <= i < |options| ==> options[i] == options[1..][i - 1];
      (if options[0].isCorrect then 1 else 0) + CorrectOptions(options[1..])
  }

  /** A quiz the grading page can score: questions present, question ids
      distinct, exactly one correct option per question. */
  predicate WellFormedQuiz(quiz: seq<QuizQuestion>) {
    && |quiz| > 0
    && DistinctIds(QuestionIds(quiz))
    && forall i :: 0 <= i < |quiz| ==> CorrectOptions(quiz[i].options) == 1
  }

  function Flag(b: bool): nat {
    if b then 1 else 0
  }

  lemma {:induction false} CountFour(opts: seq<QuizOption>)
    requires |opts| == 4
    ensures CorrectOptions(opts) == Flag(opts[0].isCorrect) + Flag(opts[1].isCorrect) + Flag(opts[2].isCorrect) + Flag(opts[3].isCorrect)
  {
    var t1 := opts[1..];
    var t2 := t1[1..];
    var t3 := t2[1..];
    assert t3[1..] == [];
    assert CorrectOptions(t3) == Flag(t3[0].isCorrect);
    assert CorrectOptions(t2) == Flag(t2[0].isCorrect) + CorrectOptions(t3);
    assert CorrectOptions(t1) == Flag(t1[0].isCorrect) + CorrectOptions(t2);
  }

  /** A seed question naming one of its four options as correct has exactly
      that option flagged, and grading takes it as the right answer. */
  lemma QuestionHasOneCorrect(id: string, text: QuestionProse, correct: string)
    requires correct == "a" || correct == "b" || correct == "c" || correct == "d"
    ensures CorrectOptions(Question(id, text, correct).options) == 1
    ensures LessonQuiz.CorrectOption(Question(id, text, correct).options).Some?
    ensures LessonQuiz.CorrectOption(Question(id, text, correct).options).value.id == correct
  {
    var opts := Question(id, text, correct).options;
    CountFour(opts);
    var k := if correct == "a" then 0 else if correct == "b" then 1 else if correct == "c" then 2 else 3;
    assert opts[k].id == correct && opts[k].isCorrect;
    assert forall j :: 0 <= j < 4 && j != k ==> !opts[j].isCorrect;
  }

  lemma SingleQuestionQuiz(id: string, text: QuestionProse, correct: string)
    requires correct == "a" || correct == "b" || correct == "c" || correct == "d"
    ensures WellFormedQuiz([Question(id, text, correct)])
  {
    QuestionHasOneCorrect(id, text, correct);
  }

  lemma TwoQuestionQuiz(id1: string, text1: QuestionProse, correct1: string,
                        id2: string, text2: QuestionProse, correct2: string)
    requires id1 != id2
    requires correct1 == "a" || correct1 == "b" || correct1 == "c" || correct1 == "d"
    requires correct2 == "a" || correct2 == "b" || correct2 == "c" || correct2 == "d"
    ensures WellFormedQuiz([Question(id1, text1, correct1), Question(id2, text2, correct2)])
  {
    QuestionHasOneCorrect(id1, text1, correct1);
    QuestionHasOneCorrect(id2, text2, correct2);
  }

  /** Every seed quiz is well formed, so grading a seed lesson never divides
      by zero and every question has one right answer. */
  lemma SeedQuizzesWellFormed(p: Prose)
    ensures forall i :: 0 <= i < |LessonsWith(p)| ==> WellFormedQuiz(LessonsWith(p)[i].quiz)
  {
    var ls := LessonsWith(p);
    TwoQuestionQuiz("q1", p.renewableQ1, "c", "q2", p.renewableQ2, "a");
    SingleQuestionQuiz("q1", p.wasteQ1, "b");
    SingleQuestionQuiz("q1", p.lifestyleQ1, "b");
  }

  /** Lesson, project and resource ids are each unique in their catalogue. */
  lemma SeedIdsDistinct(p: Prose)
    ensures DistinctIds(LessonIds(LessonsWith(p)))
    ensures DistinctIds(ProjectIds(ProjectsWith(p)))
    ensures DistinctIds(ResourceIds(ResourcesWith(p)))
  {
    LessonIdsDistinct(p);
    ProjectIdsDistinct(p);
    ResourceIdsDistinct(p);
  }

  lemma LessonIdsDistinct(p: Prose)
    ensures DistinctIds(LessonIds(LessonsWith(p)))
  {
    assert LessonIds(LessonsWith(p)) == ["lesson-renewable-1", "lesson-waste-1", "lesson-lifestyle-1"];
  }

  lemma ProjectIdsDistinct(p: Prose)
    ensures DistinctIds(ProjectIds(ProjectsWith(p)))
  {
    assert ProjectIds(ProjectsWith(p)) == ["project-compost", "project-energy-audit", "project-plastic-free"];
  }

  lemma ResourceIdsDistinct(p: Prose)
    ensures DistinctIds(ResourceIds(ResourcesWith(p)))
  {
    assert ResourceIds(ResourcesWith(p)) == ["res-article-1", "res-pdf-1", "res-site-1"];
  }

  /** Every lesson's category is one the category selector lists, and the
      selector lists every category. */
  lemma SeedCategoriesListed(p: Prose)
    ensures forall i :: 0 <= i < |LessonsWith(p)| ==> LessonsWith(p)[i].category in LessonCategories
    ensures forall c: LessonCategory :: c in LessonCategories
  {
    var ls := LessonsWith(p);
    assert ls[0].category == LessonCategories[0];
    assert ls[1].category == LessonCategories[1];
    assert ls[2].category == LessonCategories[2];
    forall c: LessonCategory
      ensures c in LessonCategories
    {
      var k := match c case RenewableEnergy => 0 case WasteReduction => 1 case EcoFriendlyLifestyle => 2;
      assert LessonCategories[k] == c;
    }
  }

  /** The seed lessons in order: their ids, categories and quiz lengths. */
  lemma SeedLessonsShape(p: Prose)
    ensures LessonIds(LessonsWith(p)) == ["lesson-renewable-1", "lesson-waste-1", "lesson-lifestyle-1"]
    ensures LessonsWith(p)[0].category == RenewableEnergy && |LessonsWith(p)[0].quiz| == 2
    ensures LessonsWith(p)[1].category == WasteReduction && |LessonsWith(p)[1].quiz| == 1
    ensures LessonsWith(p)[2].category == EcoFriendlyLifestyle && |LessonsWith(p)[2].quiz| == 1
  {
  }

  /** The seed projects in order: their ids and difficulties. */
  lemma SeedProjectsShape(p: Prose)
    ensures ProjectIds(ProjectsWith(p)) == ["project-compost", "project-energy-audit", "project-plastic-free"]
    ensures ProjectsWith(p)[0].difficulty == Intermediate
    ensures ProjectsWith(p)[1].difficulty == Beginner && ProjectsWith(p)[2].difficulty == Beginner
  {
  }

  /** The seed resources in order: their ids and kinds. */
  lemma SeedResourcesShape(p: Prose)
    ensures ResourceIds(ResourcesWith(p)) == ["res-article-1", "res-pdf-1", "res-site-1"]
    ensures ResourcesWith(p)[0].category == Article
    ensures ResourcesWith(p)[1].category == Pdf && ResourcesWith(p)[2].category == Website
  {
  }

  /** There is exactly one seed account, and it is the administrator. */
  lemma SeedAdminOnly(createdAt: string)
    ensures |Users(createdAt)| == 1
    ensures Users(createdAt)[0].email == "admin@sustainability.edu" && Users(createdAt)[0].role == Admin
  {
  }
}
