/** Lesson catalogue records and the per-lesson progress record. */
module LessonTypes {

  datatype LessonCategory = RenewableEnergy | WasteReduction | EcoFriendlyLifestyle {
    /** The category as the catalogue and the category selector spell it. */
    function Name(): string {
      match this
      case RenewableEnergy => "Renewable Energy"
      case WasteReduction => "Waste Reduction"
      case EcoFriendlyLifestyle => "Eco-Friendly Lifestyle"
    }
  }

  datatype QuizOption = QuizOption(id: string, caption: string, isCorrect: bool)

  datatype QuizQuestion = QuizQuestion(id: string, question: string, options: seq<QuizOption>)

  datatype Lesson = Lesson(
    id: string,
    title: string,
    category: LessonCategory,
    shortDescription: string,
    content: string,
    quiz: seq<QuizQuestion>)

  /** One stored quiz outcome; scores are whatever number the caller passed. */
  datatype LessonProgress = LessonProgress(lessonId: string, completed: bool, score: int)
}

/** Project catalogue records and the per-project participation record. */
module ProjectTypes {
  import opened Wrappers

  /** `not-joined` is only ever derived for a project without a record; the
      store never writes it. */
  datatype ProjectStatus = NotJoined | InProgress | Completed

  datatype Difficulty = Beginner | Intermediate | Advanced

  datatype Project = Project(
    id: string,
    title: string,
    description: string,
    impact: string,
    difficulty: Difficulty,
    estimatedDuration: string)

  /** Timestamps are ISO-8601 strings supplied by the caller. */
  datatype ProjectParticipation = ProjectParticipation(
    projectId: string,
    status: ProjectStatus,
    submittedProof: Option<string>,
    joinedAt: string,
    completedAt: Option<string>)
}

/** Resource catalogue records. */
module ResourceTypes {

  datatype ResourceCategory = Article | Pdf | Website

  datatype Resource = Resource(
    id: string,
    title: string,
    description: string,
    url: string,
    category: ResourceCategory,
    source: string)
}

/** Accounts: seed users and the resident (signed-in) user. */
module UserTypes {

  datatype UserRole = Student | Admin

  datatype User = User(id: string, name: string, email: string, role: UserRole, createdAt: string)

  datatype AuthUser = AuthUser(
    id: string,
    name: string,
    email: string,
    role: UserRole,
    createdAt: string,
    token: string)
}
