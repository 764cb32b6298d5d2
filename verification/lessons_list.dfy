/** The lesson library page: a category choice held as the selector's text
    ("All" or a category name) combined with the catalogue search over title
    and short description, and the per-lesson "Completed" badge. */
module LessonsList {
  import opened Text
  import opened Search
  import opened Sequences
  import opened LessonTypes
  import LessonProgressStore

  /** The selector value that imposes no category restriction. */
  const AllCategories: string := "All"

  predicate MatchesCategory(lesson: Lesson, category: string) {
    category == AllCategories || lesson.category.Name() == category
  }

  /** The searched fields; the content and the category text are not searched. */
  function SearchedFields(lesson: Lesson): seq<string> {
    [lesson.title, lesson.shortDescription]
  }

  predicate Keep(lesson: Lesson, search: string, category: string) {
    MatchesCategory(lesson, category) && FieldsMatch(SearchedFields(lesson), SearchKey(search))
  }

  /** `filtered`: the lessons passing both tests, in catalogue order. */
  function FilteredLessons(lessons: seq<Lesson>, search: string, category: string): (r: seq<Lesson>)
    ensures IsSubsequence(r, lessons)
    ensures forall x :: x in r <==> x in lessons && Keep(x, search, category)
    ensures forall x :: multiset(r)[x] == if Keep(x, search, category) then multiset(lessons)[x] else 0
    decreases |lessons|
  {
    if lessons == [] then []
    else
      var rest := FilteredLessons(lessons[1..], search, category);
      assert lessons == [lessons[0]] + lessons[1..];
      if Keep(lessons[0], search, category) then [lessons[0]] + rest else rest
  }

  /** What passing the filters means, field by field. */
  lemma KeepIff(lesson: Lesson, search: string, category: string)
    ensures Keep(lesson, search, category) <==>
              && (category == "All" || lesson.category.Name() == category)
              && (|| SearchKey(search) == []
                  || Contains(ToLower(lesson.title), SearchKey(search))
                  || Contains(ToLower(lesson.shortDescription), SearchKey(search)))
  {
    var fields := SearchedFields(lesson);
    FieldsMatchIff(fields, SearchKey(search));
    if exists k :: 0 <= k < |fields| && Contains(ToLower(fields[k]), SearchKey(search)) {
      var k :| 0 <= k < |fields| && Contains(ToLower(fields[k]), SearchKey(search));
      assert k == 0 || k == 1;
    }
    assert fields[0] == lesson.title && fields[1] == lesson.shortDescription;
  }

  /** Only the title and the short description are searched. */
  lemma ContentNotSearched(lesson: Lesson, search: string, category: string, content: string)
    ensures Keep(lesson.(content := content), search, category) == Keep(lesson, search, category)
  {
    assert SearchedFields(lesson.(content := content)) == SearchedFields(lesson);
  }

  /** With "All" and a blank search term the whole library is listed. */
  lemma {:induction false} UnfilteredKeepsAll(lessons: seq<Lesson>, search: string)
    requires forall k :: 0 <= k < |search| ==> IsSpace(search[k])
    ensures FilteredLessons(lessons, search, AllCategories) == lessons
    decreases |lessons|
  {
    if lessons != [] {
      assert SearchKey(search) == [];
      UnfilteredKeepsAll(lessons[1..], search);
    }
  }

  /** A category name other than "All" lists only lessons of that category. */
  lemma OnlyCategoryListed(lessons: seq<Lesson>, search: string, category: string)
    requires category != AllCategories
    ensures forall x :: x in FilteredLessons(lessons, search, category) ==> x.category.Name() == category
  {
  }

  /** The badge shows "Completed" when the lesson's progress record is completed. */
  predicate ShowsCompletedBadge(progress: seq<LessonProgress>, lessonId: string) {
    LessonProgressStore.IsLessonCompleted(progress, lessonId)
  }

  /** With unique lesson ids, the badge shows exactly when a completed record
      for the lesson exists. */
  lemma CompletedBadgeIff(progress: seq<LessonProgress>, lessonId: string)
    requires LessonProgressStore.UniqueLessonIds(progress)
    ensures ShowsCompletedBadge(progress, lessonId) <==>
              exists i :: 0 <= i < |progress| && progress[i].lessonId == lessonId && progress[i].completed
  {
    if exists i :: 0 <= i < |progress| && progress[i].lessonId == lessonId && progress[i].completed {
      var i :| 0 <= i < |progress| && progress[i].lessonId == lessonId && progress[i].completed;
      LessonProgressStore.GetUnique(progress, lessonId, progress[i]);
    }
  }
}
