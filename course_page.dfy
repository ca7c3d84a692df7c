/** The course page: lesson completion and progress, the lesson cursor,
    the bounded retry of the course load with its manual reset and loading
    watchdog, lesson completion, and the dashboard route. */
module CoursePage {
  import opened Common

  datatype Course = Course(id: string, title: string, instructorName: string)
  datatype Lesson = Lesson(id: string, title: string, durationMinutes: int, orderIndex: int)
  datatype LessonProgress = LessonProgress(lessonId: string, completed: bool, watchTimeMinutes: int)

  const MaxRetryAttempts: nat := 3
  const CourseIdRequiredMessage := "Course ID is required"
  const CourseNotFoundMessage := "Course not found"
  const FailedToLoadMessage := "Failed to load course data. Please try refreshing the page."
  const TimeoutMessage := "Loading is taking longer than expected. Please try refreshing the page."
  const LessonCompletedToast := "Lesson completed!"
  const MarkCompleteFailedToast := "Failed to mark lesson as complete"

  /** `isLessonCompleted`: some progress row for the lesson is completed. */
  function IsLessonCompleted(progress: seq<LessonProgress>, lessonId: string): (b: bool)
    ensures b <==> exists i :: 0 <= i < |progress| && progress[i].lessonId == lessonId && progress[i].completed
    decreases |progress|
  {
    if progress == [] then false
    else if progress[0].lessonId == lessonId && progress[0].completed then true
    else
      var rest := IsLessonCompleted(progress[1..], lessonId);
      assert rest ==> exists i :: 1 <= i < |progress| && progress[1..][i - 1] == progress[i]
                               && progress[i].lessonId == lessonId && progress[i].completed;
      rest
  }

  /** The positions of the completed progress rows. */
  ghost function CompletedRows(progress: seq<LessonProgress>): set<int> {
    set i | 0 <= i < |progress| && progress[i].completed
  }

  /** Appending a row adds its position to the completed ones exactly when
      it is completed. */
  lemma CompletedRowsLast(progress: seq<LessonProgress>)
    requires progress != []
    ensures |CompletedRows(progress)| ==
            |CompletedRows(progress[..|progress| - 1])| + (if progress[|progress| - 1].completed then 1 else 0)
  {
    var init := progress[..|progress| - 1];
    var last := |progress| - 1;
    assert forall i :: 0 <= i < last ==> progress[i] == init[i];
    if progress[last].completed {
      assert CompletedRows(progress) == CompletedRows(init) + {last};
      assert last !in CompletedRows(init);
    } else {
      assert CompletedRows(progress) == CompletedRows(init);
    }
  }

  /** `getCompletedLessonsCount`: the number of completed progress rows. */
  function CompletedCount(progress: seq<LessonProgress>): (n: nat)
    ensures n == |CompletedRows(progress)|
    ensures n <= |progress|
    ensures n == 0 <==> forall i :: 0 <= i < |progress| ==> !progress[i].completed
    ensures n == |progress| <==> forall i :: 0 <= i < |progress| ==> progress[i].completed
    decreases |progress|
  {
    if progress == [] then 0
    else
      var init := progress[..|progress| - 1];
      var last := |progress| - 1;
      var rest := CompletedCount(init);
      assert forall i :: 0 <= i < last ==> progress[i] == init[i];
      CompletedRowsLast(progress);
      rest + (if progress[last].completed then 1 else 0)
  }

  /** `getCourseProgress`: 0 without lessons, otherwise 100 * completed /
      lessons rounded to the nearest integer, halves rounding up. */
  function CourseProgress(completed: nat, lessonCount: nat): (p: nat)
    ensures lessonCount == 0 ==> p == 0
    ensures lessonCount > 0 ==>
              2 * p * lessonCount - lessonCount <= 200 * completed < 2 * p * lessonCount + lessonCount
    ensures completed <= lessonCount ==> p <= 100
  {
    if lessonCount == 0 then 0
    else
      var d := 2 * lessonCount;
      var x := 200 * completed + lessonCount;
      var p := x / d;
      QuotientBounds(x, d);
      assert 2 * p * lessonCount == d * p;
      assert completed <= lessonCount ==> p <= 100 by {
        if completed <= lessonCount && p > 100 {
          MulAtLeast(d, p, 101);
        }
      }
      p
  }

  /** The quotient of Euclidean division brackets the dividend. */
  lemma QuotientBounds(x: nat, d: nat)
    requires d > 0
    ensures d * (x / d) <= x < d * (x / d) + d
  {
    assert x == d * (x / d) + x % d;
  }

  lemma MulAtLeast(d: nat, p: nat, q: nat)
    requires p >= q
    ensures d * p >= d * q
  {
    assert d * p == d * q + d * (p - q);
  }

  /** `getDashboardUrl`. */
  function DashboardUrl(role: Option<AppRole>): (url: string)
    ensures url == "/admin-dashboard" <==> role == Some(Admin)
    ensures url == "/teacher-dashboard" <==> role == Some(Teacher)
    ensures url == "/student-dashboard" <==> role != Some(Admin) && role != Some(Teacher)
  {
    if role == Some(Admin) then "/admin-dashboard"
    else if role == Some(Teacher) then "/teacher-dashboard"
    else "/student-dashboard"
  }

  datatype CourseLoad = Loaded(course: Course, lessons: seq<Lesson>) | LoadFailed(message: string)

  /** `fetchCourseData`: a missing course id, a failed course or lessons
      query, or a missing course row is an error; otherwise the course and
      its lessons (null read as none). */
  function LoadCourse(courseId: Option<string>, courseResult: QueryResult<Option<Course>>,
                      lessonsResult: QueryResult<Option<seq<Lesson>>>): (r: CourseLoad)
    ensures r.Loaded? <==> Present(courseId) && courseResult.QueryOk? && courseResult.data.Some? && lessonsResult.QueryOk?
    ensures r.Loaded? ==> r.course == courseResult.data.value && r.lessons == lessonsResult.data.GetOr([])
    ensures !Present(courseId) ==> r == LoadFailed(CourseIdRequiredMessage)
    ensures Present(courseId) && courseResult.QueryOk? && courseResult.data.None? && lessonsResult.QueryOk? ==>
              r == LoadFailed(CourseNotFoundMessage)
  {
    if !Present(courseId) then LoadFailed(CourseIdRequiredMessage)
    else if courseResult.QueryError? then LoadFailed(courseResult.message)
    else if lessonsResult.QueryError? then LoadFailed(lessonsResult.message)
    else if courseResult.data.None? then LoadFailed(CourseNotFoundMessage)
    else Loaded(courseResult.data.value, lessonsResult.data.GetOr([]))
  }

  /** `fetchLessonProgress`: skipped without a user or course id; a failed
      query keeps the current rows (it never fails the load). */
  function ProgressAfterFetch(signedIn: bool, courseId: Option<string>, current: seq<LessonProgress>,
                              result: QueryResult<Option<seq<LessonProgress>>>): (p: seq<LessonProgress>)
    ensures !signedIn || !Present(courseId) || result.QueryError? ==> p == current
    ensures signedIn && Present(courseId) && result.QueryOk? ==> p == result.data.GetOr([])
  {
    if signedIn && Present(courseId) && result.QueryOk? then result.data.GetOr([]) else current
  }

  class CoursePageView {
    const courseId: Option<string>
    const signedIn: bool
    var course: Option<Course>
    var lessons: seq<Lesson>
    var selectedLesson: nat
    var lessonProgress: seq<LessonProgress>
    var courseLoading: bool
    var error: Option<string>
    var retryCount: nat
    var toasts: seq<string>

    ghost predicate Valid()
      reads this
    {
      retryCount <= MaxRetryAttempts
    }

    /** The cursor points at a lesson, or is 0 when there are none. */
    predicate CursorInRange()
      reads this
    {
      selectedLesson == 0 || selectedLesson < |lessons|
    }

    constructor (courseId: Option<string>, signedIn: bool)
      ensures Valid()
      ensures this.courseId == courseId && this.signedIn == signedIn
      ensures course == None && lessons == [] && selectedLesson == 0 && lessonProgress == []
      ensures courseLoading && error == None && retryCount == 0 && toasts == []
    {
      this.courseId, this.signedIn := courseId, signedIn;
      course, lessons, selectedLesson, lessonProgress := None, [], 0, [];
      courseLoading, error, retryCount, toasts := true, None, 0, [];
    }

    /** The progress bar value: the completed progress rows as a
        percentage of the lessons, rounded half up. */
    function Progress(): (p: nat)
      reads this
      ensures |lessons| == 0 ==> p == 0
      ensures |lessons| > 0 ==>
                2 * p * |lessons| - |lessons| <= 200 * |CompletedRows(lessonProgress)| < 2 * p * |lessons| + |lessons|
    {
      CourseProgress(CompletedCount(lessonProgress), |lessons|)
    }

    /** `lessons[selectedLesson]`, which is undefined past the end. */
    function CurrentLesson(): (l: Option<Lesson>)
      reads this
      ensures l.Some? <==> selectedLesson < |lessons|
      ensures l.Some? ==> l.value == lessons[selectedLesson]
      ensures CursorInRange() && lessons != [] ==> l.Some?
    {
      if selectedLesson < |lessons| then Some(lessons[selectedLesson]) else None
    }

    /** One run of `fetchCourseDataWithRetry`, where `seenRetryCount` is the
        counter value the running closure captured. */
    method Attempt(courseResult: QueryResult<Option<Course>>, lessonsResult: QueryResult<Option<seq<Lesson>>>,
                   progressResult: QueryResult<Option<seq<LessonProgress>>>, seenRetryCount: nat)
      returns (rerun: bool)
      requires Valid()
      requires seenRetryCount < MaxRetryAttempts ==> retryCount < MaxRetryAttempts
      modifies this
      ensures Valid()
      ensures lessonProgress == ProgressAfterFetch(signedIn, courseId, old(lessonProgress), progressResult)
      ensures selectedLesson == old(selectedLesson) && toasts == old(toasts)
      ensures var load := LoadCourse(courseId, courseResult, lessonsResult);
              load.Loaded? ==>
                course == Some(load.course) && lessons == load.lessons && !courseLoading &&
                error == None && retryCount == old(retryCount) && !rerun
      ensures var load := LoadCourse(courseId, courseResult, lessonsResult);
              load.LoadFailed? && seenRetryCount < MaxRetryAttempts ==>
                course == old(course) && lessons == old(lessons) && courseLoading &&
                error == None && retryCount == old(retryCount) + 1 && rerun
      ensures var load := LoadCourse(courseId, courseResult, lessonsResult);
              load.LoadFailed? && seenRetryCount >= MaxRetryAttempts ==>
                course == old(course) && lessons == old(lessons) && !courseLoading &&
                error == Some(FailedToLoadMessage) && retryCount == old(retryCount) && !rerun
    {
      courseLoading := true;
      error := None;
      lessonProgress := ProgressAfterFetch(signedIn, courseId, lessonProgress, progressResult);
      var load := LoadCourse(courseId, courseResult, lessonsResult);
      if load.Loaded? {
        course := Some(load.course);
        lessons := load.lessons;
        courseLoading := false;
        rerun := false;
      } else if seenRetryCount < MaxRetryAttempts {
        retryCount := retryCount + 1;
        rerun := true;
      } else {
        error := Some(FailedToLoadMessage);
        courseLoading := false;
        rerun := false;
      }
    }

    /** `fetchCourseDataWithRetry` as the effect runs it (its closure sees
        the current counter). A failure below the maximum bumps the counter,
        which makes the effect run again (`rerun`); at the maximum the
        terminal error is shown and loading ends. */
    method FetchCourseDataWithRetry(courseResult: QueryResult<Option<Course>>,
                                    lessonsResult: QueryResult<Option<seq<Lesson>>>,
                                    progressResult: QueryResult<Option<seq<LessonProgress>>>)
      returns (rerun: bool)
      requires Valid()
      modifies this
      ensures Valid()
      ensures lessonProgress == ProgressAfterFetch(signedIn, courseId, old(lessonProgress), progressResult)
      ensures selectedLesson == old(selectedLesson) && toasts == old(toasts)
      ensures var load := LoadCourse(courseId, courseResult, lessonsResult);
              load.Loaded? ==>
                course == Some(load.course) && lessons == load.lessons && !courseLoading &&
                error == None && retryCount == old(retryCount) && !rerun
      ensures var load := LoadCourse(courseId, courseResult, lessonsResult);
              load.LoadFailed? && old(retryCount) < MaxRetryAttempts ==>
                course == old(course) && lessons == old(lessons) && courseLoading &&
                error == None && retryCount == old(retryCount) + 1 && rerun
      ensures var load := LoadCourse(courseId, courseResult, lessonsResult);
              load.LoadFailed? && old(retryCount) == MaxRetryAttempts ==>
                course == old(course) && lessons == old(lessons) && !courseLoading &&
                error == Some(FailedToLoadMessage) && retryCount == MaxRetryAttempts && !rerun
    {
      rerun := Attempt(courseResult, lessonsResult, progressResult, retryCount);
    }

    /** `handleRetry`: the counter goes back to 0 and the error is cleared,
        then the load runs once from the handler, whose closure still holds
        the counter from before the reset. When the counter value changed,
        the effect will also run the load again (`rerun`). */
    method HandleRetry(courseResult: QueryResult<Option<Course>>,
                       lessonsResult: QueryResult<Option<seq<Lesson>>>,
                       progressResult: QueryResult<Option<seq<LessonProgress>>>)
      returns (rerun: bool)
      requires Valid()
      modifies this
      ensures Valid()
      ensures lessonProgress == ProgressAfterFetch(signedIn, courseId, old(lessonProgress), progressResult)
      ensures selectedLesson == old(selectedLesson) && toasts == old(toasts)
      ensures var load := LoadCourse(courseId, courseResult, lessonsResult);
              load.Loaded? ==>
                course == Some(load.course) && lessons == load.lessons && !courseLoading &&
                error == None && retryCount == 0
      ensures var load := LoadCourse(courseId, courseResult, lessonsResult);
              load.LoadFailed? && old(retryCount) < MaxRetryAttempts ==>
                course == old(course) && lessons == old(lessons) &&
                courseLoading && error == None && retryCount == 1
      ensures var load := LoadCourse(courseId, courseResult, lessonsResult);
              load.LoadFailed? && old(retryCount) == MaxRetryAttempts ==>
                course == old(course) && lessons == old(lessons) &&
                !courseLoading && error == Some(FailedToLoadMessage) && retryCount == 0
      ensures rerun <==> old(retryCount) != 0 || retryCount != 0
    {
      var seen := retryCount;
      retryCount := 0;
      error := None;
      var bumped := Attempt(courseResult, lessonsResult, progressResult, seen);
      rerun := seen != 0 || bumped;
    }

    /** The loading watchdog firing: only a load still in progress is turned
        into the timeout error. */
    method TimeoutFired()
      modifies this
      ensures old(courseLoading) ==> !courseLoading && error == Some(TimeoutMessage)
      ensures !old(courseLoading) ==> error == old(error) && !courseLoading
      ensures course == old(course) && lessons == old(lessons) && retryCount == old(retryCount)
      ensures lessonProgress == old(lessonProgress) && selectedLesson == old(selectedLesson)
      ensures toasts == old(toasts)
    {
      if courseLoading {
        error := Some(TimeoutMessage);
        courseLoading := false;
      }
    }

    /** `markLessonComplete`: nothing happens (and nothing is written)
        without a user or course id, or when the lesson is already complete.
        A failed write only toasts. After a successful write the progress is
        re-fetched, a toast is shown and the cursor advances by one unless it
        is on the last lesson. */
    method MarkLessonComplete(lessonId: string, upsert: WriteResult,
                              progressResult: QueryResult<Option<seq<LessonProgress>>>)
      returns (wrote: bool)
      modifies this
      ensures wrote <==> signedIn && Present(courseId) && !IsLessonCompleted(old(lessonProgress), lessonId)
      ensures !wrote ==> unchanged(this)
      ensures wrote && !upsert.WriteOk? ==>
                lessonProgress == old(lessonProgress) && selectedLesson == old(selectedLesson) &&
                toasts == old(toasts) + [MarkCompleteFailedToast]
      ensures wrote && upsert.WriteOk? ==>
                lessonProgress == ProgressAfterFetch(signedIn, courseId, old(lessonProgress), progressResult) &&
                toasts == old(toasts) + [LessonCompletedToast] &&
                selectedLesson == (if old(selectedLesson) < |lessons| - 1 then old(selectedLesson) + 1
                                   else old(selectedLesson))
      ensures old(CursorInRange()) ==> CursorInRange()
      ensures course == old(course) && lessons == old(lessons) && courseLoading == old(courseLoading)
      ensures error == old(error) && retryCount == old(retryCount)
    {
      if !signedIn || !Present(courseId) || IsLessonCompleted(lessonProgress, lessonId) {
        return false;
      }
      wrote := true;
      if !upsert.WriteOk? {
        toasts := toasts + [MarkCompleteFailedToast];
        return;
      }
      lessonProgress := ProgressAfterFetch(signedIn, courseId, lessonProgress, progressResult);
      toasts := toasts + [LessonCompletedToast];
      if selectedLesson < |lessons| - 1 {
        selectedLesson := selectedLesson + 1;
      }
    }

    /** "Previous Lesson", offered only when the cursor is above 0. */
    method PreviousLesson()
      modifies this`selectedLesson
      ensures selectedLesson == if old(selectedLesson) > 0 then old(selectedLesson) - 1 else old(selectedLesson)
      ensures old(CursorInRange()) ==> CursorInRange()
    {
      if selectedLesson > 0 {
        selectedLesson := selectedLesson - 1;
      }
    }

    /** "Next Lesson", offered only below the last lesson. */
    method NextLesson()
      modifies this`selectedLesson
      ensures selectedLesson == if old(selectedLesson) < |lessons| - 1 then old(selectedLesson) + 1 else old(selectedLesson)
      ensures old(CursorInRange()) ==> CursorInRange()
    {
      if selectedLesson < |lessons| - 1 {
        selectedLesson := selectedLesson + 1;
      }
    }

    /** Clicking an entry of the lesson list, which only lists existing
        lessons. */
    method SelectLesson(index: nat)
      requires index < |lessons|
      modifies this`selectedLesson
      ensures selectedLesson == index && CursorInRange()
    {
      selectedLesson := index;
    }
  }

  /** The effect cycle of the course load: the effect runs the load only
      with a course id and a signed-in user, and runs it again each time a
      failure bumps the counter. Starting from a fresh counter, at most
      `MaxRetryAttempts + 1` loads run. */
  method LoadWithEffectReruns(view: CoursePageView, courseResults: seq<QueryResult<Option<Course>>>,
                              lessonsResult: QueryResult<Option<seq<Lesson>>>,
                              progressResult: QueryResult<Option<seq<LessonProgress>>>)
    returns (attempts: nat)
    requires view.Valid() && view.retryCount == 0
    requires |courseResults| > MaxRetryAttempts
    modifies view
    ensures view.Valid()
    ensures !(Present(view.courseId) && view.signedIn) ==> attempts == 0 && unchanged(view)
    ensures Present(view.courseId) && view.signedIn ==>
              1 <= attempts <= MaxRetryAttempts + 1 && !view.courseLoading &&
              (view.error == None <==> LoadCourse(view.courseId, courseResults[attempts - 1], lessonsResult).Loaded?) &&
              (view.error.Some? ==> attempts == MaxRetryAttempts + 1 && view.error == Some(FailedToLoadMessage))
  {
    attempts := 0;
    if !(Present(view.courseId) && view.signedIn) {
      return;
    }
    var rerun := true;
    while rerun
      invariant view.Valid()
      invariant attempts == view.retryCount || (!rerun && attempts == view.retryCount + 1)
      invariant attempts <= MaxRetryAttempts + 1
      invariant rerun ==> view.retryCount == attempts && attempts <= MaxRetryAttempts
      invariant !rerun ==> attempts >= 1 && !view.courseLoading
      invariant !rerun ==> (view.error == None <==> LoadCourse(view.courseId, courseResults[attempts - 1], lessonsResult).Loaded?)
      invariant !rerun && view.error.Some? ==> attempts == MaxRetryAttempts + 1 && view.error == Some(FailedToLoadMessage)
      decreases MaxRetryAttempts + 1 - attempts
    {
      rerun := view.FetchCourseDataWithRetry(courseResults[attempts], lessonsResult, progressResult);
      attempts := attempts + 1;
    }
  }

  /** Three failed loads followed by a successful fourth one end in the
      loaded state: the fourth run still happens, with the counter at 3. */
  method ThreeFailuresThenSuccess(course: Course, lessons: seq<Lesson>) returns (view: CoursePageView)
    ensures view.course == Some(course) && view.lessons == lessons
    ensures !view.courseLoading && view.error == None && view.retryCount == MaxRetryAttempts
  {
    view := new CoursePageView(Some("course-1"), true);
    var failed: QueryResult<Option<Course>> := QueryError("network error");
    var found: QueryResult<Option<Course>> := QueryOk(Some(course));
    var lessonsResult: QueryResult<Option<seq<Lesson>>> := QueryOk(Some(lessons));
    var progressResult: QueryResult<Option<seq<LessonProgress>>> := QueryOk(None);
    var rerun := view.FetchCourseDataWithRetry(failed, lessonsResult, progressResult);
    assert rerun && view.retryCount == 1;
    rerun := view.FetchCourseDataWithRetry(failed, lessonsResult, progressResult);
    assert rerun && view.retryCount == 2;
    rerun := view.FetchCourseDataWithRetry(failed, lessonsResult, progressResult);
    assert rerun && view.retryCount == 3;
    rerun := view.FetchCourseDataWithRetry(found, lessonsResult, progressResult);
  }

  /** Four failed loads end in the terminal error with loading cleared. */
  method FourFailuresGiveUp() returns (view: CoursePageView)
    ensures !view.courseLoading && view.error == Some(FailedToLoadMessage)
    ensures view.course == None && view.retryCount == MaxRetryAttempts
  {
    view := new CoursePageView(Some("course-1"), true);
    var failed: QueryResult<Option<Course>> := QueryError("network error");
    var lessonsResult: QueryResult<Option<seq<Lesson>>> := QueryOk(None);
    var progressResult: QueryResult<Option<seq<LessonProgress>>> := QueryOk(None);
    var rerun := view.FetchCourseDataWithRetry(failed, lessonsResult, progressResult);
    rerun := view.FetchCourseDataWithRetry(failed, lessonsResult, progressResult);
    rerun := view.FetchCourseDataWithRetry(failed, lessonsResult, progressResult);
    rerun := view.FetchCourseDataWithRetry(failed, lessonsResult, progressResult);
    assert !rerun;
  }
}
