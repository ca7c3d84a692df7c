/** The course-data hook: the course list merged with instructor names,
    the enrollment list, and the enrol decision. */
module CourseData {
  import opened Common
  import opened Lists
  import opened Profiles

  datatype Course = Course(id: string, title: string, instructorId: Option<string>, instructorName: string)
  datatype Enrollment = Enrollment(id: string, userId: string, courseId: string, progress: int)

  const UnknownInstructor := "Unknown Instructor"
  const DuplicateKeyCode := "23505"

  /** The instructor ids that pass `.filter(Boolean)` (not null, not
      empty), in query order, repeats included. */
  function PresentInstructorIds(courses: seq<Course>): (ids: seq<string>)
    ensures forall i :: 0 <= i < |ids| ==> exists j :: 0 <= j < |courses| && courses[j].instructorId == Some(ids[i]) && ids[i] != ""
    ensures forall j :: 0 <= j < |courses| && Present(courses[j].instructorId) ==> courses[j].instructorId.value in ids
    decreases |courses|
  {
    if courses == [] then []
    else
      var rest := PresentInstructorIds(courses[1..]);
      assert forall j :: 1 <= j < |courses| ==> courses[j] == courses[1..][j - 1];
      (if Present(courses[0].instructorId) then [courses[0].instructorId.value] else []) + rest
  }

  /** The ids looked up: each distinct present instructor id exactly once. */
  function InstructorIds(courses: seq<Course>): (ids: seq<string>)
    ensures NoDuplicates(ids)
    ensures forall i :: 0 <= i < |ids| ==> exists j :: 0 <= j < |courses| && courses[j].instructorId == Some(ids[i]) && ids[i] != ""
    ensures forall j :: 0 <= j < |courses| && Present(courses[j].instructorId) ==> courses[j].instructorId.value in ids
  {
    Distinct(PresentInstructorIds(courses))
  }

  /** `profilesMap`: one resolved name per looked-up id. */
  function ProfilesMap(ids: seq<string>, lookup: string -> ProfileLookup): (names: map<string, string>)
    ensures forall id :: id in names <==> id in ids
    ensures forall id :: id in names ==> names[id] != ""
    ensures forall id :: id in names ==> names[id] == DisplayName(lookup(id), UnknownInstructor)
  {
    map id | id in ids :: DisplayName(lookup(id), UnknownInstructor)
  }

  /** A course is kept when it already has an instructor name or its
      instructor id was resolved. */
  predicate Kept(c: Course, names: map<string, string>) {
    c.instructorName != "" || (c.instructorId.Some? && c.instructorId.value in names)
  }

  /** The course with its final instructor name: its own when non-empty,
      else the resolved one, else the fallback. */
  function Named(c: Course, names: map<string, string>): (d: Course)
    ensures d.(instructorName := c.instructorName) == c
    ensures d.instructorName != ""
    ensures c.instructorName != "" ==> d == c
    ensures (c.instructorName == "" && c.instructorId.Some? && c.instructorId.value in names &&
             names[c.instructorId.value] != "") ==> d.instructorName == names[c.instructorId.value]
    ensures c.instructorName == "" &&
            (c.instructorId.None? || c.instructorId.value !in names || names[c.instructorId.value] == "") ==>
              d.instructorName == UnknownInstructor
  {
    var resolved := if c.instructorId.Some? && c.instructorId.value in names then names[c.instructorId.value] else "";
    c.(instructorName :=
         if c.instructorName != "" then c.instructorName
         else if resolved != "" then resolved
         else UnknownInstructor)
  }

  /** The filter-then-map merge of `fetchCourses`. */
  function MergeCourses(data: seq<Course>, names: map<string, string>): (r: seq<Course>)
    ensures |r| <= |data|
    ensures forall i :: 0 <= i < |r| ==> r[i].instructorName != ""
    ensures forall i :: 0 <= i < |r| ==> exists j :: 0 <= j < |data| && Kept(data[j], names) && r[i] == Named(data[j], names)
    ensures forall j :: 0 <= j < |data| && Kept(data[j], names) ==> Named(data[j], names) in r
  {
    var kept := Filter(c => Kept(c, names), data);
    var r := MapSeq(c => Named(c, names), kept);
    assert forall i :: 0 <= i < |kept| ==> kept[i] in data && Kept(kept[i], names);
    assert forall j :: 0 <= j < |data| && Kept(data[j], names) ==> data[j] in kept;
    r
  }

  /** The merged list follows the query order. */
  lemma MergeKeepsQueryOrder(data: seq<Course>, names: map<string, string>)
    ensures IsSubsequence(MergeCourses(data, names), MapSeq(c => Named(c, names), data))
  {
    var kept := Filter(c => Kept(c, names), data);
    FilterIsSubsequence(c => Kept(c, names), data);
    MapKeepsSubsequence(c => Named(c, names), kept, data);
  }

  /** A course that already carries an instructor name is never dropped
      and never renamed. */
  lemma NamedCoursesSurvive(data: seq<Course>, names: map<string, string>, j: nat)
    requires j < |data| && data[j].instructorName != ""
    ensures data[j] in MergeCourses(data, names)
  {
    assert Kept(data[j], names) && Named(data[j], names) == data[j];
  }

  /** When every instructor id was resolved, no course is dropped. */
  lemma ResolvedIdsKeepEveryCourse(data: seq<Course>, lookup: string -> ProfileLookup)
    requires forall j :: 0 <= j < |data| ==> Present(data[j].instructorId)
    ensures |MergeCourses(data, ProfilesMap(InstructorIds(data), lookup))| == |data|
  {
    var names := ProfilesMap(InstructorIds(data), lookup);
    FilterKeepsAll(c => Kept(c, names), data);
  }

  datatype EnrollError =
    | AlreadyEnrolled
    | CheckFailed(message: string)
    | InsertFailed(code: string, message: string)
    | InsertThrew

  datatype EnrollOutcome = NotSignedIn | Enrolled | EnrollFailed(error: EnrollError)

  /** A rejected insert: the duplicate-key code is the already-enrolled
      error, every other error propagates unchanged. */
  function InsertError(code: string, message: string): (e: EnrollError)
    ensures e == AlreadyEnrolled <==> code == DuplicateKeyCode
    ensures code != DuplicateKeyCode ==> e == InsertFailed(code, message)
  {
    if code == DuplicateKeyCode then AlreadyEnrolled else InsertFailed(code, message)
  }

  class CourseDataHook {
    const signedIn: bool
    var courses: seq<Course>
    var enrollments: seq<Enrollment>
    var loading: bool

    constructor (signedIn: bool)
      ensures this.signedIn == signedIn && courses == [] && enrollments == [] && loading
    {
      this.signedIn := signedIn;
      courses, enrollments, loading := [], [], true;
    }

    /** `fetchCourses`: a query error, an empty result or no instructor id
        gives `[]`; otherwise the distinct ids are looked up (`lookedUp`)
        and the courses merged. */
    method FetchCourses(response: QueryResult<Option<seq<Course>>>, lookup: string -> ProfileLookup)
      returns (lookedUp: seq<string>)
      modifies this`courses
      ensures response.QueryError? || response.data.GetOr([]) == [] ==> courses == [] && lookedUp == []
      ensures response.QueryOk? && response.data.GetOr([]) != [] ==>
                lookedUp == InstructorIds(response.data.value) &&
                courses == (if lookedUp == [] then []
                            else MergeCourses(response.data.value, ProfilesMap(lookedUp, lookup)))
    {
      lookedUp := [];
      if response.QueryError? || response.data.GetOr([]) == [] {
        courses := [];
        return;
      }
      var data := response.data.value;
      var ids := InstructorIds(data);
      if ids == [] {
        courses := [];
        return;
      }
      lookedUp := ids;
      courses := MergeCourses(data, ProfilesMap(ids, lookup));
    }

    /** `fetchEnrollments`: skipped without a user; an error gives `[]`. */
    method FetchEnrollments(response: QueryResult<Option<seq<Enrollment>>>)
      modifies this`enrollments
      ensures !signedIn ==> enrollments == old(enrollments)
      ensures signedIn ==> enrollments == (if response.QueryOk? then response.data.GetOr([]) else [])
    {
      if !signedIn {
        return;
      }
      enrollments := if response.QueryOk? then response.data.GetOr([]) else [];
    }

    /** `fetchData`: both lists are fetched and loading ends. */
    method FetchData(coursesResponse: QueryResult<Option<seq<Course>>>, lookup: string -> ProfileLookup,
                     enrollmentsResponse: QueryResult<Option<seq<Enrollment>>>)
      returns (lookedUp: seq<string>)
      modifies this
      ensures !loading
      ensures coursesResponse.QueryError? || coursesResponse.data.GetOr([]) == [] ==> courses == [] && lookedUp == []
      ensures coursesResponse.QueryOk? && coursesResponse.data.GetOr([]) != [] ==>
                lookedUp == InstructorIds(coursesResponse.data.value) &&
                courses == (if lookedUp == [] then []
                            else MergeCourses(coursesResponse.data.value, ProfilesMap(lookedUp, lookup)))
      ensures signedIn ==> enrollments == (if enrollmentsResponse.QueryOk? then enrollmentsResponse.data.GetOr([]) else [])
      ensures !signedIn ==> enrollments == old(enrollments)
    {
      loading := true;
      lookedUp := FetchCourses(coursesResponse, lookup);
      FetchEnrollments(enrollmentsResponse);
      loading := false;
    }

    /** `enrollInCourse`: the pre-check short-circuits an existing
        enrollment without inserting; a duplicate-key insert maps to the
        same error; after a successful insert the enrollments are fetched
        again (`refreshed`). */
    method EnrollInCourse(courseId: string, existing: QueryResult<Option<string>>, insert: WriteResult,
                          refreshed: QueryResult<Option<seq<Enrollment>>>)
      returns (outcome: EnrollOutcome, inserted: bool)
      modifies this`enrollments
      ensures inserted <==> signedIn && existing == QueryOk(None)
      ensures !signedIn ==> outcome == NotSignedIn
      ensures signedIn && existing.QueryError? ==> outcome == EnrollFailed(CheckFailed(existing.message))
      ensures signedIn && existing.QueryOk? && existing.data.Some? ==> outcome == EnrollFailed(AlreadyEnrolled)
      ensures inserted && insert.WriteOk? ==>
                outcome == Enrolled && enrollments == (if refreshed.QueryOk? then refreshed.data.GetOr([]) else [])
      ensures inserted && insert.WriteRejected? ==> outcome == EnrollFailed(InsertError(insert.code, insert.message))
      ensures inserted && insert.WriteThrew? ==> outcome == EnrollFailed(InsertThrew)
      ensures outcome != Enrolled ==> enrollments == old(enrollments)
    {
      inserted := false;
      if !signedIn {
        return NotSignedIn, false;
      }
      match existing
      case QueryError(message) =>
        return EnrollFailed(CheckFailed(message)), false;
      case QueryOk(row) =>
        if row.Some? {
          return EnrollFailed(AlreadyEnrolled), false;
        }
      inserted := true;
      match insert
      case WriteRejected(code, message) =>
        outcome := EnrollFailed(InsertError(code, message));
      case WriteThrew =>
        outcome := EnrollFailed(InsertThrew);
      case WriteOk =>
        FetchEnrollments(refreshed);
        outcome := Enrolled;
    }
  }
}
