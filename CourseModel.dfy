/** `CourseModel`: the in-memory course and class lists with the seat
    counter of each class. The static arrays become the fields of one
    `CourseStore` object; the enrolment rules are also stated on plain
    class lists (`Enroll`, `Unenroll`) so that lemmas can relate several
    calls. */
module CourseModel {
  import opened Base
  import opened Entities

  /** Position of the first course with this code (`findIndex`). */
  function CourseIndex(courses: seq<Course>, code: string): Option<nat>
  {
    IndexOf(CourseCodes(courses), code)
  }

  /** Position of the first class with this id (`find`). */
  function ClassIndex(classes: seq<Class>, id: string): Option<nat>
  {
    IndexOf(ClassIds(classes), id)
  }

  /** `i` is where `find(c => c.classId === id)` stops. */
  predicate FirstWithId(classes: seq<Class>, id: string, i: int)
  {
    0 <= i < |classes| && classes[i].classId == id
    && forall j :: 0 <= j < i ==> classes[j].classId != id
  }

  /** `i` is the position of the first course with code `code`. */
  predicate FirstWithCode(courses: seq<Course>, code: string, i: int)
  {
    0 <= i < |courses| && courses[i].courseCode == code
    && forall j :: 0 <= j < i ==> courses[j].courseCode != code
  }

  /** `isClassAvailable`: false for an unknown id, otherwise whether the
      first class with that id has a free seat. */
  function Available(classes: seq<Class>, id: string): (r: bool)
    ensures (forall c :: c in classes ==> c.classId != id) ==> !r
    ensures r <==> exists i :: FirstWithId(classes, id, i)
                              && classes[i].currentEnrollment < classes[i].capacity
  {
    match ClassIndex(classes, id)
    case None =>
      assert forall i :: !FirstWithId(classes, id, i) by {
        forall i | 0 <= i < |classes| ensures classes[i].classId != id {
          assert ClassIds(classes)[i] == classes[i].classId;
        }
      }
      false
    case Some(i) =>
      assert FirstWithId(classes, id, i) by {
        forall j | 0 <= j < i ensures classes[j].classId != id {
          assert ClassIds(classes)[..i][j] == classes[j].classId;
        }
      }
      assert forall k :: FirstWithId(classes, id, k) ==> k == i;
      classes[i].currentEnrollment < classes[i].capacity
  }

  /** The invariant the seat counters are meant to keep. */
  predicate SeatsWithinCapacity(classes: seq<Class>)
  {
    forall i :: 0 <= i < |classes| ==> 0 <= classes[i].currentEnrollment <= classes[i].capacity
  }

  /** `enrollStudent`: whether it succeeds, and the class list afterwards. */
  function Enroll(classes: seq<Class>, id: string): (r: (bool, seq<Class>))
    ensures r.0 == Available(classes, id)
    ensures !r.0 ==> r.1 == classes
    ensures r.0 ==> ClassIndex(classes, id).Some?
    ensures r.0 ==>
      var i := ClassIndex(classes, id).value;
      r.1 == classes[i := classes[i].(currentEnrollment := classes[i].currentEnrollment + 1)]
  {
    match ClassIndex(classes, id)
    case None => (false, classes)
    case Some(i) =>
      if classes[i].currentEnrollment < classes[i].capacity then
        (true, classes[i := classes[i].(currentEnrollment := classes[i].currentEnrollment + 1)])
      else (false, classes)
  }

  /** `unenrollStudent`: whether it succeeds, and the class list afterwards. */
  function Unenroll(classes: seq<Class>, id: string): (r: (bool, seq<Class>))
    ensures r.0 <==> ClassIndex(classes, id).Some?
                     && classes[ClassIndex(classes, id).value].currentEnrollment > 0
    ensures !r.0 ==> r.1 == classes
    ensures r.0 ==>
      var i := ClassIndex(classes, id).value;
      r.1 == classes[i := classes[i].(currentEnrollment := classes[i].currentEnrollment - 1)]
  {
    match ClassIndex(classes, id)
    case None => (false, classes)
    case Some(i) =>
      if classes[i].currentEnrollment <= 0 then (false, classes)
      else (true, classes[i := classes[i].(currentEnrollment := classes[i].currentEnrollment - 1)])
  }

  /** Changing a seat counter leaves every class id where it was, so later
      lookups find the same class. */
  lemma SameIdsAfterCount(classes: seq<Class>, i: nat, n: int)
    requires i < |classes|
    ensures ClassIds(classes[i := classes[i].(currentEnrollment := n)]) == ClassIds(classes)
  {
  }

  /** A successful enrolment adds exactly one seat to the class found, and
      no other class changes. */
  lemma EnrollTouchesOneClass(classes: seq<Class>, id: string)
    requires Enroll(classes, id).0
    ensures var i := ClassIndex(classes, id).value;
      var after := Enroll(classes, id).1;
      |after| == |classes| && after[i].classId == id
      && after[i].currentEnrollment == classes[i].currentEnrollment + 1
      && after[i].capacity == classes[i].capacity
      && forall j :: 0 <= j < |classes| && j != i ==> after[j] == classes[j]
  {
    var i := ClassIndex(classes, id).value;
    assert ClassIds(classes)[i] == classes[i].classId;
  }

  /** Enrolment keeps every counter within `0..capacity`. */
  lemma EnrollKeepsSeatsWithinCapacity(classes: seq<Class>, id: string)
    requires SeatsWithinCapacity(classes)
    ensures SeatsWithinCapacity(Enroll(classes, id).1)
  {
  }

  /** Unenrolment keeps every counter within `0..capacity`; in particular a
      counter never goes below zero. */
  lemma UnenrollKeepsSeatsWithinCapacity(classes: seq<Class>, id: string)
    requires SeatsWithinCapacity(classes)
    ensures SeatsWithinCapacity(Unenroll(classes, id).1)
  {
  }

  /** `addClass` does not check the invariant: appending keeps it exactly
      when the new class itself is within capacity. */
  lemma AddClassKeepsSeatsIff(classes: seq<Class>, c: Class)
    requires SeatsWithinCapacity(classes)
    ensures SeatsWithinCapacity(classes + [c]) <==> 0 <= c.currentEnrollment <= c.capacity
  {
    if SeatsWithinCapacity(classes + [c]) {
      assert (classes + [c])[|classes|] == c;
    }
  }

  /** A successful enrolment followed by an unenrolment of the same class
      restores the original list. */
  lemma {:induction false} EnrollThenUnenroll(classes: seq<Class>, id: string)
    requires Enroll(classes, id).0
    requires classes[ClassIndex(classes, id).value].currentEnrollment >= 0
    ensures Unenroll(Enroll(classes, id).1, id) == (true, classes)
  {
    var i := ClassIndex(classes, id).value;
    var after := Enroll(classes, id).1;
    SameIdsAfterCount(classes, i, classes[i].currentEnrollment + 1);
    assert ClassIndex(after, id) == Some(i);
    assert after[i := after[i].(currentEnrollment := after[i].currentEnrollment - 1)] == classes;
  }

  /** A class with one seat: the first student gets it, the second is
      refused, and after the first leaves the second gets in. */
  lemma CapacityOneScenario(course: string, id: string)
    ensures
      var c0 := [Class(id, course, "Test", "Fall", 2024, 1, 0)];
      var (a, c1) := Enroll(c0, id);
      var (b, c2) := Enroll(c1, id);
      var (d, c3) := Unenroll(c2, id);
      var (e, c4) := Enroll(c3, id);
      a && c1[0].currentEnrollment == 1 && !b && c2 == c1
      && d && c3[0].currentEnrollment == 0 && e && c4[0].currentEnrollment == 1
  {
    var c0 := [Class(id, course, "Test", "Fall", 2024, 1, 0)];
    IndexOfFirst(ClassIds(c0), id, 0);
    SameIdsAfterCount(c0, 0, 1);
    SameIdsAfterCount(c0, 0, 0);
  }

  /** `getCourseDetails` */
  datatype CourseDetails = CourseDetails(course: Option<Course>, classes: seq<Class>)

  /** The static `courses` and `classes` arrays of `CourseModel`. */
  class CourseStore {
    var courses: seq<Course>
    var classes: seq<Class>

    constructor (courses: seq<Course>, classes: seq<Class>)
      ensures this.courses == courses && this.classes == classes
    {
      this.courses := courses;
      this.classes := classes;
    }

    /** `getCourseByCode`: the first course with this code. */
    function GetCourseByCode(code: string): (r: Option<Course>)
      reads this
      ensures r.None? <==> forall c :: c in courses ==> c.courseCode != code
      ensures r.Some? ==> exists i :: FirstWithCode(courses, code, i) && r.value == courses[i]
    {
      match CourseIndex(courses, code)
      case None =>
        assert forall i :: 0 <= i < |courses| ==> CourseCodes(courses)[i] == courses[i].courseCode;
        None
      case Some(i) =>
        assert FirstWithCode(courses, code, i) by {
          assert CourseCodes(courses)[i] == courses[i].courseCode;
          forall j | 0 <= j < i ensures courses[j].courseCode != code {
            assert CourseCodes(courses)[..i][j] == courses[j].courseCode;
          }
        }
        Some(courses[i])
    }

    /** `getCoursesByType` */
    function GetCoursesByType(t: CourseType): (r: seq<Course>)
      reads this
      ensures forall c :: c in r <==> c in courses && c.courseType == t
      ensures multiset(r) <= multiset(courses)
      ensures forall c: Course :: c.courseType == t ==> multiset(r)[c] == multiset(courses)[c]
    {
      Filter(courses, (c: Course) => c.courseType == t)
    }

    /** `getClassesByCourse` */
    function GetClassesByCourse(code: string): (r: seq<Class>)
      reads this
      ensures forall c :: c in r <==> c in classes && c.courseCode == code
      ensures multiset(r) <= multiset(classes)
      ensures forall c: Class :: c.courseCode == code ==> multiset(r)[c] == multiset(classes)[c]
    {
      Filter(classes, (c: Class) => c.courseCode == code)
    }

    /** `getClassesBySemester` */
    function GetClassesBySemester(semesterCode: string, year: int): (r: seq<Class>)
      reads this
      ensures forall c :: c in r <==> c in classes && c.semesterCode == semesterCode && c.year == year
      ensures multiset(r) <= multiset(classes)
      ensures forall c: Class :: c.semesterCode == semesterCode && c.year == year ==> multiset(r)[c] == multiset(classes)[c]
    {
      Filter(classes, (c: Class) => c.semesterCode == semesterCode && c.year == year)
    }

    /** `isClassAvailable` */
    function IsClassAvailable(classId: string): (r: bool)
      reads this
      ensures r <==> exists i :: FirstWithId(classes, classId, i)
                                && classes[i].currentEnrollment < classes[i].capacity
    {
      Available(classes, classId)
    }

    /** `getCourseDetails`: the course (if any) and all of its classes. */
    function GetCourseDetails(courseCode: string): (r: CourseDetails)
      reads this
      ensures r.course.None? <==> forall c :: c in courses ==> c.courseCode != courseCode
      ensures r.course.Some? ==> exists i :: FirstWithCode(courses, courseCode, i) && r.course.value == courses[i]
      ensures forall c :: c in r.classes <==> c in classes && c.courseCode == courseCode
      ensures multiset(r.classes) <= multiset(classes)
      ensures forall c: Class :: c.courseCode == courseCode ==> multiset(r.classes)[c] == multiset(classes)[c]
    {
      CourseDetails(GetCourseByCode(courseCode), GetClassesByCourse(courseCode))
    }

    /** `addCourse`: appended as given, no check of any kind. */
    method AddCourse(course: Course) returns (r: Course)
      modifies this
      ensures r == course
      ensures courses == old(courses) + [course] && classes == old(classes)
    {
      courses := courses + [course];
      r := course;
    }

    /** `updateCourse`: merges into the first course with the code, or
        returns null and changes nothing. */
    method UpdateCourse(courseCode: string, updates: CoursePatch) returns (r: Option<Course>)
      modifies this
      ensures classes == old(classes)
      ensures r.None? <==> courseCode !in CourseCodes(old(courses))
      ensures r.None? ==> courses == old(courses)
      ensures r.Some? ==>
        var i := CourseIndex(old(courses), courseCode).value;
        r.value == MergeCourse(old(courses)[i], updates) && courses == old(courses)[i := r.value]
    {
      var index := CourseIndex(courses, courseCode);
      if index.Some? {
        var i := index.value;
        courses := courses[i := MergeCourse(courses[i], updates)];
        r := Some(courses[i]);
      } else {
        r := None;
      }
    }

    /** `deleteCourse`: removes the first course with the code. */
    method DeleteCourse(courseCode: string) returns (ok: bool)
      modifies this
      ensures classes == old(classes)
      ensures ok <==> courseCode in CourseCodes(old(courses))
      ensures !ok ==> courses == old(courses)
      ensures ok ==>
        var i := CourseIndex(old(courses), courseCode).value;
        courses == old(courses)[..i] + old(courses)[i + 1..]
        && old(courses)[i].courseCode == courseCode
        && multiset(courses) + multiset{old(courses)[i]} == multiset(old(courses))
    {
      var index := CourseIndex(courses, courseCode);
      if index.Some? {
        var i := index.value;
        assert CourseCodes(courses)[i] == courses[i].courseCode;
        assert courses == courses[..i] + [courses[i]] + courses[i + 1..];
        courses := courses[..i] + courses[i + 1..];
        ok := true;
      } else {
        ok := false;
      }
    }

    /** `addClass`: appended as given; capacity and counter are not checked. */
    method AddClass(cls: Class) returns (r: Class)
      modifies this
      ensures r == cls
      ensures classes == old(classes) + [cls] && courses == old(courses)
    {
      classes := classes + [cls];
      r := cls;
    }

    /** `enrollStudent` */
    method EnrollStudent(classId: string) returns (ok: bool)
      modifies this
      ensures (ok, classes) == Enroll(old(classes), classId)
      ensures courses == old(courses)
    {
      var index := ClassIndex(classes, classId);
      if index.None? || !IsClassAvailable(classId) {
        ok := false;
        return;
      }
      var i := index.value;
      classes := classes[i := classes[i].(currentEnrollment := classes[i].currentEnrollment + 1)];
      ok := true;
    }

    /** `unenrollStudent` */
    method UnenrollStudent(classId: string) returns (ok: bool)
      modifies this
      ensures (ok, classes) == Unenroll(old(classes), classId)
      ensures courses == old(courses)
    {
      var index := ClassIndex(classes, classId);
      if index.None? || classes[index.value].currentEnrollment <= 0 {
        ok := false;
        return;
      }
      var i := index.value;
      classes := classes[i := classes[i].(currentEnrollment := classes[i].currentEnrollment - 1)];
      ok := true;
    }
  }
}
