/** `courseController.js`: reading, creating, updating and deleting rows of
    the `courses` table, with the `classes` table consulted before a
    delete. A column written from an absent body field holds NULL (`None`). */
module CourseApi {
  import opened Base
  import opened ApiTypes

  /** A row of `courses` without its key `course_code`. */
  datatype CourseRow = CourseRow(courseName: Option<string>, credit: Option<int>, courseType: Option<string>)

  /** `{ success: true, data: { course_code, course_name, credit, course_type } }` */
  datatype CourseRecord = CourseRecord(courseCode: string, row: CourseRow)

  /** The body of a create or update request. */
  datatype CourseRequest = CourseRequest(
    courseCode: Option<string>, courseName: Option<string>, credit: Option<int>, courseType: Option<string>)

  /** `courseCode && courseName && credit && courseType`: a credit of 0 is
      as good as missing. */
  predicate CourseFieldsPresent(req: CourseRequest)
  {
    Truthy(req.courseCode) && Truthy(req.courseName)
    && req.credit.Some? && req.credit.value != 0 && Truthy(req.courseType)
  }

  /** `['L', 'P', 'T'].includes(courseType)` */
  predicate KnownCourseType(t: string)
  {
    t == "L" || t == "P" || t == "T"
  }

  class CourseDatabase {
    /** `courses`, keyed by `course_code`. */
    var courses: map<string, CourseRow>
    /** `classes`: the `course_code` of each class, keyed by `class_id`. */
    var classCourses: map<string, string>

    constructor (courses: map<string, CourseRow>, classCourses: map<string, string>)
      ensures this.courses == courses && this.classCourses == classCourses
    {
      this.courses := courses;
      this.classCourses := classCourses;
    }

    /** Some class refers to the course. */
    predicate UsedInClasses(courseCode: string)
      reads this
    {
      exists classId :: classId in classCourses && classCourses[classId] == courseCode
    }

    /** Referential integrity of `classes.course_code`. */
    predicate ClassesReferToCourses()
      reads this
    {
      forall classId :: classId in classCourses ==> classCourses[classId] in courses
    }

    /** `getCourse` */
    method GetCourse(courseCode: string) returns (r: Reply<CourseRecord>)
      ensures courseCode !in courses <==> r == Raise(404, "Course not found")
      ensures r.Respond? ==> r.status == 200 && r.body == CourseRecord(courseCode, courses[courseCode])
    {
      if courseCode !in courses {
        return Raise(404, "Course not found");
      }
      r := Respond(200, CourseRecord(courseCode, courses[courseCode]));
    }

    /** `createCourse`: required fields, then a known type, then a new
        code; then the row is inserted as given. */
    method CreateCourse(req: CourseRequest) returns (r: Reply<string>)
      modifies this
      ensures classCourses == old(classCourses)
      ensures !CourseFieldsPresent(req) ==> r == Raise(400, "Please provide all required fields")
      ensures CourseFieldsPresent(req) && !KnownCourseType(req.courseType.value) ==>
        r == Raise(400, "Course type must be L, P, or T")
      ensures CourseFieldsPresent(req) && KnownCourseType(req.courseType.value) && req.courseCode.value in old(courses) ==>
        r == Raise(400, "Course already exists")
      ensures r.Respond? <==>
        CourseFieldsPresent(req) && KnownCourseType(req.courseType.value) && req.courseCode.value !in old(courses)
      ensures r.Raise? ==> courses == old(courses)
      ensures r.Respond? ==>
        r == Respond(201, "Course created successfully")
        && courses == old(courses)[req.courseCode.value := CourseRow(req.courseName, req.credit, req.courseType)]
      ensures old(ClassesReferToCourses()) ==> ClassesReferToCourses()
    {
      if !CourseFieldsPresent(req) {
        return Raise(400, "Please provide all required fields");
      }
      if !KnownCourseType(req.courseType.value) {
        return Raise(400, "Course type must be L, P, or T");
      }
      if req.courseCode.value in courses {
        return Raise(400, "Course already exists");
      }
      courses := courses[req.courseCode.value := CourseRow(req.courseName, req.credit, req.courseType)];
      r := Respond(201, "Course created successfully");
    }

    /** `updateCourse`: the code must exist; name, credit and type are then
        overwritten with whatever the body holds, unchecked. */
    method UpdateCourse(courseCode: string, req: CourseRequest) returns (r: Reply<string>)
      modifies this
      ensures classCourses == old(classCourses)
      ensures courseCode !in old(courses) <==> r == Raise(404, "Course not found")
      ensures r.Raise? ==> courses == old(courses)
      ensures r.Respond? ==>
        r == Respond(200, "Course updated successfully")
        && courses == old(courses)[courseCode := CourseRow(req.courseName, req.credit, req.courseType)]
        && courses.Keys == old(courses).Keys
      ensures old(ClassesReferToCourses()) ==> ClassesReferToCourses()
    {
      if courseCode !in courses {
        return Raise(404, "Course not found");
      }
      courses := courses[courseCode := CourseRow(req.courseName, req.credit, req.courseType)];
      r := Respond(200, "Course updated successfully");
    }

    /** `deleteCourse`: the code must exist and no class may refer to it. */
    method DeleteCourse(courseCode: string) returns (r: Reply<string>)
      modifies this
      ensures classCourses == old(classCourses)
      ensures courseCode !in old(courses) ==> r == Raise(404, "Course not found")
      ensures courseCode in old(courses) && old(UsedInClasses(courseCode)) ==>
        r == Raise(400, "Cannot delete course that is used in classes")
      ensures r.Respond? <==> courseCode in old(courses) && !old(UsedInClasses(courseCode))
      ensures r.Raise? ==> courses == old(courses)
      ensures r.Respond? ==>
        r == Respond(200, "Course deleted successfully") && courses == old(courses) - {courseCode}
      ensures old(ClassesReferToCourses()) ==> ClassesReferToCourses()
    {
      if courseCode !in courses {
        return Raise(404, "Course not found");
      }
      if UsedInClasses(courseCode) {
        return Raise(400, "Cannot delete course that is used in classes");
      }
      courses := courses - {courseCode};
      r := Respond(200, "Course deleted successfully");
    }
  }
}
