/** `CourseController`: the role checks that guard the course store. Every
    operation reads the current user through the session (and so may
    restore it from storage) before it touches the store. */
module CourseController {
  import opened Base
  import opened Entities
  import opened CourseModel
  import opened AuthController

  /** `getCoursesForCurrentUser`: nothing without a user, every course for
      any of the three roles. */
  method GetCoursesForCurrentUser(auth: AuthSession, store: CourseStore) returns (r: seq<Course>)
    modifies auth
    ensures auth.currentUser == old(auth.Restored()) && auth.stored == old(auth.stored)
    ensures old(auth.Restored()).None? ==> r == []
    ensures old(auth.Restored()).Some? ==> r == store.courses
  {
    var user := auth.GetCurrentUser();
    if user.None? {
      return [];
    }
    match user.value.role
    case Student => r := store.courses;
    case Lecturer => r := store.courses;
    case Admin => r := store.courses;
  }

  /** `getClassesForCurrentUser`: nothing without a user, every class for
      any of the three roles. */
  method GetClassesForCurrentUser(auth: AuthSession, store: CourseStore) returns (r: seq<Class>)
    modifies auth
    ensures auth.currentUser == old(auth.Restored()) && auth.stored == old(auth.stored)
    ensures old(auth.Restored()).None? ==> r == []
    ensures old(auth.Restored()).Some? ==> r == store.classes
  {
    var user := auth.GetCurrentUser();
    if user.None? {
      return [];
    }
    match user.value.role
    case Student => r := store.classes;
    case Lecturer => r := store.classes;
    case Admin => r := store.classes;
  }

  /** True when the session's user, once restored, is an admin. */
  predicate IsAdmin(user: Option<User>)
  {
    user.Some? && user.value.role == Admin
  }

  /** `addCourse`: only an admin may add; the course is appended as given. */
  method AddCourse(auth: AuthSession, store: CourseStore, course: Course) returns (r: Outcome<Course>)
    modifies auth, store
    ensures auth.currentUser == old(auth.Restored()) && auth.stored == old(auth.stored)
    ensures !IsAdmin(old(auth.Restored())) ==>
      r == Failure("Only administrators can add courses") && store.courses == old(store.courses)
    ensures IsAdmin(old(auth.Restored())) ==>
      r == Success(course) && store.courses == old(store.courses) + [course]
    ensures store.classes == old(store.classes)
  {
    var admin := auth.HasRole(Admin);
    if !admin {
      return Failure("Only administrators can add courses");
    }
    var added := store.AddCourse(course);
    r := Success(added);
  }

  /** `updateCourse`: logged in, then the course exists, then admin. */
  method UpdateCourse(auth: AuthSession, store: CourseStore, courseCode: string, updates: CoursePatch)
    returns (r: Outcome<Course>)
    modifies auth, store
    ensures auth.currentUser == old(auth.Restored()) && auth.stored == old(auth.stored)
    ensures store.classes == old(store.classes)
    ensures old(auth.Restored()).None? ==> r == Failure("User not logged in")
    ensures old(auth.Restored()).Some? && courseCode !in CourseCodes(old(store.courses)) ==>
      r == Failure("Course not found")
    ensures old(auth.Restored()).Some? && courseCode in CourseCodes(old(store.courses))
            && !IsAdmin(old(auth.Restored())) ==>
      r == Failure("Insufficient permissions")
    ensures r.Success? <==> IsAdmin(old(auth.Restored())) && courseCode in CourseCodes(old(store.courses))
    ensures r.Failure? ==> store.courses == old(store.courses)
    ensures r.Success? ==>
      var i := CourseIndex(old(store.courses), courseCode).value;
      r.value == MergeCourse(old(store.courses)[i], updates)
      && store.courses == old(store.courses)[i := r.value]
  {
    var user := auth.GetCurrentUser();
    if user.None? {
      return Failure("User not logged in");
    }
    var course := store.GetCourseByCode(courseCode);
    if course.None? {
      assert forall i :: 0 <= i < |store.courses| ==> CourseCodes(store.courses)[i] == store.courses[i].courseCode;
      return Failure("Course not found");
    }
    assert courseCode in CourseCodes(store.courses) by {
      var k :| 0 <= k < |store.courses| && store.courses[k] == course.value;
      assert CourseCodes(store.courses)[k] == courseCode;
    }
    var admin := auth.HasRole(Admin);
    if !admin {
      return Failure("Insufficient permissions");
    }
    var updated := store.UpdateCourse(courseCode, updates);
    r := if updated.Some? then Success(updated.value) else Failure("Failed to update course");
  }

  /** `deleteCourse`: the admin check comes before the existence check. */
  method DeleteCourse(auth: AuthSession, store: CourseStore, courseCode: string) returns (r: Status)
    modifies auth, store
    ensures auth.currentUser == old(auth.Restored()) && auth.stored == old(auth.stored)
    ensures store.classes == old(store.classes)
    ensures !IsAdmin(old(auth.Restored())) ==> r == Failed("Only administrators can delete courses")
    ensures IsAdmin(old(auth.Restored())) && courseCode !in CourseCodes(old(store.courses)) ==>
      r == Failed("Course not found")
    ensures r == Done <==> IsAdmin(old(auth.Restored())) && courseCode in CourseCodes(old(store.courses))
    ensures r != Done ==> store.courses == old(store.courses)
    ensures r == Done ==>
      var i := CourseIndex(old(store.courses), courseCode).value;
      store.courses == old(store.courses)[..i] + old(store.courses)[i + 1..]
  {
    var admin := auth.HasRole(Admin);
    if !admin {
      return Failed("Only administrators can delete courses");
    }
    var ok := store.DeleteCourse(courseCode);
    if !ok {
      return Failed("Course not found");
    }
    r := Done;
  }

  /** `addClass`: logged in, then admin; the class is appended as given. */
  method AddClass(auth: AuthSession, store: CourseStore, cls: Class) returns (r: Outcome<Class>)
    modifies auth, store
    ensures auth.currentUser == old(auth.Restored()) && auth.stored == old(auth.stored)
    ensures store.courses == old(store.courses)
    ensures old(auth.Restored()).None? ==>
      r == Failure("User not logged in") && store.classes == old(store.classes)
    ensures old(auth.Restored()).Some? && !IsAdmin(old(auth.Restored())) ==>
      r == Failure("Insufficient permissions") && store.classes == old(store.classes)
    ensures IsAdmin(old(auth.Restored())) ==>
      r == Success(cls) && store.classes == old(store.classes) + [cls]
  {
    var user := auth.GetCurrentUser();
    if user.None? {
      return Failure("User not logged in");
    }
    var admin := auth.HasRole(Admin);
    if !admin {
      return Failure("Insufficient permissions");
    }
    var added := store.AddClass(cls);
    r := Success(added);
  }

  /** True when the session's user, once restored, is a student. */
  predicate IsStudent(user: Option<User>)
  {
    user.Some? && user.value.role == Student
  }

  /** `enrollStudent`: students only, and only into a class with a free
      seat; the seat counter is then raised through the model. The model's
      own failure ("Failed to enroll in class") cannot follow a successful
      availability check. */
  method EnrollStudent(auth: AuthSession, store: CourseStore, classId: string) returns (r: Status)
    modifies auth, store
    ensures auth.currentUser == old(auth.Restored()) && auth.stored == old(auth.stored)
    ensures store.courses == old(store.courses)
    ensures !IsStudent(old(auth.Restored())) ==> r == Failed("Only students can enroll in classes")
    ensures IsStudent(old(auth.Restored())) && !Available(old(store.classes), classId) ==>
      r == Failed("Class is full")
    ensures r == Done <==> IsStudent(old(auth.Restored())) && Available(old(store.classes), classId)
    ensures r != Done ==> store.classes == old(store.classes)
    ensures r == Done ==> store.classes == Enroll(old(store.classes), classId).1
  {
    var user := auth.GetCurrentUser();
    if user.None? || user.value.role != Student {
      return Failed("Only students can enroll in classes");
    }
    if !store.IsClassAvailable(classId) {
      return Failed("Class is full");
    }
    var ok := store.EnrollStudent(classId);
    r := if ok then Done else Failed("Failed to enroll in class");
  }

  /** `unenrollStudent`: students only; the model refuses an unknown class
      or an empty one. */
  method UnenrollStudent(auth: AuthSession, store: CourseStore, classId: string) returns (r: Status)
    modifies auth, store
    ensures auth.currentUser == old(auth.Restored()) && auth.stored == old(auth.stored)
    ensures store.courses == old(store.courses)
    ensures !IsStudent(old(auth.Restored())) ==> r == Failed("Only students can unenroll from classes")
    ensures IsStudent(old(auth.Restored())) && !Unenroll(old(store.classes), classId).0 ==>
      r == Failed("Failed to unenroll from class")
    ensures r == Done <==> IsStudent(old(auth.Restored())) && Unenroll(old(store.classes), classId).0
    ensures store.classes == if r == Done then Unenroll(old(store.classes), classId).1 else old(store.classes)
  {
    var user := auth.GetCurrentUser();
    if user.None? || user.value.role != Student {
      return Failed("Only students can unenroll from classes");
    }
    var ok := store.UnenrollStudent(classId);
    if !ok {
      return Failed("Failed to unenroll from class");
    }
    r := Done;
  }

  /** `getCourseDetails`: fails exactly when no course has the code. */
  method GetCourseDetails(store: CourseStore, courseCode: string) returns (r: Outcome<CourseDetails>)
    ensures r.Failure? <==> forall c :: c in store.courses ==> c.courseCode != courseCode
    ensures r.Failure? ==> r.error == "Course not found"
    ensures r.Success? ==>
      r.value.course.Some?
      && (exists i :: FirstWithCode(store.courses, courseCode, i) && r.value.course.value == store.courses[i])
      && (forall c :: c in r.value.classes <==> c in store.classes && c.courseCode == courseCode)
      && forall c: Class :: c.courseCode == courseCode ==>
           multiset(r.value.classes)[c] == multiset(store.classes)[c]
  {
    var data := store.GetCourseDetails(courseCode);
    if data.course.None? {
      return Failure("Course not found");
    }
    r := Success(data);
  }
}
