/** The client-side records of `src/models/index.ts` that the core works on.
    Optional TypeScript fields (`email?: string`) are `Option`s. */
module Entities {
  import opened Base

  /** 'L' | 'P' | 'T': Lecture, Practical, Theory. */
  datatype CourseType = L | P | T

  datatype Course = Course(
    courseCode: string,
    courseName: string,
    credit: int,
    courseType: CourseType)

  datatype Class = Class(
    classId: string,
    courseCode: string,
    courseName: string,
    semesterCode: string,
    year: int,
    capacity: int,
    currentEnrollment: int)

  datatype User = User(
    userId: string,
    username: string,
    fullName: string,
    role: Role,
    email: Option<string>,
    dateOfBirth: Option<string>,
    address: Option<string>,
    phoneNumber: Option<string>,
    createdAt: string)

  /** `Partial<Course>`: the fields present in an update. */
  datatype CoursePatch = CoursePatch(
    courseCode: Option<string>,
    courseName: Option<string>,
    credit: Option<int>,
    courseType: Option<CourseType>)

  /** `Partial<User>`: the fields present in an update. */
  datatype UserPatch = UserPatch(
    userId: Option<string>,
    username: Option<string>,
    fullName: Option<string>,
    role: Option<Role>,
    email: Option<string>,
    dateOfBirth: Option<string>,
    address: Option<string>,
    phoneNumber: Option<string>,
    createdAt: Option<string>)

  /** A present field of the patch wins over the old value. */
  function Pick<X>(old_: X, patch: Option<X>): X
  {
    if patch.Some? then patch.value else old_
  }

  /** `{ ...course, ...updates }` */
  function MergeCourse(c: Course, u: CoursePatch): Course
  {
    Course(Pick(c.courseCode, u.courseCode), Pick(c.courseName, u.courseName),
           Pick(c.credit, u.credit), Pick(c.courseType, u.courseType))
  }

  /** `{ ...user, ...updates }` (an optional field present in the patch
      becomes present in the result). */
  function MergeUser(x: User, u: UserPatch): User
  {
    User(Pick(x.userId, u.userId), Pick(x.username, u.username),
         Pick(x.fullName, u.fullName), Pick(x.role, u.role),
         if u.email.Some? then u.email else x.email,
         if u.dateOfBirth.Some? then u.dateOfBirth else x.dateOfBirth,
         if u.address.Some? then u.address else x.address,
         if u.phoneNumber.Some? then u.phoneNumber else x.phoneNumber,
         Pick(x.createdAt, u.createdAt))
  }

  function CourseCodes(courses: seq<Course>): seq<string>
  {
    seq(|courses|, i requires 0 <= i < |courses| => courses[i].courseCode)
  }

  function ClassIds(classes: seq<Class>): seq<string>
  {
    seq(|classes|, i requires 0 <= i < |classes| => classes[i].classId)
  }

  function UserIds(users: seq<User>): seq<string>
  {
    seq(|users|, i requires 0 <= i < |users| => users[i].userId)
  }

  function Usernames(users: seq<User>): seq<string>
  {
    seq(|users|, i requires 0 <= i < |users| => users[i].username)
  }
}
