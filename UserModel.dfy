/** `UserModel`: the in-memory user list, mock authentication and the
    fixed role-to-permission table. */
module UserModel {
  import opened Base
  import opened Entities

  /** The one password the mock authentication accepts. */
  const MockPassword: string := "password123"

  const LecturerPermissions: set<string> :=
    {"view_courses", "manage_attendance", "upload_materials", "manage_assignments"}

  const StudentPermissions: set<string> :=
    {"view_courses", "view_attendance", "download_materials", "submit_assignments"}

  /** The `switch (user.role)` of `hasPermission`. */
  function Grants(role: Role, permission: string): bool
  {
    match role
    case Admin => true
    case Lecturer => permission in LecturerPermissions
    case Student => permission in StudentPermissions
  }

  /** The only permission a lecturer and a student share is viewing
      courses; an admin holds every permission of both. */
  lemma SharedPermissions(permission: string)
    ensures Grants(Lecturer, permission) && Grants(Student, permission) <==> permission == "view_courses"
    ensures Grants(Lecturer, permission) || Grants(Student, permission) ==> Grants(Admin, permission)
  {
  }

  /** `{ studentId, user }`, `{ lecturerId, user }`, `{ adminId, user }` */
  datatype Profile = Profile(id: string, user: User)

  function UserIndex(users: seq<User>, userId: string): Option<nat>
  {
    IndexOf(UserIds(users), userId)
  }

  /** `i` is the position of the first user with id `userId`. */
  predicate FirstWithUserId(users: seq<User>, userId: string, i: int)
  {
    0 <= i < |users| && users[i].userId == userId
    && forall j :: 0 <= j < i ==> users[j].userId != userId
  }

  /** `i` is the position of the first user with username `username`. */
  predicate FirstWithUsername(users: seq<User>, username: string, i: int)
  {
    0 <= i < |users| && users[i].username == username
    && forall j :: 0 <= j < i ==> users[j].username != username
  }

  /** The static `users` array of `UserModel`. */
  class UserStore {
    var users: seq<User>

    constructor (users: seq<User>)
      ensures this.users == users
    {
      this.users := users;
    }

    /** `getUserById`: the first user with this id. */
    function GetUserById(userId: string): (r: Option<User>)
      reads this
      ensures r.None? <==> forall u :: u in users ==> u.userId != userId
      ensures r.Some? ==> exists i :: FirstWithUserId(users, userId, i) && r.value == users[i]
    {
      match UserIndex(users, userId)
      case None =>
        assert forall i :: 0 <= i < |users| ==> UserIds(users)[i] == users[i].userId;
        None
      case Some(i) =>
        assert FirstWithUserId(users, userId, i) by {
          assert UserIds(users)[i] == users[i].userId;
          forall j | 0 <= j < i ensures users[j].userId != userId {
            assert UserIds(users)[..i][j] == users[j].userId;
          }
        }
        Some(users[i])
    }

    /** `getUserByUsername`: the first user with this username. */
    function GetUserByUsername(username: string): (r: Option<User>)
      reads this
      ensures r.None? <==> forall u :: u in users ==> u.username != username
      ensures r.Some? ==> exists i :: FirstWithUsername(users, username, i) && r.value == users[i]
    {
      match IndexOf(Usernames(users), username)
      case None =>
        assert forall i :: 0 <= i < |users| ==> Usernames(users)[i] == users[i].username;
        None
      case Some(i) =>
        assert FirstWithUsername(users, username, i) by {
          assert Usernames(users)[i] == users[i].username;
          forall j | 0 <= j < i ensures users[j].username != username {
            assert Usernames(users)[..i][j] == users[j].username;
          }
        }
        Some(users[i])
    }

    /** `getUsersByRole` */
    function GetUsersByRole(role: Role): (r: seq<User>)
      reads this
      ensures forall u :: u in r <==> u in users && u.role == role
      ensures multiset(r) <= multiset(users)
      ensures forall u: User :: u.role == role ==> multiset(r)[u] == multiset(users)[u]
    {
      Filter(users, (u: User) => u.role == role)
    }

    /** `authenticate`: the user with this username, provided the password
        is the mock one. */
    function Authenticate(username: string, password: string): (r: Option<User>)
      reads this
      ensures r.Some? <==> password == MockPassword && exists u :: u in users && u.username == username
      ensures r.Some? ==> exists i :: FirstWithUsername(users, username, i) && r.value == users[i]
    {
      var user := GetUserByUsername(username);
      if user.Some? && password == MockPassword then user else None
    }

    /** `hasPermission` */
    function HasPermission(userId: string, permission: string): (r: bool)
      reads this
      ensures GetUserById(userId).None? ==> !r
      ensures GetUserById(userId).Some? && GetUserById(userId).value.role == Admin ==> r
      ensures r <==> exists u :: u in users && u.userId == userId && u == GetUserById(userId).value
                                && Grants(u.role, permission)
    {
      var user := GetUserById(userId);
      if user.None? then false else Grants(user.value.role, permission)
    }

    /** The lookup shared by `getStudent`, `getLecturer` and `getAdmin`. */
    function GetProfile(id: string, role: Role): (r: Option<Profile>)
      reads this
      ensures r.Some? <==> GetUserById(id).Some? && GetUserById(id).value.role == role
      ensures r.Some? ==> r.value.id == id && r.value.user in users
                          && r.value.user.userId == id && r.value.user.role == role
      ensures r.Some? ==> exists i :: FirstWithUserId(users, id, i) && r.value == Profile(id, users[i])
    {
      var user := GetUserById(id);
      if user.Some? && user.value.role == role then Some(Profile(id, user.value)) else None
    }

    /** `getStudent` */
    function GetStudent(studentId: string): (r: Option<Profile>)
      reads this
      ensures r.Some? <==> exists u :: u in users && u.userId == studentId && u == GetUserById(studentId).value
                                     && u.role == Student
      ensures r.Some? ==> r.value.user in users && r.value.user.userId == studentId && r.value.user.role == Student
      ensures r.Some? ==> exists i :: FirstWithUserId(users, studentId, i) && r.value == Profile(studentId, users[i])
    {
      GetProfile(studentId, Student)
    }

    /** `getLecturer` */
    function GetLecturer(lecturerId: string): (r: Option<Profile>)
      reads this
      ensures r.Some? <==> exists u :: u in users && u.userId == lecturerId && u == GetUserById(lecturerId).value
                                     && u.role == Lecturer
      ensures r.Some? ==> r.value.user in users && r.value.user.userId == lecturerId && r.value.user.role == Lecturer
      ensures r.Some? ==> exists i :: FirstWithUserId(users, lecturerId, i) && r.value == Profile(lecturerId, users[i])
    {
      GetProfile(lecturerId, Lecturer)
    }

    /** `getAdmin` */
    function GetAdmin(adminId: string): (r: Option<Profile>)
      reads this
      ensures r.Some? <==> exists u :: u in users && u.userId == adminId && u == GetUserById(adminId).value
                                     && u.role == Admin
      ensures r.Some? ==> r.value.user in users && r.value.user.userId == adminId && r.value.user.role == Admin
      ensures r.Some? ==> exists i :: FirstWithUserId(users, adminId, i) && r.value == Profile(adminId, users[i])
    {
      GetProfile(adminId, Admin)
    }

    /** `addUser`: the id is `USER` followed by the clock reading (passed in
        as its decimal text); the user is appended. */
    method AddUser(user: User, clockDigits: string) returns (r: User)
      modifies this
      ensures r == user.(userId := "USER" + clockDigits)
      ensures users == old(users) + [r]
    {
      r := user.(userId := "USER" + clockDigits);
      users := users + [r];
    }

    /** `updateUser`: merges into the first user with the id, or returns
        null and changes nothing. */
    method UpdateUser(userId: string, updates: UserPatch) returns (r: Option<User>)
      modifies this
      ensures r.None? <==> userId !in UserIds(old(users))
      ensures r.None? ==> users == old(users)
      ensures r.Some? ==>
        var i := UserIndex(old(users), userId).value;
        r.value == MergeUser(old(users)[i], updates) && users == old(users)[i := r.value]
    {
      var index := UserIndex(users, userId);
      if index.Some? {
        var i := index.value;
        users := users[i := MergeUser(users[i], updates)];
        r := Some(users[i]);
      } else {
        r := None;
      }
    }

    /** `deleteUser`: removes the first user with the id. */
    method DeleteUser(userId: string) returns (ok: bool)
      modifies this
      ensures ok <==> userId in UserIds(old(users))
      ensures !ok ==> users == old(users)
      ensures ok ==>
        var i := UserIndex(old(users), userId).value;
        users == old(users)[..i] + old(users)[i + 1..]
        && old(users)[i].userId == userId
        && multiset(users) + multiset{old(users)[i]} == multiset(old(users))
    {
      var index := UserIndex(users, userId);
      if index.Some? {
        var i := index.value;
        assert UserIds(users)[i] == users[i].userId;
        assert users == users[..i] + [users[i]] + users[i + 1..];
        users := users[..i] + users[i + 1..];
        ok := true;
      } else {
        ok := false;
      }
    }
  }
}
