/** `authController.js`: login and registration against the `users` table
    and the three role tables `students`, `lecturers` and `admins`. The
    password check (`bcrypt.compare`), hashing (`bcrypt.hash` with a fresh
    salt) and token signing (`jwt.sign` over `{ userId }`) are parameters. */
module AuthApi {
  import opened Base
  import opened ApiTypes

  datatype LoginRequest = LoginRequest(username: Option<string>, password: Option<string>)

  /** `{ success: true, token, user: { userId, username, fullName, role, email } }` */
  datatype LoginBody = LoginBody(success: bool, token: string, user: AuthUser)

  datatype RegisterRequest = RegisterRequest(
    userId: Option<string>,
    username: Option<string>,
    password: Option<string>,
    fullName: Option<string>,
    role: Option<string>,
    email: Option<string>,
    dateOfBirth: Option<string>,
    address: Option<string>,
    phoneNumber: Option<string>)

  /** `userId`, `username`, `password`, `fullName` and `role` are all given
      and non-empty. */
  predicate RequiredFieldsPresent(req: RegisterRequest)
  {
    Truthy(req.userId) && Truthy(req.username) && Truthy(req.password)
    && Truthy(req.fullName) && Truthy(req.role)
  }

  /** The row `register` inserts. */
  function NewUserRow(req: RegisterRequest, passwordHash: string): UserRow
    requires RequiredFieldsPresent(req)
  {
    UserRow(req.username.value, passwordHash, req.fullName.value, req.role.value,
            OrNull(req.email), OrNull(req.dateOfBirth), OrNull(req.address), OrNull(req.phoneNumber))
  }

  class UserDatabase {
    /** `users`, keyed by `user_id`. */
    var users: map<string, UserRow>
    var students: set<string>
    var lecturers: set<string>
    var admins: set<string>

    constructor (users: map<string, UserRow>, students: set<string>, lecturers: set<string>, admins: set<string>)
      ensures this.users == users && this.students == students
      ensures this.lecturers == lecturers && this.admins == admins
    {
      this.users := users;
      this.students := students;
      this.lecturers := lecturers;
      this.admins := admins;
    }

    predicate HasUsername(username: string)
      reads this
    {
      exists id :: id in users && users[id].username == username
    }

    /** No two users share a username. */
    predicate UsernamesUnique()
      reads this
    {
      forall a, b :: a in users && b in users && users[a].username == users[b].username ==> a == b
    }

    /** Every role-table row refers to a user, and a user is in the role
        table of its role and in no other. */
    predicate RoleTablesAgree()
      reads this
    {
      students <= users.Keys && lecturers <= users.Keys && admins <= users.Keys
      && forall id :: id in users ==>
           (id in students <==> users[id].role == "student")
           && (id in lecturers <==> users[id].role == "lecturer")
           && (id in admins <==> users[id].role == "admin")
    }

    /** `login`. Both failures after the input check answer with the same
        401 "Invalid credentials". */
    method Login(req: LoginRequest, matches: (string, string) -> bool, sign: string -> string)
      returns (r: Reply<LoginBody>)
      ensures !Truthy(req.username) || !Truthy(req.password) ==>
        r == Raise(400, "Please provide username and password")
      ensures Truthy(req.username) && Truthy(req.password) && !HasUsername(req.username.value) ==>
        r == Raise(401, "Invalid credentials")
      ensures Truthy(req.username) && Truthy(req.password)
              && (forall id :: id in users && users[id].username == req.username.value
                               ==> !matches(req.password.value, users[id].passwordHash)) ==>
        r == Raise(401, "Invalid credentials")
      ensures r.Raise? ==> r.status in {400, 401}
      ensures r.Raise? && r.status == 401 ==> r.message == "Invalid credentials"
      ensures r.Respond? ==>
        Truthy(req.username) && Truthy(req.password) && r.status == 200
        && exists id :: id in users && users[id].username == req.username.value
                        && matches(req.password.value, users[id].passwordHash)
                        && r.body == LoginBody(true, sign(id), AuthUserOf(id, users[id]))
      ensures UsernamesUnique() ==>
        (r.Respond? <==> Truthy(req.username) && Truthy(req.password)
                         && exists id :: id in users && users[id].username == req.username.value
                                         && matches(req.password.value, users[id].passwordHash))
    {
      if !Truthy(req.username) || !Truthy(req.password) {
        return Raise(400, "Please provide username and password");
      }
      var username, password := req.username.value, req.password.value;
      if !HasUsername(username) {
        return Raise(401, "Invalid credentials");
      }
      var id :| id in users && users[id].username == username;
      var row := users[id];
      if !matches(password, row.passwordHash) {
        return Raise(401, "Invalid credentials");
      }
      r := Respond(200, LoginBody(true, sign(id), AuthUserOf(id, row)));
    }

    /** `register` (reached by admins only, see the routes): required
        fields, then a known role, then no clash on id or username; then
        one row in `users` and one in the role's own table. */
    method Register(req: RegisterRequest, hash: string -> string) returns (r: Reply<string>)
      modifies this
      ensures !RequiredFieldsPresent(req) ==> r == Raise(400, "Please provide all required fields")
      ensures RequiredFieldsPresent(req) && ParseRole(req.role.value).None? ==> r == Raise(400, "Invalid role")
      ensures RequiredFieldsPresent(req) && ParseRole(req.role.value).Some?
              && (req.userId.value in old(users) || old(HasUsername(req.username.value))) ==>
        r == Raise(400, "User already exists")
      ensures r.Respond? <==>
        RequiredFieldsPresent(req) && ParseRole(req.role.value).Some?
        && req.userId.value !in old(users) && !old(HasUsername(req.username.value))
      ensures r.Raise? ==>
        users == old(users) && students == old(students) && lecturers == old(lecturers) && admins == old(admins)
      ensures r.Respond? ==>
        r == Respond(201, "User registered successfully")
        && users == old(users)[req.userId.value := NewUserRow(req, hash(req.password.value))]
        && students == old(students) + (if req.role.value == "student" then {req.userId.value} else {})
        && lecturers == old(lecturers) + (if req.role.value == "lecturer" then {req.userId.value} else {})
        && admins == old(admins) + (if req.role.value == "admin" then {req.userId.value} else {})
      ensures old(RoleTablesAgree()) ==> RoleTablesAgree()
      ensures old(UsernamesUnique()) ==> UsernamesUnique()
    {
      if !RequiredFieldsPresent(req) {
        return Raise(400, "Please provide all required fields");
      }
      var role := ParseRole(req.role.value);
      if role.None? {
        return Raise(400, "Invalid role");
      }
      var userId := req.userId.value;
      if userId in users || HasUsername(req.username.value) {
        return Raise(400, "User already exists");
      }
      users := users[userId := NewUserRow(req, hash(req.password.value))];
      match role.value {
        case Student => students := students + {userId};
        case Lecturer => lecturers := lecturers + {userId};
        case Admin => admins := admins + {userId};
      }
      r := Respond(201, "User registered successfully");
    }
  }
}
