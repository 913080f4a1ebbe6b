/** `AuthController`: the client-side login state. The static
    `currentUser` field and the `currentUser` entry of `localStorage` are the
    two fields of `AuthSession`; the user list is the `UserStore` of
    `UserModel`. */
module AuthController {
  import opened Base
  import opened Entities
  import opened UserModel

  /** `{ success: true, user }` or `{ success: false, error }` */
  datatype Outcome<T> = Success(value: T) | Failure(error: string)

  /** `{ success: true }` or `{ success: false, error }` */
  datatype Status = Done | Failed(error: string)

  class AuthSession {
    /** `AuthController.currentUser` */
    var currentUser: Option<User>
    /** `localStorage.getItem('currentUser')`, already parsed. */
    var stored: Option<User>

    /** A fresh page: no user in memory, whatever the storage holds. */
    constructor (stored: Option<User>)
      ensures currentUser == None && this.stored == stored
    {
      currentUser := None;
      this.stored := stored;
    }

    /** The user `getCurrentUser` answers with: the field, or failing that
        the stored copy. */
    function Restored(): Option<User>
      reads this
    {
      if currentUser.Some? then currentUser else stored
    }

    /** `isLoggedIn`: looks at the field only and never restores. */
    function IsLoggedIn(): (r: bool)
      reads this
      ensures r <==> currentUser.Some?
      ensures r ==> Restored() == currentUser
      ensures !r ==> Restored() == stored
    {
      currentUser.Some?
    }

    /** `login` */
    method Login(users: UserStore, username: string, password: string) returns (r: Outcome<User>)
      modifies this
      ensures username == [] || password == [] ==>
        r == Failure("Username and password are required")
      ensures username != [] && password != [] && users.Authenticate(username, password).None? ==>
        r == Failure("Invalid username or password")
      ensures r.Success? <==> username != [] && password != [] && users.Authenticate(username, password).Some?
      ensures r.Success? ==>
        r.value == users.Authenticate(username, password).value
        && r.value in users.users && r.value.username == username && password == MockPassword
        && currentUser == Some(r.value) && stored == Some(r.value)
      ensures r.Failure? ==> currentUser == old(currentUser) && stored == old(stored)
    {
      if username == [] || password == [] {
        return Failure("Username and password are required");
      }
      var user := users.Authenticate(username, password);
      if user.None? {
        return Failure("Invalid username or password");
      }
      currentUser := user;
      stored := user;
      r := Success(user.value);
    }

    /** `logout`: `{ success: true }`; clearing the field and the storage
        cannot fail here, so the `catch` branch is never taken. */
    method Logout() returns (success: bool)
      modifies this
      ensures success
      ensures currentUser == None && stored == None
      ensures !IsLoggedIn() && Restored() == None
    {
      currentUser := None;
      stored := None;
      success := true;
    }

    /** `getCurrentUser`: restores the field from storage when it is empty. */
    method GetCurrentUser() returns (r: Option<User>)
      modifies this
      ensures r == old(Restored())
      ensures currentUser == r && stored == old(stored)
      ensures old(currentUser).Some? ==> r == old(currentUser)
      ensures old(currentUser).None? ==> r == old(stored)
      ensures Restored() == old(Restored())
    {
      if currentUser.None? {
        if stored.Some? {
          currentUser := stored;
        }
      }
      r := currentUser;
    }

    /** `hasPermission`: false without a user, otherwise the role table of
        `UserModel` for the user's id. */
    method HasPermission(users: UserStore, permission: string) returns (r: bool)
      modifies this
      ensures currentUser == old(Restored()) && stored == old(stored)
      ensures old(Restored()).None? ==> !r
      ensures old(Restored()).Some? ==> r == users.HasPermission(old(Restored()).value.userId, permission)
    {
      var user := GetCurrentUser();
      if user.None? {
        return false;
      }
      r := users.HasPermission(user.value.userId, permission);
    }

    /** `hasRole` */
    method HasRole(role: Role) returns (r: bool)
      modifies this
      ensures currentUser == old(Restored()) && stored == old(stored)
      ensures r <==> old(Restored()).Some? && old(Restored()).value.role == role
    {
      var user := GetCurrentUser();
      r := user.Some? && user.value.role == role;
    }

    /** `getCurrentRole` */
    method GetCurrentRole() returns (r: Option<Role>)
      modifies this
      ensures currentUser == old(Restored()) && stored == old(stored)
      ensures r.None? <==> old(Restored()).None?
      ensures r.Some? ==> r.value == old(Restored()).value.role
    {
      var user := GetCurrentUser();
      r := if user.Some? then Some(user.value.role) else None;
    }

    /** `updateUserProfile`: merges the updates into the model's copy of the
        current user and makes the result the current user. */
    method UpdateUserProfile(users: UserStore, updates: UserPatch) returns (r: Outcome<User>)
      modifies this, users
      ensures old(Restored()).None? ==>
        r == Failure("User not logged in") && users.users == old(users.users)
      ensures old(Restored()).Some? && old(Restored()).value.userId !in UserIds(old(users.users)) ==>
        r == Failure("Failed to update user") && users.users == old(users.users)
      ensures r.Success? <==> old(Restored()).Some? && old(Restored()).value.userId in UserIds(old(users.users))
      ensures r.Failure? ==> currentUser == old(Restored()) && stored == old(stored)
      ensures r.Success? ==>
        var i := UserIndex(old(users.users), old(Restored()).value.userId).value;
        r.value == MergeUser(old(users.users)[i], updates)
        && users.users == old(users.users)[i := r.value]
        && currentUser == Some(r.value) && stored == Some(r.value)
    {
      var user := GetCurrentUser();
      if user.None? {
        return Failure("User not logged in");
      }
      var updated := users.UpdateUser(user.value.userId, updates);
      if updated.None? {
        return Failure("Failed to update user");
      }
      currentUser := updated;
      stored := updated;
      r := Success(updated.value);
    }

    /** `changePassword` (mock): nothing is stored, only checked. */
    method ChangePassword(currentPassword: string, newPassword: string) returns (r: Status)
      modifies this
      ensures currentUser == old(Restored()) && stored == old(stored)
      ensures old(Restored()).None? ==> r == Failed("User not logged in")
      ensures old(Restored()).Some? && currentPassword != MockPassword ==>
        r == Failed("Current password is incorrect")
      ensures r == Done <==> old(Restored()).Some? && currentPassword == MockPassword
    {
      var user := GetCurrentUser();
      if user.None? {
        return Failed("User not logged in");
      }
      if currentPassword != MockPassword {
        return Failed("Current password is incorrect");
      }
      r := Done;
    }

    /** `initializeAuth`: loads the stored user, if any, into the field. */
    method InitializeAuth()
      modifies this
      ensures old(stored).Some? ==> currentUser == old(stored)
      ensures old(stored).None? ==> currentUser == old(currentUser)
      ensures stored == old(stored)
    {
      if stored.Some? {
        currentUser := stored;
      }
    }
  }
}
