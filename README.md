# OCMS course management — a Dafny model of its core rules

OCMS is an online course-management system. Students, lecturers and
administrators use it to browse courses and classes, enrol, read
announcements, and manage accounts. This project models two parts of it
and proves properties of the model.

The client side has four parts:

- the in-memory course and class store, with its per-class seat counter (`CourseModel.ts`);
- the user store, with its mock password and role-to-permission table (`UserModel.ts`);
- the login state, kept in memory and in browser storage (`AuthController.ts`);
- the role-gated controllers over those stores (`CourseController.ts`, `AnnouncementController.ts`).

The Express back end has four parts:

- login and registration (`authController.js`);
- course create, read, update and delete with a referential check (`courseController.js`);
- the `protect` and `authorize` middleware (`middleware/auth.js`);
- the error-to-HTTP mapping (`errorHandler.js`), and the route tables that chain them (`routes/*.js`).

How the source is represented:

- **Stores that the source mutates become classes.** `CourseStore`, `UserStore`, `AuthSession`, `AnnouncementBoard`, `UserDatabase` and `CourseDatabase` are Dafny classes. Their methods change `seq` or `map` fields, and each method is tied to a pure function (`Enroll`, `Unenroll`, `Toggle`, the merge functions) or states its whole new state.
- **Pure rules are functions with lemmas.** This covers visibility, sorting, search, the middleware, the error mapping and the route chains.
- **Database tables are maps.** The back end's tables are `map`s keyed by their primary key. A role table is a `set` of user ids.
- **Foreign code and non-deterministic inputs are parameters.** bcrypt, jsonwebtoken, `Date.now()`, `new Date()` and `NODE_ENV` are all passed in.

Modules (one per file):

- **`Base`**: options, roles, first-index lookup and `filter`.
- **`Text`**: `startsWith`, `split(' ')[1]`, `toLowerCase`, `trim` and `includes`.
- **`Entities`**: the client records.
- **`CourseModel`, `UserModel`, `AuthController`, `CourseController` and `AnnouncementController`**: the client side.
- **`ApiTypes`, `AuthApi`, `CourseApi`, `AuthMiddleware`, `ErrorHandler` and `Routes`**: the back end.

## Model

| member | source | states |
|---|---|---|
| Base.ParseRole | OCMS/backend/controllers/authController.js:105-108 | the role string is recognised exactly when it is `student`, `lecturer` or `admin`, and the role found is named by that string |
| Base.ParseRoleName | OCMS/backend/controllers/authController.js:105-108 | every role's own name parses back to that role |
| Base.IndexOf | OCMS/src/models/CourseModel.ts:117-134 | `findIndex`/`find` on a key: the result is the first position holding the key; it is absent exactly when no element has the key |
| Base.IndexOfFirst | OCMS/src/models/CourseModel.ts:117-134 | any first occurrence is the one the lookup returns |
| Base.Filter | OCMS/src/models/CourseModel.ts:142-151 | `filter`: exactly the elements satisfying the predicate are kept, each with its full multiplicity, and nothing else is added |
| Base.FilterCons | OCMS/src/models/CourseModel.ts:142-151 | a list with a first element filters to that element, when it passes, followed by the filtered rest |
| Base.FilterAppend | OCMS/src/models/CourseModel.ts:142-151 | filtering a concatenation is concatenating the filtered parts, so `filter` keeps the original order |
| Base.FilterPartition | OCMS/src/controllers/AnnouncementController.ts:174-184 | two complementary filters of one list have sizes adding up to the list's length |
| Text.SplitSecond | OCMS_backup/backend/middleware/auth.js:11 | `split(' ')[1]` is undefined exactly when there is no space, and is otherwise space-free |
| Text.SplitSecondOfJoined | OCMS_backup/backend/middleware/auth.js:11 | splitting `word + " " + token` (with anything after a further space) gives back the token |
| Text.Lower | OCMS/src/controllers/AnnouncementController.ts:192-196 | `toLowerCase` keeps the length and lowers each character |
| Text.LowerIdempotent | OCMS/src/controllers/AnnouncementController.ts:192-196 | lowering twice is lowering once |
| Text.TrimStart | OCMS/src/controllers/AnnouncementController.ts:190 | the result is a suffix starting with non-white-space, and only white space was removed |
| Text.TrimEnd | OCMS/src/controllers/AnnouncementController.ts:190 | the result is a prefix ending with non-white-space, and only white space was removed |
| Text.Trim | OCMS/src/controllers/AnnouncementController.ts:190 | `trim()` returns a contiguous part of the string with only white space before and after it, and the part neither starts nor ends with white space |
| Text.TrimEmptyIffBlank | OCMS/src/controllers/AnnouncementController.ts:190 | `query.trim()` is empty exactly when every character is white space |
| Text.Includes | OCMS/src/controllers/AnnouncementController.ts:192-196 | `includes` holds exactly when the needle occurs at some position |
| CourseModel.Available | OCMS/src/models/CourseModel.ts:160-164 | `isClassAvailable` is false for an unknown id; otherwise it holds exactly when the first class with the id has `currentEnrollment < capacity` |
| CourseModel.Enroll | OCMS/src/models/CourseModel.ts:167-173 | succeeds exactly when the class is available; on failure nothing changes; on success only the found class's counter goes up by one |
| CourseModel.Unenroll | OCMS/src/models/CourseModel.ts:176-182 | succeeds exactly when the class exists with a positive counter; on failure nothing changes; on success the counter goes down by one |
| CourseModel.SameIdsAfterCount | OCMS/src/models/CourseModel.ts:171 | changing a seat counter moves no class id, so later lookups find the same class |
| CourseModel.EnrollTouchesOneClass | OCMS/src/models/CourseModel.ts:167-173 | a successful enrolment adds exactly one seat to the found class, keeps its capacity, and leaves every other class equal |
| CourseModel.EnrollKeepsSeatsWithinCapacity | OCMS/src/models/CourseModel.ts:167-173 | enrolment preserves `0 <= currentEnrollment <= capacity` for every class |
| CourseModel.UnenrollKeepsSeatsWithinCapacity | OCMS/src/models/CourseModel.ts:176-182 | unenrolment preserves the invariant; a counter never goes negative |
| CourseModel.AddClassKeepsSeatsIff | OCMS/src/models/CourseModel.ts:154-157 | `addClass` checks nothing: appending keeps the invariant exactly when the new class satisfies it |
| CourseModel.EnrollThenUnenroll | OCMS/src/models/CourseModel.ts:167-182 | a successful enrolment followed by an unenrolment of the same class succeeds and restores the original list |
| CourseModel.CapacityOneScenario | OCMS/src/models/CourseModel.ts:160-182 | one seat: the first enrolment succeeds, the second fails with nothing changed; after an unenrolment, the next enrolment succeeds |
| CourseModel.CourseStore.constructor | OCMS/src/models/CourseModel.ts:6-72 | the store starts with the given courses and classes |
| CourseModel.CourseStore.GetCourseByCode | OCMS/src/models/CourseModel.ts:101-103 | absent exactly when no course has the code; otherwise the first stored course with that code |
| CourseModel.CourseStore.GetCoursesByType | OCMS/src/models/CourseModel.ts:106-108 | exactly the stored courses of the type, each as often as it is stored |
| CourseModel.CourseStore.GetClassesByCourse | OCMS/src/models/CourseModel.ts:142-144 | exactly the stored classes of the course, each as often as it is stored |
| CourseModel.CourseStore.GetClassesBySemester | OCMS/src/models/CourseModel.ts:147-151 | exactly the stored classes of that semester code and year, each as often as it is stored |
| CourseModel.CourseStore.IsClassAvailable | OCMS/src/models/CourseModel.ts:160-164 | true exactly when the first class with the id has a free seat |
| CourseModel.CourseStore.GetCourseDetails | OCMS/src/models/CourseModel.ts:200-203 | the first course with the code if there is one, and exactly the classes of that code, each as often as stored |
| CourseModel.CourseStore.AddCourse | OCMS/src/models/CourseModel.ts:111-114 | the course is appended unchecked and returned; classes unchanged |
| CourseModel.CourseStore.UpdateCourse | OCMS/src/models/CourseModel.ts:117-124 | null with no change for an unknown code; otherwise the first course with the code is replaced by its merge with the updates, which is returned, and no other course changes |
| CourseModel.CourseStore.DeleteCourse | OCMS/src/models/CourseModel.ts:127-134 | false with no change for an unknown code; otherwise exactly the first matching course is removed |
| CourseModel.CourseStore.AddClass | OCMS/src/models/CourseModel.ts:154-157 | the class is appended unchecked and returned |
| CourseModel.CourseStore.EnrollStudent | OCMS/src/models/CourseModel.ts:167-173 | result and new class list are those of `Enroll`; courses unchanged |
| CourseModel.CourseStore.UnenrollStudent | OCMS/src/models/CourseModel.ts:176-182 | result and new class list are those of `Unenroll`; courses unchanged |
| UserModel.SharedPermissions | OCMS_backup/src/models/UserModel.ts:99-108 | the lecturer and student permission lists share only `view_courses`, and an admin holds every permission of both |
| UserModel.UserStore.constructor | OCMS_backup/src/models/UserModel.ts:6-36 | the store starts with the given users |
| UserModel.UserStore.GetUserById | OCMS_backup/src/models/UserModel.ts:39-41 | absent exactly when no user has the id; otherwise the first stored user with the id |
| UserModel.UserStore.GetUserByUsername | OCMS_backup/src/models/UserModel.ts:44-46 | absent exactly when no user has the username; otherwise the first stored user with it |
| UserModel.UserStore.GetUsersByRole | OCMS_backup/src/models/UserModel.ts:49-51 | exactly the stored users of the role, each as often as it is stored |
| UserModel.UserStore.Authenticate | OCMS_backup/src/models/UserModel.ts:84-91 | a user is returned exactly when the username exists and the password is `password123`, and it is the first stored user with that username |
| UserModel.UserStore.HasPermission | OCMS_backup/src/models/UserModel.ts:94-109 | false for an unknown id, always true for an admin, otherwise the role's fixed permission list decides |
| UserModel.UserStore.GetProfile | OCMS_backup/src/models/UserModel.ts:112-136 | a profile exactly when the first user with the id has the requested role; it then carries that id and that first user |
| UserModel.UserStore.GetStudent | OCMS_backup/src/models/UserModel.ts:112-118 | a value exactly when the first user with the id is a student; it is then `{ studentId, user }` with that first user |
| UserModel.UserStore.GetLecturer | OCMS_backup/src/models/UserModel.ts:121-127 | a value exactly when the first user with the id is a lecturer; it is then `{ lecturerId, user }` with that first user |
| UserModel.UserStore.GetAdmin | OCMS_backup/src/models/UserModel.ts:130-136 | a value exactly when the first user with the id is an admin; it is then `{ adminId, user }` with that first user |
| UserModel.UserStore.AddUser | OCMS_backup/src/models/UserModel.ts:54-61 | the user gets the id `USER` followed by the clock reading and is appended, nothing else changes |
| UserModel.UserStore.UpdateUser | OCMS_backup/src/models/UserModel.ts:64-71 | null with no change for an unknown id; otherwise only the first matching user is replaced by the merge, which is returned |
| UserModel.UserStore.DeleteUser | OCMS_backup/src/models/UserModel.ts:74-81 | false with no change for an unknown id; otherwise exactly the first matching user is removed |
| AuthController.AuthSession.constructor | OCMS/src/controllers/AuthController.ts:7 | a fresh page holds no user in memory, whatever the storage holds |
| AuthController.AuthSession.IsLoggedIn | OCMS/src/controllers/AuthController.ts:47-49 | true exactly when the in-memory field holds a user; it never restores, so when false the user a later lookup would get is the stored one |
| AuthController.AuthSession.Login | OCMS/src/controllers/AuthController.ts:10-33 | empty username or password fails with "Username and password are required"; failed authentication fails with "Invalid username or password"; both leave the state unchanged; success exactly when authentication succeeds, and then field and storage hold the authenticated user |
| AuthController.AuthSession.Logout | OCMS/src/controllers/AuthController.ts:36-44 | reports success; field and storage are cleared and the session is no longer logged in |
| AuthController.AuthSession.GetCurrentUser | OCMS/src/controllers/AuthController.ts:52-61 | returns the field when set, otherwise the stored user, which then becomes the field; storage unchanged |
| AuthController.AuthSession.HasPermission | OCMS/src/controllers/AuthController.ts:64-68 | false without a user, otherwise the model's permission check for the user's id |
| AuthController.AuthSession.HasRole | OCMS/src/controllers/AuthController.ts:71-74 | true exactly when there is a current user with the role |
| AuthController.AuthSession.GetCurrentRole | OCMS/src/controllers/AuthController.ts:77-80 | null exactly when there is no current user, otherwise that user's role |
| AuthController.AuthSession.UpdateUserProfile | OCMS/src/controllers/AuthController.ts:83-103 | fails with "User not logged in" or "Failed to update user" with the user list unchanged; succeeds exactly when the current user's id is stored, and then the merged user is stored, current and returned |
| AuthController.AuthSession.ChangePassword | OCMS/src/controllers/AuthController.ts:106-123 | fails without a user or with a current password other than `password123`, succeeds otherwise, and never changes a user |
| AuthController.AuthSession.InitializeAuth | OCMS/src/controllers/AuthController.ts:126-135 | a stored user becomes the current user; otherwise nothing changes |
| CourseController.GetCoursesForCurrentUser | OCMS/src/controllers/CourseController.ts:19-36 | empty without a user, every course for any role |
| CourseController.GetClassesForCurrentUser | OCMS/src/controllers/CourseController.ts:136-153 | empty without a user, every class for any role |
| CourseController.AddCourse | OCMS/src/controllers/CourseController.ts:44-56 | a non-admin gets "Only administrators can add courses" with the store unchanged; an admin's course is appended |
| CourseController.UpdateCourse | OCMS/src/controllers/CourseController.ts:59-86 | checks in order: no user gives "User not logged in", an unknown code gives "Course not found", a non-admin gives "Insufficient permissions"; success exactly when all pass, merging into the found course |
| CourseController.DeleteCourse | OCMS/src/controllers/CourseController.ts:89-104 | the admin check comes first; an admin deleting an unknown code gets "Course not found"; success removes exactly that course |
| CourseController.AddClass | OCMS/src/controllers/CourseController.ts:156-173 | missing user or non-admin fails with the class list unchanged; an admin's class is appended |
| CourseController.EnrollStudent | OCMS/src/controllers/CourseController.ts:196-216 | non-students get "Only students can enroll in classes"; an unavailable (or unknown) class gives "Class is full"; both leave the classes unchanged; success raises the counter through `Enroll` |
| CourseController.UnenrollStudent | OCMS/src/controllers/CourseController.ts:219-235 | non-students are refused; the model's refusal gives "Failed to unenroll from class"; success lowers the counter through `Unenroll` |
| CourseController.GetCourseDetails | OCMS/src/controllers/CourseController.ts:238-249 | fails with "Course not found" exactly when no course has the code; otherwise the first course with the code and exactly its classes, each as often as stored |
| AnnouncementController.AsWrittenNoRoleSeesBoth | OCMS/src/controllers/AnnouncementController.ts:98-115 | as written, a system announcement for students is shown only for the role string `students`, so no role sees it together with a class announcement |
| AnnouncementController.StudentSeesBoth | OCMS/src/controllers/AnnouncementController.ts:98-115 | with the role's own audience, a student sees both |
| AnnouncementController.SystemPostAudience | OCMS/src/controllers/AnnouncementController.ts:98-101 | a system announcement is shown to a role exactly when it targets `all` or that role's audience |
| AnnouncementController.ClassPostAudience | OCMS/src/controllers/AnnouncementController.ts:105-115 | a class announcement with a class id is shown to every student, to a lecturer exactly when posted under their full name, never to an admin |
| AnnouncementController.PrependNewest | OCMS/src/controllers/AnnouncementController.ts:116 | an announcement at least as new as a sorted list stays sorted in front of it |
| AnnouncementController.SortedTail | OCMS/src/controllers/AnnouncementController.ts:116 | the tail of a newest-first list is newest-first and no newer than its head |
| AnnouncementController.InsertByDate | OCMS/src/controllers/AnnouncementController.ts:116 | inserting into a newest-first list keeps it newest-first and adds exactly that announcement |
| AnnouncementController.SortNewestFirst | OCMS/src/controllers/AnnouncementController.ts:116 | the sort returns a newest-first permutation of its input |
| AnnouncementController.FilterKeepsNewestFirst | OCMS/src/controllers/AnnouncementController.ts:187-197 | filtering a newest-first list keeps it newest-first |
| AnnouncementController.Toggle | OCMS/src/controllers/AnnouncementController.ts:165-171 | false with no change for an unknown id; otherwise only the first match's `isPublished` flips |
| AnnouncementController.ToggleTwice | OCMS/src/controllers/AnnouncementController.ts:165-171 | toggling twice restores the list |
| AnnouncementController.AnnouncementBoard.constructor | OCMS/src/controllers/AnnouncementController.ts:18-90 | the board starts with the given announcements |
| AnnouncementController.AnnouncementBoard.ForUser | OCMS/src/controllers/AnnouncementController.ts:93-117 | exactly the visible announcements, each as often as stored, newest first |
| AnnouncementController.AnnouncementBoard.ForUserAsWritten | OCMS/src/controllers/AnnouncementController.ts:93-117 | the list with the audience comparison as written: exactly the announcements `VisibleAsWritten` lets through, each as often as stored, newest first |
| AnnouncementController.AnnouncementBoard.StudentSystemPostHiddenAsWritten | OCMS/src/controllers/AnnouncementController.ts:98-101 | a stored system announcement for students is missing from a student's list as written and present with the corrected comparison |
| AnnouncementController.AnnouncementBoard.ByLecturer | OCMS/src/controllers/AnnouncementController.ts:120-125 | exactly the class announcements posted under the name, each as often as stored, newest first |
| AnnouncementController.AnnouncementBoard.System | OCMS/src/controllers/AnnouncementController.ts:128-132 | exactly the system announcements, each as often as stored, newest first |
| AnnouncementController.AnnouncementBoard.Stats | OCMS/src/controllers/AnnouncementController.ts:174-184 | `total` is the size of the user's list; `published`, `highPriority`, `system` and `class` each count the stored announcements the user sees that have the property; `system + class == total` |
| AnnouncementController.CountAllVisible | OCMS/src/controllers/AnnouncementController.ts:174-184 | in any list holding exactly the visible announcements, each filter counts the visible stored announcements with the property, whatever the order |
| AnnouncementController.AnnouncementBoard.Search | OCMS/src/controllers/AnnouncementController.ts:187-197 | a blank query gives the user's whole list; any other query gives exactly the listed announcements whose title, content or author contains it case-insensitively, each as often as listed, still newest first |
| AnnouncementController.AnnouncementBoard.GetAnnouncementsForUser | OCMS/src/controllers/AnnouncementController.ts:93-117 | the visible list for the role, with the current user's full name, if any, for the lecturer check |
| AnnouncementController.AnnouncementBoard.Create | OCMS/src/controllers/AnnouncementController.ts:135-144 | the announcement with a fresh id and the current time is placed first, growing the list by exactly one |
| AnnouncementController.AnnouncementBoard.Update | OCMS/src/controllers/AnnouncementController.ts:147-153 | null with no change for an unknown id; otherwise only the first match is replaced by the merge, which is returned |
| AnnouncementController.AnnouncementBoard.Delete | OCMS/src/controllers/AnnouncementController.ts:156-162 | false with no change for an unknown id; otherwise exactly the first match is removed |
| AnnouncementController.AnnouncementBoard.TogglePublishStatus | OCMS/src/controllers/AnnouncementController.ts:165-171 | result and new list are those of `Toggle` |
| ApiTypes.OrNull | OCMS/backend/controllers/authController.js:137-140 | `value \|\| null` is present exactly when the field is a non-empty string, and is then that field |
| AuthApi.UserDatabase.constructor | OCMS/backend/controllers/authController.js:92-171 | the tables start as given |
| AuthApi.UserDatabase.Login | OCMS/backend/controllers/authController.js:9-61 | a missing username or password gives 400; an unknown username and a wrong password both give the same 401 "Invalid credentials"; success returns a token signed over the user's id and the user's id, username, full name, role and email, and with unique usernames succeeds exactly when the password matches |
| AuthApi.UserDatabase.Register | OCMS/backend/controllers/authController.js:92-171 | in order, a missing field, an unknown role, or an existing id or username gives 400 with nothing inserted; success inserts one user row and one row in the role's own table only, keeping role tables and unique usernames consistent |
| CourseApi.CourseDatabase.constructor | OCMS_backup/backend/controllers/courseController.js:1-2 | the tables start as given |
| CourseApi.CourseDatabase.GetCourse | OCMS_backup/backend/controllers/courseController.js:27-47 | 404 "Course not found" exactly for an unknown code, otherwise the stored row |
| CourseApi.CourseDatabase.CreateCourse | OCMS_backup/backend/controllers/courseController.js:52-91 | a falsy field (a credit of 0 included) gives 400 before the type check; a type other than L, P, T gives 400; an existing code gives 400 "Course already exists"; success inserts exactly the given row with 201; references stay valid |
| CourseApi.CourseDatabase.UpdateCourse | OCMS_backup/backend/controllers/courseController.js:96-127 | 404 exactly for an unknown code; otherwise only that code's name, credit and type are overwritten |
| CourseApi.CourseDatabase.DeleteCourse | OCMS_backup/backend/controllers/courseController.js:132-164 | unknown code gives 404, a code used by a class gives 400, both with no change; otherwise exactly that course is removed and no class is left dangling |
| AuthMiddleware.Protect | OCMS_backup/backend/middleware/auth.js:5-44 | no Bearer header gives 401 "Not authorized, no token"; any other refusal is 401 "Not authorized, token failed"; through exactly when the token verifies to an existing user id, with `req.user` that user |
| AuthMiddleware.ProtectBearerToken | OCMS_backup/backend/middleware/auth.js:8-37 | for `Bearer <token>` (with anything after a further space), the request passes exactly when the token verifies to an existing user, who becomes `req.user`; otherwise it gets 401 "token failed" |
| AuthMiddleware.BearerWord | OCMS_backup/backend/middleware/auth.js:8 | a header built on `Bearer` starts with it, and the word holds no space |
| AuthMiddleware.ProtectDecoded | OCMS_backup/backend/middleware/auth.js:14-37 | with a Bearer header whose second piece is the token, `protect` passes exactly when the token verifies to an existing user |
| AuthMiddleware.BearerTokenHeader | OCMS_backup/backend/middleware/auth.js:8-14 | a header starting with `Bearer` whose second piece is a non-empty token is decoded by verifying that token |
| AuthMiddleware.Authorize | OCMS_backup/backend/middleware/auth.js:46-59 | no user gives 401; a role outside the list gives 403 naming the role; otherwise `next` with the same user |
| ErrorHandler.TextOf | OCMS_backup/backend/middleware/errorHandler.js:45 | the error text is never empty (`'Server Error'` stands in) |
| ErrorHandler.StackFor | OCMS_backup/backend/middleware/errorHandler.js:46 | the stack is included exactly in development, and is then the error's |
| ErrorHandler.HandleError | OCMS_backup/backend/middleware/errorHandler.js:1-48 | the reply always has `success: false`, a non-zero status and a non-empty error; the stack appears exactly in development; a SQL number gives 400 or 500 |
| ErrorHandler.CastErrorIsNotFound | OCMS_backup/backend/middleware/errorHandler.js:9-12 | a `CastError` is 404 "Resource not found" unless a later rule applies |
| ErrorHandler.DuplicateKeyIsBadRequest | OCMS_backup/backend/middleware/errorHandler.js:15-18 | code 11000 is 400 "Duplicate field value entered" unless a later rule applies |
| ErrorHandler.ValidationErrorListsFields | OCMS_backup/backend/middleware/errorHandler.js:21-24 | a `ValidationError` is 400 listing every field message unless a SQL number applies |
| ErrorHandler.SqlNumberDecides | OCMS_backup/backend/middleware/errorHandler.js:27-41 | a truthy SQL number overrides everything: 2627 and 547 give 400, 208 and any other number give 500, with the fixed texts or the original message |
| ErrorHandler.OtherErrorKeepsOwnStatus | OCMS_backup/backend/middleware/errorHandler.js:2-45 | any other error keeps its own truthy `statusCode`, else gets 500, and keeps its message |
| ErrorHandler.AsWrittenDiscardsResponseStatus | OCMS_backup/backend/middleware/errorHandler.js:2-43 | as written, an error thrown with `new Error` after `res.status(s)` is answered with 500 whatever `s` was |
| ErrorHandler.HandleErrorKeepingStatus | OCMS_backup/backend/middleware/errorHandler.js:43-47 | the corrected handler: same body as the original, `success: false`, stack only in development |
| ErrorHandler.PlainErrorKeepsResponseStatus | OCMS_backup/backend/middleware/errorHandler.js:43 | with the correction, `res.status(s); throw new Error(m)` is answered with `s` and `m` |
| ErrorHandler.KeepingStatusAgreesOtherwise | OCMS_backup/backend/middleware/errorHandler.js:9-43 | the correction changes nothing when the status is still the default or a mapping or own status applies |
| Routes.SelfOrAdminGate | OCMS_backup/backend/routes/students.js:22-29 | passes exactly for an admin or the student themself, keeping `req.user`; an authenticated caller is otherwise refused with 403 "Not authorized to access this student data" |
| Routes.RunGuards | OCMS_backup/backend/routes/students.js:16-29 | no middleware passes the request on unchanged; any refusal is a 401, 403 or 500 |
| Routes.ProtectRefusesFirst | OCMS/backend/routes/courses.js:15 | when `protect` refuses, its 401 is the answer whatever follows it |
| Routes.ProtectThenAuthorize | OCMS/backend/routes/courses.js:15-25 | `protect` then `authorize(roles)`: 401 for an unauthenticated caller, through exactly when the role is listed, 403 otherwise |
| Routes.ProtectThenSelfOrAdmin | OCMS_backup/backend/routes/students.js:16-29 | `protect` then the admin-or-self check: through exactly for an authenticated admin or owner, 403 for any other authenticated caller |
| Routes.CourseRouteTable | OCMS/backend/routes/courses.js:15-25 | every course route runs `protect` first; the three reads need nothing else, the writes need `admin` |
| Routes.StudentRouteTable | OCMS_backup/backend/routes/students.js:16-75 | every student route runs `protect` first; the list needs `admin`, all six `/:id` routes the same admin-or-self check |
| Routes.UnauthenticatedGets401 | OCMS/backend/routes/courses.js:15-25 | a caller without a valid token gets 401, never 403, on every course and student route |
| Routes.Dispatch | OCMS_backup/backend/routes/auth.js:8-12 | a refusing middleware's status and message become the error reply; otherwise the handler's reply is returned, or its raised status and message become the error reply |
| Routes.HandlerNotReached | OCMS_backup/backend/routes/students.js:26-28 | when a middleware refuses, the handler is not reached: any handler gives the same response, which with the corrected error handler carries the middleware's status |
| Routes.RegisterNeedsAdmin | OCMS_backup/backend/routes/auth.js:12 | an authenticated non-admin calling `/register` is refused by `authorize` before `register` runs; with the corrected error handler the reply is 403 |
| Routes.DispatchAsWritten | OCMS_backup/backend/middleware/errorHandler.js:2-43 | with the error handler as written, every refusal and every raised error is answered with 500; the body and every successful reply are those of `Dispatch` |
| Routes.RegisterAsWrittenGets500 | OCMS_backup/backend/routes/auth.js:12 | as written, the same non-admin `/register` is answered with 500, where the corrected dispatch gives 403 |
| Routes.LoginIsOpen | OCMS_backup/backend/routes/auth.js:8 | `/login` has no middleware, so its reply is the handler's |
| Routes.MeNeedsLoginOnly | OCMS_backup/backend/routes/auth.js:11 | `/me` runs `protect` alone |

## Left out

- **Persistence and foreign code.** `localStorage` and its JSON encoding are a plain field (`AuthSession.stored`). The SQL Server connection pool and query execution are replaced by maps. bcrypt, jsonwebtoken and the JWT secret are function parameters.
- **Clocks.** `Date.now()` and `new Date()` are parameters (`Create`'s id and time, `AddUser`'s clock digits). Announcement timestamps are whole numbers rather than parsed ISO strings.
- **Logging and error catching.** `console.error` output is not modelled. The `try`/`catch` blocks of the back-end handlers that only log and rethrow are not modelled.
- **Concurrency.** The model is sequential, so the check-then-update races between requests on a real database are not modelled.
- **Aliasing.** `CourseModel.enrollStudent` changes the class object that `find` returned, and so any reference a caller holds to it. The model replaces the list element instead.
- **Other getters.** These getters are not modelled:
  - `getAllCourses`, `getAllClasses`, `getAllSchedules`, `getAllSemesters` and `getScheduleForClass` in `CourseModel`;
  - `getClassesByLecturer` and `getCoursesByLecturer` in `CourseController`, which only return everything;
  - `getCourses`, `getCourseClasses` and `getMe` in the back end, which are single SQL queries.
- **Defaults that cannot be reached.** The `default` branches of the role `switch`es cannot be reached, because roles are a datatype.
- **Partial updates.** A `Partial<...>` update that holds an explicit `undefined` is treated as an absent field.
- **Database constraints.** SQL collation (case-insensitive key comparison) and the NOT NULL constraints a database would enforce on update are not modelled.
- Text.Lower: lowers only the ASCII letters, while `toLowerCase` also lowers other scripts.
- **Tokens.** For an empty token, the model assumes that verification fails, which is what jsonwebtoken does.
- **Client error branches.** The `catch` branches of `AuthController.ts` are not modelled, because the modelled store lookups cannot throw. These are "Login failed. Please try again." (lines 30-31), "Update failed. Please try again." (100-101) and "Password change failed. Please try again." (120-121). Also left out is `initializeAuth` removing a stored user that does not parse (131-132), because the stored user is a value, not JSON text. The `catch` branches of `CourseController.ts` are left out for the same reason: "Failed to add course" (53-54), "Failed to update course" (83-84), "Failed to delete course" (101-102), "Failed to add class" (170-171), "Failed to enroll in class" (213-214), "Failed to unenroll from class" (232-233) and "Failed to get course details" (246-247). Two returns there cannot be reached: "Failed to update course" at line 79, because the course was found just before, and "Failed to enroll in class" at line 209, because `enrollStudent` fails only when `isClassAvailable` already refused. Neither is modelled.
- AnnouncementController.SortNewestFirst: does not state how announcements with the same timestamp are ordered. The source's `sort` is stable. `InsertByDate` puts an element before the ones with the same timestamp, so the model keeps their original order too, but no lemma says so.
- **Where the code differs from its description.** Here the model follows the code:
  - an unknown class id in `CourseController.enrollStudent` gives "Class is full", not "Class not found";
  - a header `Bearer` that has no token fails with "token failed", not "no token".
- AnnouncementController.AnnouncementBoard.ForUser: uses the corrected audience comparison (see Findings). `VisibleAsWritten` models the comparison as written.
- Routes.Dispatch: uses the corrected error handler (see Findings). `Routes.DispatchAsWritten` models the dispatch with the handler as written.
- Routes.HandlerNotReached: the status it states is the one the corrected handler gives. As written, the status is 500 (`Routes.DispatchAsWritten`).
- Routes.RegisterNeedsAdmin: the 403 it states is the one the corrected handler gives. As written, the reply is 500 (`Routes.RegisterAsWrittenGets500`).
- AnnouncementController.AnnouncementBoard.GetAnnouncementsForUser: returns the list with the corrected audience comparison. `ForUserAsWritten` is the list as written.
- AnnouncementController.AnnouncementBoard.Stats: counts over the list with the corrected audience comparison.
- AnnouncementController.AnnouncementBoard.Search: searches the list with the corrected audience comparison.

## Findings

| source | as written | input that shows it | evidently intended | confidence | as-written member | corrected member |
|---|---|---|---|---|---|---|
| OCMS_backup/backend/middleware/errorHandler.js:2-43 | the status comes from `{ ...err }.statusCode \|\| 500`, and an `Error` made by `new Error(m)` has no own `statusCode` | `res.status(404); throw new Error('Course not found')` in `getCourse` is answered with 500 | keep the status the handler or middleware set (404, 400, 401, 403) | medium, not executed | ErrorHandler.AsWrittenDiscardsResponseStatus | ErrorHandler.PlainErrorKeepsResponseStatus |
| OCMS/src/controllers/AnnouncementController.ts:98-101 | a system announcement's audience (`students`, `lecturers`, `admins`) is compared with the role name (`student`, `lecturer`, `admin`) | `getAnnouncementsForUser('student')` leaves out a published system announcement with audience `students` | show it to the role the audience names | medium, not executed | AnnouncementController.AsWrittenNoRoleSeesBoth | AnnouncementController.SystemPostAudience |
