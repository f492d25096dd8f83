# GestionSauna credentials, user validation and frontend stores — a Dafny model

This project models the part of the sauna-management web platform that
deals with who may sign in and with the lists the administration screens
keep:

- the backend **authentication controller** (`login`, `resetPassword`) and
  **credential controller** (`updateCredentialPassword`,
  `updateCredentialStatus`). Each is a step-by-step transition over the
  credential collection. `login`, `resetPassword` and
  `updateCredentialPassword` run inside a MongoDB client session: they look
  a credential up, check it, perhaps rewrite its stored hash, commit or
  abort, and end the session. `updateCredentialStatus` opens no session: it
  looks the credential up and writes its active flag directly;
- the backend **user validator** `validateUserData`. It is a pure chain of
  guards over a loosely typed record, and the first field that breaks its
  rule decides the message;
- the frontend **Vuex stores** for users, roles and authentication. In
  the users and roles stores each mutation changes one state field, and
  each action awaits an API call and then commits mutations, or records
  the error and rethrows. The authentication store mirrors its token into
  browser storage. Its `login` and `resetPassword` rethrow a failed call
  without recording anything, and its `logout` calls no API and swallows
  its own error.

Files:

| file | module | what it holds |
|---|---|---|
| `wrappers.dfy` | `Wrappers` | `Option` (a field that may be `undefined`/`null`) |
| `text.dfy` | `Text` | JavaScript white space, `trim()`, `\d` |
| `json.dfy` | `Json` | loosely typed values, `typeof … === 'object'`, `hasOwnProperty`, store records |
| `keyed_list.dfy` | `KeyedList` | `findIndex`, `filter` by key, replace-first-by-key, and their laws |
| `helpers.dfy` | `Helpers` | the hasher, verifier, token signer and temporary password as values; validator verdicts; replies |
| `credential_store.dfy` | `CredentialStore` | the credential collection, `findOne`, `findByIdAndUpdate`, the `Database` and `Session` classes |
| `auth_controller.dfy` | `AuthController` | `login`, `resetPassword` |
| `credential_controller.dfy` | `CredentialController` | `updateCredentialPassword`, `updateCredentialStatus` |
| `user_validate.dfy` | `UserValidate` | `validateUserData` |
| `api.dfy` | `Api` | how an awaited service call settles, and how an action settles |
| `user_store.dfy` | `UserStore` | the users store |
| `role_store.dfy` | `RoleStore` | the roles store |
| `auth_store.dfy` | `AuthStore` | the authentication store |

## How the model is built

- **Controllers.** Each controller is a `method` over a `Database`
  object. The three session-using controllers create a fresh `Session`
  object and drive it through
  `StartTransaction`, `Write`, `CommitTransaction`, `AbortTransaction` and
  `EndSession`, as the JavaScript does. Writes are staged in the session
  and reach `db.credentials` only on commit. The `try` body of each of
  them, with its `catch`, is its own method (`…InTransaction`); the
  outer method holds the validation and the `finally`.
  `UpdateCredentialStatus` has no session and writes `db.credentials`
  directly.
  - The `ensures` of `Login`, `ResetPassword` and
    `UpdateCredentialPassword` ties the reply, the new collection and the
    session's final state to a pure function: `LoginSpec`, `ResetSpec` or
    `UpdatePasswordSpec`. The `ensures` of `UpdateCredentialStatus` ties
    the reply and the new collection to `StatusSpec`.
  - Those functions carry the properties the code promises as their own
    `ensures`. Lemmas relate several calls, for example a reset followed
    by a temporary-password login.
- **The credential collection** is a sequence in natural order.
  - `findOne` is the first match. It is written over `KeyedList.IndexOf`,
    which is `findIndex`, so `-1` means no match.
  - `findByIdAndUpdate` with `$set` is `UpdateById`, and the document it
    returns is `Updated`.
  - MongoDB's unique `_id` is the predicate `UniqueIds`. The lemmas assume
    it where they need it.
- **Validator.**
  - `ValidateUserData` refuses non-objects. It throws when the object owns
    a key named `hasOwnProperty`, because that key shadows the method the
    validator calls.
  - Otherwise it runs `CheckField` over the fields in `FieldOrder`, and
    the first failure decides (`FirstFailure`).
  - The record-level meaning is the predicate `Acceptable`, built from
    `KeepsRule`: each owned field, stated positively. `ValidIffAcceptable`
    proves that the validator accepts exactly the acceptable objects.
- **Stores.**
  - Each store is a class with one field per state entry.
  - In the users and roles stores, each mutation is a method whose
    `modifies` clause names only its own field, so "touches only its own
    field" is enforced by the frame.
  - In the authentication store, `SetToken` and `RemoveToken` write both
    `token` and its `storage` mirror under `modifies this`. Their
    `ensures` give the new value of both fields and keep `Mirrored()`.
  - Each action that calls the API takes the settled call
    (`Api.Response`) and returns how its own promise settles
    (`Api.Settled`). The authentication store's `Login` and
    `ResetPassword` record no error: on a rejected call they rethrow
    (`Rethrown`). `Logout` calls no API and always returns (`Returned`).
  - The list mutations are specified by `KeyedList` functions:
    - `ADD_*` appends;
    - `UPDATE_*` is `ReplaceFirst`;
    - `DELETE_*` is `Without`.
    Their laws are proved once, in `KeyedList`.

### Behaviour of the code worth knowing

- `login` checks only the credential's own `isActive`
  (Backend/src/controllers/authController.js:36). It does not check the
  owning user's flag, which the login also loads. `InactiveOwnerStillLogsIn`
  states this.
- `updateCredentialStatus` calls `validateCredentialData` on its body
  before the lookup (Backend/src/controllers/credentialController.js:79-83).
  The verdict is a parameter of `StatusSpec`.
- An unknown email at login is answered with 400, not 404
  (Backend/src/controllers/authController.js:32-34).
- A missing owner or role during login is not treated as absent. Reading
  `user.role` or `role.name` from `null` throws, and the `catch` aborts and
  answers 500 (Backend/src/controllers/authController.js:62-69, 76-84).

## Model

| member | source | states |
|---|---|---|
| Text.TrimStart | Backend/src/validators/userValidate.js:11 | the result is a suffix of the input; every dropped character is JavaScript white space; the result does not start with white space |
| Text.TrimEnd | Backend/src/validators/userValidate.js:11 | the result is a prefix of the input; every dropped character is white space; the result does not end with white space |
| Text.Trim | Backend/src/validators/userValidate.js:11 | `trim()` is never longer than its input; a non-empty result neither starts nor ends with white space; it is empty exactly when the input is all white space; the result is a contiguous slice of the input with only white space cut before and after it |
| KeyedList.IndexOf | frontend/src/modules/user/store/index.js:33 | `findIndex` gives -1 exactly when no element has the key; otherwise the index of an element with the key, with no match before it |
| KeyedList.Without | frontend/src/modules/user/store/index.js:39 | `filter` keeps only elements whose key differs, and keeps every such element |
| KeyedList.WithoutAppend | frontend/src/modules/user/store/index.js:39 | filtering distributes over concatenation, so the kept elements keep their relative order |
| KeyedList.WithoutNoMatch | frontend/src/modules/role/store/index.js:36 | deleting an id no element has leaves the list identical |
| KeyedList.WithoutIdempotent | frontend/src/modules/role/store/index.js:36 | deleting the same id twice is deleting it once |
| KeyedList.IndexOfAfterReplace | frontend/src/modules/user/store/index.js:33-35 | after the first match is replaced by an element with the same key, that element is the first match |
| KeyedList.ReplaceFirst | frontend/src/modules/user/store/index.js:32-37 | the length is kept; the first element keyed like the new one becomes the new one; every other element is unchanged; with no match the list is identical |
| KeyedList.ReplaceFirstKeepsKeys | frontend/src/modules/role/store/index.js:29-34 | replacing keeps every element's key at its index |
| KeyedList.ReplaceFirstIdempotent | frontend/src/modules/role/store/index.js:29-34 | updating with the same record twice is updating once |
| KeyedList.WithoutAfterReplace | frontend/src/modules/user/store/index.js:32-40 | deleting an id after updating a record with that id is the same as deleting it directly |
| CredentialStore.FindByEmail | Backend/src/controllers/authController.js:28-30 | `findOne({ email })` finds nothing exactly when no credential has the email; otherwise it finds a stored credential with that email |
| CredentialStore.FindByUser | Backend/src/controllers/credentialController.js:24 | `findOne({ user: id })` finds nothing exactly when no credential belongs to the user; otherwise it finds one of theirs |
| CredentialStore.UpdateById | Backend/src/controllers/credentialController.js:47 | `findByIdAndUpdate` keeps the length and every id, email and owner; credentials with other ids are unchanged; unique ids stay unique; with unique ids, the credential with the id gets the patch |
| CredentialStore.Updated | Backend/src/controllers/credentialController.js:47 | the returned document exists exactly when a credential has the id, and it is the updated credential with that id |
| CredentialStore.UpdatedIsPatched | Backend/src/controllers/credentialController.js:47 | with unique ids, the returned document is the patched credential |
| CredentialStore.EmptyPatch | Backend/src/controllers/credentialController.js:41-47 | an empty `$set` writes nothing |
| CredentialStore.UpdateByIdIdempotent | Backend/src/controllers/authController.js:53-57 | applying the same update twice is applying it once |
| CredentialStore.UpdateKeepsLookups | Backend/src/controllers/authController.js:53-57 | an update by `_id` moves no credential, so lookups by email or owner find the same position |
| CredentialStore.Session.constructor | Backend/src/controllers/authController.js:24 | a new session has no transaction and is not ended |
| CredentialStore.Session.StartTransaction | Backend/src/controllers/authController.js:25 | the transaction opens on the committed collection |
| CredentialStore.Session.Write | Backend/src/controllers/authController.js:53-57 | a write in the session updates only the staged collection and returns the updated document |
| CredentialStore.Session.CommitTransaction | Backend/src/controllers/authController.js:74 | on commit the staged collection becomes the database's |
| CredentialStore.Session.AbortTransaction | Backend/src/controllers/credentialController.js:27 | abort closes the transaction and leaves the database as it was |
| CredentialStore.Session.EndSession | Backend/src/controllers/authController.js:85-88 | the session is ended |
| CredentialStore.AbortIfOpen | Backend/src/controllers/authController.js:77-83 | a transaction that is still open is aborted, and any other state is left alone |
| AuthController.LoginSpec | Backend/src/controllers/authController.js:12-90 | an invalid body gets 400 and no session; 200 exactly when committed; nothing is written on error; an unknown email gets "Usuario no encontrado"; an inactive credential gets "Usuario inactivo"; a bad non-temporary password gets "Contraseña inválida"; success iff active, and the password is the temporary one or verifies, and the owner and role resolve; the token signs id, "name lastName" and role name; the temporary password is re-hashed into the credential, and any other success writes nothing; a success carries "Inicio de sesión exitoso"; an active credential with an accepted password whose owner or role is missing gets the 500 "Error al iniciar sesión"; every non-400 error is that 500 |
| AuthController.Login | Backend/src/controllers/authController.js:12-90 | the reply, the committed collection and the session's final state are those of `LoginSpec` |
| AuthController.LoginInTransaction | Backend/src/controllers/authController.js:22-84 | the `try` body with its `catch`: `LoginSpec`'s reply and collection; committed exactly on success, aborted otherwise |
| AuthController.TempLoginRepeatable | Backend/src/controllers/authController.js:45-57 | a second temporary-password login succeeds with the same token and leaves the collection as the first one left it |
| AuthController.ResetArmsTempLogin | Backend/src/controllers/authController.js:126-134 | after a successful reset, a login with the temporary password succeeds and keeps the reset hash |
| AuthController.LoginWith | Backend/src/controllers/authController.js:45-72 | a temporary-password login on a found, active credential whose claims resolve succeeds and writes the re-hashed password |
| AuthController.TempLoginSupersedesPassword | Backend/src/controllers/authController.js:45-60 | after a temporary-password login, a former password that does not verify against the new hash is refused |
| AuthController.TempLoginSkipsVerify | Backend/src/controllers/authController.js:45-49 | with the temporary password, `verifyPassword` is never consulted |
| AuthController.RefusedBeforePasswordCheck | Backend/src/controllers/authController.js:32-38 | an unknown or inactive credential is refused whatever the password and the collaborators |
| AuthController.InactiveOwnerStillLogsIn | Backend/src/controllers/authController.js:36-38 | only the credential's flag is checked: an inactive owning user does not stop a login |
| AuthController.EmailShapeIsPattern | Backend/src/controllers/authController.js:108-111 | the recogniser accepts exactly the strings of the form a@b.c with a, b, c non-empty and free of white space and `@` |
| AuthController.ResetSpec | Backend/src/controllers/authController.js:92-149 | a non-object body, a missing/blank/non-string email, or a badly formed email gets 400 before any session; 200 exactly when committed; nothing is written on error; unknown email and inactive credential are refused; success exactly when the body is an object whose email is a well-formed non-blank string of an existing active credential, and a success stores the hash of the temporary password |
| AuthController.ResetPassword | Backend/src/controllers/authController.js:92-149 | the reply, the committed collection and the session's final state are those of `ResetSpec` |
| AuthController.ResetInTransaction | Backend/src/controllers/authController.js:113-143 | the `try` body: refused for an unknown or inactive credential, otherwise the temporary hash is stored and committed |
| CredentialController.UpdatePasswordSpec | Backend/src/controllers/credentialController.js:8-73 | an invalid body gets 400 and no session; 200 exactly when committed; nothing is written on error; no credential gets 404; a given current password that fails verification gets 400 before the confirmation check; a mismatched confirmation gets 400; success iff all checks pass; a confirmed new password is hashed in, and without one nothing is written; the reply carries the updated credential |
| CredentialController.UpdateCredentialPassword | Backend/src/controllers/credentialController.js:8-73 | the reply, the committed collection and the session's final state are those of `UpdatePasswordSpec` |
| CredentialController.UpdatePasswordInTransaction | Backend/src/controllers/credentialController.js:18-67 | the `try` body with its explicit aborts and its `catch`: `UpdatePasswordSpec`'s reply and collection; committed exactly on success |
| CredentialController.StatusSpec | Backend/src/controllers/credentialController.js:76-100 | no session is used; an invalid body gets 400; no credential gets 404; nothing is written on error; success writes only the active flag, replies with the updated credential, and says "activada" or "desactivada" according to the flag |
| CredentialController.UpdateCredentialStatus | Backend/src/controllers/credentialController.js:76-100 | the reply and the new collection are those of `StatusSpec` |
| CredentialController.MismatchWritesNothing | Backend/src/controllers/credentialController.js:36-39 | a mismatched confirmation is refused with no write |
| CredentialController.OmittedPasswordSkipsVerify | Backend/src/controllers/credentialController.js:31 | without a current password, `verifyPassword` is never consulted |
| CredentialController.PasswordChangeFrame | Backend/src/controllers/credentialController.js:41-47 | a successful change rewrites only the owner's hash, and only when a new password is given |
| CredentialController.StatusChangeFrame | Backend/src/controllers/credentialController.js:93 | a successful status change flips only the owner's active flag |
| UserValidate.FirstFailureMeaning | Backend/src/validators/userValidate.js:9-92 | the ordered check is valid exactly when every check passes; otherwise it reports a failing check all of whose predecessors pass |
| UserValidate.FirstFailureStep | Backend/src/validators/userValidate.js:9-92 | the ordered check from position i is decided at i when that check fails, and continues at i+1 otherwise |
| UserValidate.ValidateUserData | Backend/src/validators/userValidate.js:3-93 | a non-object gets "Datos inválidos"; an own `hasOwnProperty` key throws; an array is valid |
| UserValidate.PassIffKeepsRule | Backend/src/validators/userValidate.js:9-90 | a field's check passes exactly when the field keeps its positively stated rule |
| UserValidate.OnlyPhoneThrows | Backend/src/validators/userValidate.js:50-52 | the only field check that throws is `phone`, when it is owned and not a string |
| UserValidate.AllFieldsInOrder | Backend/src/validators/userValidate.js:9-90 | every field in the checking order passes exactly when every field passes |
| UserValidate.ValidIffAcceptable | Backend/src/validators/userValidate.js:5-92 | valid exactly for objects that do not shadow `hasOwnProperty` and whose owned fields all keep their rules: non-blank name, lastName, address, password and confirmPassword; a dni of at least ten digits once trimmed; an email that is format-checked only when it is a non-blank string; a string phone, format-checked when non-blank; a boolean isActive; string, valid ObjectId role and `_id` |
| UserValidate.ThrowsOnlyFor | Backend/src/validators/userValidate.js:50-52 | the validator throws exactly for an object that owns `hasOwnProperty`, or that owns a non-string phone after the five earlier fields pass |
| UserValidate.NoCheckedFieldsValid | Backend/src/validators/userValidate.js:92 | an object that owns none of the checked fields is valid |
| UserStore.UserStore.constructor | frontend/src/modules/user/store/index.js:15-21 | the initial state is empty lists, no user and empty messages |
| UserStore.UserStore.SetUsers | frontend/src/modules/user/store/index.js:23-25 | only `users` changes, and it becomes the given list |
| UserStore.UserStore.SetUser | frontend/src/modules/user/store/index.js:26-28 | only `user` changes |
| UserStore.UserStore.AddUser | frontend/src/modules/user/store/index.js:29-31 | the list grows by one, the new last element is the user, and the earlier elements are unchanged |
| UserStore.UserStore.UpdateUser | frontend/src/modules/user/store/index.js:32-37 | the list becomes `ReplaceFirst` of the old one: only the first match changes, and with no match nothing does |
| UserStore.UserStore.DeleteUser | frontend/src/modules/user/store/index.js:38-40 | the list becomes `Without` of the old one, and no remaining user has the id |
| UserStore.UserStore.SetRoles | frontend/src/modules/user/store/index.js:41-43 | only `roles` changes |
| UserStore.UserStore.SetError | frontend/src/modules/user/store/index.js:44-46 | only `error` changes |
| UserStore.UserStore.SetSuccess | frontend/src/modules/user/store/index.js:47-49 | only `success` changes |
| UserStore.UserStore.Fail | frontend/src/modules/user/store/index.js:59-63 | the shared `catch`: the handled error is recorded and the action rethrows |
| UserStore.UserStore.FetchUsers | frontend/src/modules/user/store/index.js:52-64 | on success the list and message are set; on failure only `error` changes and the action rethrows |
| UserStore.UserStore.FetchUser | frontend/src/modules/user/store/index.js:65-77 | on success the current user and message are set; on failure only `error` changes and the action rethrows |
| UserStore.UserStore.CreateUser | frontend/src/modules/user/store/index.js:78-90 | on success the created user is appended; on failure the list is untouched and the action rethrows |
| UserStore.UserStore.UpdateUserAction | frontend/src/modules/user/store/index.js:91-103 | on success the returned user replaces its entry; on failure the list is untouched and the action rethrows |
| UserStore.UserStore.DeleteUserAction | frontend/src/modules/user/store/index.js:104-116 | the requested id is removed only after the request succeeds; on failure the list is untouched and the action rethrows |
| UserStore.UserStore.FetchAndSetRoles | frontend/src/modules/user/store/index.js:117-130 | the roles store fetches its roles, and on success they are copied here; a failure is recorded in both stores and rethrown |
| UserStore.UserStore.UpdateCredentialStatus | frontend/src/modules/user/store/index.js:131-142 | only the message changes on success, and only the error on failure |
| UserStore.UserStore.ResetPasswordCredential | frontend/src/modules/user/store/index.js:143-154 | only the message changes on success, and only the error on failure |
| RoleStore.RoleStore.constructor | frontend/src/modules/role/store/index.js:13-18 | the initial state is an empty list, no role and empty messages |
| RoleStore.RoleStore.SetRoles | frontend/src/modules/role/store/index.js:20-22 | only `roles` changes |
| RoleStore.RoleStore.SetRole | frontend/src/modules/role/store/index.js:23-25 | only `role` changes |
| RoleStore.RoleStore.AddRole | frontend/src/modules/role/store/index.js:26-28 | the role is appended and the existing prefix is kept |
| RoleStore.RoleStore.UpdateRole | frontend/src/modules/role/store/index.js:29-34 | the list becomes `ReplaceFirst` of the old one |
| RoleStore.RoleStore.DeleteRole | frontend/src/modules/role/store/index.js:35-37 | the list becomes `Without` of the old one, and no remaining role has the id |
| RoleStore.RoleStore.SetError | frontend/src/modules/role/store/index.js:38-40 | only `error` changes |
| RoleStore.RoleStore.SetSuccess | frontend/src/modules/role/store/index.js:41-43 | only `success` changes |
| RoleStore.RoleStore.Fail | frontend/src/modules/role/store/index.js:53-57 | the shared `catch`: the handled error is recorded and the action rethrows |
| RoleStore.RoleStore.FetchRoles | frontend/src/modules/role/store/index.js:46-58 | on success the list and message are set; on failure only `error` changes and the action rethrows |
| RoleStore.RoleStore.FetchRole | frontend/src/modules/role/store/index.js:59-71 | on success the current role and message are set; on failure only `error` changes |
| RoleStore.RoleStore.CreateRole | frontend/src/modules/role/store/index.js:72-84 | on success the created role is appended; on failure the list is untouched |
| RoleStore.RoleStore.UpdateRoleAction | frontend/src/modules/role/store/index.js:85-97 | on success the returned role replaces its entry; on failure the list is untouched |
| RoleStore.RoleStore.DeleteRoleAction | frontend/src/modules/role/store/index.js:98-110 | the requested id is removed only after the request succeeds; on failure the list is untouched |
| AuthStore.AuthStore.constructor | frontend/src/modules/auth/store/index.js:6-10 | the initial token is read back from storage, token and storage agree, and the store is authenticated exactly when a non-empty token was stored |
| AuthStore.AuthStore.SetToken | frontend/src/modules/auth/store/index.js:12-15 | the token and the stored value under the key both become the new token; authenticated iff it is non-empty |
| AuthStore.AuthStore.RemoveToken | frontend/src/modules/auth/store/index.js:16-19 | the token becomes empty, the key is deleted from storage, and the store is not authenticated |
| AuthStore.AuthStore.Login | frontend/src/modules/auth/store/index.js:22-31 | the token is stored only after the call resolves; a rejected call leaves token and storage unchanged and rethrows; token and storage keep agreeing |
| AuthStore.AuthStore.ResetPassword | frontend/src/modules/auth/store/index.js:32-39 | the action returns exactly when the request resolves, and changes nothing |
| AuthStore.AuthStore.Logout | frontend/src/modules/auth/store/index.js:40-47 | afterwards the store is not authenticated, the key is gone, and the action does not rethrow |
| AuthStore.ReloadKeepsSession | frontend/src/modules/auth/store/index.js:6-19 | a store rebuilt after a login starts with that token, and one rebuilt after a logout starts signed out |

## Left out

- HTTP: the response objects, status/JSON formatting and `console.error` logging are reduced to a `Reply` value, the status code and the message.
- `handleError` and `handleSuccess` are not part of this model. On the backend, `handleError` with a session is modelled only as aborting a transaction that is still open. On the frontend, the message each handler derives is carried in `Api.Response`.
- `encryptPassword`, `verifyPassword`, `generateToken`, `process.env.PASSWORD_TEMP`, `validateCredentialData` and `mongoose.Types.ObjectId.isValid` are collaborators given as function values and a constant. Their own behaviour (bcrypt salting, JWT encoding, credentialValidate.js) is not part of this model.
- The email regular expression at Backend/src/validators/userValidate.js:44 and the phone regular expression at Backend/src/validators/userValidate.js:51 are kept abstract as `Formats.email` and `Formats.phone`. The DNI pattern and the reset email pattern are modelled exactly.
- Concurrency: the `await` suspensions, isolation between concurrent requests, and failures of MongoDB itself are not modelled. These include a failing `abortTransaction`, `commitTransaction` or `save`, and the hasher or signer throwing. The only fault modelled on the login path is the missing owner or role.
- Typed bodies: the login, password-change and status-change bodies are modelled after the credential validator has accepted them, with string fields and a boolean `isActive`. JavaScript truthiness of other types in `newPassword`, `password` and `isActive` is not modelled. The reset body and the validator's input are fully loose JSON values.
- CredentialController.UpdatePasswordSpec: the route id is taken to be a valid `ObjectId`. A path id that Mongoose cannot cast, which would make `findOne({ user: id })` throw and the `catch` answer 500, is answered here as not found (404). Schema timestamps (`updatedAt` written by every `findByIdAndUpdate`, even with an empty `$set`) are not modelled; the `Credential` record has no such field.
- CredentialController.StatusSpec: as for `UpdatePasswordSpec`, the body's `_id` is taken to be castable to an `ObjectId`, so a cast failure (which `handleError` would answer) is not modelled, and the `updatedAt` timestamp the update may write is not modelled.
- AuthController.TempLoginRepeatable: the same token and the same collection after the second login hold only because `Services.encrypt` and `Services.sign` are fixed functions. A salted hasher such as bcrypt stores a new hash string on every temporary-password login, and a signer that stamps the issue time gives a new token, so in the program only the success of the second login carries over.
- AuthController.ResetArmsTempLogin: "keeps the reset hash" assumes a deterministic `Services.encrypt`. With a salted hasher the login stores a fresh hash of the same temporary password, not the reset's hash string; only the success of the login carries over.
- AuthController.LoginSpec: an unset `PASSWORD_TEMP` (`undefined`, which no string password equals) is not modelled; `passwordTemp` is always a string.
- UserValidate.ValidateUserData: only own keys of plain objects are looked up. Inherited properties and array indices named like the checked fields are not modelled, and neither is a non-function `hasOwnProperty` on the prototype chain.
- Frontend I/O: the API services, browser `localStorage` and the cross-module dispatches `dashboard/updateSidebarItems` and `dashboard/cleanSidebar` are left out. Storage is the `storage` map field. The dashboard dispatches cannot change this store, and a failure in them is not modelled.
- UserStore.UserStore.FetchAndSetRoles: the success message is a parameter (what `handleSuccess` makes of the `null` the roles action resolves to). A `handleSuccess` that throws on `null` is not modelled.
- Store failures after a commit: an action whose success handler throws after its data mutation has run is not modelled. Failures are modelled only as a rejected service call.
- Aliasing: `SET_USERS`/`SET_ROLES` store the array they are given, and the users store's `roles` shares the roles store's array. Lists here are values, so later in-place changes to one array are not seen through the other.
- Records in the frontend stores are `Json.Doc` values with a string `_id`. Comparing `undefined` ids is not modelled.
- The getters are plain field reads, and `isAuthenticated` is `AuthStore.AuthStore.IsAuthenticated`.
- `SET_TOKEN` stores its argument as a string; a non-string token (`undefined` written as `"undefined"`) is not modelled.
