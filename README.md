# User manager CRUD state, modelled in Dafny

This project models two parts of a small user-management application:

- The React component `UserManager` keeps four pieces of state: `users`, `formData`, `editingId` and `loading`. It has handlers that fetch the user list and create, update and delete users through a REST API. The model is the class `Frontend.UserManager`, with those four fields and one method per handler. Each HTTP call is replaced by its outcome, the `Response<T>` parameter: `Ok(body)` or `Failed`.
- In the Go backend, `getEnv` looks up a connection parameter with a default, and the MySQL data source name (DSN) is built from the five parameters. The model is the module `Database`. The environment is a map passed in as a parameter.

The pure list operations used by the handlers live in module `UserList`. They are append on create, `map` (replace by id) on update and `filter` (remove by id) on delete. Each has lemmas about positions, order, multiplicities and uniqueness of ids.

Files: `user_list.dfy`, `user_manager.dfy` and `connection.dfy`.

Three behaviours of the code are worth stating on their own:

- The edit target need not name a listed user. `handleDelete` (UserManager.tsx:67-77) does not clear `editingId`. So deleting the user being edited leaves a dangling edit target, and the next submit still sends PUT for it (`DeleteWhileEditingScenario`).
- A delete removes every record with that id. It shortens the list by exactly one only when ids are unique (`DeleteShrinksByOne`).
- The branch at line 44 tests `editingId` by JavaScript truthiness. An edit target of `0` therefore takes the create path, the same as `null` (`Truthy`, `UserManager.Mode`). As a result, editing a user whose id is 0 submits a POST. Under its default SQL mode, MySQL does not generate 0 for the `AUTO_INCREMENT` key at connection.go:55. So this path is reached only if a row is given id 0 explicitly.

## Model

| member | source | states |
|---|---|---|
| `UserList.ReplaceById` | frontend/src/components/UserManager.tsx:47 | the updated list has the same length; at each index, a record with the edited id becomes the server record and every other record is unchanged |
| `UserList.RemoveById` | frontend/src/components/UserManager.tsx:71 | a record is in the result exactly when it was in the list and its id differs from the deleted id; the length drops by the number of records with that id |
| `UserList.RemoveByIdMultiset` | frontend/src/components/UserManager.tsx:71 | the delete keeps every other record as many times as it occurred and drops every copy with the deleted id |
| `UserList.RemoveByIdConcat` | frontend/src/components/UserManager.tsx:71 | the delete keeps relative order: filtering a concatenation filters each part |
| `UserList.RemoveByIdAbsent` | frontend/src/components/UserManager.tsx:71 | deleting an id that no record carries leaves the list unchanged |
| `UserList.RemoveByIdIdempotent` | frontend/src/components/UserManager.tsx:71 | deleting the same id twice gives the same list as deleting it once |
| `UserList.DeleteShrinksByOne` | frontend/src/components/UserManager.tsx:67-71 | with unique ids, deleting a listed id shortens the list by exactly one |
| `UserList.AppendedOnce` | frontend/src/components/UserManager.tsx:52 | a created record whose id is new appears exactly once by id after the append |
| `UserList.AppendKeepsUnique` | frontend/src/components/UserManager.tsx:52 | appending a record with a new id keeps ids unique |
| `UserList.ReplaceKeepsUnique` | frontend/src/components/UserManager.tsx:47 | replacing by id with a server record that keeps the id keeps ids unique |
| `UserList.RemoveKeepsUnique` | frontend/src/components/UserManager.tsx:71 | deleting by id keeps ids unique |
| `Frontend.UserManager.Mode` | frontend/src/components/UserManager.tsx:44 | the form is in edit mode exactly when `editingId` is truthy, that is neither null nor 0, and then it edits that id |
| `Frontend.UserManager.constructor` | frontend/src/components/UserManager.tsx:13-16 | the component starts with no users, an empty form, no edit target and `loading` false |
| `Frontend.UserManager.FetchUsers` | frontend/src/components/UserManager.tsx:20-30 | on success `users` becomes the response body, or the empty list when the body is null; on failure `users` is unchanged; the form and edit target are never touched; `loading` is false at the end |
| `Frontend.UserManager.HandleSubmit` | frontend/src/components/UserManager.tsx:38-60 | an empty name or email sends nothing and changes no field; otherwise it sends PUT for a truthy edit target and POST for null or 0; a successful update replaces by id and clears the edit target; a successful create appends the server record; both reset the form to create mode; a failure changes no list, form or edit target; `loading` is false at the end; ids stay unique when the server keeps its key |
| `Frontend.UserManager.HandleEdit` | frontend/src/components/UserManager.tsx:62-65 | the form holds the user's name and email and the edit target is the user's id; `users` and `loading` are unchanged; the mode is edit unless the id is 0 |
| `Frontend.UserManager.HandleDelete` | frontend/src/components/UserManager.tsx:67-77 | on success `users` is the old list filtered by id; on failure it is unchanged; the form and edit target are never touched; `loading` is false at the end; ids stay unique |
| `Frontend.UserManager.CancelEdit` | frontend/src/components/UserManager.tsx:79-82 | the edit target is cleared and the form is empty, so the form is back in create mode; `users` and `loading` are unchanged |
| `Frontend.UserManager.ChangeName` | frontend/src/components/UserManager.tsx:111 | typing in the name field changes only the form's name |
| `Frontend.UserManager.ChangeEmail` | frontend/src/components/UserManager.tsx:120 | typing in the email field changes only the form's email |
| `Database.GetEnv` | backend/database/connection.go:45-50 | a non-empty value is returned as is; an unset or empty variable gives the default; the result is never empty when the default is not |
| `Database.LoadConfig` | backend/database/connection.go:23-27 | all five parameters are non-empty; each is the environment's value when that is set and non-empty, and otherwise `localhost`, `3306`, `root`, `password` or `crud_app` |
| `Database.Dsn` | backend/database/connection.go:30 | its body is the format `user:password@tcp(host:port)/name`; its contract says the fixed delimiters add exactly nine characters to the five parameters; `DefaultDsn`, `DsnUser` and `DsnName` state what it produces |
| `Database.DefaultDsn` | backend/database/connection.go:23-30 | with nothing set, the DSN is `root:password@tcp(localhost:3306)/crud_app` |
| `Database.DsnUser` | backend/database/connection.go:30 | when the user name holds no `:`, it is the text before the DSN's first `:` |
| `Database.DsnName` | backend/database/connection.go:30 | when the database name holds no `/`, it is the text after the DSN's last `/` |

## Left out

- Sign-in and sign-out through the identity SDK (`signIn`, `signOut`, the `App` and `Callback` components): their behaviour lives in the external SDK.
- The HTTP transport (axios) and the `API_BASE_URL` lookup: each request is represented by its outcome parameter. `HandleSubmit` also returns the request it would send.
- The effect that calls `fetchUsers` when the user becomes authenticated (UserManager.tsx:32-36): React's effect scheduling is not modelled. `FetchUsers` is a method any client can call.
- Rendering and button disabling (UserManager.tsx:84-163), except the two input handlers that write the form.
- Logging and the form event: each catch block logs the error with `console.error` (UserManager.tsx:26, 56, 73), and the submit handler calls `e.preventDefault()` (UserManager.tsx:39). The model keeps only the swallowing of errors, where `Failed` changes no list, form or edit target. The log output and the browser event are not modelled.
- Overlapping asynchronous handlers: the shared `loading` flag and the handlers' closure over a stale `users` value matter only under interleaving. Each method runs to completion.
- A response body that is present but not an array, and non-integer ids such as NaN: ids are integers and the fetched body is either a list or null.
- `Database.Dsn`: recovering the password, host and port from a DSN is not stated. Only the user and the database name are shown recoverable.
- `Connect`'s I/O (`godotenv.Load`, `sql.Open`, `Ping`, `log.Fatal`) and `createTables`: these are database and file I/O. The unique email constraint is enforced by MySQL.
- The backend's `main.go`: router, CORS and server start-up are library configuration and network I/O.
