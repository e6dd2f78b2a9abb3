# Huzur Atlası: local account and medicine store, session state and screen rules

This project is a Dafny model of the data core of the Huzur Atlası Android app. It covers the local
store with its two tables (`users` and `medicines`), the repository that turns data-access
failures into `Result` values, and the view-model that holds the session (the current user and
that user's medicines). It also covers the small decision rules the screens make: the greeting
for the hour of day, the first three upcoming medicines with their "Tümünü Gör" link, the
add-medicine form's non-blank guard and reset, and how a login or registration failure becomes
the text the user sees.

Modules follow the source files:

- `Entities`: the `Medicine` record (`data/Medicine.kt`), the `User` record and the sample list.
- `MedicineTable`: the `medicines` table and its DAO (`data/MedicineDao.kt`). This is a class
  holding the rows and SQLite's auto-increment counter. Insert, delete and update change the
  class in place. The query for one account returns that account's rows in no promised order.
- `UserTable`: the `users` table and the three DAO calls the repository makes.
- `Repository`: `AppRepository` (`repository/AppRepository.kt`). `RegisterResult` and
  `LoginResult` give the outcome of registration and login as functions of the table. The
  class's methods are proved against them.
- `Session`: `AppViewModel` (`viewmodel/AppViewModel.kt`). Its invariant `Valid()` says:
  - logged out, the medicine list is empty;
  - logged in, the user is a stored account and the list is a permutation of that account's rows.
- `HomeScreen`, `MedicineScreen`, `LoginPage`, `RegisterScreen`: the screens' state variables
  and rules. Each screen's mutable state is a class.
- `Results`, `Text`: Kotlin's `Result` and nullable exception message, `isBlank` and `contains`.
- `Scenario`: a client that registers, tries a duplicate e-mail, logs in, and adds and deletes a
  medicine. Every step's outcome follows from the contracts.

Things outside the app become parameters:

- A data-access call that throws (an I/O failure of the store) is an `Option<Thrown>` argument.
  When it is `Some`, that call has no effect, and the repository returns the exception's
  message as its failure.
- The hour of day is an argument of the home-screen functions.

Each asynchronous `launch` is one atomic step. The live query's re-emission is modelled as a
refresh of the view-model's list at the end of each step that changes the medicines table while
someone is logged in.

Three facts about the app's code shape the model:

- The view-model has no logout: once set, `currentUser` is only replaced by a later login.
- A new login starts a new medicine subscription without cancelling the previous one.
- The repository's lookup before the insert is the app's only duplicate check. Whether the users
  table also has a unique index on e-mail is not known (see Left out).

## Model

| member | source | states |
|---|---|---|
| `Results.Discard` | app/src/main/java/com/acm431/huzuratlasi/viewmodel/AppViewModel.kt:23 | `result.map { }` keeps success or failure and the failure's message |
| `Entities.SampleMedicinesShape` | app/src/main/java/com/acm431/huzuratlasi/data/Medicine.kt:18-22 | the sample list has three entries with ids 1, 2, 3, all owned by user 1 |
| `MedicineTable.Owned` | app/src/main/java/com/acm431/huzuratlasi/data/MedicineDao.kt:14-15 | the query for `userId` holds a row iff the table holds it and it belongs to `userId`; distinct keys stay distinct |
| `MedicineTable.RowsOfMembers` | app/src/main/java/com/acm431/huzuratlasi/data/MedicineDao.kt:14-15 | any order of the query result still holds exactly the owner's rows, each as often as in the table, and has the same length |
| `MedicineTable.WithoutId` | app/src/main/java/com/acm431/huzuratlasi/data/MedicineDao.kt:11-12 | delete keeps exactly the rows whose key differs, and keeps keys distinct |
| `MedicineTable.DeleteAbsentIsNoOp` | app/src/main/java/com/acm431/huzuratlasi/data/MedicineDao.kt:11-12 | deleting a key no row has leaves the table as it was |
| `MedicineTable.Replaced` | app/src/main/java/com/acm431/huzuratlasi/data/MedicineDao.kt:17-18 | update keeps length and keys; the row with the argument's key becomes the argument; all others are unchanged |
| `MedicineTable.OwnedIgnoresOthers` | app/src/main/java/com/acm431/huzuratlasi/data/MedicineDao.kt:8-15 | inserting a row for account A leaves account B's query result unchanged |
| `MedicineTable.OwnedGains` | app/src/main/java/com/acm431/huzuratlasi/data/MedicineDao.kt:8-15 | inserting a row appends exactly that row to its owner's rows in table order |
| `MedicineTable.OwnedIgnoresOtherDeletes` | app/src/main/java/com/acm431/huzuratlasi/data/MedicineDao.kt:11-15 | deleting a key whose row belongs to someone else leaves an account's query result unchanged |
| `MedicineTable.MedicineDao.InsertMedicine` | app/src/main/java/com/acm431/huzuratlasi/data/MedicineDao.kt:8-9 | insert appends exactly one row: a row with id 0 gets the next key, a row with its own key keeps it. A taken key is refused and changes nothing. Keys stay distinct and nonzero |
| `MedicineTable.MedicineDao.DeleteMedicine` | app/src/main/java/com/acm431/huzuratlasi/data/MedicineDao.kt:11-12 | the table becomes `WithoutId` of the old table by the argument's key |
| `MedicineTable.MedicineDao.UpdateMedicine` | app/src/main/java/com/acm431/huzuratlasi/data/MedicineDao.kt:17-18 | the table becomes `Replaced` of the old table by the argument, keeping the key invariant |
| `MedicineTable.MedicineDao.GetMedicinesForUser` | app/src/main/java/com/acm431/huzuratlasi/data/MedicineDao.kt:14-15 | the result is a permutation of the rows owned by the account; no order is promised |
| `UserTable.FindByEmail` | app/src/main/java/com/acm431/huzuratlasi/repository/AppRepository.kt:13 | finds a stored account with that e-mail; finds none iff no account has it |
| `UserTable.FindByCredentials` | app/src/main/java/com/acm431/huzuratlasi/repository/AppRepository.kt:27 | finds a stored account matching e-mail and password exactly; finds none iff no account matches both |
| `UserTable.UserDao.InsertUser` | app/src/main/java/com/acm431/huzuratlasi/repository/AppRepository.kt:17 | appends exactly one account under the next key and returns that key |
| `Repository.RegisterResult` | app/src/main/java/com/acm431/huzuratlasi/repository/AppRepository.kt:11-23 | registration succeeds iff no DAO call throws and the e-mail is not on file. A taken e-mail fails with "Email already registered". A lookup exception becomes the failure with its message. With the e-mail free, an insert exception becomes the failure with its message. On success the new key is the counter + 1, which exceeds every stored key |
| `Repository.LoginResult` | app/src/main/java/com/acm431/huzuratlasi/repository/AppRepository.kt:25-36 | success carries a stored account with exactly that e-mail and password. Without an exception, a failure means "Invalid credentials" and no account matches. A thrown exception becomes the failure |
| `Repository.RegisterThenLogin` | app/src/main/java/com/acm431/huzuratlasi/repository/AppRepository.kt:11-31 | round trip: after a successful registration, logging in with its e-mail and password returns that account, with its username |
| `Repository.RegisterKeepsTableInvariants` | app/src/main/java/com/acm431/huzuratlasi/repository/AppRepository.kt:13-18 | a successful registration keeps e-mails unique and keys distinct, positive and bounded by the counter |
| `Repository.WrongPasswordRefused` | app/src/main/java/com/acm431/huzuratlasi/repository/AppRepository.kt:27-31 | with unique e-mails, a stored e-mail with a wrong password fails with "Invalid credentials" |
| `Repository.AppRepository.constructor` | app/src/main/java/com/acm431/huzuratlasi/repository/AppRepository.kt:6-9 | the repository wraps the two DAOs it is given |
| `Repository.AppRepository.RegisterUser` | app/src/main/java/com/acm431/huzuratlasi/repository/AppRepository.kt:11-23 | returns `RegisterResult`. Success inserts exactly one account with the given fields and moves the counter to the returned key; failure leaves the users table unchanged. E-mail uniqueness is preserved, and a following login finds the new account |
| `Repository.AppRepository.LoginUser` | app/src/main/java/com/acm431/huzuratlasi/repository/AppRepository.kt:25-36 | returns `LoginResult`; it has no write frame, so it never changes the store |
| `Repository.AppRepository.GetMedicinesForUser` | app/src/main/java/com/acm431/huzuratlasi/repository/AppRepository.kt:39-41 | passes the DAO's query through: a permutation of the account's rows |
| `Repository.AppRepository.AddMedicine` | app/src/main/java/com/acm431/huzuratlasi/repository/AppRepository.kt:43-45 | the DAO insert with the same argument: the same `ok` condition, the same new rows and the same new counter |
| `Repository.AppRepository.DeleteMedicine` | app/src/main/java/com/acm431/huzuratlasi/repository/AppRepository.kt:47-49 | the DAO delete with the same argument |
| `Repository.AppRepository.UpdateMedicine` | app/src/main/java/com/acm431/huzuratlasi/repository/AppRepository.kt:51-53 | the DAO update with the same argument |
| `Session.AppViewModel.constructor` | app/src/main/java/com/acm431/huzuratlasi/viewmodel/AppViewModel.kt:13-18 | starts with no current user and an empty medicine list |
| `Session.AppViewModel.Register` | app/src/main/java/com/acm431/huzuratlasi/viewmodel/AppViewModel.kt:20-25 | returns the repository's outcome without its value. Success stores the account under the next key and moves the counter to it; the current user and the list are unchanged |
| `Session.AppViewModel.Login` | app/src/main/java/com/acm431/huzuratlasi/viewmodel/AppViewModel.kt:27-41 | on success the current user is the returned account and the list is a permutation of its rows; on failure nothing changes; the outcome is returned |
| `Session.AppViewModel.AddMedicine` | app/src/main/java/com/acm431/huzuratlasi/viewmodel/AppViewModel.kt:43-56 | logged out: nothing changes. Logged in: one row with the current user's id and the given fields is stored under the next key, and the list gains exactly that row |
| `Session.AppViewModel.DeleteMedicine` | app/src/main/java/com/acm431/huzuratlasi/viewmodel/AppViewModel.kt:58-62 | deletes by key whether or not anyone is logged in; a logged-in list loses exactly the rows with that key |
| `HomeScreen.Greeting` | app/src/main/java/com/acm431/huzuratlasi/ui/theme/HomeScreen.kt:67-72 | hours 6-11, 12-17 and 18-22 map to their greetings, every other hour to "İyi Geceler"; each hour gets exactly one |
| `HomeScreen.NightHours` | app/src/main/java/com/acm431/huzuratlasi/ui/theme/HomeScreen.kt:67-72 | within 0..23, "İyi Geceler" covers exactly 23 and 0-5 |
| `HomeScreen.WelcomeText` | app/src/main/java/com/acm431/huzuratlasi/ui/theme/HomeScreen.kt:85 | the welcome line is the greeting, then ", ", then the username; logged out, nothing follows the comma and space |
| `HomeScreen.UpcomingSection` | app/src/main/java/com/acm431/huzuratlasi/ui/theme/HomeScreen.kt:298-308 | lists the first min(3, n) medicines in list order; the link labelled "Tümünü Gör" appears iff some medicine is not listed, i.e. iff n > 3 |
| `HomeScreen.Home` | app/src/main/java/com/acm431/huzuratlasi/ui/theme/HomeScreen.kt:45-57 | the count is the list's size; the upcoming section appears iff the list is non-empty |
| `MedicineScreen.MedicineList` | app/src/main/java/com/acm431/huzuratlasi/ui/theme/MedicineScreen.kt:92-104 | an empty list shows the empty state; otherwise there is one card per medicine, in list order |
| `MedicineScreen.DeleteCard` | app/src/main/java/com/acm431/huzuratlasi/ui/theme/MedicineScreen.kt:98-102 | a card's delete removes that card's key from the store and the medicine from the list. The other cards with a different key stay, and the current user and the counter are unchanged |
| `MedicineScreen.AddMedicineForm.constructor` | app/src/main/java/com/acm431/huzuratlasi/ui/theme/MedicineScreen.kt:32-36 | the four fields start empty and the dialog starts closed |
| `MedicineScreen.AddMedicineForm.Open` | app/src/main/java/com/acm431/huzuratlasi/ui/theme/MedicineScreen.kt:74 | the add button opens the dialog and keeps the fields |
| `MedicineScreen.AddMedicineForm.Edit` | app/src/main/java/com/acm431/huzuratlasi/ui/theme/MedicineScreen.kt:114-117 | typing changes exactly the edited field |
| `MedicineScreen.AddMedicineForm.Dismiss` | app/src/main/java/com/acm431/huzuratlasi/ui/theme/MedicineScreen.kt:118 | cancel closes the dialog and keeps the field values |
| `MedicineScreen.AddMedicineForm.OnAdd` | app/src/main/java/com/acm431/huzuratlasi/ui/theme/MedicineScreen.kt:119-126 | `addMedicine` gets name, dosage, frequency and time in that order (logged in: the table gains that row under the next key, the counter moves to it, and the list gains exactly that row; logged out: nothing is stored). The current user is unchanged. Then the fields become "" and the dialog closes |
| `MedicineScreen.AddMedicineForm.Confirm` | app/src/main/java/com/acm431/huzuratlasi/ui/theme/MedicineScreen.kt:297-304 | with any blank field nothing changes; with all four filled it behaves as `OnAdd`: the next-key row is stored and listed, the counter advances, and the current user stays |
| `LoginPage.LoginErrorText` | app/src/main/java/com/acm431/huzuratlasi/ui/theme/LoginPage.kt:115-119 | a message exactly equal to "Invalid credentials" shows "Geçersiz e-posta veya şifre"; any other message, null included, shows "Giriş yapılırken bir hata oluştu" |
| `LoginPage.LoginForm.constructor` | app/src/main/java/com/acm431/huzuratlasi/ui/theme/LoginPage.kt:24-26 | empty fields; `errorMessage` starts null |
| `LoginPage.LoginForm.EditEmail` | app/src/main/java/com/acm431/huzuratlasi/ui/theme/LoginPage.kt:73 | typing replaces the e-mail field |
| `LoginPage.LoginForm.EditPassword` | app/src/main/java/com/acm431/huzuratlasi/ui/theme/LoginPage.kt:88 | typing replaces the password field |
| `LoginPage.LoginForm.Submit` | app/src/main/java/com/acm431/huzuratlasi/ui/theme/LoginPage.kt:112-124 | a blank field sets the fill-in message and does not log in. A failure sets the mapped message and changes no session state. A success leaves `errorMessage` as it was. The screen navigates home iff a user is current (lines 31-36) |
| `RegisterScreen.RegisterErrorText` | app/src/main/java/com/acm431/huzuratlasi/ui/theme/RegisterScreen.kt:88-93 | a message containing "Email already registered" shows "Bu e-posta adresi zaten kayıtlı"; any other message, null included, shows "Kayıt olurken bir hata oluştu" |
| `Text.ContainsInfix` | app/src/main/java/com/acm431/huzuratlasi/ui/theme/RegisterScreen.kt:90 | `contains` finds a string whatever surrounds it |
| `Text.ContainsOccurs` | app/src/main/java/com/acm431/huzuratlasi/ui/theme/RegisterScreen.kt:90 | `contains` holds only where the string occurs at some index |
| `Text.ContainsIffOccurs` | app/src/main/java/com/acm431/huzuratlasi/ui/theme/RegisterScreen.kt:90 | `contains` holds exactly when the string occurs at some index |
| `RegisterScreen.WrappedEmailTakenRecognised` | app/src/main/java/com/acm431/huzuratlasi/ui/theme/RegisterScreen.kt:89-91 | any message that wraps "Email already registered" is recognised as e-mail taken |
| `RegisterScreen.TakenEmailShown` | app/src/main/java/com/acm431/huzuratlasi/ui/theme/RegisterScreen.kt:88-93 | end to end: registering an e-mail already on file shows "Bu e-posta adresi zaten kayıtlı" |
| `RegisterScreen.RegisterForm.constructor` | app/src/main/java/com/acm431/huzuratlasi/ui/theme/RegisterScreen.kt:24-27 | empty fields; `errorMessage` starts null |
| `RegisterScreen.RegisterForm.Edit` | app/src/main/java/com/acm431/huzuratlasi/ui/theme/RegisterScreen.kt:43-69 | typing replaces the three fields |
| `RegisterScreen.RegisterForm.Submit` | app/src/main/java/com/acm431/huzuratlasi/ui/theme/RegisterScreen.kt:80-96 | the fields go to `register` with no blank check. Success navigates to login, stores exactly that account under the next key, moves the counter to it and leaves `errorMessage`. Failure sets the mapped message and leaves the users table unchanged. The session is unchanged |
| `Scenario.RegisterTwice` | app/src/main/java/com/acm431/huzuratlasi/repository/AppRepository.kt:11-23 | registering alice gives key 1; registering her e-mail again fails and leaves one account |
| `Scenario.LoginAddDelete` | app/src/main/java/com/acm431/huzuratlasi/viewmodel/AppViewModel.kt:27-62 | alice logs in to an empty list; adding one medicine stores it under key 1; deleting it empties the table and the list, and the counter stays at 1 |
| `Scenario.Fresh` | app/src/main/java/com/acm431/huzuratlasi/repository/AppRepository.kt:6-9 | a repository over two empty tables gives a valid, logged-out session with no rows and no keys used |

## Left out

- Rendering, theming, animation and the navigation graph. Navigation is modelled only as the conditions that trigger it (`LoginPage.NavigatesHome` and the `navigateToLogin` result).
- Coroutines and Flows. Each `launch` is one atomic step. Interleavings of concurrent operations are not modelled.
- Extra medicine collectors. `login` starts a new collector each time and never cancels the old one, so after a second login an earlier account's collector can still overwrite the list. The model keeps one subscription, for the current user.
- Room re-running every observing query on any change to the table. The model refreshes only the current user's list.
- Failures of the live query itself.
- Store failures in the medicine operations. In the source these propagate uncaught. Only the primary-key conflict of an insert is modelled (`ok == false`), and the view-model is proved never to hit it, because it always inserts with id 0.
- The `AppDatabase` singleton, its locking and Room's construction: these are process-lifetime concurrency and a foreign library.
- `AppViewModelFactory`: reflection-based construction.
- Logout. The profile screen calls `logout()`, but the view-model defines no such method, so no logout and no cancellation of subscriptions are modelled.
- `User.kt` and `UserDao.kt` are not part of this model. The `User` record's fields come from their uses. Single-row lookups return the first matching row. Whether the users table has a unique index on e-mail is unknown, so the insert's failure is the `insertError` parameter.
- Integer width. Keys and counters are unbounded integers; 32-bit `Int` overflow and the `Long` to `Int` narrowing of the inserted user id are not modelled.
- The date line of the welcome card (`SimpleDateFormat` with a Turkish locale) and the clock. The hour of day is a parameter.
- The constant "0/4" of the second stat card, and the count's conversion to text. The count is modelled as the number.
- Plain-text passwords are compared with plain string equality. There is no hashing.
- Other screens: emergency, news, profile, bottom navigation.
