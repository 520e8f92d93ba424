# Workout app core, modelled in Dafny

This project models the plain logic inside the screens of an Android
workout app (package `com.ifpr.androidapptemplate`). The app is written in
Kotlin and keeps its data in a Firebase Realtime Database. The modelled
parts are:

- **Date mask.** The profile screen rewrites the birth-date field to
  `##/##/####` after every edit.
- **Profile save.** The profile screen's two read-modify-write updates of
  `users/{uid}`: the form save and the photo save.
- **Workout creation.** A guard chain that validates the form and builds the
  `Treino` record.
- **Workout list.** Keeps only the signed-in user's workouts, in snapshot
  order, and chooses between the list and the empty state.
- **List adapter.** Holds a list that is changed in place. It formats each
  item's summary line and packs a tapped workout into navigation arguments.
- **Detail screen.** Rebuilds the workout from those arguments, shows it with
  defaults for missing values, and deletes it when it has a key.
- **Registration and login guards.** Also the message shown for each Google
  sign-in status code, and the decision to leave the login screen.

Module layout:

- **`Records`**: the records `Treino`, `Usuario` and `User`. Also how a user
  node is stored and read back. A node is a map from child name to value, and
  a null property is not stored.
- **`Store`**: the two collections. Each is a class holding a `map`. Whether a
  read or a write reaches the backend is a parameter, and a failed write
  changes nothing.
- **`KotlinText`**: the Kotlin library behaviour the screens rely on:
  - `trim()`, with the JVM's whitespace set;
  - `toIntOrNull()` and `Int.toString()`;
  - `split("\n")`;
  - `String.length`, which counts UTF-16 code units.
- **One module per screen**: `DateMask`, `Profile`, `Dashboard`, `Home`,
  `Adapter`, `Notifications`, `Registration`, `Login`. `Bundles` holds the
  navigation arguments.

The screens' state changes are modelled as classes with methods:

- the date field's text watcher, with its `isUpdating` flag;
- the adapter's list;
- the detail screen's current workout;
- the list screen's empty-state flag and listener.

The following are methods with loops:

- the mask loop;
- the ownership filter.

Each one is proved equal to a specification function (`Masked`, `Owned`).
Lemmas then state the properties of those functions.

## Model

Source paths are relative to the repository root.

| member | source | states |
|---|---|---|
| KotlinText.Trim | app/src/main/java/com/ifpr/androidapptemplate/ui/dashboard/DashboardFragment.kt:80-84 | the trimmed text neither starts nor ends with whitespace, is never longer than the input, and is empty exactly when the input is all whitespace |
| KotlinText.TrimRemovesOnlyEnds | app/src/main/java/com/ifpr/androidapptemplate/ui/dashboard/DashboardFragment.kt:80-84 | the trimmed text is the slice of the input that follows the leading whitespace, and everything before and after that slice is whitespace: only the two ends are removed |
| KotlinText.TrimIdempotent | app/src/main/java/com/ifpr/androidapptemplate/ui/dashboard/DashboardFragment.kt:80-84 | trimming twice is trimming once |
| KotlinText.ToIntOrNull | app/src/main/java/com/ifpr/androidapptemplate/ui/dashboard/DashboardFragment.kt:112-113 | a parsed text starts with a sign or a digit, its digits after the sign are non-empty, and the value is the digits' decimal value, negated after `-`, within the `Int` range |
| KotlinText.ToIntOrNullAcceptsNumeral | app/src/main/java/com/ifpr/androidapptemplate/ui/dashboard/DashboardFragment.kt:112-113 | conversely, every optional sign followed by at least one digit whose value fits in an `Int` parses to that value |
| KotlinText.ToIntOrNullLeadingZeros | app/src/main/java/com/ifpr/androidapptemplate/ui/dashboard/DashboardFragment.kt:112-113 | "007" parses to 7 |
| KotlinText.ToIntOrNullSigns | app/src/main/java/com/ifpr/androidapptemplate/ui/dashboard/DashboardFragment.kt:112-113 | "+4" parses to 4 and "-12" to -12 |
| KotlinText.ToIntOrNullRejectsNonDigit | app/src/main/java/com/ifpr/androidapptemplate/ui/dashboard/DashboardFragment.kt:112-113 | a character that is neither a digit nor a leading sign makes the parse null |
| KotlinText.NatToString | app/src/main/java/com/ifpr/androidapptemplate/ui/home/TreinosAdapter.kt:40 | the decimal text of a natural number is digits only, has no leading zero and denotes that number |
| KotlinText.IntToString | app/src/main/java/com/ifpr/androidapptemplate/ui/home/TreinosAdapter.kt:40 | an `Int` prints as digits only when it is not negative, and as `-` followed by at least one digit when it is; the digits have no leading zero except for 0 itself, which prints as "0" |
| KotlinText.IntToStringRoundTrip | app/src/main/java/com/ifpr/androidapptemplate/ui/home/TreinosAdapter.kt:40 | parsing the printed text of an `Int` gives that `Int` back |
| KotlinText.IntToStringInjective | app/src/main/java/com/ifpr/androidapptemplate/ui/home/TreinosAdapter.kt:40 | two different `Int`s print differently |
| KotlinText.Split | app/src/main/java/com/ifpr/androidapptemplate/ui/home/TreinosAdapter.kt:39 | `split` gives one piece more than there are separators; no piece holds a separator, and joining the pieces gives the input back |
| KotlinText.StartPiece | app/src/main/java/com/ifpr/androidapptemplate/ui/home/TreinosAdapter.kt:39 | a leading separator adds an empty first piece, keeping the pieces separator-free and the join exact |
| KotlinText.ExtendPiece | app/src/main/java/com/ifpr/androidapptemplate/ui/home/TreinosAdapter.kt:39 | any other leading character extends the first piece, keeping the pieces separator-free and the join exact |
| KotlinText.PrefixBeforeSeparator | app/src/main/java/com/ifpr/androidapptemplate/ui/home/TreinosAdapter.kt:40 | text before the first occurrence of a separator is determined, and so is the rest |
| KotlinText.Utf16Length | app/src/main/java/com/ifpr/androidapptemplate/ui/usuario/CadastroUsuarioActivity.kt:89 | `String.length` lies between the number of characters and twice that; it equals the number of characters exactly when none lies outside the Basic Multilingual Plane, and twice that exactly when all do |
| KotlinText.Utf16LengthAppend | app/src/main/java/com/ifpr/androidapptemplate/ui/usuario/CadastroUsuarioActivity.kt:89 | the length of a concatenation is the sum of the lengths |
| KotlinText.Utf16LengthOfChar | app/src/main/java/com/ifpr/androidapptemplate/ui/usuario/CadastroUsuarioActivity.kt:89 | one character counts 1, or 2 outside the Basic Multilingual Plane; with the previous row this fixes the length of every string |
| Records.UsuarioToFields | app/src/main/java/com/ifpr/androidapptemplate/baseclasses/Usuario.kt:7-15 | storing a `Usuario` writes a child exactly for each non-null property, under the property's name |
| Records.UsuarioRoundTrip | app/src/main/java/com/ifpr/androidapptemplate/baseclasses/Usuario.kt:7-15 | reading a stored `Usuario` back gives the same record |
| Records.FieldsToUsuario | app/src/main/java/com/ifpr/androidapptemplate/baseclasses/Usuario.kt:7-15 | reading a node as a `Usuario` sets each property to the node's child of that name, or null when there is none |
| Records.UsuarioNodeRoundTrip | app/src/main/java/com/ifpr/androidapptemplate/baseclasses/Usuario.kt:7-15 | a node holding only `Usuario` children survives a read followed by a write unchanged |
| Records.FieldsToUsuarioUpdatePhoto | app/src/main/java/com/ifpr/androidapptemplate/baseclasses/Usuario.kt:14 | changing the `photoUrl` child changes only the photo of the record read back |
| Records.UserToFields | app/src/main/java/com/ifpr/androidapptemplate/model/User.kt:11-16 | a stored `User` node has exactly the four children uid, name, email and phone, with the record's values |
| Records.RegistrationChildrenNotUsuario | app/src/main/java/com/ifpr/androidapptemplate/model/User.kt:11-16 | of the registration node's children only `email` is a `Usuario` property |
| Records.UserNodeAsUsuario | app/src/main/java/com/ifpr/androidapptemplate/model/User.kt:11-16 | read as a `Usuario`, a registration node shows only its email |
| Store.UsersStore.Get | app/src/main/java/com/ifpr/androidapptemplate/ui/usuario/PerfilUsuarioFragment.kt:458 | a read returns the stored node, nothing for a missing uid, or a failure |
| Store.UsersStore.SetValue | app/src/main/java/com/ifpr/androidapptemplate/ui/usuario/PerfilUsuarioFragment.kt:634 | a node write replaces the whole node, or changes nothing if it fails |
| Store.UsersStore.SetChild | app/src/main/java/com/ifpr/androidapptemplate/ui/usuario/PerfilUsuarioFragment.kt:482 | a child write sets one child, creating the node if needed, and keeps the other children |
| Store.WorkoutStore.SetValue | app/src/main/java/com/ifpr/androidapptemplate/ui/dashboard/DashboardFragment.kt:152 | a workout write stores the workout under its key, or changes nothing if it fails |
| Store.WorkoutStore.RemoveValue | app/src/main/java/com/ifpr/androidapptemplate/ui/notifications/NotificationsFragment.kt:177 | a delete removes the key, or changes nothing if it fails |
| Store.RemoveMissingIsNoOp | app/src/main/java/com/ifpr/androidapptemplate/ui/notifications/NotificationsFragment.kt:177 | deleting a key that is not stored changes nothing |
| DateMask.OnlyDigits | app/src/main/java/com/ifpr/androidapptemplate/ui/usuario/PerfilUsuarioFragment.kt:235 | stripping non-digits leaves only digits and never lengthens the text |
| DateMask.OnlyDigitsOfChar | app/src/main/java/com/ifpr/androidapptemplate/ui/usuario/PerfilUsuarioFragment.kt:235 | a single digit is kept and any other single character is dropped |
| DateMask.OnlyDigitsSkipsNonDigit | app/src/main/java/com/ifpr/androidapptemplate/ui/usuario/PerfilUsuarioFragment.kt:235 | a non-digit anywhere in the text contributes nothing |
| DateMask.OnlyDigitsAppend | app/src/main/java/com/ifpr/androidapptemplate/ui/usuario/PerfilUsuarioFragment.kt:235 | stripping non-digits works piece by piece over a concatenation |
| DateMask.Layout | app/src/main/java/com/ifpr/androidapptemplate/ui/usuario/PerfilUsuarioFragment.kt:240-248 | up to eight digits laid over the mask get a `/` exactly at positions 2 and 5, and only when more digits follow |
| DateMask.Masked | app/src/main/java/com/ifpr/androidapptemplate/ui/usuario/PerfilUsuarioFragment.kt:235-248 | the field's new text is no longer than the mask; where the mask has `#` it holds a digit and where the mask has `/` it holds `/` |
| DateMask.FormatDate | app/src/main/java/com/ifpr/androidapptemplate/ui/usuario/PerfilUsuarioFragment.kt:235-248 | the loop over the mask produces exactly the masked text of its input |
| DateMask.BirthDateWatcher.AfterTextChanged | app/src/main/java/com/ifpr/androidapptemplate/ui/usuario/PerfilUsuarioFragment.kt:229-253 | the watcher replaces the text by its masked form; the re-entrant call made by the rewrite changes nothing, and the flag is restored |
| DateMask.BirthDateWatcher.Edit | app/src/main/java/com/ifpr/androidapptemplate/ui/usuario/PerfilUsuarioFragment.kt:229-253 | after any edit the field holds the masked form of what was typed |
| DateMask.MaskedKeepsDigitPrefix | app/src/main/java/com/ifpr/androidapptemplate/ui/usuario/PerfilUsuarioFragment.kt:235-248 | without the slashes, the output is exactly the first (at most eight) digits of the input, in order; every other character is digit or `/` |
| DateMask.MaskedShape | app/src/main/java/com/ifpr/androidapptemplate/ui/usuario/PerfilUsuarioFragment.kt:223-248 | the output has at most ten characters, a `/` exactly at positions 2 and 5 when they exist, and never ends in `/` |
| DateMask.MaskedIgnoresExtraDigits | app/src/main/java/com/ifpr/androidapptemplate/ui/usuario/PerfilUsuarioFragment.kt:240-248 | once eight digits are present, anything appended is discarded |
| DateMask.MaskedIdempotent | app/src/main/java/com/ifpr/androidapptemplate/ui/usuario/PerfilUsuarioFragment.kt:230-250 | masking the masked text changes nothing |
| DateMask.MaskedExampleShort | app/src/main/java/com/ifpr/androidapptemplate/ui/usuario/PerfilUsuarioFragment.kt:240-248 | "12" stays "12" |
| DateMask.MaskedExampleOneSlash | app/src/main/java/com/ifpr/androidapptemplate/ui/usuario/PerfilUsuarioFragment.kt:240-248 | "123" becomes "12/3" |
| DateMask.MaskedOfDigits | app/src/main/java/com/ifpr/androidapptemplate/ui/usuario/PerfilUsuarioFragment.kt:235-248 | on at most eight digits the mask is the plain layout |
| DateMask.MaskedExampleFull | app/src/main/java/com/ifpr/androidapptemplate/ui/usuario/PerfilUsuarioFragment.kt:240-248 | "12345678" becomes "12/34/5678" |
| DateMask.MaskedExampleNonDigit | app/src/main/java/com/ifpr/androidapptemplate/ui/usuario/PerfilUsuarioFragment.kt:235 | "1-2" becomes "12" |
| DateMask.MaskedExampleTooLong | app/src/main/java/com/ifpr/androidapptemplate/ui/usuario/PerfilUsuarioFragment.kt:240-248 | "123456789" becomes "12/34/5678" |
| Profile.PlanProfileSave | app/src/main/java/com/ifpr/androidapptemplate/ui/usuario/PerfilUsuarioFragment.kt:562-603 | an empty trimmed name stops first, then a missing user; otherwise the record is keyed by the uid, carries the auth email and the trimmed form fields, and has no photo |
| Profile.SaveUserToDatabase | app/src/main/java/com/ifpr/androidapptemplate/ui/usuario/PerfilUsuarioFragment.kt:621-660 | without a key nothing is written; otherwise the node is replaced by the record, with the stored photo carried forward when the read succeeded |
| Profile.UpdateUser | app/src/main/java/com/ifpr/androidapptemplate/ui/usuario/PerfilUsuarioFragment.kt:562-616 | the save happens exactly when the name is present, a user is signed in, the display-name update succeeded and the write succeeded; each failure outcome (name missing, no user, display-name update refused, write refused) holds exactly under its own condition and writes nothing; a missing key cannot occur, since the record is keyed by the signed-in uid |
| Profile.ProfileWritten | app/src/main/java/com/ifpr/androidapptemplate/ui/usuario/PerfilUsuarioFragment.kt:626-634 | the record written differs from the built one at most in the photo, which is the stored photo when the read returned a node that has one |
| Profile.ProfileNode | app/src/main/java/com/ifpr/androidapptemplate/ui/usuario/PerfilUsuarioFragment.kt:626-634 | the node after a profile save holds only `Usuario` children and reads back as the record written |
| Profile.ProfileSaveKeepsStoredPhoto | app/src/main/java/com/ifpr/androidapptemplate/ui/usuario/PerfilUsuarioFragment.kt:595-634 | a stored photo is kept; every other child comes from the form's record |
| Profile.ProfileSaveWithoutStoredPhoto | app/src/main/java/com/ifpr/androidapptemplate/ui/usuario/PerfilUsuarioFragment.kt:602-648 | with no node, no stored photo or a failed read, the record replaces the node as built, without a photo |
| Profile.ProfileSaveReplacesNode | app/src/main/java/com/ifpr/androidapptemplate/ui/usuario/PerfilUsuarioFragment.kt:634-648 | apart from the photo, nothing of the old node survives a profile save |
| Profile.PhotoNodeIntended | app/src/main/java/com/ifpr/androidapptemplate/ui/usuario/PerfilUsuarioFragment.kt:449-463 | the photo update the code documents: the node gets the new `photoUrl` and keeps every other child |
| Profile.PhotoNodeAsWritten | app/src/main/java/com/ifpr/androidapptemplate/ui/usuario/PerfilUsuarioFragment.kt:460-497 | the node after a photo save as written: when a node was read back, only `Usuario` children remain and it reads as the stored record with the new photo; otherwise it is the documented child update |
| Profile.UpdateUserPhotoBase64 | app/src/main/java/com/ifpr/androidapptemplate/ui/usuario/PerfilUsuarioFragment.kt:451-506 | without a user nothing happens; a node read back is rewritten whole with the new photo; with no node or a failed read only the `photoUrl` child is set |
| Profile.UpdateUserPhotoPreserving | app/src/main/java/com/ifpr/androidapptemplate/ui/usuario/PerfilUsuarioFragment.kt:449-467 | the corrected photo save: one child write that gives the node the new photo and keeps every other child, on every node |
| Profile.IntendedPhotoSurvivesProfileSave | app/src/main/java/com/ifpr/androidapptemplate/ui/usuario/PerfilUsuarioFragment.kt:629-630 | a photo saved by the corrected update also survives a later profile save whose read succeeds |
| Profile.PhotoSaveChangesOnlyPhoto | app/src/main/java/com/ifpr/androidapptemplate/ui/usuario/PerfilUsuarioFragment.kt:460-497 | seen as a `Usuario`, every branch of the photo save changes the photo and nothing else |
| Profile.PhotoSaveOnProfileNode | app/src/main/java/com/ifpr/androidapptemplate/ui/usuario/PerfilUsuarioFragment.kt:460-497 | on nodes the profile screen writes, the code as written is exactly the documented child update |
| Profile.PhotoSaveDropsRegistrationFields | app/src/main/java/com/ifpr/androidapptemplate/ui/usuario/PerfilUsuarioFragment.kt:460-467 | on a registration node, the photo save as written keeps only email and photo, while the documented update keeps the name |
| Profile.PhotoSurvivesProfileSave | app/src/main/java/com/ifpr/androidapptemplate/ui/usuario/PerfilUsuarioFragment.kt:629-630 | a saved photo survives a later profile save whose read succeeds |
| Profile.FailedReadDropsPhoto | app/src/main/java/com/ifpr/androidapptemplate/ui/usuario/PerfilUsuarioFragment.kt:645-648 | when the profile save's read fails, the stored photo is lost |
| Dashboard.BuildTreino | app/src/main/java/com/ifpr/androidapptemplate/ui/dashboard/DashboardFragment.kt:78-149 | the inputs are trimmed; each error occurs exactly when every earlier check passed and its own check fails; a workout is built exactly when all checks pass, keyed by the new key, owned by the uid, with the trimmed texts and positive parsed counts |
| Dashboard.SalvarTreino | app/src/main/java/com/ifpr/androidapptemplate/ui/dashboard/DashboardFragment.kt:78-152 | a rejected form writes nothing; an accepted one is written under its new key |
| Dashboard.SeriesMustBePositive | app/src/main/java/com/ifpr/androidapptemplate/ui/dashboard/DashboardFragment.kt:112-123 | "abc", "0" and "-3" are rejected as counts, "+4" and "12" are accepted |
| Dashboard.NonNumericSeriesRejected | app/src/main/java/com/ifpr/androidapptemplate/ui/dashboard/DashboardFragment.kt:112-118 | a series text holding a character that is neither a digit nor a leading sign stops the save with the series error, whatever the user and key |
| Dashboard.BlankNotesAccepted | app/src/main/java/com/ifpr/androidapptemplate/ui/dashboard/DashboardFragment.kt:84-148 | blank notes pass and are stored as the empty string |
| Dashboard.OnlyTrimmedInputsMatter | app/src/main/java/com/ifpr/androidapptemplate/ui/dashboard/DashboardFragment.kt:80-84 | forms that agree after trimming give the same outcome |
| Dashboard.CreatedWorkoutSurvivesNavigation | app/src/main/java/com/ifpr/androidapptemplate/ui/dashboard/DashboardFragment.kt:141-149 | a created workout reaches the detail screen unchanged |
| Home.Owned | app/src/main/java/com/ifpr/androidapptemplate/ui/home/HomeFragment.kt:100-109 | the filtered list is no longer than the snapshot and holds only workouts of the uid |
| Home.CollectOwned | app/src/main/java/com/ifpr/androidapptemplate/ui/home/HomeFragment.kt:98-109 | the loop over the snapshot builds exactly the filtered list |
| Home.OwnedAppend | app/src/main/java/com/ifpr/androidapptemplate/ui/home/HomeFragment.kt:100-105 | filtering keeps relative order: a concatenation filters part by part |
| Home.OwnedMembership | app/src/main/java/com/ifpr/androidapptemplate/ui/home/HomeFragment.kt:100-109 | a workout is listed exactly when it is a non-null child whose `userId` is the uid |
| Home.NullChildrenSkipped | app/src/main/java/com/ifpr/androidapptemplate/ui/home/HomeFragment.kt:101-103 | children that deserialise to null are skipped |
| Home.OwnedExample | app/src/main/java/com/ifpr/androidapptemplate/ui/home/HomeFragment.kt:100-109 | of two workouts of users u1 and u2 and a null child, u1 sees only its own |
| Home.HomeScreen.CarregarTreinos | app/src/main/java/com/ifpr/androidapptemplate/ui/home/HomeFragment.kt:84-96 | with no user the empty state is shown and no listener is made |
| Home.HomeScreen.OnDataChange | app/src/main/java/com/ifpr/androidapptemplate/ui/home/HomeFragment.kt:97-119 | an empty result shows the empty state and leaves the list alone; otherwise the list becomes the result |
| Home.HomeScreen.OnCancelled | app/src/main/java/com/ifpr/androidapptemplate/ui/home/HomeFragment.kt:121-128 | an error shows the empty state |
| Adapter.Title | app/src/main/java/com/ifpr/androidapptemplate/ui/home/TreinosAdapter.kt:36 | the title is the name, or "Sem nome" |
| Adapter.ExerciseCount | app/src/main/java/com/ifpr/androidapptemplate/ui/home/TreinosAdapter.kt:39 | the count is one more than the line breaks, 0 for null text and 1 for empty text |
| Adapter.Summary | app/src/main/java/com/ifpr/androidapptemplate/ui/home/TreinosAdapter.kt:40 | the details line starts with the series (0 when null) and an `x`, and ends with " exercícios" |
| Adapter.SummaryParts | app/src/main/java/com/ifpr/androidapptemplate/ui/home/TreinosAdapter.kt:40 | the whole details line: the series, `x`, the repetitions, " - ", the exercise count and " exercícios", with 0 shown for a null series or repetition count |
| Adapter.SummaryDeterminesCounts | app/src/main/java/com/ifpr/androidapptemplate/ui/home/TreinosAdapter.kt:40 | the summary line determines the series, repetitions and exercise count it shows |
| Adapter.EncodeArgs | app/src/main/java/com/ifpr/androidapptemplate/ui/home/TreinosAdapter.kt:55-63 | the arguments hold exactly the seven keys |
| Adapter.TreinosAdapter.ItemCount | app/src/main/java/com/ifpr/androidapptemplate/ui/home/TreinosAdapter.kt:49 | the number of items is the length of the adapter's list |
| Adapter.TreinosAdapter.UpdateTreinos | app/src/main/java/com/ifpr/androidapptemplate/ui/home/TreinosAdapter.kt:74-78 | the list becomes exactly the new list, and the item count its length |
| Adapter.TreinosAdapter.AddTreino | app/src/main/java/com/ifpr/androidapptemplate/ui/home/TreinosAdapter.kt:83-86 | the workout goes to index 0, the others shift up by one, the count grows by one |
| Adapter.TreinosAdapter.Bind | app/src/main/java/com/ifpr/androidapptemplate/ui/home/TreinosAdapter.kt:32-41 | an item shows its title and summary |
| Bundles.GetString | app/src/main/java/com/ifpr/androidapptemplate/ui/notifications/NotificationsFragment.kt:91-97 | a missing key reads as null |
| Bundles.GetInt | app/src/main/java/com/ifpr/androidapptemplate/ui/notifications/NotificationsFragment.kt:94-95 | a missing key reads as the default |
| Notifications.DecodeArgs | app/src/main/java/com/ifpr/androidapptemplate/ui/notifications/NotificationsFragment.kt:90-108 | each string property of the rebuilt workout is the argument of its name (null when absent); each count is its int argument, 0 when absent |
| Notifications.ArgsRoundTrip | app/src/main/java/com/ifpr/androidapptemplate/ui/notifications/NotificationsFragment.kt:91-108 | encoding then decoding gives the workout back, with null counts turned into 0 |
| Notifications.ArgsRoundTripExact | app/src/main/java/com/ifpr/androidapptemplate/ui/notifications/NotificationsFragment.kt:91-108 | a workout with both counts makes the trip unchanged |
| Notifications.Details | app/src/main/java/com/ifpr/androidapptemplate/ui/notifications/NotificationsFragment.kt:118-133 | defaults "Sem nome" and "Nenhum exercício"; notes are visible exactly when present and non-empty |
| Notifications.DetailsCounts | app/src/main/java/com/ifpr/androidapptemplate/ui/notifications/NotificationsFragment.kt:121-122 | a count shows as its decimal, a null count as "0" |
| Notifications.DetailsSurviveNavigation | app/src/main/java/com/ifpr/androidapptemplate/ui/notifications/NotificationsFragment.kt:118-133 | the detail screen shows a tapped workout as it would show the workout itself |
| Notifications.DetailsScreen.ReceberTreino | app/src/main/java/com/ifpr/androidapptemplate/ui/notifications/NotificationsFragment.kt:86-113 | with arguments the workout is rebuilt from them; without, nothing changes |
| Notifications.DetailsScreen.ExibirDetalhes | app/src/main/java/com/ifpr/androidapptemplate/ui/notifications/NotificationsFragment.kt:118-137 | something is shown exactly when there is a workout |
| Notifications.DetailsScreen.ExcluirTreino | app/src/main/java/com/ifpr/androidapptemplate/ui/notifications/NotificationsFragment.kt:166-177 | with no workout or no key nothing is deleted; otherwise exactly that key is removed |
| Registration.ValidateRegistration | app/src/main/java/com/ifpr/androidapptemplate/ui/usuario/CadastroUsuarioActivity.kt:73-102 | each error occurs exactly when every earlier check passed and its own check fails (empty field, fewer than 6 code units, mismatch); the account uses the trimmed email and password |
| Registration.RegisteredUser | app/src/main/java/com/ifpr/androidapptemplate/ui/usuario/CadastroUsuarioActivity.kt:152-157 | the stored user has the auth uid and the trimmed name, email and phone |
| Registration.CreateAccount | app/src/main/java/com/ifpr/androidapptemplate/ui/usuario/CadastroUsuarioActivity.kt:73-160 | nothing is written unless validation and account creation succeed and a user is reported; then the user node is written |
| Registration.AcceptedPasswordLength | app/src/main/java/com/ifpr/androidapptemplate/ui/usuario/CadastroUsuarioActivity.kt:89 | an accepted password has at least three characters |
| Registration.AstralPasswordAccepted | app/src/main/java/com/ifpr/androidapptemplate/ui/usuario/CadastroUsuarioActivity.kt:89 | three characters outside the Basic Multilingual Plane pass the six-character check |
| Registration.ShortPasswordReportedFirst | app/src/main/java/com/ifpr/androidapptemplate/ui/usuario/CadastroUsuarioActivity.kt:89-98 | a short password is reported before a mismatch |
| Registration.AstralPasswordLength | app/src/main/java/com/ifpr/androidapptemplate/ui/usuario/CadastroUsuarioActivity.kt:89 | three characters outside the Basic Multilingual Plane count six |
| Registration.ShortPasswordLength | app/src/main/java/com/ifpr/androidapptemplate/ui/usuario/CadastroUsuarioActivity.kt:89 | "12345" counts five |
| Registration.RegistrationNodeFields | app/src/main/java/com/ifpr/androidapptemplate/ui/usuario/CadastroUsuarioActivity.kt:152-160 | the registration node stores the uid and the trimmed name and phone |
| Login.GoogleSignInMessage | app/src/main/java/com/ifpr/androidapptemplate/ui/login/LoginActivity.kt:76-81 | codes 10, 12500 and 12501 get their fixed messages; any other code gets "Erro {code}: {message}" |
| Login.GenericMessage | app/src/main/java/com/ifpr/androidapptemplate/ui/login/LoginActivity.kt:80 | the general message starts with "Erro " and the code, and ends with the localized message, or "null" when there is none |
| Login.GenericMessageDeterminesCode | app/src/main/java/com/ifpr/androidapptemplate/ui/login/LoginActivity.kt:80 | two general messages coincide only for the same code |
| Login.GenericMessageNotFixed | app/src/main/java/com/ifpr/androidapptemplate/ui/login/LoginActivity.kt:76-81 | no general message equals a fixed one |
| Login.MessageDeterminesCode | app/src/main/java/com/ifpr/androidapptemplate/ui/login/LoginActivity.kt:76-81 | the message shown identifies the status code |
| Login.UnknownCodeExample | app/src/main/java/com/ifpr/androidapptemplate/ui/login/LoginActivity.kt:80 | code 7 with no message shows "Erro 7: null" |
| Login.LoginCredentials | app/src/main/java/com/ifpr/androidapptemplate/ui/login/LoginActivity.kt:106-114 | sign-in is attempted exactly when both trimmed fields are non-empty, with those trimmed values |
| Login.UpdateUI | app/src/main/java/com/ifpr/androidapptemplate/ui/login/LoginActivity.kt:157-170 | the main screen opens exactly for a non-null user, greeted by display name, else email |
| Login.AfterSignIn | app/src/main/java/com/ifpr/androidapptemplate/ui/login/LoginActivity.kt:135-142 | the main screen opens only after a successful sign-in that reports a user |

## Left out

- Firebase Authentication, the Realtime Database and Google Sign-In are not modelled as such. Each call becomes a boolean parameter saying whether it succeeded, together with the user, node or key it returns.
- Callback ordering and concurrent updates are left out. Two read-modify-write saves that interleave can lose each other's changes. The model runs each save as one read followed by one write.
- `resizeBitmap`, JPEG compression, `BitmapFactory` decoding and Base64 encoding and decoding are left out. The photo save takes the finished Base64 string as input.
- Camera, gallery, permissions, temporary files, Toasts, dialogs, logging, view visibility and navigation calls are user-interface work. They are left out, except for the empty-state flag, the notes visibility and the login screen's navigation decision.
- The detail screen still sets hidden notes text: `Notifications.Details` gives `None` when the notes are hidden. The code leaves the previous text in the hidden view.
- `limparCampos` (clearing the workout form after a save) and the navigation after a successful save are not modelled.
- The display-name update at registration (`updateProfile`) and the verification e-mail are auth calls. They are left out.
- `recuperarDadosUsuario` and the photo display on the profile screen only read data for display. They are not part of this model.
- DateMask.OnlyDigits: keeps ASCII digits 0-9 only. On Android the pattern `[^\d]` is matched by ICU, whose `\d` is every Unicode decimal digit, so a date typed in, for example, Arabic-Indic digits is kept by the app but erased by the model.
- KotlinText.ToIntOrNull: accepts ASCII digits only. Kotlin also accepts other Unicode decimal digits, such as Arabic-Indic digits.
- DateMask.BirthDateWatcher.AfterTextChanged: does not model a null `Editable`. The code then reads "null", which holds no digits, and the rewrite is skipped.
- The build script `app/build.gradle.kts` is not part of this model. Its only logic runs `keytool` as an external process.

## Findings

| source | as written | input that shows it | evidently intended | confidence | as-written member | corrected member |
|---|---|---|---|---|---|---|
| app/src/main/java/com/ifpr/androidapptemplate/ui/usuario/PerfilUsuarioFragment.kt:460-467 | the photo save reads the stored node into a `Usuario` and writes that record back as the whole node, so children that `Usuario` has no property for are deleted | `users/u1` as written by registration (CadastroUsuarioActivity.kt:152-160: uid, name, email, phone), then a photo save for u1: the node keeps only email and photoUrl | as the comment at line 463 and the function's doc comment (line 449) say, only `photoUrl` changes and every other child of the node stays | not executed | Profile.PhotoSaveDropsRegistrationFields | Profile.UpdateUserPhotoPreserving |
