# freeDiscMobile screen logic in Dafny

freeDiscMobile is a React Native client for disc-golf score tracking. Most of
its code draws screens. This project models the logic inside five of those
files and proves what that logic promises:

- **Course creation** (`app/courses/create.tsx`). The form keeps a table of hole drafts. The table starts at 18 holes. The user edits one hole's par or length at a time. The table grows when a larger hole count is typed, up to 36, and never shrinks. The form is checked. The submitted course is the first `parseInt(count)` holes, with par falling back to 3 and an empty length becoming `null`.
- **New round** (`app/rounds/new.tsx`). The screen searches courses by name or location, ignoring case. It selects the first course after loading. It edits a list of player names that never becomes empty. It posts the selected course with the non-blank names of the added players.
- **Registration** (`app/register.tsx`). Four checks run in order: all fields filled, the passwords match, an e-mail matching `/\S+@\S+\.\S+/`, and a password of at least six UTF-16 code units. The payload leaves out the confirmation.
- **Session** (`app/context/AuthContext.tsx`). The authentication provider holds a token, a user, a guest flag and a loading flag. It mirrors them in three keys of the device store. It changes them under start-up restore, login, register, logout and continue-as-guest.
- **Route guard** (`app/_layout.tsx`). A path is protected when it contains one of five strings. A signed-out non-guest on a protected path is sent to `/login`, with the path as `returnTo`.

The JavaScript primitives these rely on are written out:

- `trim`, with the ECMAScript white-space and line-terminator set;
- `toLowerCase`;
- `includes`;
- `parseInt`: leading white space, a sign, a `0x` prefix, then the longest digit prefix, or NaN;
- `Number`: the whole StringNumericLiteral grammar, over exact reals;
- UTF-16 `length`;
- truthiness;
- `filter` and `splice`.

Server answers and store reads are parameters. So are route parameters and the signed-in user. Each module follows the source's own form:

- The state the screens and the provider update step by step is a Dafny `class`: `CourseCreate.CourseForm`, `NewRound.NewRoundScreen` and `AuthSession.AuthProvider`. Their methods state the whole new state.
- Checks and payloads are functions.
- Behaviour spanning several operations, such as a login surviving a restart, is stated by methods that drive fresh objects.

| file | module |
|---|---|
| wrappers.dfy | `Wrappers`: `Option`, `Check` (pass or the first failure) |
| js_strings.dfy | `JsStrings`: white space, `trim`, `toLowerCase`, `includes`, `join`, UTF-16 length, truthiness |
| js_numbers.dfy | `JsNumbers`: `parseInt`, `Number`, decimal numerals |
| seqs.dfy | `Seqs`: `filter`, subsequences, `splice(i, 1)` |
| email_pattern.dfy | `EmailPattern`: the registration e-mail regular expression |
| register_form.dfy | `RegisterForm` |
| auth_session.dfy | `AuthSession` |
| route_guard.dfy | `RouteGuard` |
| course_create.dfy | `CourseCreate` |
| new_round.dfy | `NewRound` |

## Model

| member | source | states |
|---|---|---|
| JsStrings.TrimStart | app/courses/create.tsx:117 | the result is a suffix, what was dropped is white space, and it does not start with white space |
| JsStrings.TrimEnd | app/courses/create.tsx:122 | the result is a prefix, what was dropped is white space, and it does not end with white space |
| JsStrings.Trim | app/courses/create.tsx:117-125 | `trim()` is empty exactly when the text is white space only; otherwise both ends are non-space |
| JsStrings.TrimUnchanged | app/courses/create.tsx:117 | text with no white space at either end is its own trim |
| JsStrings.ToLower | app/rounds/new.tsx:70-71 | lower-casing keeps the length and maps every character on its own |
| JsStrings.IncludesIff | app/_layout.tsx:29-31 | `includes(t)` holds exactly when `t` occurs at some index |
| JsStrings.IncludesPrefix | app/_layout.tsx:12-13 | a text containing `u` contains every prefix of `u` |
| JsStrings.Utf16LengthBounds | app/register.tsx:54 | `length` counts between one and two code units per character, and exactly one when every character is in the basic plane |
| JsNumbers.DigitPrefix | app/courses/create.tsx:98 | `parseInt` reads the longest run of digits: all digits, and stopped by a non-digit or the end |
| JsNumbers.ParseIntDecimal | app/courses/create.tsx:98 | `parseInt` reads back every decimal numeral |
| JsNumbers.ParseIntStopsAtNonDigit | app/courses/create.tsx:127-128 | `parseInt` ignores whatever non-digit follows the digits (`'12abc'` and `'12x'` are 12); only after a lone `0` does an `x` or `X` start a radix prefix |
| JsNumbers.ParseIntBlank | app/courses/create.tsx:127-128 | `parseInt` of empty or white-space text is NaN |
| JsNumbers.UnsignedDecimalOfDigits | app/courses/create.tsx:64 | a run of decimal digits reads as its value, with no fraction or exponent |
| JsNumbers.NumberDecimal | app/courses/create.tsx:64 | `Number` reads back every decimal numeral |
| JsNumbers.LoneSignIsNaN | app/courses/create.tsx:64 | `Number` of a lone `-` or `+` is NaN |
| JsNumbers.NumberBlank | app/courses/create.tsx:64 | `Number` of empty or white-space text is 0 |
| Seqs.Filter | app/rounds/new.tsx:69-72 | `filter` keeps only elements satisfying the predicate, drawn from the input, and never more of them |
| Seqs.FilterIsSubsequence | app/rounds/new.tsx:69-72 | `filter` keeps the input's order |
| Seqs.FilterCounts | app/rounds/new.tsx:69-72 | `filter` keeps every occurrence of a satisfying element and none of the others |
| Seqs.FilterMembership | app/rounds/new.tsx:69-72 | an element is kept exactly when it is in the input and satisfies the predicate |
| Seqs.FilterAllKept | app/rounds/new.tsx:111 | filtering a list whose elements all satisfy the predicate changes nothing |
| Seqs.RemoveAt | app/rounds/new.tsx:98-99 | `splice(i, 1)` removes position `i` and shifts the rest down; an index past the end removes nothing |
| EmailPattern.SearchFromIff | app/register.tsx:47-48 | the unanchored `test` succeeds exactly when the pattern matches at some start index |
| EmailPattern.RunThen | app/register.tsx:47 | `\S+` followed by the rest of the pattern matches exactly when a non-space stretch is followed by a match of the rest |
| EmailPattern.EmailTestIff | app/register.tsx:47-48 | the e-mail test accepts exactly the texts containing a non-space, an `@`, one or more non-spaces, a `.` and a non-space |
| RegisterForm.ValidateForm | app/register.tsx:35-60 | the form passes exactly when all four checks pass; otherwise the error is the first failing check in source order |
| RegisterForm.HandleRegister | app/register.tsx:62-70 | a payload is produced exactly when the form passes, carrying the four fields without the confirmation |
| RegisterForm.ShortPasswordRefused | app/register.tsx:54-57 | a password of fewer than six basic-plane characters (or fewer than three of any kind) is refused |
| RegisterForm.SpacesAreFilled | app/register.tsx:36-51 | non-empty fields of white space count as filled; when the two passwords are also equal, such a form is refused on the e-mail |
| RegisterForm.EmailAnywhere | app/register.tsx:47-48 | any text containing an address such as `a@b.c` passes the e-mail test, whatever surrounds it |
| AuthSession.CheckAccessMeaning | app/context/AuthContext.tsx:183-193 | `checkAccess(false)` always holds; `checkAccess(true)` and `checkAccess()` hold exactly when the token is present and non-empty |
| AuthSession.FailureMessage | app/context/AuthContext.tsx:113-116 | the server's message when it is non-empty, the fallback otherwise |
| AuthSession.AuthProvider.constructor | app/context/AuthContext.tsx:62-65 | the provider starts loading, signed out and not a guest |
| AuthSession.AuthProvider.LoadToken | app/context/AuthContext.tsx:69-86 | a stored token with user data restores the login and leaves the guest flag; otherwise a stored `'true'` guest mode restores it; a failed read changes nothing; loading ends |
| AuthSession.AuthProvider.Authenticate | app/context/AuthContext.tsx:94-119 | success exactly when the server accepts; then token, user and store are set and guest mode cleared; on rejection nothing changes and the message is reported; loading ends |
| AuthSession.AuthProvider.Login | app/context/AuthContext.tsx:93-120 | as `Authenticate`, with `'Login failed'` as the fallback message |
| AuthSession.AuthProvider.Register | app/context/AuthContext.tsx:123-150 | as `Authenticate`, with `'Registration failed'` as the fallback message |
| AuthSession.AuthProvider.Logout | app/context/AuthContext.tsx:153-163 | the three keys are removed and token, user and guest flag cleared |
| AuthSession.AuthProvider.ContinueAsGuest | app/context/AuthContext.tsx:173-176 | the guest flag is set and stored; token and user are unchanged |
| AuthSession.RestartAfterLogin | app/context/AuthContext.tsx:69-109 | a login with a non-empty token is restored identically on the next start-up |
| AuthSession.RestartAfterLogout | app/context/AuthContext.tsx:153-163 | after a logout the next start-up is neither logged in nor a guest, and only features needing no sign-in are open |
| AuthSession.RestartAsGuest | app/context/AuthContext.tsx:173-176 | guest mode chosen while signed out is restored on the next start-up |
| AuthSession.RejectedLoginKeepsSession | app/context/AuthContext.tsx:112-116 | a rejected login reports a non-empty message and leaves the session exactly as the start-up restored it, with token and user set together |
| RouteGuard.SomeIncluded | app/_layout.tsx:29-31 | `some(route => path.includes(route))` holds exactly when one of the routes is included |
| RouteGuard.GuardDecision | app/_layout.tsx:25-40 | no decision while loading; a redirect exactly when the path is protected and there is neither a token nor guest mode; the redirect goes to `/login` with the joined path as `returnTo` |
| RouteGuard.ProtectedMeaning | app/_layout.tsx:11-17 | a path is protected exactly when one of the five strings occurs in it |
| RouteGuard.RoundsNewIsRedundant | app/_layout.tsx:12-13 | dropping `'rounds/new'` from the list protects exactly the same paths |
| RouteGuard.ProtectedBy | app/_layout.tsx:29-31 | a path in which a listed string occurs is protected |
| RouteGuard.RoundScreenProtected | app/_layout.tsx:13 | every round screen `rounds/<id>` is protected |
| RouteGuard.StatsTabProtected | app/_layout.tsx:14 | the statistics tab is protected |
| RouteGuard.SignedInOrGuestNeverRedirected | app/_layout.tsx:34 | a guest or a holder of a non-empty token is never redirected |
| CourseCreate.NewHoles | app/courses/create.tsx:106-110 | the added holes continue the numbering, each par 3 with no length |
| CourseCreate.InitialHoles | app/courses/create.tsx:32-36 | the table starts with 18 holes numbered 1..18, each par 3 with no length |
| CourseCreate.InputValue | app/courses/create.tsx:64 | an input is kept as empty exactly when the text is empty; any other text becomes `Number` of it |
| CourseCreate.WithField | app/courses/create.tsx:59-75 | editing a hole changes only the named field, and keeps its number |
| CourseCreate.GrowHoles | app/courses/create.tsx:88-114 | the old holes are kept; the table reaches the typed count when that count is non-empty, in 1..36 and above the length, and is unchanged otherwise; new holes are numbered on, par 3, no length |
| CourseCreate.GrowKeepsTable | app/courses/create.tsx:100-111 | growing keeps the table at 18..36 holes numbered 1, 2, ... in order |
| CourseCreate.GrowCoversCount | app/courses/create.tsx:98-111 | after a count of 1..36 is typed the table holds at least that many holes |
| CourseCreate.GrowNeverShrinks | app/courses/create.tsx:93-104 | clearing the count or typing a smaller one leaves the table as it is |
| CourseCreate.SliceEnd | app/courses/create.tsx:253 | `slice(0, end)` stops at `end` capped at the length, and a negative end counts back from the length |
| CourseCreate.VisibleCount | app/courses/create.tsx:253 | the shown rows never exceed the table |
| CourseCreate.VisibleRows | app/courses/create.tsx:253 | every shown row is a hole of the table with its own number; an unreadable or zero count shows them all |
| CourseCreate.GrownRowsShown | app/courses/create.tsx:98-111 | any count text `parseInt` reads as 1..36 shows exactly that many rows once the table has grown |
| CourseCreate.TypedCountIsShown | app/courses/create.tsx:253 | after a count of 1..36 is typed exactly that many rows are shown |
| CourseCreate.CourseForm.constructor | app/courses/create.tsx:24-36 | empty name, location and description, count `'18'`, and the initial table |
| CourseCreate.CourseForm.UpdateHole | app/courses/create.tsx:59-85 | only the given hole changes, and only the given field; the other form fields stay |
| CourseCreate.CourseForm.UpdateNumberOfHoles | app/courses/create.tsx:88-114 | the input takes the typed text and the table becomes its grown form, keeping the table invariant |
| CourseCreate.ValidateCourse | app/courses/create.tsx:116-134 | passes exactly when name and location are not blank and `parseInt` reads a positive count; otherwise the first failing check in source order |
| CourseCreate.PayloadHole | app/courses/create.tsx:153-159 | the number is copied; a numeric par is sent as it is and an empty one as 3; an empty length is sent as `null` and a numeric one as it is |
| CourseCreate.MapPayload | app/courses/create.tsx:153 | one sent hole per draft, in order |
| CourseCreate.SubmittedCount | app/courses/create.tsx:143 | once the form has passed, the count used is the one `parseInt` reads; the fallback of 18 for an empty input is never reached |
| CourseCreate.CourseRequest | app/courses/create.tsx:136-161 | a course is sent exactly when the form passes, with the typed name, location and description and the first min(count, table length) holes |
| CourseCreate.RequestNumbering | app/courses/create.tsx:143-160 | the course sent has 1 to 36 holes numbered 1, 2, ... in order |
| CourseCreate.TypedCountIsSent | app/courses/create.tsx:98-160 | typing a count of 1..36 and submitting sends exactly that many holes, the new ones par 3 with no length |
| CourseCreate.CountAbove36Truncated | app/courses/create.tsx:100-153 | a count above 36 passes the check, but only the table's holes are sent |
| CourseCreate.TypedParIsSent | app/courses/create.tsx:64-157 | a par typed as digits is sent as that number, an empty par as 3, and a par of spaces as 0 |
| CourseCreate.NaNParIsSent | app/courses/create.tsx:157 | any par text that `Number` reads as NaN (a lone `-`, say) is placed in the request body as NaN, not replaced by 3, since NaN is of type number |
| NewRound.SearchMembership | app/rounds/new.tsx:64-76 | a course is listed exactly when it is loaded and the query is blank or matches its name or present location |
| NewRound.SearchKeepsOrder | app/rounds/new.tsx:64-76 | the listed courses keep the server's order and each appears as often as it was loaded |
| NewRound.BlankToLower | app/rounds/new.tsx:66-71 | lower-casing a query does not change whether it is blank |
| NewRound.SearchIgnoresQueryCase | app/rounds/new.tsx:64-76 | the search gives the same list for a query and its lower-cased form |
| NewRound.NameFragmentMatches | app/rounds/new.tsx:70 | a query that occurs in a course's name finds that course |
| NewRound.AutoSelectAsWritten | app/rounds/new.tsx:40-61 | as written, any non-empty course list replaces the current selection with its first course |
| NewRound.AutoSelect | app/rounds/new.tsx:48-51 | the first course is selected only when nothing is selected and the list is non-empty; a selection is otherwise kept |
| NewRound.RouteCourseOverwritten | app/rounds/new.tsx:33-51 | a course passed in the route is replaced as written and kept by the intended selection |
| NewRound.AutoSelectSelects | app/rounds/new.tsx:48-51 | after a non-empty list is loaded some course is selected: the kept one or the first |
| NewRound.DisplayName | app/rounds/new.tsx:79-81 | the first name, followed by a space and the last name exactly when that is non-empty |
| NewRound.AdditionalPlayersMeaning | app/rounds/new.tsx:110-111 | the first row is not sent; the names sent keep their order, none is blank, and every non-blank added name is sent as often as it appears |
| NewRound.AllNamedPlayersSent | app/rounds/new.tsx:111 | when every added row holds a name, all of them are sent |
| NewRound.NewRoundScreen.constructor | app/rounds/new.tsx:21-26 | loading, no courses, empty query, nothing selected, one empty player row |
| NewRound.NewRoundScreen.ApplyCourseParam | app/rounds/new.tsx:33-37 | a non-empty `courseId` becomes the selection; nothing else changes |
| NewRound.NewRoundScreen.FetchCourses | app/rounds/new.tsx:40-76 | an answer replaces the list, re-runs the search and selects by `AutoSelect`; a failure keeps list and selection; loading ends |
| NewRound.NewRoundScreen.SetSearchQuery | app/rounds/new.tsx:63-76 | the shown list is the search over the loaded courses with the new query |
| NewRound.NewRoundScreen.SelectCourse | app/rounds/new.tsx:168 | tapping a course selects it |
| NewRound.NewRoundScreen.PrefillUser | app/rounds/new.tsx:78-83 | a user with a first name replaces the rows by their display name; otherwise the rows stay |
| NewRound.NewRoundScreen.AddPlayer | app/rounds/new.tsx:86-88 | exactly one empty row is appended |
| NewRound.NewRoundScreen.UpdatePlayerName | app/rounds/new.tsx:90-94 | only the given row changes, to the text, and the length stays |
| NewRound.NewRoundScreen.RemovePlayer | app/rounds/new.tsx:96-102 | the given row is removed, the others keep their order, unless it is the only row; the list is never empty |
| NewRound.NewRoundScreen.CreateRound | app/rounds/new.tsx:104-120 | no request without a selected course; otherwise the selected course and the additional players |
| NewRound.OpenForCourse | app/rounds/new.tsx:33-51 | with the corrected selection of the finding below (not the code as written), opening the screen for a course and loading the list keeps that course selected, and the round can be started with it |

## Left out

- Rendering, styles, navigation (`router.*`), `Alert.alert`, `console.*`: presentation and side effects that do not change the modelled state.
- Network calls and the device store: each call is modelled only as succeeding or failing, with the server's answer as a parameter. The `Authorization` header of the shared API client is not modelled.
- AuthSession.AuthProvider.LoadToken: stored user data is modelled as a parsed user. Malformed stored JSON would make `JSON.parse` throw after the token was set. That path leaves a token without a user and is not modelled.
- AuthSession.AuthProvider.Authenticate: a failure of the store writes after the server accepted is not modelled. Such a failure reports the server's success as a failure after some keys were written. A store write in logout or continue-as-guest that fails is not modelled either.
- Hook scheduling: each `useEffect` is modelled as running right after the state change that triggers it. The ordering of asynchronous completions is not modelled. The request date (`new Date().toISOString()`) is a clock read and is not modelled.
- `prevNumberOfHoles` in the course form is written but never read.
- The generic third branch of `updateHole` is not modelled, because only `'par'` and `'lengthFeet'` are ever passed. The single-character limit of the par input is not modelled.
- CourseCreate.CourseForm.UpdateHole and NewRound.NewRoundScreen.UpdatePlayerName: the index is required to be a shown row. Those are the only indices the screens pass, and an index past the end would extend the JavaScript array with holes.
- The plain setters of the course name, location and description inputs are not modelled as methods. They only assign the typed text.
- The sign-in prompt that create.tsx shows when there is no token is not modelled, and neither is the same screen's redirect from register.tsx. Both are rendering and navigation.
- Course and player identifiers are modelled as strings. The server's numeric ids and the course fields used only for display (`holeCount`, `holes`) are not modelled.
- JsNumbers.Number: values are exact reals. Floating-point rounding, overflow to Infinity and negative zero are not modelled.
- JsNumbers.ParseIntDecimal: `ParseInt` returns the exact integer, while JavaScript's `parseInt` returns a double. Numerals above 2^53 are rounded there (`'9007199254740993'` reads as 9007199254740992), and a long enough digit run reads as Infinity. No screen outcome depends on this, because counts are only compared with 0, 36 or the table length, or capped by it.
- CourseCreate.NaNParIsSent: the request body is modelled as values. Its JSON encoding is not, and JSON writes NaN and Infinity as `null`.
- JsStrings.ToLower: only ASCII letters are lower-cased. The rest of Unicode case mapping is not modelled.
- The round scorecard of app/rounds/[id].tsx is not part of this model. It covers stroke adjustment, the current-hole pointer and par totals. It lies outside the five modelled files. This model follows the code of those five files.

## Findings

| source | as written | input that shows it | evidently intended | confidence | as-written member | corrected member |
|---|---|---|---|---|---|---|
| app/rounds/new.tsx:49 | the fetch callback is created once, on the first render, and tests that render's `selectedCourse`, which is always `null`; so any non-empty list selects its first course, replacing a course set from the `courseId` route parameter at lines 33-37 | open the screen with `courseId` `'c7'`; the server lists `c1` then `c7`; the selection becomes `c1` | keep an existing selection and pick the first course only when none is selected, as the comment at line 48 says | not executed | NewRound.AutoSelectAsWritten, NewRound.RouteCourseOverwritten | NewRound.AutoSelect, NewRound.NewRoundScreen.FetchCourses, NewRound.OpenForCourse |
