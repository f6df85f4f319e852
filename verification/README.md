# elearningfront core, modelled in Dafny

This project models the logic inside the e-learning front end: two React applications that talk to a Strapi back end. Each piece is written as immutable data and pure functions, and its properties are proved.

- **Course dashboard** (`CourseContent`). Total duration, progress percentage, certification badge, next upcoming class, the module dropdowns opened initially and on toggle, and the lesson action buttons.
- **Profile page** (`Profile`). Class counts, total duration, the four upcoming classes and the overall progress.
- **Duration strings** (`Duration`). The regex-based parser `(\d+)h` / `(\d+)min`, with exact leftmost-match semantics, and the two formatters that use it.
- **Session store** (`Session`, `Header`). `localStorage` as a map from keys to strings, the API service's `login` / `logout` / `isAuthenticated` / `getCurrentUser`, the protected-route guard, the header's logout and its dropdown.
- **API normalisation** (`ApiNormalize`, over the JSON value model `JsValue`). `getUserWithCourses` and `getCourseContent`, including object spread and the exceptions the mapping code throws.
- **User display** (`UserDisplay`). The name, e-mail and initial fallback chains that several pages repeat.
- **Forms and widgets**:
  - the change-password form (`PasswordForm`);
  - the help-center search and accordion (`HelpCenter`);
  - the scripted support chat (`Chat`);
  - the two login screens (`LoginForm`, `PortalLogin`).

Conventions used throughout:
- Dates are integer timestamps. `None` stands for an absent, empty or unparseable date, and "today" is a parameter.
- A missing user-data string is `""`; the source only ever tests those fields for truthiness.
- Network calls, timers and the browser are parameters: an HTTP outcome, a callback outcome, a timer tick.

Facts about the code that shape the model:
- `src/components/Course.tsx` computes no remaining duration, completed-lessons fraction or materials count, so none is modelled.
- The materials and Zoom actions test only the lesson's own lock, never the module's (`src/components/Course.tsx:609`, `:618`). `CourseContent.LessonActions` states that.
- When two candidate lessons share the earliest date, the next-class search keeps the first one visited (strict `<`). `CourseContent.NextLessonIsFirstEarliest` states that.

## Model

| member | source | states |
|---|---|---|
| Text.NatToStringRoundTrip | src/components/Course.tsx:245-247 | the decimal text a count is rendered with reads back, digit by digit, as the same count |
| Text.BeforeFirst | src/components/Header.tsx:122 | `split('@')[0]` is the longest prefix without '@', followed by '@' when shorter than the e-mail |
| Duration.NumberBeforeIsLeftmostMatch | src/components/Course.tsx:231-235 | the number taken for `(\d+)h` / `(\d+)min` is absent exactly when the regex has no match, and otherwise is the value of the leftmost match's full digit run |
| Duration.HoursThenMinutes | src/components/Course.tsx:228-237 | "Hh Mmin" parses to 60·H + M minutes |
| Duration.MinutesThenHours | src/components/Course.tsx:228-237 | "Mmin Hh" parses to the same 60·H + M: the order of the parts does not matter |
| Duration.HoursOnly | src/components/Course.tsx:234-235 | "Hh" alone gives 60·H, the missing minutes counting 0 |
| Duration.MinutesOnly | src/components/Course.tsx:234-235 | "Mmin" alone gives M, the missing hours counting 0 |
| Duration.NoDigitsIsZero | src/components/Course.tsx:234-235 | a duration without digits counts 0 minutes |
| Duration.FormatCourseRoundTrip | src/components/Course.tsx:242-247 | parsing the dashboard's "Hh Mmin" / "Hh" / "Mmin" rendering of m minutes gives back m |
| Duration.FormatProfileRoundTrip | src/components/MyProfile.tsx:237-241 | parsing the profile's "Hh Mmin" / "Hh" rendering of m minutes gives back m |
| JsValue.Read | src/service/apiService.ts:205-207 | reading a property throws a TypeError exactly on `null` / `undefined`, and otherwise yields the property |
| JsValue.SetField | src/service/apiService.ts:133-137 | assigning a property makes it read back as the new value, adds it to the keys, and leaves every other property as it was |
| JsValue.SpreadReads | src/service/apiService.ts:126-130 | after `{...fs, ...src}` a property comes from `src` when `src` declares it and from `fs` otherwise (later keys win) |
| JsValue.StoredJson | src/service/apiService.ts:71 | what storing `JSON.stringify(user)` leaves is never the empty string, even for an `undefined` user |
| Session.Guard | src/components/PrivateRoute.tsx:24-32 | children render exactly when both `userToken` and `userData` are present and non-empty; a redirect to '/' with replace happens exactly when they do not |
| Session.GuardIgnoresUserContent | src/components/PrivateRoute.tsx:15-16 | the snapshot's content is never inspected: any two non-empty snapshots get the same decision |
| Session.LoggedInIsAuthenticated | src/service/apiService.ts:92-94 | whoever passes the guard is authenticated |
| Session.AuthenticatedNotLoggedIn | src/service/apiService.ts:92-94 | a store with only a token is authenticated yet kept out by the guard, so the converse fails |
| Session.Logout | src/service/apiService.ts:84-87 | `logout` removes exactly the token and the user snapshot and keeps every other key and value |
| Session.LogoutEndsSession | src/service/apiService.ts:84-94 | after `logout` neither `isAuthenticated` nor the guard lets the user through |
| Session.ApiLogin | src/service/apiService.ts:61-79 | a response with a truthy token stores `String(token)` and the user snapshot and nothing else; any other response leaves the store untouched; rejections are rethrown |
| Session.LoginStartsSession | src/service/apiService.ts:68-72 | a login answered with a non-empty string token opens a session that passes both checks |
| Session.CurrentUserText | src/service/apiService.ts:99-102 | `getCurrentUser` has nothing to parse exactly when the snapshot is absent or empty |
| UserDisplay.FullName | src/components/MyProfile.tsx:269-279 | "nombre apellido" when both are set, else nombre, else the e-mail up to its first '@', else "Usuario" |
| UserDisplay.FullNameEmptyIff | src/components/Header.tsx:115-126 | the shown name is empty only for a user known by an e-mail that starts with '@' |
| UserDisplay.ProfileEmail | src/components/MyProfile.tsx:282-284 | the profile shows the stored e-mail itself, the empty text when there is none: `email || ""` substitutes nothing else |
| UserDisplay.ShownEmail | src/components/Header.tsx:129-131 | the header shows the e-mail, or "sin correo registrado", never an empty text |
| UserDisplay.Initial | src/components/Configuration.tsx:167-175 | one character: nombre's first, else the e-mail's first, else "U", with case kept |
| UserDisplay.InitialUpper | src/components/MyProfile.tsx:287-295 | one character that is never a lower-case letter |
| UserDisplay.InitialsAgree | src/components/MyProfile.tsx:287-295 | the profile's initial is the settings page's initial upper-cased |
| UserDisplay.InitialStartsName | src/components/Configuration.tsx:151-175 | whenever the name is not the placeholder, the initial is the first character of the shown name |
| Header.DropdownStep | src/components/Header.tsx:29-42 | a trigger click toggles the dropdown, a mousedown outside closes it, a mousedown inside leaves it as it was |
| Header.DropdownParity | src/components/Header.tsx:29-42 | with no outside mousedown, the dropdown's state after a run is decided by the parity of the trigger clicks |
| Header.HandleLogout | src/components/Header.tsx:134-144 | the header's logout removes the two session keys, keeps every other key, and navigates to '/' with replace |
| Header.HeaderLogoutIsServiceLogout | src/components/Header.tsx:138-140 | the header's logout leaves the same store as the service's `logout` |
| CourseContent.CalculateTotalDuration | src/components/Course.tsx:223-248 | the text produced parses back to the sum of every lesson's minutes over all modules, locked ones included |
| CourseContent.CountCompletedAll | src/components/Course.tsx:284-291 | the completed count equals the lesson count exactly when every lesson is completed |
| CourseContent.RoundPercent | src/components/Course.tsx:295 | the percentage is within 0..100 and is `Math.round(100·c/t)`: 100·c/t lies within half a point of it, rounding halves up |
| CourseContent.RoundPercentHundred | src/components/Course.tsx:295 | the rounded percentage is 100 exactly when at least 99.5% of the lessons are completed |
| CourseContent.RoundPercentEnds | src/components/Course.tsx:295 | no completed lessons gives 0 and all completed gives 100 |
| CourseContent.ProgressTextShowsValue | src/components/Course.tsx:280-297 | the progress text is the decimal value followed by "%", the value at most 100, and "0%" for a course without lessons |
| CourseContent.ProgressHundredIff | src/components/Course.tsx:280-297 | the text reads "100%" exactly when there are lessons and at least 99.5% are completed |
| CourseContent.AllCompletedIsHundred | src/components/Course.tsx:280-297 | a course with lessons, all completed, reads "100%" |
| CourseContent.CertificationLabelAsWrittenWrong | src/components/Course.tsx:485 | a course with 201 lessons, one still open, gets the "Completado" badge |
| CourseContent.CertificationLabel | src/components/Course.tsx:485-490 | corrected badge: "Completado" exactly when there are lessons and every one is completed |
| CourseContent.FilterCandidates | src/components/Course.tsx:259-272 | within a module, exactly the unlocked lessons whose raw date is after today are kept |
| CourseContent.CandidatesExact | src/components/Course.tsx:256-272 | a lesson is a next-class candidate exactly when it belongs to an unlocked module, is unlocked itself, and has a raw date after today |
| CourseContent.NextLessonIsFirstEarliest | src/components/Course.tsx:251-277 | the chosen lesson has the earliest date among the candidates and is the first such in module and lesson order; there is none only without candidates |
| CourseContent.LockedModuleNeverNext | src/components/Course.tsx:257 | a lesson that appears only in locked modules is never chosen, whatever its own lock |
| CourseContent.NextClassSentinelIff | src/components/Course.tsx:276 | "No hay clases próximamente" is shown exactly when no lesson qualifies |
| CourseContent.InitialOpenKeys | src/components/Course.tsx:329-336 | the initial dropdown map has an entry for each module id and for nothing else |
| CourseContent.InitialOpenTrue | src/components/Course.tsx:333-335 | an entry starts open only for a module that is incomplete after only completed modules |
| CourseContent.AtMostOneOpen | src/components/Course.tsx:329-336 | at most one module starts open, and none once every module is completed |
| CourseContent.InitialOpenDistinct | src/components/Course.tsx:329-336 | with distinct ids, a module starts open exactly when it is the first incomplete one |
| CourseContent.ToggleModule | src/components/Course.tsx:215-220 | toggling flips the module's flag (absent reads as closed) and leaves every other entry unchanged |
| CourseContent.ToggleTwice | src/components/Course.tsx:215-220 | toggling a module already in the map twice restores the map |
| CourseContent.LessonActions | src/components/Course.tsx:609-618 | a locked lesson offers neither materials nor Zoom; an unlocked one offers each exactly when it has resources or a link |
| CourseContent.OpenMaterialsModal | src/components/Course.tsx:351-357 | the modal opens on the lesson's materials and title when it has any, and is untouched otherwise |
| Profile.UnitMinutes | src/components/MyProfile.tsx:225-232 | a class without a duration counts as one hour |
| Profile.UnitsOf | src/components/MyProfile.tsx:213 | a module's classes are its `lessons` whenever that array is present, even empty, else its `unidades`, else none |
| Profile.CountDone | src/components/MyProfile.tsx:220-222 | the completed classes, counted under either flag, never exceed the classes |
| Profile.CalcularEstadisticas | src/components/MyProfile.tsx:205-266 | the nested loops over modules and classes yield exactly the class count, the completed count and the profile rendering of the minute sum taken over the flattened class list, plus that list's upcoming classes |
| Profile.TallyModule | src/components/MyProfile.tsx:216-233 | one module's classes are appended to the running list, and the class, completed and minute tallies stay the count, completed count and minute sum of that list |
| Profile.Insert | src/components/MyProfile.tsx:255-262 | inserting a class keeps every class, adding just that one |
| Profile.SortByDate | src/components/MyProfile.tsx:255-262 | the sort is a permutation of its input |
| Profile.SortSorted | src/components/MyProfile.tsx:255-262 | when every class has a date, the sorted list ascends by `date_raw`, falling back to `fecha_clase` |
| Profile.Pending | src/components/MyProfile.tsx:253-254 | exactly the classes completed under neither flag are kept |
| Profile.UpcomingProperties | src/components/MyProfile.tsx:251-265 | at most four classes, min(4, pending) of them, all taken from the pending classes |
| Profile.UpcomingSorted | src/components/MyProfile.tsx:251-265 | when every pending class has a date, the upcoming classes ascend by `date_raw`, falling back to `fecha_clase`, and are the earliest pending ones: no pending class left out is dated before one that was kept |
| Profile.PrefixEarliest | src/components/MyProfile.tsx:255-265 | the first n classes of a date-ascending list are dated no later than any class after them, which is why `slice(0, 4)` of the sorted list keeps the earliest |
| Profile.ProgresoTotal | src/components/MyProfile.tsx:298-303 | the overall progress is 0 without a course or without classes, and otherwise `Math.round(100·c/t)`: within 0..100, with 100·c/t within half a point of it, halves rounding up |
| Profile.ProgresoTotalEnds | src/components/MyProfile.tsx:298-303 | 100 when every class is completed, 0 while none is |
| ApiNormalize.Entry | src/service/apiService.ts:134-137 | a flattened record reads every attribute, plus the record's own `id` unless the attributes declare one |
| ApiNormalize.FlattenEntry | src/service/apiService.ts:134-137 | flattening throws exactly on a `null` / `undefined` entry |
| ApiNormalize.MapAll | src/service/apiService.ts:134 | a mapping fails exactly when the callback fails on some element, and otherwise yields one result per element in order |
| ApiNormalize.OptionalData | src/service/apiService.ts:204 | `x?.data?.map` yields nothing on `null` / `undefined`, the elements of an array, and a TypeError for anything else |
| ApiNormalize.GetUserWithCourses | src/service/apiService.ts:108-149 | the flat shape comes back unchanged; "Formato de respuesta no reconocido" is raised exactly for neither shape; a nested result keeps the flattened user's fields and has a `cursos` list; a throw only comes from bad course data |
| ApiNormalize.NestedUserCourses | src/service/apiService.ts:126-140 | without course data `cursos` is empty; with an array of non-null entries it holds one flattened record per entry in order; a non-array throws "… is not a function" |
| ApiNormalize.FlattenModule | src/service/apiService.ts:204-211 | a module keeps its flattened fields and gets a `lecciones` list holding one flattened record per listed lesson, in order, empty when the lesson data is missing; it fails exactly on a null module, null attributes, non-array lesson data or a null lesson |
| ApiNormalize.GetCourseContent | src/service/apiService.ts:191-221 | anything but the nested shape is returned as it came; the nested shape keeps the flattened course's fields and holds, in order, each listed module flattened with its lessons (none without data); it throws exactly when the module data is not an array or some module fails to flatten |
| PasswordForm.HandleChange | src/components/Configuration.tsx:73-78 | editing changes only the named field |
| PasswordForm.Validate | src/components/Configuration.tsx:89-105 | a submission passes exactly when the new password equals its confirmation and has at least 8 characters; a mismatch is reported before the length |
| PasswordForm.SubmitWith | src/components/Configuration.tsx:80-122 | a refused submission shows its error and touches neither the fields nor `loading`; a sent one clears the alert, sets `loading`, and carries the current and new passwords, the user id and the bearer token |
| PasswordForm.Finish | src/components/Configuration.tsx:124-147 | `loading` ends false; success clears all three fields with the success alert; failure keeps the fields and shows the server's message or 'Error al cambiar la contraseña' |
| PasswordForm.SubmitThenSucceed | src/components/Configuration.tsx:107-147 | a successful change leaves a cleared, idle form with a visible success alert |
| PasswordForm.SubmitThenFail | src/components/Configuration.tsx:137-147 | a failed change keeps the typed passwords, shows an error, and can be resubmitted as is |
| PasswordForm.RefusalIsStable | src/components/Configuration.tsx:83-105 | resubmitting a refused form refuses it again with the same alert |
| PasswordForm.AsWrittenSendsNoToken | src/components/Configuration.tsx:114-115 | after a successful login the change request carries no Authorization header, because the token is looked up under `jwt` |
| PasswordForm.SubmitSendsLoginToken | src/components/Configuration.tsx:114-122 | reading the token where login stores it, the change request carries "Bearer " and that token |
| HelpCenter.FilterItems | src/components/helpcenter.tsx:189-193 | exactly the items whose question, answer or a tag contains the query, ignoring case, are kept |
| HelpCenter.FilterKeepsOrder | src/components/helpcenter.tsx:189 | a category's results are a subsequence of its content, as many as the matching items |
| HelpCenter.Search | src/components/helpcenter.tsx:187-194 | no more blocks than categories, and no block without items |
| HelpCenter.SearchKeepsOrder | src/components/helpcenter.tsx:187-194 | the result blocks are the catalogue's filtered categories in catalogue order, with only empty ones dropped |
| HelpCenter.SearchSound | src/components/helpcenter.tsx:187-194 | every result item matches and comes from a category with that block's title |
| HelpCenter.SearchComplete | src/components/helpcenter.tsx:187-194 | every matching item of every category appears under its category's title |
| HelpCenter.ResultCountIsMatchCount | src/components/helpcenter.tsx:273 | the displayed count is the number of matching items in the whole catalogue |
| HelpCenter.QueryCaseIgnored | src/components/helpcenter.tsx:190-192 | the query's letter case makes no difference to what matches |
| HelpCenter.OnQuery | src/components/helpcenter.tsx:185-200 | results show exactly for queries of 2 or more characters; shorter ones keep the old results; the shown count is the match count |
| HelpCenter.ClearSearch | src/components/helpcenter.tsx:256 | clearing empties the query and hides the results |
| HelpCenter.HandleToggle | src/components/helpcenter.tsx:202-204 | clicking opens the section unless it is the open one, which closes |
| HelpCenter.ToggleTwice | src/components/helpcenter.tsx:202-204 | two clicks on a section restore a closed accordion or that section open |
| HelpCenter.ToggleOpensOnlyClicked | src/components/helpcenter.tsx:202-204 | after a click no other section is open |
| Chat.MenuTwoLevels | elearning/src/components/chat.tsx:28-63 | the topic menu is at most two levels deep and never uses the adviser's id |
| Chat.SelectOption | elearning/src/components/chat.tsx:80-116 | the choice is echoed as a user message; a topic with sub-options schedules exactly those, while a leaf records the topic and schedules the single adviser offer |
| Chat.AgentChat | elearning/src/components/chat.tsx:118-128 | the adviser mode is switched on and the connecting notice appended |
| Chat.SendMessage | elearning/src/components/chat.tsx:130-142 | a blank text is ignored; otherwise the text, untrimmed, is posted and the input cleared |
| Chat.InputNeedsAgent | elearning/src/components/chat.tsx:255-263 | typing changes the input and a submit posts a message only once the adviser chat has started; a submit posts exactly the typed, non-blank text |
| Chat.RunAppends | elearning/src/components/chat.tsx:82-139 | over any run of events the log only grows and adviser mode, once on, stays on |
| Chat.TimerDeliversOldest | elearning/src/components/chat.tsx:91-114 | a timer tick posts the oldest scheduled reply |
| Chat.LeafTopicReachesAgent | elearning/src/components/chat.tsx:59-128 | choosing "Otras consultas" records the topic, is followed by the adviser offer, and its click starts the adviser chat |
| LoginForm.InputChange | src/components/login.tsx:25-32 | editing sets the named field and clears the message |
| LoginForm.SetResetMode | src/components/login.tsx:226-281 | the mode links do nothing while a request is in flight |
| LoginForm.Start | src/components/login.tsx:44 | a request starts with the spinner on and no message |
| LoginForm.ErrorText | src/components/login.tsx:73 | `new Error(x \|\| fallback)` carries the text of `x` when it is truthy, the fallback otherwise |
| LoginForm.Login | src/components/login.tsx:34-94 | only an ok, parsed, non-null body stores `String(token)` and the user snapshot and redirects to '/home/2'; anything else leaves the store and shows a message; the spinner always stops |
| LoginForm.RefusedLoginMessage | src/components/login.tsx:71-74 | a refused login shows the server's `error.message` when it is truthy, else 'Error al iniciar sesión' |
| LoginForm.LoginOpensSession | src/components/login.tsx:79-83 | a login with a non-empty token passes the route guard |
| LoginForm.LoginWithoutTokenOpensSession | src/components/login.tsx:79-80 | an ok body without a token stores the text "undefined", which the guard accepts |
| LoginForm.ResetPassword | src/components/login.tsx:96-131 | success puts 'Se han enviado instrucciones…' in the message slot; a refusal shows the server's `message` or the fallback; network and parse errors show their own message |
| PortalLogin.Settle | elearning/src/components/login.tsx:49-56 | a thrown Error leaves its message, anything else thrown the fallback, and the spinner always stops |
| PortalLogin.Submit | elearning/src/components/login.tsx:39-57 | without `onLogin` nothing changes; with it, success leaves no message, failure a message, 'Error al iniciar sesión' for non-Errors |
| PortalLogin.ResetPassword | elearning/src/components/login.tsx:59-74 | without `onResetPassword` nothing changes; otherwise the same shape with 'Error al restablecer la contraseña' |
| PortalLogin.SubmitSettles | elearning/src/components/login.tsx:43-56 | submitting from an idle form never leaves the spinner on, and resubmitting with the same outcome changes nothing more |

## Left out

- Rendering is not modelled: JSX, CSS classes, icons, layout and the fixed captions (header titles, placeholders, button labels). The only exceptions are the certification badge and the alert visibility.
- Network I/O is not modelled: axios and fetch, base URLs, the request interceptor and `window.location`. Each call is an outcome value passed in.
- The course fetch in `src/components/Course.tsx:312-345` is not modelled. Its token lookup at line 83 is a plain read with the same `jwt` key.
- `JSON.parse` of the stored user snapshot and of response text is not modelled. Pages take a `UserData` or a parsed `Value`, and a failed parse is an input. `Session.CurrentUserText` returns the text to be parsed.
- Dates are not parsed. `new Date(...)`, `toLocaleDateString` and `toLocaleTimeString` are replaced by integer timestamps and a `today` parameter.
- Profile.SortByDate treats a non-empty but unparseable `date_raw` like an absent one and falls back to `fecha_clase`. The source keeps the unparseable `date_raw` and compares it as NaN, which the sort reads as 0.
- Profile.UpcomingSorted states the order only when every pending class has a date. With missing dates the comparator returns 0 and is not a consistent order, so the engine's result is implementation-defined.
- Duration.ParseMinutes, Duration.FormatCourse, Duration.FormatProfile, CourseContent.CalculateTotalDuration and Profile.CalcularEstadisticas work on unbounded integers. JavaScript numbers are exact integers only up to 2^53, and `${n}` prints them in exponent form from 1e21. So `parseInt`, the running totals and the round trips hold in the source only below those bounds. For example, "9007199254740993min" reads as 9007199254740992 there, and 1e21 hours renders as "1e+21h", which reads back as 21.
- CourseContent.RoundPercent is exact rational rounding of 100·c/t. The source's floating-point `Math.round((c/t)*100)` can differ on values within rounding error of a half.
- Profile.ProgresoTotal takes the module list as always present. The source's `!curso.modulos` test on a course without that property is not modelled.
- `usuariosCreados: 0` in the profile totals is a constant placeholder and is not modelled.
- Text.Lower and UserDisplay.InitialUpper change ASCII letters only. JavaScript's `toLowerCase` / `toUpperCase` also map accented and other Unicode letters.
- PasswordForm.Validate, HelpCenter.OnQuery, UserDisplay.Initial and UserDisplay.InitialUpper count and take whole characters, not UTF-16 code units. JavaScript's `.length` (Configuration.tsx:99, helpcenter.tsx:186) and `charAt(0)` (Configuration.tsx:167-175, MyProfile.tsx:287-295) work on code units. The two differ for characters outside the Basic Multilingual Plane. For example, a one-emoji query has length 2 in JavaScript and shows results, but is one character in the model.
- Chat.SendMessage treats only the ASCII whitespace characters as blank. JavaScript's `trim` also removes Unicode spaces and line separators.
- JsValue numbers are integers. Fractional numbers, NaN and the infinities are not modelled, nor are their `String` / `JSON.stringify` forms.
- Spreading a string or an array is not modelled: JavaScript copies their index keys. JavaScript's ordering of integer-like keys ahead of other keys is not modelled either.
- Chat message ids, timestamps and the 500 ms `setTimeout` delay are not modelled. Delayed replies are queued and delivered by a timer event, oldest first.
- The help center's catalogue text is a parameter rather than a constant: the questions, answers, tags and update dates are data. Accordion and result rendering are not modelled.
- Not modelled are the `console` logging, the `process.env` lookups, and the `useEffect` that loads the user snapshot on each page.
- The mock pages of the campus application are not modelled: `elearning/src/components/Course.tsx`, `MyProfile.tsx`, `Header.tsx` and `Configuration.tsx`. Routing and composition files (`App.tsx`, `index.tsx`, `pages/*`) are left out too.

## Findings

| source | as written | input that shows it | evidently intended | confidence | as-written member | corrected member |
|---|---|---|---|---|---|---|
| src/components/Course.tsx:485 | the badge reads "Completado" when the progress text equals "100%", and that text is a rounded percentage | 201 lessons with 200 completed: 100·200/201 ≈ 99.5 rounds to "100%" | "Completado" only when every lesson is completed | medium, not executed | CourseContent.CertificationLabelAsWrittenWrong | CourseContent.CertificationLabel |
| src/components/Configuration.tsx:114 | the change-password request takes its bearer token from the `jwt` key, which no login writes (both store it under `userToken`) | log in through `src/components/login.tsx` into an empty store, then submit "abcdefgh" / "abcdefgh": the request has no Authorization header | read the token under `userToken`, as the guard and the profile page do | medium, not executed | PasswordForm.AsWrittenSendsNoToken | PasswordForm.SubmitSendsLoginToken |
