# Happy Mind School controller, in Dafny

A model of the application controller of a school wellness single-page app.
Students log in, record how they feel and open small "modules" (breathing
breaks, a zen room, missions). The controller holds six pieces of state:
- the session's user name;
- the active screen;
- the open module;
- the activity log (`appData`);
- the notification queue (`toasts`);
- the happy-points counter.

Every event handler is a pure transition on an immutable `State`. The two
projections of the log that the screens read are pure functions: the emotion
records, and the distinct student logins in first-login order.

Files and modules:

- `types.dfy` (`Types`): the closed string unions `Emotion`, `Screen`,
  `ModuleType` and `AppDataActivityType` (here `ActivityType`), as datatypes
  with their string tags, and the record `AppDataItem`. Each union is shown
  to be closed: exactly its listed strings parse to a value.
- `toasts.dfy` (`Toasts`): the notification queue. It covers appending and
  removal by id. A timer never removes a toast with a different id, and two
  timers leave the same queue whichever fires first. Ids are clock readings
  and can collide; toasts that share an id leave together.
- `views.dfy` (`Views`): the `emotion_record` filter and `studentLogins`.
  The de-duplication is characterised independently: a list equals it exactly
  when it has the same elements, in order of first occurrence. A loop that
  inserts the login names into a set, keeping each name not seen before,
  computes the same list.
- `app.dfy` (`App`): the state, the handlers and "nothing else changes"
  frames. It also models runs of events, and proves the log is append-only,
  the points counter, a log invariant and the no-session no-ops.
- `render.dfy` (`Render`): the choice of component. This covers the login
  gate, the screen `switch` with its default branch and the module `switch`.

Modelling decisions:

- The session guard `if (!userName)` is JavaScript truthiness, so
  `SessionActive(u)` is `u.Some? && u.value != ""`.
- `handleLogin` does not check the name. An empty name is logged as a
  `student_login` record, and the session stays inactive: after
  `HandleLogin(s, "", ...)` the session guard still fails.
- There is no `navigateTo`. The header gets the plain setter
  (`SetActiveScreen`, App.tsx:154), and an unknown screen string reaches the
  `default` branch of `renderScreen` (App.tsx:114-115, `Render.RenderScreen`).
  That branch is shown unreachable for a well-typed screen.
- `recordActivity` accepts any of the seven activity types, including
  `emotion_record` and `student_login`. So the log invariant is one-directional:
  an emotion appears only on an `emotion_record`, but an `emotion_record`
  need not carry one.
- `Date.now()`, `new Date().toISOString()` and the id `addToast` reads are
  parameters of each handler. Nothing assumes they are unique or increasing.
- The message texts are kept as the constant strings of the program.

## Model

| member | source | states |
|---|---|---|
| Types.ParseEmotion | types.ts:2 | a string reads as an emotion exactly when it is the tag of one, and then it reads as that emotion |
| Types.ParseScreen | types.ts:4 | a string reads as a screen exactly when it is the tag of one, and then as that screen |
| Types.ParseModule | types.ts:6 | a string reads as a module exactly when it is the tag of one, and then as that module |
| Types.ParseActivity | types.ts:8 | a string reads as an activity type exactly when it is the tag of one, and then as that type |
| Types.EmotionClosed | types.ts:2 | exactly the five listed strings are emotions, and every emotion's tag reads back as itself |
| Types.ScreenClosed | types.ts:4 | exactly the five listed strings are screens, and every screen's tag reads back as itself |
| Types.ModuleClosed | types.ts:6 | exactly the six listed strings are modules, and every module's tag reads back as itself |
| Types.ActivityClosed | types.ts:8 | exactly the seven listed strings are activity types, and every type's tag reads back as itself |
| Types.TagsInjective | types.ts:2-8 | within each union, distinct values have distinct strings |
| Types.ZenRoomTagShared | types.ts:4-8 | `zen-room` is a screen, a module and an activity type at once, as three values of distinct types |
| Toasts.Enqueue | App.tsx:29-31 | a new toast goes at the end of the queue with the given id and message, and the earlier toasts are unchanged |
| Toasts.RemoveById | App.tsx:32-34 | removal keeps exactly the toasts whose id differs, never grows the queue, and leaves no toast with that id |
| Toasts.RemoveByIdAppend | App.tsx:33 | removal distributes over concatenation, so survivors keep their queue order |
| Toasts.RemoveByIdNoop | App.tsx:33 | removal leaves the queue unchanged if and only if no toast carries the id |
| Toasts.RemoveByIdIdempotent | App.tsx:33 | removing an id twice is the same as removing it once |
| Toasts.RemoveByIdCommutes | App.tsx:32-34 | two expiry callbacks give the same queue in either order |
| Toasts.EnqueueThenRemove | App.tsx:29-34 | a toast queued under a fresh id is taken out again by its own expiry, and the rest of the queue is restored exactly |
| Toasts.SharedIdLeaveTogether | App.tsx:29-34 | two toasts queued under the same clock id are both removed by one expiry, leaving the queue as if neither had been queued |
| Toasts.RemoveKeepsOthers | App.tsx:29-34 | the expiry of another id keeps a newly queued toast at the end of the queue |
| Views.FirstIndexIsFirst | App.tsx:97 | a position holding the element, with no earlier position holding it, is the first occurrence |
| Views.FirstIndexMinimal | App.tsx:97 | no position before the first occurrence holds the element |
| Views.Dedup | App.tsx:97 | the spread of a `Set` built from a list is never longer than the list |
| Views.DedupMembers | App.tsx:97 | the spread of a `Set` built from a list holds exactly the list's elements |
| Views.DedupNoDuplicates | App.tsx:97 | the spread of a `Set` holds each element once |
| Views.DedupOrder | App.tsx:97 | the de-duplicated list is in order of first occurrence |
| Views.FirstOccurrenceOrderUnique | App.tsx:97 | two lists with the same elements, both in first-occurrence order, are equal |
| Views.DedupCharacterised | App.tsx:97 | a list is the de-duplication if and only if it has the same elements and is in first-occurrence order |
| Views.DedupSnoc | App.tsx:97 | inserting into the `Set` appends a new name and ignores a repeated one |
| Views.OfKind | App.tsx:96 | the filter by type keeps exactly the records of that type and is no longer than the log |
| Views.OfKindAppend | App.tsx:96 | the filter distributes over concatenation, so appending to the log appends to the projection |
| Views.EmotionRecords | App.tsx:102 | `emotionRecords` holds exactly the log's `emotion_record` entries |
| Views.EmotionRecordsAppend | App.tsx:102 | `emotionRecords` keeps log order: appending to the log appends the new `emotion_record` entries at the end |
| Views.UserNames | App.tsx:97 | the mapped list has one name per record, taken from the record at the same position |
| Views.OfKindAll | App.tsx:96 | a log whose records all have the filtered type is left whole by the filter |
| Views.FirstIndexPrefix | App.tsx:97 | appending to a list does not move the first occurrence of an element already in it |
| Views.LoginNames | App.tsx:96-97 | the mapped login list has exactly one name per `student_login` record, so no more names than log entries |
| Views.LoginNamesMembers | App.tsx:96-97 | a name is among the login names exactly when some `student_login` record carries it |
| Views.LoginNamesSnoc | App.tsx:96-97 | appending a record adds its name to the login names exactly when it is a `student_login` |
| Views.StudentLogins | App.tsx:95-99 | `studentLogins` has no duplicates and holds exactly the names of login records, in order of first login |
| Views.UniqueStudentLogins | App.tsx:95-99 | filtering and mapping the log, then one pass that keeps each name not yet in a `Set`, computes `studentLogins` |
| App.AddToast | App.tsx:29-31 | `addToast` queues one toast at the end and changes no other field |
| App.ExpireToast | App.tsx:32-34 | the expiry callback keeps exactly the toasts with other ids, in their queue order, leaves none with its id, and changes no other field |
| App.SessionActive | App.tsx:39 | the guard `!userName` lets a call through exactly when a name is present and non-empty: no name and the empty name both block |
| App.RecordActivity | App.tsx:38-48 | no session: no change; otherwise exactly one record is appended with the session's name, the given type and content and no emotion, and only the log changes |
| App.HandleLogin | App.tsx:50-62 | the name is set even when empty, and the session is active iff the name is non-empty; one `student_login` under that name is appended; one welcome toast is queued; screen, module and points stay |
| App.OpenModule | App.tsx:64-67 | the module becomes the open one and nothing else changes |
| App.CloseModule | App.tsx:69-72 | no module is open afterwards, nothing else changes, and closing with none open is the identity |
| App.HandleRecordEmotion | App.tsx:74-88 | no session: no change; otherwise one `emotion_record` carrying the emotion is appended and `emotionRecords` grows by exactly it; one toast is queued; the module closes; screen, name and points stay |
| App.UpdateHappyPoints | App.tsx:90-93 | the counter rises by exactly 10, one toast is queued, and nothing else changes |
| App.OnViewData | App.tsx:126 | the module closes and the emotion-data screen shows; nothing else changes |
| App.SetActiveScreen | App.tsx:154 | the screen switches, and any open module stays open |
| App.OpenThenClose | App.tsx:64-72 | closing undoes opening, and closing is idempotent |
| App.StepAppendOnly | App.tsx:38-88 | each event keeps every earlier log entry and appends at most one |
| App.RunAppendOnly | App.tsx:38-88 | over any run of events the log only grows, by at most one entry per event, and its old entries never change |
| App.RunPoints | App.tsx:90-93 | over any run, the points equal the start plus 10 per reward event, so they never decrease |
| App.StepWellFormed | App.tsx:40-83 | each event keeps the log invariant. Every entry has content, an emotion only on `emotion_record`, and an empty name only on a login. |
| App.RunWellFormed | App.tsx:40-83 | any run preserves that invariant |
| App.ReachableWellFormed | App.tsx:22-27 | every log reachable from the initial state satisfies that invariant |
| App.RunWithoutLogin | App.tsx:38-39 | with no login event the name never changes; without a session, the log stays unchanged under any such run |
| App.TwoLogins | App.tsx:50-60 | two logins under one name append two login records and queue two toasts |
| App.RepeatedRewards | App.tsx:90-93 | n rewards in a row add 10·n points and n toasts and leave the log alone |
| App.LoginUpdatesStudentLogins | App.tsx:95-99 | a login appends its name to `studentLogins` when the name is new and leaves it unchanged otherwise |
| App.RecordingKeepsStudentLogins | App.tsx:95-99 | recording an emotion, or an activity other than `student_login`, leaves `studentLogins` unchanged |
| App.ThreeLoginsLog | App.tsx:50-59 | logins of Ana, Ben and Ana from the initial state produce three login records in that order |
| App.ThreeLoginsNames | App.tsx:96-97 | that log's login names are Ana, Ben, Ana |
| App.DedupExample | App.tsx:97 | de-duplicating Ana, Ben, Ana gives Ana, Ben |
| App.LoginsExample | App.tsx:95-99 | after logins of Ana, Ben and Ana, `studentLogins` is exactly Ana, Ben |
| Render.ScreenCase | App.tsx:103-113 | a string reaches a labelled case exactly when it names a screen, and that case shows the screen's component |
| Render.RenderScreen | App.tsx:101-117 | an unknown string falls back to the home screen; a screen's tag shows its own component |
| Render.ModuleCase | App.tsx:121-142 | a string reaches a labelled case exactly when it names a module, and that case shows the module's component |
| Render.RenderModule | App.tsx:119-146 | something renders in the modal exactly when a module is open, and it is that module's component |
| Render.RenderPage | App.tsx:148-162 | the login form shows exactly when no session is active; otherwise the active screen shows, with a modal iff a module is open, and the modal shows that module's component |
| Render.ScreenDefaultUnreachable | App.tsx:114-115 | no well-typed screen reaches the `default` branch, and distinct screens show distinct components |
| Render.ModuleDefaultUnreachable | App.tsx:143-144 | no open module reaches the `default` branch of the module switch |
| Render.LoginGate | App.tsx:148-150 | the app starts on the login form; a login leads to the main page iff the name is non-empty, and the page shows the screen that was active |
| Render.RecordEmotionClosesModal | App.tsx:74-88 | with a session, recording an emotion leaves the main page on the same screen with no modal |

## Left out

- Rendering, JSX and every imported component (`LoginScreen`, `Header`, the screens, the modules, `Modal`, `Toast`) are not modelled. Only the choice of which component to show is.
- `audioService.playSound` is not modelled. It is a fire-and-forget call that never affects state.
- App.ExpireToast: the 3000 ms delay before the callback runs is not modelled, so presence at T+2999 ms and absence at T+3001 ms is not stated. Timer scheduling is a wall-clock concern. Only the removal step the timer performs is modelled: it never removes a toast with a different id, but toasts whose `Date.now()` ids collide leave together.
- `happyPoints` and every id are JavaScript numbers (IEEE doubles); the model uses unbounded `nat` and `int`, so precision loss above 2^53 is not modelled.
- `Date.now()` and `toISOString()` are not modelled. Their readings are handler parameters, and neither uniqueness nor monotonicity is assumed, because two calls in the same millisecond can return the same value.
- React hook semantics are not modelled: `useCallback` captures, `useMemo` caching and batched `setState` updaters. Each handler is one atomic transition.
- The `statistics` module and the other modules' inner logic are not modelled. Their sources are not part of this model.
- Which handlers the UI offers in which state is not modelled. For example, the login form only renders without a session. Every handler can be applied to any state, as the functions themselves allow.
