/** The application controller: one immutable state record and one pure
    transition per event handler. The clock reading (`Date.now()`), the
    separately read ISO-8601 timestamp and the toast id each handler would
    read are explicit parameters; sound effects have no effect on state and are not modelled. */
module App {
  import opened Types
  import opened Toasts
  import opened Views

  datatype State = State(
    userName: Option<string>,
    activeScreen: Screen,
    activeModule: Option<ModuleType>,
    appData: seq<AppDataItem>,
    toasts: seq<Toast>,
    happyPoints: nat)

  /** Logged out, on the home screen, no module open, nothing logged, no
      notification, no points. */
  const Initial: State := State(None, Home, None, [], [], 0)

  /** Points awarded by one reward. */
  const RewardPoints: nat := 10

  /** The session guard `if (!userName)`: JavaScript treats both `null` and
      the empty string as false, so an empty name is no session. */
  function SessionActive(userName: Option<string>): (active: bool)
    ensures userName.None? ==> !active
    ensures userName.Some? && |userName.value| == 0 ==> !active
    ensures userName.Some? && |userName.value| > 0 ==> active
  {
    userName.Some? && userName.value != ""
  }

  // ---------------------------------------------------------------------
  // Message texts

  function WelcomeMessage(name: string): string { "Chào mừng " + name + "!" }

  function LoginContent(name: string): string { name + " đã đăng nhập." }

  function EmotionContent(e: Emotion): string { "Đã ghi nhận cảm xúc: " + EmotionTag(e) }

  const ThanksMessage: string := "Cảm ơn bạn đã chia sẻ cảm xúc! 😊"

  const RewardMessage: string := "Bạn nhận được 10 điểm hạnh phúc! ✨"

  // ---------------------------------------------------------------------
  // Framing

  /** The fields of `State`, for saying which ones a transition may change. */
  datatype Field = UserNameField | ScreenField | ModuleField | LogField | ToastsField | PointsField

  /** `b` agrees with `a` on every field outside `fs`. */
  predicate ChangesOnly(a: State, b: State, fs: set<Field>) {
    && (UserNameField !in fs ==> b.userName == a.userName)
    && (ScreenField !in fs ==> b.activeScreen == a.activeScreen)
    && (ModuleField !in fs ==> b.activeModule == a.activeModule)
    && (LogField !in fs ==> b.appData == a.appData)
    && (ToastsField !in fs ==> b.toasts == a.toasts)
    && (PointsField !in fs ==> b.happyPoints == a.happyPoints)
  }

  /** `b` is `a` with exactly `item` appended. */
  predicate AppendsOne(a: seq<AppDataItem>, b: seq<AppDataItem>, item: AppDataItem) {
    |b| == |a| + 1 && b[..|a|] == a && b[|a|] == item
  }

  // ---------------------------------------------------------------------
  // Handlers

  /** `addToast`: queues a notification at the end. */
  function AddToast(s: State, id: int, message: string): (r: State)
    ensures r.toasts == Enqueue(s.toasts, id, message)
    ensures ChangesOnly(s, r, {ToastsField})
  {
    s.(toasts := Enqueue(s.toasts, id, message))
  }

  /** The expiry callback scheduled by `addToast`: drops the toasts with
      that id and no other, keeping the survivors in queue order. */
  function ExpireToast(s: State, id: int): (r: State)
    ensures r.toasts == RemoveById(s.toasts, id)
    ensures forall t :: t in r.toasts <==> t in s.toasts && t.id != id
    ensures RemoveById(r.toasts, id) == r.toasts
    ensures ChangesOnly(s, r, {ToastsField})
  {
    RemoveByIdIdempotent(s.toasts, id);
    s.(toasts := RemoveById(s.toasts, id))
  }

  /** `recordActivity`: without a session nothing happens; with one, a
      record of the given type and content, signed with the session's
      name, is appended to the log. */
  function RecordActivity(s: State, kind: ActivityType, content: string, id: int, timestamp: string): (r: State)
    ensures !SessionActive(s.userName) ==> r == s
    ensures SessionActive(s.userName) ==>
              && AppendsOne(s.appData, r.appData,
                            AppDataItem(id, timestamp, s.userName.value, kind, Some(content), None))
              && ChangesOnly(s, r, {LogField})
  {
    if !SessionActive(s.userName) then s
    else
      var item := AppDataItem(id, timestamp, s.userName.value, kind, Some(content), None);
      s.(appData := s.appData + [item])
  }

  /** `handleLogin`: sets the name unconditionally (an empty name is taken
      as is, and leaves the session inactive), logs one `student_login`
      record under that name and queues a welcome. */
  function HandleLogin(s: State, name: string, id: int, timestamp: string, toastId: int): (r: State)
    ensures r.userName == Some(name)
    ensures SessionActive(r.userName) <==> name != ""
    ensures AppendsOne(s.appData, r.appData,
                       AppDataItem(id, timestamp, name, StudentLogin, Some(LoginContent(name)), None))
    ensures r.toasts == Enqueue(s.toasts, toastId, WelcomeMessage(name))
    ensures ChangesOnly(s, r, {UserNameField, LogField, ToastsField})
  {
    var item := AppDataItem(id, timestamp, name, StudentLogin, Some(LoginContent(name)), None);
    State(Some(name), s.activeScreen, s.activeModule, s.appData + [item],
          Enqueue(s.toasts, toastId, WelcomeMessage(name)), s.happyPoints)
  }

  /** `openModule`: shows module `m` over the current screen. */
  function OpenModule(s: State, m: ModuleType): (r: State)
    ensures r.activeModule == Some(m)
    ensures ChangesOnly(s, r, {ModuleField})
  {
    s.(activeModule := Some(m))
  }

  /** `closeModule`: hides whatever module is open; harmless when none is. */
  function CloseModule(s: State): (r: State)
    ensures r.activeModule == None
    ensures ChangesOnly(s, r, {ModuleField})
    ensures s.activeModule == None ==> r == s
  {
    s.(activeModule := None)
  }

  /** `handleRecordEmotion`: without a session nothing happens; with one,
      an `emotion_record` carrying `e` is logged, a thank-you is queued and
      the module is closed, while the screen stays where it was. */
  function HandleRecordEmotion(s: State, e: Emotion, id: int, timestamp: string, toastId: int): (r: State)
    ensures !SessionActive(s.userName) ==> r == s
    ensures SessionActive(s.userName) ==>
              && AppendsOne(s.appData, r.appData,
                            AppDataItem(id, timestamp, s.userName.value, EmotionRecord,
                                        Some(EmotionContent(e)), Some(e)))
              && EmotionRecords(r.appData) == EmotionRecords(s.appData) + [r.appData[|s.appData|]]
              && r.toasts == Enqueue(s.toasts, toastId, ThanksMessage)
              && r.activeModule == None
              && ChangesOnly(s, r, {LogField, ToastsField, ModuleField})
  {
    if !SessionActive(s.userName) then s
    else
      var item := AppDataItem(id, timestamp, s.userName.value, EmotionRecord, Some(EmotionContent(e)), Some(e));
      OfKindAppend(s.appData, [item], EmotionRecord);
      var logged := s.(appData := s.appData + [item]);
      CloseModule(AddToast(logged, toastId, ThanksMessage))
  }

  /** `updateHappyPoints`: ten more points and a notification saying so. */
  function UpdateHappyPoints(s: State, toastId: int): (r: State)
    ensures r.happyPoints == s.happyPoints + RewardPoints
    ensures r.toasts == Enqueue(s.toasts, toastId, RewardMessage)
    ensures ChangesOnly(s, r, {PointsField, ToastsField})
  {
    AddToast(s.(happyPoints := s.happyPoints + RewardPoints), toastId, RewardMessage)
  }

  /** The emotion-map module's `onViewData`: closes the module and shows
      the emotion-data screen. */
  function OnViewData(s: State): (r: State)
    ensures r.activeModule == None && r.activeScreen == EmotionData
    ensures ChangesOnly(s, r, {ModuleField, ScreenField})
  {
    CloseModule(s).(activeScreen := EmotionData)
  }

  /** `setActiveScreen`, handed to the header: switches screen and leaves
      any open module open. */
  function SetActiveScreen(s: State, screen: Screen): (r: State)
    ensures r.activeScreen == screen
    ensures ChangesOnly(s, r, {ScreenField})
  {
    s.(activeScreen := screen)
  }

  /** Closing undoes opening: whatever module was opened, closing leaves
      the state as closing alone would, and closing twice is closing once. */
  lemma OpenThenClose(s: State, m: ModuleType)
    ensures CloseModule(OpenModule(s, m)) == CloseModule(s)
    ensures s.activeModule == None ==> CloseModule(OpenModule(s, m)) == s
    ensures CloseModule(CloseModule(s)) == CloseModule(s)
  {
  }

  /** A login adds its name to `studentLogins` at the end when the name is
      new there, and changes nothing in it when the name was seen before. */
  lemma LoginUpdatesStudentLogins(s: State, name: string, id: int, timestamp: string, toastId: int)
    ensures var r := HandleLogin(s, name, id, timestamp, toastId);
            StudentLogins(r.appData) ==
              if name in StudentLogins(s.appData) then StudentLogins(s.appData)
              else StudentLogins(s.appData) + [name]
  {
    var item := AppDataItem(id, timestamp, name, StudentLogin, Some(LoginContent(name)), None);
    LoginNamesSnoc(s.appData, item);
    DedupSnoc(LoginNames(s.appData), name);
  }

  /** Recording an activity of any type other than `student_login`, or an
      emotion, leaves `studentLogins` as it was. */
  lemma RecordingKeepsStudentLogins(s: State, a: Action)
    requires (a.Record? && a.kind != StudentLogin) || a.RecordEmotion?
    ensures StudentLogins(Step(s, a).appData) == StudentLogins(s.appData)
  {
    var r := Step(s, a);
    if SessionActive(s.userName) {
      LoginNamesSnoc(s.appData, r.appData[|s.appData|]);
      assert r.appData == s.appData + [r.appData[|s.appData|]];
    }
  }

  // ---------------------------------------------------------------------
  // Runs of events

  /** One UI event, with the clock readings and ids its handler would take. */
  datatype Action =
    | Login(name: string, id: int, timestamp: string, toastId: int)
    | Open(m: ModuleType)
    | Close
    | Record(kind: ActivityType, content: string, id: int, timestamp: string)
    | RecordEmotion(e: Emotion, id: int, timestamp: string, toastId: int)
    | Award(toastId: int)
    | Notify(toastId: int, message: string)
    | Expire(toastId: int)
    | ViewData
    | Navigate(screen: Screen)

  function Step(s: State, a: Action): State {
    match a
    case Login(name, id, ts, tid) => HandleLogin(s, name, id, ts, tid)
    case Open(m) => OpenModule(s, m)
    case Close => CloseModule(s)
    case Record(kind, content, id, ts) => RecordActivity(s, kind, content, id, ts)
    case RecordEmotion(e, id, ts, tid) => HandleRecordEmotion(s, e, id, ts, tid)
    case Award(tid) => UpdateHappyPoints(s, tid)
    case Notify(tid, message) => AddToast(s, tid, message)
    case Expire(tid) => ExpireToast(s, tid)
    case ViewData => OnViewData(s)
    case Navigate(screen) => SetActiveScreen(s, screen)
  }

  /** The state after handling `acts` in order, one at a time. */
  function Run(s: State, acts: seq<Action>): State
    decreases |acts|
  {
    if |acts| == 0 then s else Step(Run(s, acts[..|acts| - 1]), acts[|acts| - 1])
  }

  /** How many reward events `acts` holds. */
  function Awards(acts: seq<Action>): nat
    decreases |acts|
  {
    if |acts| == 0 then 0
    else Awards(acts[..|acts| - 1]) + (if acts[|acts| - 1].Award? then 1 else 0)
  }

  /** Every record the controller writes has content; an emotion only ever
      appears on an `emotion_record`; and a record with an empty name can
      only be a login, since every other record needs an active session. */
  predicate WellFormedItem(item: AppDataItem) {
    && item.content.Some?
    && (item.emotion.Some? ==> item.kind == EmotionRecord)
    && (item.userName == "" ==> item.kind == StudentLogin)
  }

  predicate WellFormedLog(log: seq<AppDataItem>) {
    forall i :: 0 <= i < |log| ==> WellFormedItem(log[i])
  }

  /** One event appends at most one record and never alters an earlier
      one, so the log only grows. */
  lemma StepAppendOnly(s: State, a: Action)
    ensures |s.appData| <= |Step(s, a).appData| <= |s.appData| + 1
    ensures Step(s, a).appData[..|s.appData|] == s.appData
  {
  }

  lemma {:induction false} RunAppendOnly(s: State, acts: seq<Action>)
    ensures |s.appData| <= |Run(s, acts).appData| <= |s.appData| + |acts|
    ensures Run(s, acts).appData[..|s.appData|] == s.appData
    decreases |acts|
  {
    if |acts| > 0 {
      var mid := Run(s, acts[..|acts| - 1]);
      RunAppendOnly(s, acts[..|acts| - 1]);
      StepAppendOnly(mid, acts[|acts| - 1]);
      assert Run(s, acts).appData[..|mid.appData|] == mid.appData;
      assert Run(s, acts).appData[..|s.appData|] == mid.appData[..|s.appData|];
    }
  }

  /** The points counter moves only on rewards, by exactly ten each, so it
      never decreases. */
  lemma {:induction false} RunPoints(s: State, acts: seq<Action>)
    ensures Run(s, acts).happyPoints == s.happyPoints + RewardPoints * Awards(acts)
    ensures Run(s, acts).happyPoints >= s.happyPoints
    decreases |acts|
  {
    if |acts| > 0 {
      RunPoints(s, acts[..|acts| - 1]);
    }
  }

  /** Each event keeps the log well formed. */
  lemma StepWellFormed(s: State, a: Action)
    requires WellFormedLog(s.appData)
    ensures WellFormedLog(Step(s, a).appData)
  {
    var r := Step(s, a);
    forall i | 0 <= i < |r.appData| ensures WellFormedItem(r.appData[i]) {
      if i < |s.appData| {
        assert r.appData[i] == r.appData[..|s.appData|][i];
      }
    }
  }

  lemma {:induction false} RunWellFormed(s: State, acts: seq<Action>)
    requires WellFormedLog(s.appData)
    ensures WellFormedLog(Run(s, acts).appData)
    decreases |acts|
  {
    if |acts| > 0 {
      RunWellFormed(s, acts[..|acts| - 1]);
      StepWellFormed(Run(s, acts[..|acts| - 1]), acts[|acts| - 1]);
    }
  }

  /** Every log reachable from the initial state is well formed. */
  lemma ReachableWellFormed(acts: seq<Action>)
    ensures WellFormedLog(Run(Initial, acts).appData)
  {
    RunWellFormed(Initial, acts);
  }

  /** Only a login changes the name. Without a login, a logged-out
      controller stays logged out and its log stays exactly as it was,
      whatever else happens. */
  lemma {:induction false} RunWithoutLogin(s: State, acts: seq<Action>)
    requires forall i :: 0 <= i < |acts| ==> !acts[i].Login?
    ensures Run(s, acts).userName == s.userName
    ensures !SessionActive(s.userName) ==> Run(s, acts).appData == s.appData
    decreases |acts|
  {
    if |acts| > 0 {
      RunWithoutLogin(s, acts[..|acts| - 1]);
    }
  }

  /** Logging in twice, even under the same name, logs two records. */
  lemma TwoLogins(s: State, name: string, id1: int, ts1: string, t1: int, id2: int, ts2: string, t2: int)
    ensures var r := HandleLogin(HandleLogin(s, name, id1, ts1, t1), name, id2, ts2, t2);
            && |r.appData| == |s.appData| + 2
            && r.appData[|s.appData|].kind == StudentLogin && r.appData[|s.appData|].userName == name
            && r.appData[|s.appData| + 1].kind == StudentLogin && r.appData[|s.appData| + 1].userName == name
            && |r.toasts| == |s.toasts| + 2
  {
    var m := HandleLogin(s, name, id1, ts1, t1);
    var r := HandleLogin(m, name, id2, ts2, t2);
    assert r.appData[..|m.appData|][|s.appData|] == m.appData[|s.appData|];
  }

  /** `n` rewards in a row add `10 * n` points and one notification each. */
  lemma {:induction false} RepeatedRewards(s: State, toastIds: seq<int>)
    ensures var acts := seq(|toastIds|, i requires 0 <= i < |toastIds| => Award(toastIds[i]));
            && Run(s, acts).happyPoints == s.happyPoints + RewardPoints * |toastIds|
            && |Run(s, acts).toasts| == |s.toasts| + |toastIds|
            && Run(s, acts).appData == s.appData
    decreases |toastIds|
  {
    var acts := seq(|toastIds|, i requires 0 <= i < |toastIds| => Award(toastIds[i]));
    if |toastIds| > 0 {
      var ids' := toastIds[..|toastIds| - 1];
      var acts' := seq(|ids'|, i requires 0 <= i < |ids'| => Award(ids'[i]));
      assert acts[..|acts| - 1] == acts';
      RepeatedRewards(s, ids');
    }
  }

  /** The log written by logins of Ana, Ben and Ana from the initial state. */
  function LoginItem(name: string, id: int, timestamp: string): AppDataItem {
    AppDataItem(id, timestamp, name, StudentLogin, Some(LoginContent(name)), None)
  }

  lemma ThreeLoginsLog()
    ensures Run(Initial, [Login("Ana", 1, "t1", 1), Login("Ben", 2, "t2", 2), Login("Ana", 3, "t3", 3)]).appData
            == [LoginItem("Ana", 1, "t1"), LoginItem("Ben", 2, "t2"), LoginItem("Ana", 3, "t3")]
  {
    var acts := [Login("Ana", 1, "t1", 1), Login("Ben", 2, "t2", 2), Login("Ana", 3, "t3", 3)];
    assert acts[..1][..0] == [] && acts[..2][..1] == acts[..1] && acts[..2] == acts[..|acts| - 1];
    var s1 := HandleLogin(Initial, "Ana", 1, "t1", 1);
    assert Run(Initial, acts[..1]) == s1;
    var s2 := HandleLogin(s1, "Ben", 2, "t2", 2);
    assert Run(Initial, acts[..2]) == s2;
    assert s2.appData == [LoginItem("Ana", 1, "t1"), LoginItem("Ben", 2, "t2")];
  }

  lemma ThreeLoginsNames()
    ensures LoginNames([LoginItem("Ana", 1, "t1"), LoginItem("Ben", 2, "t2"), LoginItem("Ana", 3, "t3")])
            == ["Ana", "Ben", "Ana"]
  {
    var log := [LoginItem("Ana", 1, "t1"), LoginItem("Ben", 2, "t2"), LoginItem("Ana", 3, "t3")];
    OfKindAll(log, StudentLogin);
    var names := UserNames(log);
    assert |names| == 3;
    assert names[0] == "Ana" && names[1] == "Ben" && names[2] == "Ana";
    assert names == ["Ana", "Ben", "Ana"];
  }

  lemma DedupExample()
    ensures Dedup(["Ana", "Ben", "Ana"]) == ["Ana", "Ben"]
  {
    var ana, ben := "Ana", "Ben";
    assert Dedup([ana]) == [ana] by {
      DedupSnoc([], ana);
      assert [] + [ana] == [ana];
    }
    assert Dedup([ana, ben]) == [ana, ben] by {
      DedupSnoc([ana], ben);
      assert [ana] + [ben] == [ana, ben];
      assert ben !in [ana];
    }
    DedupSnoc([ana, ben], ana);
    assert [ana, ben] + [ana] == [ana, ben, ana];
  }

  /** Three logins by Ana, Ben and Ana, from the initial state, show Ana
      and Ben once each, in that order. */
  lemma LoginsExample()
    ensures StudentLogins(Run(Initial, [Login("Ana", 1, "t1", 1), Login("Ben", 2, "t2", 2),
                                        Login("Ana", 3, "t3", 3)]).appData) == ["Ana", "Ben"]
  {
    ThreeLoginsLog();
    ThreeLoginsNames();
    DedupExample();
  }
}
