/** Which component the controller shows for a state. The components
    themselves are not modelled, only the choice among them: the login gate,
    the `switch` over the screen and the `switch` over the open module. */
module Render {
  import opened Types
  import opened App

  datatype ScreenView = HomeView | EmotionDataView | ChallengesView | ZenRoomView | EventsView

  datatype ModuleView = EmotionMapView | SmartBreakView | ZenRoomModuleView | Mission5View | HappyWeekView | StatisticsView

  /** Either the login form, or the main page with a screen and possibly a
      module in a modal above it. */
  datatype Page = LoginPage | MainPage(screen: ScreenView, overlay: Option<ModuleView>)

  /** The component intended for each screen. */
  function ViewOfScreen(s: Screen): ScreenView {
    match s
    case Home => HomeView
    case EmotionData => EmotionDataView
    case Challenges => ChallengesView
    case ZenRoom => ZenRoomView
    case Events => EventsView
  }

  /** The module whose component a view is. */
  function ModuleOfView(v: ModuleView): ModuleType {
    match v
    case EmotionMapView => EmotionMap
    case SmartBreakView => ModuleType.SmartBreak
    case ZenRoomModuleView => ModuleType.ZenRoom
    case Mission5View => Mission5
    case HappyWeekView => ModuleType.HappyWeek
    case StatisticsView => Statistics
  }

  /** The labelled cases of `switch (activeScreen)`, which compares the
      screen's string: the view of the matching case, or `None` when control
      would reach `default`. */
  function ScreenCase(tag: string): (r: Option<ScreenView>)
    ensures r.Some? <==> ParseScreen(tag).Some?
    ensures r.Some? ==> r.value == ViewOfScreen(ParseScreen(tag).value)
  {
    if tag == "home" then Some(HomeView)
    else if tag == "emotion-data" then Some(EmotionDataView)
    else if tag == "challenges" then Some(ChallengesView)
    else if tag == "zen-room" then Some(ZenRoomView)
    else if tag == "events" then Some(EventsView)
    else None
  }

  /** `renderScreen`: the matching case, and the home screen by default. */
  function RenderScreen(tag: string): (v: ScreenView)
    ensures ParseScreen(tag).None? ==> v == HomeView
    ensures ParseScreen(tag).Some? ==> v == ViewOfScreen(ParseScreen(tag).value)
  {
    match ScreenCase(tag)
    case Some(v) => v
    case None => HomeView
  }

  /** The labelled cases of `switch (activeModule)`, which compares the
      module's string: the view of the matching case, or `None` when control
      would reach `default` (which renders nothing). */
  function ModuleCase(tag: string): (r: Option<ModuleView>)
    ensures r.Some? <==> ParseModule(tag).Some?
    ensures r.Some? ==> ModuleOfView(r.value) == ParseModule(tag).value
  {
    if tag == "emotion-map" then Some(EmotionMapView)
    else if tag == "smart-break" then Some(SmartBreakView)
    else if tag == "zen-room" then Some(ZenRoomModuleView)
    else if tag == "mission-5" then Some(Mission5View)
    else if tag == "happy-week" then Some(HappyWeekView)
    else if tag == "statistics" then Some(StatisticsView)
    else None
  }

  /** `renderModule`: nothing when no module is open, otherwise the
      component of the open module. */
  function RenderModule(active: Option<ModuleType>): (r: Option<ModuleView>)
    ensures r.Some? <==> active.Some?
    ensures r.Some? ==> ModuleOfView(r.value) == active.value
  {
    if active.None? then None else ModuleCase(ModuleTag(active.value))
  }

  /** The page for a state: the login form unless a session is active;
      otherwise the active screen, with the open module's component in a
      modal above it. */
  function RenderPage(s: State): (p: Page)
    ensures p.LoginPage? <==> !SessionActive(s.userName)
    ensures p.MainPage? ==> p.screen == ViewOfScreen(s.activeScreen)
    ensures p.MainPage? ==> (p.overlay.Some? <==> s.activeModule.Some?)
    ensures p.MainPage? && p.overlay.Some? ==> ModuleOfView(p.overlay.value) == s.activeModule.value
  {
    if !SessionActive(s.userName) then LoginPage
    else MainPage(RenderScreen(ScreenTag(s.activeScreen)), RenderModule(s.activeModule))
  }

  /** For a well-typed screen the `default` branch is dead code: every
      screen reaches its own labelled case, and distinct screens show
      distinct components. */
  lemma ScreenDefaultUnreachable(s: Screen)
    ensures ScreenCase(ScreenTag(s)) == Some(ViewOfScreen(s))
    ensures forall t :: ViewOfScreen(t) == ViewOfScreen(s) ==> t == s
  {
    ScreenClosed(ScreenTag(s));
  }

  /** Likewise for the modules: an open module always has a component. */
  lemma ModuleDefaultUnreachable(m: ModuleType)
    ensures ModuleCase(ModuleTag(m)).Some?
    ensures ModuleOfView(ModuleCase(ModuleTag(m)).value) == m
  {
    ModuleClosed(ModuleTag(m));
  }

  /** The controller starts on the login form; a login under a non-empty
      name leads to the main page on the screen that was active, and a
      login under the empty name leaves the login form in place. */
  lemma LoginGate(s: State, name: string, id: int, timestamp: string, toastId: int)
    ensures RenderPage(Initial) == LoginPage
    ensures RenderPage(HandleLogin(s, name, id, timestamp, toastId)).MainPage? <==> name != ""
    ensures name != "" ==> RenderPage(HandleLogin(s, name, id, timestamp, toastId)).screen
                           == ViewOfScreen(s.activeScreen)
  {
  }

  /** Recording an emotion from the emotion map closes the modal and keeps
      the page on its screen. */
  lemma RecordEmotionClosesModal(s: State, e: Emotion, id: int, timestamp: string, toastId: int)
    requires SessionActive(s.userName)
    ensures RenderPage(HandleRecordEmotion(s, e, id, timestamp, toastId)) == MainPage(ViewOfScreen(s.activeScreen), None)
  {
  }
}
