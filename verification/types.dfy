/** The closed vocabularies of the wellness app and the shape of one
    activity-log record.

    In TypeScript each enumeration is a union of string literals, so a value
    of the type IS one of a fixed set of strings. Here each union is a
    datatype, and `...Tag` gives the string that stands for each constructor;
    `Parse...` is the reverse reading used wherever the program compares a
    string against the cases of a union (for instance a `switch`). */
module Types {

  /** A value that may be absent: TypeScript's `T | null` or an optional
      property `x?: T`. */
  datatype Option<T> = None | Some(value: T)

  /** How a student feels, on a five-step scale. */
  datatype Emotion = VeryHappy | Happy | Neutral | Sad | Stressed

  /** The top-level destinations of the main page. */
  datatype Screen = Home | EmotionData | Challenges | ZenRoom | Events

  /** The overlay mini-experiences shown in a modal above the screen. */
  datatype ModuleType = SmartBreak | ZenRoom | EmotionMap | Mission5 | HappyWeek | Statistics

  /** What a record of the activity log is about. `zen-room`, `smart-break`
      and `happy-week` name an activity here and, separately, a module or a
      screen: the three datatypes are distinct on purpose. */
  datatype ActivityType = SmartBreak | ZenRoom | Emotion | EmotionRecord | Mission | HappyWeek | StudentLogin

  /** One entry of the activity log. The source field `type` is called
      `kind` because `type` is a Dafny keyword. `id` is one reading
      of the millisecond clock and `timestamp` the ISO-8601 rendering of a
      second, separate reading, so the two need not agree; both are supplied
      by the caller. */
  datatype AppDataItem = AppDataItem(
    id: int,
    timestamp: string,
    userName: string,
    kind: ActivityType,
    content: Option<string>,
    emotion: Option<Emotion>)

  // ---------------------------------------------------------------------
  // String tags

  function EmotionTag(e: Emotion): string {
    match e
    case VeryHappy => "very-happy"
    case Happy => "happy"
    case Neutral => "neutral"
    case Sad => "sad"
    case Stressed => "stressed"
  }

  function ScreenTag(s: Screen): string {
    match s
    case Home => "home"
    case EmotionData => "emotion-data"
    case Challenges => "challenges"
    case ZenRoom => "zen-room"
    case Events => "events"
  }

  function ModuleTag(m: ModuleType): string {
    match m
    case SmartBreak => "smart-break"
    case ZenRoom => "zen-room"
    case EmotionMap => "emotion-map"
    case Mission5 => "mission-5"
    case HappyWeek => "happy-week"
    case Statistics => "statistics"
  }

  function ActivityTag(a: ActivityType): string {
    match a
    case SmartBreak => "smart-break"
    case ZenRoom => "zen-room"
    case Emotion => "emotion"
    case EmotionRecord => "emotion_record"
    case Mission => "mission"
    case HappyWeek => "happy-week"
    case StudentLogin => "student_login"
  }

  // ---------------------------------------------------------------------
  // Reading a string as a member of a union

  /** The emotion a string names, if it names one of the five. */
  function ParseEmotion(s: string): (r: Option<Emotion>)
    ensures r.Some? ==> EmotionTag(r.value) == s
    ensures r.None? ==> forall e :: EmotionTag(e) != s
  {
    if s == "very-happy" then Some(VeryHappy)
    else if s == "happy" then Some(Happy)
    else if s == "neutral" then Some(Neutral)
    else if s == "sad" then Some(Sad)
    else if s == "stressed" then Some(Stressed)
    else None
  }

  /** The screen a string names, if it names one of the five. */
  function ParseScreen(s: string): (r: Option<Screen>)
    ensures r.Some? ==> ScreenTag(r.value) == s
    ensures r.None? ==> forall sc :: ScreenTag(sc) != s
  {
    if s == "home" then Some(Home)
    else if s == "emotion-data" then Some(EmotionData)
    else if s == "challenges" then Some(Challenges)
    else if s == "zen-room" then Some(Screen.ZenRoom)
    else if s == "events" then Some(Events)
    else None
  }

  /** The module a string names, if it names one of the six. */
  function ParseModule(s: string): (r: Option<ModuleType>)
    ensures r.Some? ==> ModuleTag(r.value) == s
    ensures r.None? ==> forall m :: ModuleTag(m) != s
  {
    if s == "smart-break" then Some(ModuleType.SmartBreak)
    else if s == "zen-room" then Some(ModuleType.ZenRoom)
    else if s == "emotion-map" then Some(EmotionMap)
    else if s == "mission-5" then Some(Mission5)
    else if s == "happy-week" then Some(ModuleType.HappyWeek)
    else if s == "statistics" then Some(Statistics)
    else None
  }

  /** The activity type a string names, if it names one of the seven. */
  function ParseActivity(s: string): (r: Option<ActivityType>)
    ensures r.Some? ==> ActivityTag(r.value) == s
    ensures r.None? ==> forall a :: ActivityTag(a) != s
  {
    if s == "smart-break" then Some(ActivityType.SmartBreak)
    else if s == "zen-room" then Some(ActivityType.ZenRoom)
    else if s == "emotion" then Some(ActivityType.Emotion)
    else if s == "emotion_record" then Some(EmotionRecord)
    else if s == "mission" then Some(Mission)
    else if s == "happy-week" then Some(ActivityType.HappyWeek)
    else if s == "student_login" then Some(StudentLogin)
    else None
  }

  // ---------------------------------------------------------------------
  // Each union is closed: exactly the listed strings inhabit it

  lemma EmotionClosed(s: string)
    ensures ParseEmotion(s).Some? <==> s in ["very-happy", "happy", "neutral", "sad", "stressed"]
    ensures forall e :: ParseEmotion(EmotionTag(e)) == Some(e)
  {
  }

  lemma ScreenClosed(s: string)
    ensures ParseScreen(s).Some? <==> s in ["home", "emotion-data", "challenges", "zen-room", "events"]
    ensures forall sc :: ParseScreen(ScreenTag(sc)) == Some(sc)
  {
  }

  lemma ModuleClosed(s: string)
    ensures ParseModule(s).Some? <==>
            s in ["smart-break", "zen-room", "emotion-map", "mission-5", "happy-week", "statistics"]
    ensures forall m :: ParseModule(ModuleTag(m)) == Some(m)
  {
  }

  lemma ActivityClosed(s: string)
    ensures ParseActivity(s).Some? <==>
            s in ["smart-break", "zen-room", "emotion", "emotion_record", "mission", "happy-week", "student_login"]
    ensures forall a :: ParseActivity(ActivityTag(a)) == Some(a)
  {
  }

  /** Distinct constructors have distinct tags, so the tag determines the
      value; and each union has exactly as many values as it lists. */
  lemma TagsInjective()
    ensures forall a, b :: EmotionTag(a) == EmotionTag(b) ==> a == b
    ensures forall a, b :: ScreenTag(a) == ScreenTag(b) ==> a == b
    ensures forall a, b :: ModuleTag(a) == ModuleTag(b) ==> a == b
    ensures forall a, b :: ActivityTag(a) == ActivityTag(b) ==> a == b
  {
    forall a, b | EmotionTag(a) == EmotionTag(b) ensures a == b {
      assert ParseEmotion(EmotionTag(a)) == Some(a);
    }
    forall a, b | ScreenTag(a) == ScreenTag(b) ensures a == b {
      assert ParseScreen(ScreenTag(a)) == Some(a);
    }
    forall a, b | ModuleTag(a) == ModuleTag(b) ensures a == b {
      assert ParseModule(ModuleTag(a)) == Some(a);
    }
    forall a, b | ActivityTag(a) == ActivityTag(b) ensures a == b {
      assert ParseActivity(ActivityTag(a)) == Some(a);
    }
  }

  /** The string `zen-room` is a screen, a module and an activity type at
      once, yet the three values belong to three unrelated datatypes. */
  lemma ZenRoomTagShared()
    ensures ScreenTag(Screen.ZenRoom) == ModuleTag(ModuleType.ZenRoom) == ActivityTag(ActivityType.ZenRoom)
    ensures ParseScreen("zen-room") == Some(Screen.ZenRoom)
    ensures ParseModule("zen-room") == Some(ModuleType.ZenRoom)
    ensures ParseActivity("zen-room") == Some(ActivityType.ZenRoom)
  {
  }
}
