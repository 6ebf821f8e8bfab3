/** What one message does: `VisionCentralController::update` on the windows and the login state,
    and the controller callbacks it makes, on the device lists. The engine is an oracle. */
module Handlers {
  import opened Messages
  import opened Options

  datatype VisionType = LOGIN | LOGOUT | RECONNECT

  datatype EnterType = CREATE | JOIN

  /** Which of the five windows are shown, and what the enter dialog is for. */
  datatype Screens = Screens(start: bool, login: bool, enter: bool, enterType: EnterType, stream: bool, invite: bool)

  /** What the windows were last told. */
  datatype Told = Told(userId: string, session: string, since: int, booking: string,
                       rendering: Option<nat>, lists: map<MessageType, Names>)

  datatype Vision = Vision(login: VisionType, screens: Screens, told: Told)

  /** The controller's device maps and meeting id. */
  datatype Devices = Devices(
    audioIn: Names, audioOut: Names, video: Names, screens: Names, windows: Names, meetId: string)

  /** What the engine answers while one message is handled; None leaves the map as it is. */
  datatype Engine = Engine(
    audioIn: Option<Names>, audioOut: Option<Names>, video: Option<Names>, screens: Option<Names>,
    windows: Option<Names>, exitOk: bool)

  datatype Callback =
    | Login(addr: string, userId: string, pwd: string)
    | Logout
    | Create(choices: seq<string>)
    | Book(choices: seq<string>)
    | Join(meeting: string)
    | Invite(user: string)
    | HangUp
    | Custom(m: Message)

  datatype Effect = Called(call: Callback) | Delivered(kind: MessageType, list: Names) | Released(track: nat)

  /** A message to post; a list message takes the map as it is when it is posted. */
  datatype Post = PostList(kind: MessageType) | PostMsg(m: Message)

  datatype Outcome = Outcome(vision: Vision, devices: Devices, posts: seq<Post>, effect: Option<Effect>)

  const FRESH_VISION :=
    Vision(LOGOUT, Screens(true, false, false, CREATE, false, false), Told("", "", 0, "", None, map[]))

  const NO_DEVICES := Devices(map[], map[], map[], map[], map[], "")

  const LIST_KINDS :=
    [AUDIO_INPUT_DEV_INFO, AUDIO_OUTPUT_DEV_INFO, VIDEO_DEV_INFO, SHARE_SCREEN_INFO, SHARE_WINDOW_INFO]

  const LIST_POSTS := [PostList(AUDIO_INPUT_DEV_INFO), PostList(AUDIO_OUTPUT_DEV_INFO), PostList(VIDEO_DEV_INFO),
                       PostList(SHARE_SCREEN_INFO), PostList(SHARE_WINDOW_INFO)]

  function Or(update: Option<Names>, current: Names): Names {
    if update.Some? then update.value else current
  }

  function Refresh(d: Devices, e: Engine): Devices {
    Devices(Or(e.audioIn, d.audioIn), Or(e.audioOut, d.audioOut), Or(e.video, d.video),
            Or(e.screens, d.screens), Or(e.windows, d.windows), d.meetId)
  }

  function ListOf(d: Devices, kind: MessageType): Names {
    if kind.AUDIO_INPUT_DEV_INFO? then d.audioIn
    else if kind.AUDIO_OUTPUT_DEV_INFO? then d.audioOut
    else if kind.VIDEO_DEV_INFO? then d.video
    else if kind.SHARE_SCREEN_INFO? then d.screens
    else d.windows
  }

  function Render(d: Devices, p: Post): Message {
    match p
    case PostMsg(m) => m
    case PostList(kind) =>
      Message(kind, if IsDeviceInfo(kind) then DevList(ListOf(d, kind)) else ShareList(ListOf(d, kind)))
  }

  function RenderAll(d: Devices, posts: seq<Post>): seq<Message> {
    seq(|posts|, i requires 0 <= i < |posts| => Render(d, posts[i]))
  }

  // ---------------------------------------------------------------- the parts of `update`

  predicate IsLogin(m: Message) { m.id.LOGIN_SUCCESS? && m.data.Text? }

  predicate IsVideoTrack(m: Message) { m.id.ADD_TRACK? && m.data.Track? && m.data.video }

  predicate IsTrack(m: Message) { (m.id.ADD_TRACK? || m.id.REMOVE_TRACK?) && m.data.Track? }

  predicate IsList(m: Message) {
    (IsDeviceInfo(m.id) && m.data.DevList?) || (IsShareInfo(m.id) && m.data.ShareList?)
  }

  function NamesIn(m: Message): Names
    requires IsList(m)
  {
    if m.data.DevList? then m.data.devices else m.data.shares
  }

  /** IS_CREATE, IS_BOOKING and IS_JOIN with the payload that the handler accepts. */
  predicate WellFormedMeeting(m: Message) {
    if m.id.IS_JOIN? then m.data.Text? && m.data.text != ""
    else (m.id.IS_CREATE? || m.id.IS_BOOKING?) && m.data.WideTexts? && |m.data.wide| == 4
  }

  function LoginAfter(login: VisionType, m: Message): VisionType {
    if IsLogin(m) then LOGIN else login
  }

  /** Windows shown after m. An enter dialog that is already open refuses OnEnter and keeps its
      type; a handler that throws on the payload has already done what stands before the cast. */
  function ScreensAfter(w: Screens, login: VisionType, m: Message): Screens {
    if (m.id.CREATE_MEETING? || m.id.JOIN_MEETING?) && login != LOGOUT && !w.enter then
      w.(enter := true, enterType := if m.id.CREATE_MEETING? then CREATE else JOIN)
    else if m.id.START_LOGIN? then w.(login := true)
    else if m.id.LOGIN_SUCCESS? then w.(login := false)
    else if m.id.MEETING_END? || m.id.DISCONNECT_PEER? then w.(stream := false, start := true)
    else if m.id.START_INVITE? then w.(invite := true)
    else if m.id.INVITE_USER? then w.(invite := false)
    else if m.id.BOOKING_MEETING_OK? && m.data.Text? then w.(enter := false)
    else if IsVideoTrack(m) then w.(enter := false, start := false, stream := true)
    else w
  }

  /** The dialogs that their close button hides; it closes the other two windows for good. */
  datatype Dialog = LOGIN_DIALOG | ENTER_DIALOG | INVITE_DIALOG

  function Closed(w: Screens, d: Dialog): Screens {
    match d
    case LOGIN_DIALOG => w.(login := false)
    case ENTER_DIALOG => w.(enter := false)
    case INVITE_DIALOG => w.(invite := false)
  }

  function ToldAfter(t: Told, login: VisionType, m: Message): Told {
    if m.id.IS_JOIN? && login != LOGOUT && WellFormedMeeting(m) then t.(session := m.data.text)
    else if IsLogin(m) then t.(userId := m.data.text)
    else if m.id.RECONNECT_SERVER_FAILED? then t.(userId := "")
    else if m.id.MEETING_END? then t.(rendering := None)
    else if IsVideoTrack(m) then t.(rendering := Some(m.data.track))
    else if m.id.CREATE_MEETING_OK? && m.data.Session? then t.(session := m.data.id, since := m.data.since)
    else if m.id.JOIN_MEETING_OK? && m.data.Stamp? then t.(since := m.data.stamp)
    else if m.id.BOOKING_MEETING_OK? && m.data.Text? then t.(booking := m.data.text)
    else if IsList(m) then t.(lists := t.lists[m.id := NamesIn(m)])
    else t
  }

  function DevicesAfter(d: Devices, login: VisionType, m: Message, e: Engine): Devices {
    if m.id.IS_CREATE? && login != LOGOUT && WellFormedMeeting(m) then Refresh(d, e)
    else if m.id.IS_JOIN? && login != LOGOUT && WellFormedMeeting(m) then d.(meetId := m.data.text)
    else if m.id.MEETING_END? && e.exitOk then d.(meetId := "")
    else if m.id.REQUEST_WINDOW_LIST? then d.(windows := Or(e.windows, d.windows))
    else d
  }

  /** What the controller posts back while m is handled. */
  function PostsFor(d: Devices, login: VisionType, m: Message, e: Engine): seq<Post> {
    if m.id.IS_CREATE? && login != LOGOUT && WellFormedMeeting(m) then LIST_POSTS
    else if m.id.REQUEST_WINDOW_LIST? && |Or(e.windows, d.windows)| != |d.windows| then [PostList(SHARE_WINDOW_INFO)]
    else if m.id.REQUEST_MEETING_INFO? then [PostMsg(Message(MEETING_MEDIA_INFO, Media))]
    else []
  }

  /** The one thing that handling m does to the outside: a callback, a list handed to the stream
      window, or a track reference released. */
  function EffectOf(login: VisionType, m: Message): Option<Effect> {
    if WellFormedMeeting(m) then
      if login == LOGOUT then None
      else Some(Called(if m.id.IS_JOIN? then Join(m.data.text)
                       else if m.id.IS_CREATE? then Create(m.data.wide) else Book(m.data.wide)))
    else if IsForwarded(m.id) || m.id.DISCONNECT_PEER? then Some(Called(Custom(m)))
    else if m.id.IS_LOGIN? && m.data.Texts? && |m.data.texts| >= 3 then
      Some(Called(Login(m.data.texts[0], m.data.texts[1], m.data.texts[2])))
    else if m.id.START_LOGOUT? then Some(Called(Logout))
    else if m.id.MEETING_END? then Some(Called(HangUp))
    else if m.id.INVITE_USER? && m.data.Text? && m.data.text != "" then Some(Called(Invite(m.data.text)))
    else if IsLogin(m) && login == RECONNECT then Some(Called(Custom(Message(RECONNECT_PEER, Nil))))
    else if IsTrack(m) then Some(Released(m.data.track))
    else if IsList(m) then Some(Delivered(m.id, NamesIn(m)))
    else None
  }

  function Handle(v: Vision, d: Devices, m: Message, e: Engine): Outcome {
    Outcome(Vision(LoginAfter(v.login, m), ScreensAfter(v.screens, v.login, m), ToldAfter(v.told, v.login, m)),
            DevicesAfter(d, v.login, m, e), PostsFor(d, v.login, m, e), EffectOf(v.login, m))
  }

  // ---------------------------------------------------------------- facts about one message

  /** Calls that the source guards with `type_ == LOGOUT`. */
  predicate NeedsLogin(effect: Option<Effect>) {
    && effect.Some? && effect.value.Called?
    && (effect.value.call.Create? || effect.value.call.Book? || effect.value.call.Join?)
  }

  /** Creating, booking and joining are called exactly for a well-formed request while not
      logged out. */
  lemma MeetingCallsNeedLogin(login: VisionType, m: Message)
    ensures NeedsLogin(EffectOf(login, m)) <==> WellFormedMeeting(m) && login != LOGOUT
  {
  }

  /** Either the start window or the stream window is shown, never both; a video track is what
      brings the stream window up; the enter dialog never changes its type while it is open. */
  lemma OneScreenShown(w: Screens, login: VisionType, m: Message)
    requires w.start != w.stream
    ensures var w' := ScreensAfter(w, login, m);
      && w'.start != w'.stream
      && (w'.stream && !w.stream <==> !w.stream && IsVideoTrack(m))
      && (w.enter && w'.enter ==> w'.enterType == w.enterType)
      && (login == LOGOUT && !w.enter ==> !w'.enter)
  {
  }
}
