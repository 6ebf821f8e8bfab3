/** What is on the screen, what the windows were told, what the controller knows and what was called,
    each read off the history of a run alone: the last thing that concerned it decides. */
module PumpHistory {
  import opened Handlers
  import opened Messages
  import opened Options
  import opened Pump
  import opened PumpFrames
  import opened PumpLists

  // ---------------------------------------------------------------- looking back

  /** How many happenings there had been when p last held; 0 if it never did. */
  ghost function Latest(log: seq<Happening>, p: seq<Happening> -> bool): (n: nat)
    ensures n <= |log| && forall k :: n < k <= |log| ==> !p(log[..k])
    ensures n > 0 ==> p(log[..n])
  {
    if log == [] then 0
    else if p(log) then
      assert log[..|log|] == log;
      |log|
    else
      var before := log[..|log| - 1];
      assert forall k :: 0 <= k <= |before| ==> before[..k] == log[..k];
      assert log[..|log|] == log;
      Latest(before, p)
  }

  lemma LatestNext(log: seq<Happening>, h: Happening, p: seq<Happening> -> bool)
    ensures Latest(log + [h], p) == if p(log + [h]) then |log| + 1 else Latest(log, p)
    ensures var n := Latest(log, p); (log + [h])[..n] == log[..n]
  {
    assert (log + [h])[..|log|] == log;
  }

  /** The message that was handled just now. */
  ghost function Now(log: seq<Happening>): Option<Message> {
    if log != [] && log[|log| - 1].Handling? then Some(log[|log| - 1].m) else None
  }

  ghost predicate JustClosed(log: seq<Happening>, d: Dialog) { log != [] && log[|log| - 1] == Closing(d) }

  ghost predicate LoggedIn(log: seq<Happening>) {
    exists h <- log :: h.Handling? && h.m.id.LOGIN_SUCCESS? && h.m.data.Text?
  }

  lemma LoggedInNext(log: seq<Happening>, h: Happening)
    ensures LoggedIn(log + [h]) <==> LoggedIn(log) || (h.Handling? && h.m.id.LOGIN_SUCCESS? && h.m.data.Text?)
  {
    assert forall x <- log :: x in log + [h];
    assert h in log + [h];
  }

  // ---------------------------------------------------------------- what concerns the windows

  predicate ShowsVideo(m: Message) { m.id.ADD_TRACK? && m.data.Track? && m.data.video }

  ghost predicate MovesStream(log: seq<Happening>) {
    var m := Now(log);
    m.Some? && (ShowsVideo(m.value) || m.value.id.MEETING_END? || m.value.id.DISCONNECT_PEER?)
  }

  ghost predicate MovesLogin(log: seq<Happening>) {
    var m := Now(log);
    JustClosed(log, LOGIN_DIALOG) || (m.Some? && (m.value.id.START_LOGIN? || m.value.id.LOGIN_SUCCESS?))
  }

  ghost predicate MovesInvite(log: seq<Happening>) {
    var m := Now(log);
    JustClosed(log, INVITE_DIALOG) || (m.Some? && (m.value.id.START_INVITE? || m.value.id.INVITE_USER?))
  }

  /** A request for the enter dialog once somebody has logged in. */
  ghost predicate OpensEnter(log: seq<Happening>) {
    var m := Now(log);
    m.Some? && (m.value.id.CREATE_MEETING? || m.value.id.JOIN_MEETING?) && LoggedIn(log)
  }

  ghost predicate ClosesEnter(log: seq<Happening>) {
    var m := Now(log);
    || JustClosed(log, ENTER_DIALOG)
    || (m.Some? && (ShowsVideo(m.value) || (m.value.id.BOOKING_MEETING_OK? && m.value.data.Text?)))
  }

  // ---------------------------------------------------------------- the windows

  ghost predicate LoginTells(login: VisionType, log: seq<Happening>) {
    login == if LoggedIn(log) then LOGIN else LOGOUT
  }

  ghost predicate StreamShown(w: Screens, log: seq<Happening>) {
    var n := Latest(log, MovesStream);
    (w.stream <==> n > 0 && log[n - 1].m.id.ADD_TRACK?) && (w.start <==> !w.stream)
  }

  ghost predicate LoginShown(shown: bool, log: seq<Happening>) {
    var n := Latest(log, MovesLogin);
    shown <==> n > 0 && log[n - 1].Handling? && log[n - 1].m.id.START_LOGIN?
  }

  ghost predicate InviteShown(shown: bool, log: seq<Happening>) {
    var n := Latest(log, MovesInvite);
    shown <==> n > 0 && log[n - 1].Handling? && log[n - 1].m.id.START_INVITE?
  }

  /** Which happening opened the enter dialog that is open now, counted from 1; 0 if none is. */
  ghost function Opening(log: seq<Happening>): (n: nat)
    ensures n <= |log| && (n > 0 ==> log[n - 1].Handling?)
  {
    if log == [] || ClosesEnter(log) then 0
    else
      var n := Opening(log[..|log| - 1]);
      if n > 0 then n else if OpensEnter(log) then |log| else 0
  }

  /** It is the first request, after a login, since the dialog was last closed. */
  lemma {:induction false} OpeningIsFirst(log: seq<Happening>)
    ensures var c, n := Latest(log, ClosesEnter), Opening(log);
      && (n > 0 ==> c < n && OpensEnter(log[..n]))
      && forall k :: c < k <= |log| && (n == 0 || k < n) ==> !OpensEnter(log[..k])
  {
    if log != [] {
      var before := log[..|log| - 1];
      OpeningIsFirst(before);
      LatestNext(before, log[|log| - 1], ClosesEnter);
      assert log == before + [log[|log| - 1]] && log[..|log|] == log;
      assert forall k :: 0 <= k <= |before| ==> log[..k] == before[..k];
    }
  }

  predicate EnterIs(w: Screens, open: bool, forCreating: bool) {
    (w.enter <==> open) && (open ==> w.enterType == if forCreating then CREATE else JOIN)
  }

  /** The enter dialog is open exactly if it was asked for since it was last closed, and is for what
      was asked first. */
  ghost predicate EnterShown(w: Screens, log: seq<Happening>) {
    var n := Opening(log);
    EnterIs(w, n > 0, n > 0 && log[n - 1].m.id.CREATE_MEETING?)
  }

  ghost predicate ScreensTell(w: Screens, log: seq<Happening>) {
    StreamShown(w, log) && LoginShown(w.login, log) && InviteShown(w.invite, log) && EnterShown(w, log)
  }

  /** What one happening does to the vision. */
  function VisionAfter(v: Vision, h: Happening): Vision {
    match h
    case Handling(m, _) =>
      Vision(LoginAfter(v.login, m), ScreensAfter(v.screens, v.login, m), ToldAfter(v.told, v.login, m))
    case Closing(d) => v.(screens := Closed(v.screens, d))
    case _ => v
  }

  lemma LoginKept(v: Vision, log: seq<Happening>, h: Happening)
    requires LoginTells(v.login, log)
    ensures LoginTells(VisionAfter(v, h).login, log + [h])
  {
    LoggedInNext(log, h);
  }

  lemma StreamMoves(w: Screens, login: VisionType, m: Message)
    ensures var w' := ScreensAfter(w, login, m); var ends := m.id.MEETING_END? || m.id.DISCONNECT_PEER?;
      && w'.stream == (ShowsVideo(m) || (w.stream && !ends))
      && w'.start == (ends || (w.start && !ShowsVideo(m)))
  {
  }

  lemma StreamKept(v: Vision, log: seq<Happening>, h: Happening)
    requires StreamShown(v.screens, log)
    ensures StreamShown(VisionAfter(v, h).screens, log + [h])
  {
    LatestNext(log, h, MovesStream);
    if h.Handling? {
      StreamMoves(v.screens, v.login, h.m);
    }
  }

  lemma DialogMoves(w: Screens, login: VisionType, m: Message)
    ensures ScreensAfter(w, login, m).login == (m.id.START_LOGIN? || (w.login && !m.id.LOGIN_SUCCESS?))
    ensures ScreensAfter(w, login, m).invite == (m.id.START_INVITE? || (w.invite && !m.id.INVITE_USER?))
  {
  }

  lemma LoginShownKept(v: Vision, log: seq<Happening>, h: Happening)
    requires LoginShown(v.screens.login, log)
    ensures LoginShown(VisionAfter(v, h).screens.login, log + [h])
  {
    LatestNext(log, h, MovesLogin);
    if h.Handling? {
      DialogMoves(v.screens, v.login, h.m);
    }
  }

  lemma InviteShownKept(v: Vision, log: seq<Happening>, h: Happening)
    requires InviteShown(v.screens.invite, log)
    ensures InviteShown(VisionAfter(v, h).screens.invite, log + [h])
  {
    LatestNext(log, h, MovesInvite);
    if h.Handling? {
      DialogMoves(v.screens, v.login, h.m);
    }
  }

  lemma OpeningNext(log: seq<Happening>, h: Happening)
    ensures Opening(log + [h]) ==
            if ClosesEnter(log + [h]) then 0
            else if Opening(log) > 0 then Opening(log) else if OpensEnter(log + [h]) then |log| + 1 else 0
  {
    assert (log + [h])[..|log|] == log;
  }

  lemma EnterMoves(w: Screens, login: VisionType, m: Message)
    ensures var w' := ScreensAfter(w, login, m);
      var asked := (m.id.CREATE_MEETING? || m.id.JOIN_MEETING?) && login != LOGOUT;
      && w'.enter == ((w.enter || asked) && !ShowsVideo(m) && !(m.id.BOOKING_MEETING_OK? && m.data.Text?))
      && w'.enterType ==
         (if w.enter || !asked then w.enterType else if m.id.CREATE_MEETING? then CREATE else JOIN)
  {
  }

  lemma EnterEvents(login: VisionType, log: seq<Happening>, h: Happening)
    requires LoginTells(login, log)
    ensures OpensEnter(log + [h]) <==>
            h.Handling? && (h.m.id.CREATE_MEETING? || h.m.id.JOIN_MEETING?) && login != LOGOUT
    ensures ClosesEnter(log + [h]) <==>
            || h == Closing(ENTER_DIALOG)
            || (h.Handling? && (ShowsVideo(h.m) || (h.m.id.BOOKING_MEETING_OK? && h.m.data.Text?)))
  {
    LoggedInNext(log, h);
  }

  /** An open dialog is closed or stays, with its type; a closed one may be opened for a type. */
  lemma EnterStep(w: Screens, login: VisionType, m: Message, open: bool, forCreating: bool)
    requires EnterIs(w, open, forCreating)
    ensures var asked := (m.id.CREATE_MEETING? || m.id.JOIN_MEETING?) && login != LOGOUT;
      var closed := ShowsVideo(m) || (m.id.BOOKING_MEETING_OK? && m.data.Text?);
      EnterIs(ScreensAfter(w, login, m), (open || asked) && !closed, if open then forCreating else m.id.CREATE_MEETING?)
  {
    EnterMoves(w, login, m);
  }

  lemma EnterShownKept(v: Vision, log: seq<Happening>, h: Happening)
    requires LoginTells(v.login, log) && EnterShown(v.screens, log)
    ensures EnterShown(VisionAfter(v, h).screens, log + [h])
  {
    EnterEvents(v.login, log, h);
    OpeningNext(log, h);
    var n, n' := Opening(log), Opening(log + [h]);
    assert n > 0 ==> (log + [h])[n - 1] == log[n - 1];
    if h.Handling? {
      EnterStep(v.screens, v.login, h.m, n > 0, n > 0 && log[n - 1].m.id.CREATE_MEETING?);
      assert n' > 0 && n == 0 ==> (log + [h])[n' - 1] == h;
    } else {
      assert n' == if h == Closing(ENTER_DIALOG) then 0 else n;
    }
  }

  // ---------------------------------------------------------------- what the windows were told

  ghost predicate NamesUser(log: seq<Happening>) {
    var m := Now(log);
    m.Some? && ((m.value.id.LOGIN_SUCCESS? && m.value.data.Text?) || m.value.id.RECONNECT_SERVER_FAILED?)
  }

  ghost predicate NamesSession(log: seq<Happening>) {
    var m := Now(log);
    m.Some? && (
      || (m.value.id.IS_JOIN? && m.value.data.Text? && m.value.data.text != "" && LoggedIn(log))
      || (m.value.id.CREATE_MEETING_OK? && m.value.data.Session?))
  }

  ghost predicate DatesSession(log: seq<Happening>) {
    var m := Now(log);
    m.Some? && (
      || (m.value.id.CREATE_MEETING_OK? && m.value.data.Session?)
      || (m.value.id.JOIN_MEETING_OK? && m.value.data.Stamp?))
  }

  ghost predicate NamesBooking(log: seq<Happening>) {
    var m := Now(log);
    m.Some? && m.value.id.BOOKING_MEETING_OK? && m.value.data.Text?
  }

  ghost predicate MovesVideo(log: seq<Happening>) {
    var m := Now(log);
    m.Some? && (ShowsVideo(m.value) || m.value.id.MEETING_END?)
  }

  ghost predicate UserTold(user: string, log: seq<Happening>) {
    var n := Latest(log, NamesUser);
    user == if n == 0 || log[n - 1].m.id.RECONNECT_SERVER_FAILED? then "" else log[n - 1].m.data.text
  }

  ghost predicate SessionTold(session: string, log: seq<Happening>) {
    var n := Latest(log, NamesSession);
    session ==
    if n == 0 then "" else if log[n - 1].m.id.IS_JOIN? then log[n - 1].m.data.text else log[n - 1].m.data.id
  }

  ghost predicate SinceTold(since: int, log: seq<Happening>) {
    var n := Latest(log, DatesSession);
    since ==
    if n == 0 then 0
    else if log[n - 1].m.id.CREATE_MEETING_OK? then log[n - 1].m.data.since else log[n - 1].m.data.stamp
  }

  ghost predicate BookingTold(booking: string, log: seq<Happening>) {
    var n := Latest(log, NamesBooking);
    booking == if n == 0 then "" else log[n - 1].m.data.text
  }

  ghost predicate VideoTold(rendering: Option<nat>, log: seq<Happening>) {
    var n := Latest(log, MovesVideo);
    rendering == if n == 0 || log[n - 1].m.id.MEETING_END? then None else Some(log[n - 1].m.data.track)
  }

  /** The last list of this kind that was handled. */
  ghost function LastGiven(log: seq<Happening>, kind: MessageType): Option<Names> {
    if log == [] then None
    else
      var m := Now(log);
      if m.Some? && m.value.id == kind && m.value.data.DevList? && IsDeviceInfo(kind) then Some(m.value.data.devices)
      else if m.Some? && m.value.id == kind && m.value.data.ShareList? && IsShareInfo(kind) then
        Some(m.value.data.shares)
      else LastGiven(log[..|log| - 1], kind)
  }

  ghost predicate ListsTold(lists: map<MessageType, Names>, log: seq<Happening>) {
    && (forall kind <- lists :: IsListInfo(kind))
    && (forall kind {:trigger LastGiven(log, kind)} ::
          LastGiven(log, kind) == if kind in lists then Some(lists[kind]) else None)
  }

  ghost predicate AllTold(t: Told, log: seq<Happening>) {
    && UserTold(t.userId, log) && SessionTold(t.session, log) && SinceTold(t.since, log)
    && BookingTold(t.booking, log) && VideoTold(t.rendering, log) && ListsTold(t.lists, log)
  }

  lemma UserKept(v: Vision, log: seq<Happening>, h: Happening)
    requires UserTold(v.told.userId, log)
    ensures UserTold(VisionAfter(v, h).told.userId, log + [h])
  {
    LatestNext(log, h, NamesUser);
  }

  lemma SessionKept(v: Vision, log: seq<Happening>, h: Happening)
    requires LoginTells(v.login, log) && SessionTold(v.told.session, log)
    ensures SessionTold(VisionAfter(v, h).told.session, log + [h])
  {
    LoggedInNext(log, h);
    LatestNext(log, h, NamesSession);
  }

  lemma SinceKept(v: Vision, log: seq<Happening>, h: Happening)
    requires SinceTold(v.told.since, log)
    ensures SinceTold(VisionAfter(v, h).told.since, log + [h])
  {
    LatestNext(log, h, DatesSession);
  }

  lemma BookingKept(v: Vision, log: seq<Happening>, h: Happening)
    requires BookingTold(v.told.booking, log)
    ensures BookingTold(VisionAfter(v, h).told.booking, log + [h])
  {
    LatestNext(log, h, NamesBooking);
  }

  lemma VideoKept(v: Vision, log: seq<Happening>, h: Happening)
    requires VideoTold(v.told.rendering, log)
    ensures VideoTold(VisionAfter(v, h).told.rendering, log + [h])
  {
    LatestNext(log, h, MovesVideo);
  }

  lemma ListsMove(t: Told, login: VisionType, m: Message)
    ensures ToldAfter(t, login, m).lists == if IsList(m) then t.lists[m.id := NamesIn(m)] else t.lists
  {
  }

  lemma LastGivenNext(log: seq<Happening>, h: Happening, kind: MessageType)
    ensures LastGiven(log + [h], kind) ==
            if h.Handling? && h.m.id == kind && IsList(h.m) then Some(NamesIn(h.m)) else LastGiven(log, kind)
  {
    assert (log + [h])[..|log|] == log;
  }

  lemma ListsKept(v: Vision, log: seq<Happening>, h: Happening)
    requires ListsTold(v.told.lists, log)
    ensures ListsTold(VisionAfter(v, h).told.lists, log + [h])
  {
    if h.Handling? {
      ListsMove(v.told, v.login, h.m);
    }
    var lists := VisionAfter(v, h).told.lists;
    forall kind {:trigger LastGiven(log + [h], kind)}
      ensures LastGiven(log + [h], kind) == if kind in lists then Some(lists[kind]) else None
    {
      LastGivenNext(log, h, kind);
      assert LastGiven(log, kind) == if kind in v.told.lists then Some(v.told.lists[kind]) else None;
    }
  }

  // ---------------------------------------------------------------- what the controller knows

  /** What the engine answered about devices of this kind; None leaves the list as it was. */
  function AnswerFor(e: Engine, kind: MessageType): Option<Names> {
    match kind
    case AUDIO_INPUT_DEV_INFO => e.audioIn
    case AUDIO_OUTPUT_DEV_INFO => e.audioOut
    case VIDEO_DEV_INFO => e.video
    case SHARE_SCREEN_INFO => e.screens
    case SHARE_WINDOW_INFO => e.windows
    case _ => None
  }

  /** The engine was just asked about devices of this kind: by a join, by the creation of a meeting,
      or, about windows, by a request for them. */
  ghost predicate JustAsked(log: seq<Happening>, kind: MessageType) {
    && log != []
    && var h := log[|log| - 1];
       || h.Answering?
       || (h.Handling? && h.m.id.IS_CREATE? && h.m.data.WideTexts? && |h.m.data.wide| == 4 && LoggedIn(log))
       || (h.Handling? && h.m.id.REQUEST_WINDOW_LIST? && kind == SHARE_WINDOW_INFO)
  }

  /** The engine's last answer about devices of this kind. */
  ghost function Answered(log: seq<Happening>, kind: MessageType): Names {
    if log == [] then map[]
    else if JustAsked(log, kind) && AnswerFor(log[|log| - 1].e, kind).Some? then
      AnswerFor(log[|log| - 1].e, kind).value
    else Answered(log[..|log| - 1], kind)
  }

  ghost predicate DevicesTell(d: Devices, log: seq<Happening>) {
    && d.audioIn == Answered(log, AUDIO_INPUT_DEV_INFO) && d.audioOut == Answered(log, AUDIO_OUTPUT_DEV_INFO)
    && d.video == Answered(log, VIDEO_DEV_INFO) && d.screens == Answered(log, SHARE_SCREEN_INFO)
    && d.windows == Answered(log, SHARE_WINDOW_INFO)
  }

  ghost predicate ChangesMeeting(log: seq<Happening>) {
    var m := Now(log);
    m.Some? && (
      || (m.value.id.IS_JOIN? && m.value.data.Text? && m.value.data.text != "" && LoggedIn(log))
      || (m.value.id.MEETING_END? && log[|log| - 1].e.exitOk))
  }

  ghost predicate MeetingTells(meetId: string, log: seq<Happening>) {
    var n := Latest(log, ChangesMeeting);
    meetId == if n == 0 || log[n - 1].m.id.MEETING_END? then "" else log[n - 1].m.data.text
  }

  function DevicesNext(d: Devices, login: VisionType, h: Happening): Devices {
    match h
    case Handling(m, e) => DevicesAfter(d, login, m, e)
    case Answering(e) => Refresh(d, e)
    case _ => d
  }

  lemma AnsweredNext(log: seq<Happening>, h: Happening, kind: MessageType)
    ensures Answered(log + [h], kind) ==
            if JustAsked(log + [h], kind) && AnswerFor(h.e, kind).Some? then AnswerFor(h.e, kind).value
            else Answered(log, kind)
  {
    assert (log + [h])[..|log|] == log;
  }

  /** The handler of m asks the engine about all devices. */
  predicate Creates(login: VisionType, m: Message) {
    m.id.IS_CREATE? && m.data.WideTexts? && |m.data.wide| == 4 && login != LOGOUT
  }

  lemma RefreshGives(d: Devices, e: Engine, kind: MessageType)
    requires IsListInfo(kind)
    ensures ListOf(Refresh(d, e), kind) ==
            if AnswerFor(e, kind).Some? then AnswerFor(e, kind).value else ListOf(d, kind)
  {
  }

  lemma DevicesStay(d: Devices, login: VisionType, m: Message, e: Engine, kind: MessageType)
    requires IsListInfo(kind) && !Creates(login, m)
    ensures ListOf(DevicesAfter(d, login, m, e), kind) ==
            if m.id.REQUEST_WINDOW_LIST? && kind == SHARE_WINDOW_INFO && e.windows.Some? then e.windows.value
            else ListOf(d, kind)
  {
  }

  lemma MeetingMoves(d: Devices, login: VisionType, m: Message, e: Engine)
    ensures DevicesAfter(d, login, m, e).meetId ==
            if m.id.IS_JOIN? && m.data.Text? && m.data.text != "" && login != LOGOUT then m.data.text
            else if m.id.MEETING_END? && e.exitOk then "" else d.meetId
  {
  }

  lemma JustAskedNow(login: VisionType, log: seq<Happening>, h: Happening, kind: MessageType)
    requires LoginTells(login, log)
    ensures JustAsked(log + [h], kind) <==>
            || h.Answering?
            || (h.Handling? && (Creates(login, h.m) || (h.m.id.REQUEST_WINDOW_LIST? && kind == SHARE_WINDOW_INFO)))
  {
    LoggedInNext(log, h);
  }

  lemma ListKept(d: Devices, login: VisionType, log: seq<Happening>, h: Happening, kind: MessageType)
    requires LoginTells(login, log) && IsListInfo(kind) && ListOf(d, kind) == Answered(log, kind)
    ensures ListOf(DevicesNext(d, login, h), kind) == Answered(log + [h], kind)
  {
    JustAskedNow(login, log, h, kind);
    AnsweredNext(log, h, kind);
    if h.Handling? && !Creates(login, h.m) {
      DevicesStay(d, login, h.m, h.e, kind);
    } else if h.Handling? || h.Answering? {
      assert DevicesNext(d, login, h) == Refresh(d, h.e);
      RefreshGives(d, h.e, kind);
    }
  }

  lemma DevicesKept(d: Devices, login: VisionType, log: seq<Happening>, h: Happening)
    requires LoginTells(login, log) && DevicesTell(d, log)
    ensures DevicesTell(DevicesNext(d, login, h), log + [h])
  {
    ListKept(d, login, log, h, AUDIO_INPUT_DEV_INFO);
    ListKept(d, login, log, h, AUDIO_OUTPUT_DEV_INFO);
    ListKept(d, login, log, h, VIDEO_DEV_INFO);
    ListKept(d, login, log, h, SHARE_SCREEN_INFO);
    ListKept(d, login, log, h, SHARE_WINDOW_INFO);
  }

  lemma MeetingKept(d: Devices, login: VisionType, log: seq<Happening>, h: Happening)
    requires LoginTells(login, log) && MeetingTells(d.meetId, log)
    ensures MeetingTells(DevicesNext(d, login, h).meetId, log + [h])
  {
    LoggedInNext(log, h);
    LatestNext(log, h, ChangesMeeting);
    if h.Handling? {
      MeetingMoves(d, login, h.m, h.e);
    }
  }

  // ---------------------------------------------------------------- what was called

  predicate ForController(id: MessageType) {
    || id.SWITCH_AUDIO_INPUT_STR? || id.SWITCH_AUDIO_OUTPUT_STR? || id.SWITCH_VIDEO_INPUT?
    || id.SWITCH_SHARE_SCREEN? || id.SWITCH_SHARE_WINDOW? || id.SWITCH_MIC_VOLUME? || id.SET_MIC_PHONE?
    || id.SET_CAMERA? || id.SET_SHARE? || id.REQUEST_IFRAME? || id.REQUEST_WINDOW_LIST? || id.REQUEST_MEETING_INFO?
    || id.SEND_SDP_TO_PEER? || id.SEND_ICE_TO_PEER? || id.SEND_ICE_COMPLETE_TO_PEER? || id.RECONNECT_PEER?
    || id.DISCONNECT_PEER?
  }

  /** The call that belongs to m, with its arguments. */
  predicate CallTells(m: Message, loggedIn: bool, call: Callback) {
    match call
    case Login(addr, user, pwd) =>
      m.id.IS_LOGIN? && m.data.Texts? && |m.data.texts| >= 3 && m.data.texts[..3] == [addr, user, pwd]
    case Logout => m.id.START_LOGOUT?
    case Create(choices) => m.id.IS_CREATE? && m.data == WideTexts(choices) && |choices| == 4 && loggedIn
    case Book(choices) => m.id.IS_BOOKING? && m.data == WideTexts(choices) && |choices| == 4 && loggedIn
    case Join(meeting) => m.id.IS_JOIN? && m.data == Text(meeting) && meeting != "" && loggedIn
    case Invite(user) => m.id.INVITE_USER? && m.data == Text(user) && user != ""
    case HangUp => m.id.MEETING_END?
    case Custom(m') => m' == m && ForController(m.id)
  }

  predicate DoesTell(m: Message, loggedIn: bool, effect: Effect) {
    match effect
    case Called(call) => CallTells(m, loggedIn, call)
    case Delivered(kind, list) =>
      && kind == m.id
      && (m.id.AUDIO_INPUT_DEV_INFO? || m.id.AUDIO_OUTPUT_DEV_INFO? || m.id.VIDEO_DEV_INFO? ==> m.data == DevList(list))
      && (m.id.SHARE_SCREEN_INFO? || m.id.SHARE_WINDOW_INFO? ==> m.data == ShareList(list))
      && IsListInfo(m.id)
    case Released(track) => (m.id.ADD_TRACK? || m.id.REMOVE_TRACK?) && m.data.Track? && track == m.data.track
  }

  /** A handler does nothing outside only if nothing belongs to its message. */
  ghost predicate EffectTells(m: Message, loggedIn: bool, effect: Option<Effect>) {
    if effect.Some? then DoesTell(m, loggedIn, effect.value)
    else forall other: Effect :: !DoesTell(m, loggedIn, other)
  }

  lemma EffectIsTold(m: Message, loggedIn: bool)
    ensures EffectTells(m, loggedIn, EffectOf(if loggedIn then LOGIN else LOGOUT, m))
  {
  }

  /** Only a login differs while reconnecting: the peer is called again. */
  lemma ReconnectIsTold(m: Message)
    ensures EffectOf(RECONNECT, m) ==
            if m.id.LOGIN_SUCCESS? && m.data.Text? then Some(Called(Custom(Message(RECONNECT_PEER, Nil))))
            else EffectOf(LOGIN, m)
  {
  }

  /** What a handler posts, message by message. */
  lemma PostsAreTold(d: Devices, login: VisionType, m: Message, e: Engine)
    ensures var d' := DevicesAfter(d, login, m, e);
      RenderAll(d', PostsFor(d, login, m, e)) ==
      if Creates(login, m) then
        [Message(AUDIO_INPUT_DEV_INFO, DevList(d'.audioIn)), Message(AUDIO_OUTPUT_DEV_INFO, DevList(d'.audioOut)),
         Message(VIDEO_DEV_INFO, DevList(d'.video)), Message(SHARE_SCREEN_INFO, ShareList(d'.screens)),
         Message(SHARE_WINDOW_INFO, ShareList(d'.windows))]
      else if m.id.REQUEST_WINDOW_LIST? && |d'.windows| != |d.windows| then
        [Message(SHARE_WINDOW_INFO, ShareList(d'.windows))]
      else if m.id.REQUEST_MEETING_INFO? then [Message(MEETING_MEDIA_INFO, Media)]
      else []
  {
  }

  /** The handled messages of the log are those of the trace, each with the effect that tells. */
  ghost predicate EffectsTell(log: seq<Happening>, trace: seq<Handled>) {
    if log == [] then trace == []
    else
      var before, h := log[..|log| - 1], log[|log| - 1];
      if !h.Handling? then EffectsTell(before, trace)
      else
        && trace != []
        && var last := trace[|trace| - 1];
           && last.e.m == h.m && EffectTells(h.m, LoggedIn(before), last.effect)
           && EffectsTell(before, trace[..|trace| - 1])
  }

  // ---------------------------------------------------------------- what was posted

  ghost function PostingsOf(log: seq<Happening>): seq<Message> {
    if log == [] then []
    else
      var h := log[|log| - 1];
      PostingsOf(log[..|log| - 1]) + if h.Posting? then [h.m] else []
  }

  /** Every list was posted with the engine's last answer for its kind. */
  ghost predicate ListsPosted(log: seq<Happening>) {
    forall i :: 0 <= i < |log| && log[i].Posting? && IsListInfo(log[i].m.id) ==>
      IsList(log[i].m) && NamesIn(log[i].m) == Answered(log[..i], log[i].m.id)
  }

  // ---------------------------------------------------------------- over every run

  ghost predicate Tells(s: System) {
    && LoginTells(s.vision.login, s.log) && ScreensTell(s.vision.screens, s.log) && AllTold(s.vision.told, s.log)
    && DevicesTell(s.devices, s.log) && MeetingTells(s.devices.meetId, s.log)
  }

  ghost predicate PostsTell(s: System) {
    MessagesOf(Posted(s)) == PostingsOf(s.log) && ListsPosted(s.log) && EffectsTell(s.log, s.trace)
  }

  function Happens(s: System, step: Step): Happening
    requires Next(s, step).Some?
  {
    match step
    case Outside(m) => Posting(m)
    case ReceiveTrack(track, video) => Posting(Message(ADD_TRACK, Track(track, video)))
    case JoinStarts(_, e) => Answering(e)
    case PostNext(i) => Posting(Render(s.devices, s.scripts[i][0]))
    case Update(e) => Handling(s.queue[0].m, e)
    case Close(d) => Closing(d)
  }

  lemma NextHappens(s: System, step: Step)
    requires Next(s, step).Some?
    ensures var s', h := Next(s, step).value, Happens(s, step);
      && s'.log == s.log + [h] && s'.vision == VisionAfter(s.vision, h)
      && s'.devices == DevicesNext(s.devices, s.vision.login, h)
  {
  }

  lemma ScreensKept(v: Vision, log: seq<Happening>, h: Happening)
    requires LoginTells(v.login, log) && ScreensTell(v.screens, log)
    ensures ScreensTell(VisionAfter(v, h).screens, log + [h])
  {
    StreamKept(v, log, h);
    LoginShownKept(v, log, h);
    InviteShownKept(v, log, h);
    EnterShownKept(v, log, h);
  }

  lemma AllKept(v: Vision, log: seq<Happening>, h: Happening)
    requires LoginTells(v.login, log) && AllTold(v.told, log)
    ensures AllTold(VisionAfter(v, h).told, log + [h])
  {
    UserKept(v, log, h);
    SessionKept(v, log, h);
    SinceKept(v, log, h);
    BookingKept(v, log, h);
    VideoKept(v, log, h);
    ListsKept(v, log, h);
  }

  lemma TellsKept(s: System, step: Step)
    requires Tells(s) && Next(s, step).Some?
    ensures Tells(Next(s, step).value)
  {
    var h := Happens(s, step);
    NextHappens(s, step);
    LoginKept(s.vision, s.log, h);
    ScreensKept(s.vision, s.log, h);
    AllKept(s.vision, s.log, h);
    DevicesKept(s.devices, s.vision.login, s.log, h);
    MeetingKept(s.devices, s.vision.login, s.log, h);
  }

  lemma ListPosted(s: System, i: nat)
    requires Typed(s) && DevicesTell(s.devices, s.log) && Next(s, PostNext(i)).Some?
    ensures var m := Render(s.devices, s.scripts[i][0]);
      IsListInfo(m.id) ==> IsList(m) && NamesIn(m) == Answered(s.log, m.id)
  {
    assert s.scripts[i] in s.scripts && s.scripts[i][0] in s.scripts[i];
    RenderTyped(s.devices, s.scripts[i][0]);
  }

  lemma ListsPostedKept(s: System, step: Step)
    requires Typed(s) && DevicesTell(s.devices, s.log) && ListsPosted(s.log) && Next(s, step).Some?
    ensures ListsPosted(Next(s, step).value.log)
  {
    var h, log' := Happens(s, step), Next(s, step).value.log;
    NextHappens(s, step);
    if step.PostNext? {
      ListPosted(s, step.i);
    }
    forall i | 0 <= i < |log'| && log'[i].Posting? && IsListInfo(log'[i].m.id)
      ensures IsList(log'[i].m) && NamesIn(log'[i].m) == Answered(log'[..i], log'[i].m.id)
    {
      assert log'[..i] == s.log[..i];
      assert s.log[..|s.log|] == s.log;
    }
  }

  lemma PostedNext(s: System, step: Step)
    requires Next(s, step).Some?
    ensures var s', h := Next(s, step).value, Happens(s, step);
      if h.Posting? then s'.queue != [] && s'.queue[|s'.queue| - 1].m == h.m
        && Posted(s') == Posted(s) + [s'.queue[|s'.queue| - 1]]
      else Posted(s') == Posted(s)
  {
    if step.Update? {
      UpdatePosted(s, step.e);
    }
  }

  lemma PostingsNext(log: seq<Happening>, h: Happening)
    ensures PostingsOf(log + [h]) == PostingsOf(log) + if h.Posting? then [h.m] else []
  {
    assert (log + [h])[..|log|] == log;
  }

  lemma PostingsKept(s: System, step: Step)
    requires MessagesOf(Posted(s)) == PostingsOf(s.log) && Next(s, step).Some?
    ensures MessagesOf(Posted(Next(s, step).value)) == PostingsOf(Next(s, step).value.log)
  {
    NextHappens(s, step);
    PostedNext(s, step);
    PostingsNext(s.log, Happens(s, step));
    MessagesNext(Posted(s), Posted(Next(s, step).value));
  }

  lemma MessagesNext(es: seq<Entry>, es': seq<Entry>)
    ensures es' != [] && es' == es + [es'[|es'| - 1]] ==>
      MessagesOf(es') == MessagesOf(es) + [es'[|es'| - 1].m]
  {
  }

  lemma EffectsTellKept(s: System, step: Step)
    requires LoginTells(s.vision.login, s.log) && EffectsTell(s.log, s.trace) && Next(s, step).Some?
    ensures EffectsTell(Next(s, step).value.log, Next(s, step).value.trace)
  {
    var s', h := Next(s, step).value, Happens(s, step);
    NextHappens(s, step);
    assert s'.log[..|s.log|] == s.log;
    if h.Handling? {
      assert s'.trace[..|s.trace|] == s.trace;
      EffectIsTold(h.m, LoggedIn(s.log));
    }
  }

  ghost predicate AllTell(s: System) { Typed(s) && Tells(s) && PostsTell(s) }

  lemma AllTellKept(s: System, step: Step)
    requires AllTell(s) && Next(s, step).Some?
    ensures AllTell(Next(s, step).value)
  {
    TypedKept(s, step);
    TellsKept(s, step);
    ListsPostedKept(s, step);
    PostingsKept(s, step);
    EffectsTellKept(s, step);
  }

  lemma {:induction false} RunTells(s: System, steps: seq<Step>)
    requires AllTell(s)
    ensures AllTell(Run(s, steps))
    decreases |steps|
  {
    if steps != [] && Next(s, steps[0]).Some? {
      AllTellKept(s, steps[0]);
      RunTells(Next(s, steps[0]).value, steps[1..]);
    }
  }

  lemma FreshTells()
    ensures AllTell(FRESH)
  {
  }

  /** Over every run from the start: windows, dialogs, what they were told, device lists, meeting and
      login are what the history says; everything posted is queued or handled in its order; each list
      was posted with the engine's last answer for its kind; and each effect belongs to its message. */
  lemma HistoryTells(steps: seq<Step>)
    ensures Tells(Run(FRESH, steps)) && PostsTell(Run(FRESH, steps))
  {
    FreshTells();
    RunTells(FRESH, steps);
  }

  lemma {:induction false} PostingAt(log: seq<Happening>, j: nat) returns (i: nat)
    requires j < |PostingsOf(log)|
    ensures i < |log| && log[i] == Posting(PostingsOf(log)[j]) && |PostingsOf(log[..i])| == j
  {
    var before := log[..|log| - 1];
    if j < |PostingsOf(before)| {
      i := PostingAt(before, j);
      assert before[..i] == log[..i];
    } else {
      i := |log| - 1;
    }
  }

  lemma HandledAsPosted(s: System, j: nat) returns (i: nat)
    requires PostsTell(s) && j < |s.trace|
    ensures i < |s.log| && s.log[i] == Posting(s.trace[j].e.m) && |PostingsOf(s.log[..i])| == j
  {
    assert Posted(s)[j] == s.trace[j].e;
    assert MessagesOf(Posted(s))[j] == s.trace[j].e.m;
    i := PostingAt(s.log, j);
  }

  /** Over every run: the j-th message handled is the j-th one posted, and if it is a list then the
      stream window is given what the engine had last answered for that kind when it was posted. */
  lemma ListsAreAnswers(steps: seq<Step>, j: nat) returns (i: nat)
    requires j < |Run(FRESH, steps).trace|
    ensures var s := Run(FRESH, steps); var m := s.trace[j].e.m;
      && i < |s.log| && s.log[i] == Posting(m) && |PostingsOf(s.log[..i])| == j
      && (IsListInfo(m.id) ==> s.trace[j].effect == Some(Delivered(m.id, Answered(s.log[..i], m.id))))
  {
    FreshTells();
    RunTells(FRESH, steps);
    i := HandledAsPosted(Run(FRESH, steps), j);
    HandledLists(Run(FRESH, steps), j, i);
  }

  lemma HandledLists(s: System, j: nat, i: nat)
    requires Typed(s) && ListsPosted(s.log) && j < |s.trace| && i < |s.log| && s.log[i] == Posting(s.trace[j].e.m)
    ensures var m := s.trace[j].e.m;
      IsListInfo(m.id) ==> s.trace[j].effect == Some(Delivered(m.id, Answered(s.log[..i], m.id)))
  {
    assert s.trace[j] in s.trace;
  }
}
