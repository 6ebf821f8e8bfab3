/** The UI thread's objects: `Controller` with its device maps, `VisionCentralController` with its
    windows, login state and current message, and the queue they share. Each method is proved
    against `Handle`. The posts of one call are not interleaved here (module Pump interleaves
    them): a run of these objects is a run of the pump in which each callback posts in one go. */
module VisionCentral {
  import opened Handlers
  import opened Messages
  import opened Options
  import Pump
  import opened PumpFrames
  import PumpHistory
  import PumpLists
  import opened SafeQueue

  class Controller {
    const hi: ThreadSafeQueue<Message>
    var audioInputDevMap: Names
    var audioOutputDevMap: Names
    var videoInputDevMap: Names
    var shareScreenMap: Names
    var shareWindowMap: Names
    var meetId: string

    ghost function Maps(): Devices
      reads this
    {
      Devices(audioInputDevMap, audioOutputDevMap, videoInputDevMap, shareScreenMap, shareWindowMap, meetId)
    }

    constructor (hi: ThreadSafeQueue<Message>)
      ensures this.hi == hi && Maps() == NO_DEVICES
    {
      this.hi := hi;
      audioInputDevMap, audioOutputDevMap, videoInputDevMap := map[], map[], map[];
      shareScreenMap, shareWindowMap, meetId := map[], map[], "";
    }

    /** Each map is the engine's answer for that very kind, or what it was if there was none. */
    twostate predicate Refreshed(e: Engine)
      reads this
    {
      && audioInputDevMap == (if e.audioIn.Some? then e.audioIn.value else old(audioInputDevMap))
      && audioOutputDevMap == (if e.audioOut.Some? then e.audioOut.value else old(audioOutputDevMap))
      && videoInputDevMap == (if e.video.Some? then e.video.value else old(videoInputDevMap))
      && shareScreenMap == (if e.screens.Some? then e.screens.value else old(shareScreenMap))
      && shareWindowMap == (if e.windows.Some? then e.windows.value else old(shareWindowMap))
      && meetId == old(meetId)
    }

    /** The five lists, in the order in which they are posted. */
    ghost function FiveLists(): seq<Message>
      reads this
    {
      [Message(AUDIO_INPUT_DEV_INFO, DevList(audioInputDevMap)),
       Message(AUDIO_OUTPUT_DEV_INFO, DevList(audioOutputDevMap)),
       Message(VIDEO_DEV_INFO, DevList(videoInputDevMap)),
       Message(SHARE_SCREEN_INFO, ShareList(shareScreenMap)),
       Message(SHARE_WINDOW_INFO, ShareList(shareWindowMap))]
    }

    method GetDevInfo(e: Engine)
      modifies this
      ensures Refreshed(e) && Maps() == Refresh(old(Maps()), e)
    {
      audioInputDevMap := Or(e.audioIn, audioInputDevMap);
      audioOutputDevMap := Or(e.audioOut, audioOutputDevMap);
      videoInputDevMap := Or(e.video, videoInputDevMap);
      shareScreenMap := Or(e.screens, shareScreenMap);
      shareWindowMap := Or(e.windows, shareWindowMap);
    }

    method PostDevInfo()
      modifies hi
      ensures hi.queue == old(hi.queue) + FiveLists() == old(hi.queue) + RenderAll(Maps(), LIST_POSTS)
    {
      hi.Push(Message(AUDIO_INPUT_DEV_INFO, DevList(audioInputDevMap)));
      hi.Push(Message(AUDIO_OUTPUT_DEV_INFO, DevList(audioOutputDevMap)));
      hi.Push(Message(VIDEO_DEV_INFO, DevList(videoInputDevMap)));
      hi.Push(Message(SHARE_SCREEN_INFO, ShareList(shareScreenMap)));
      hi.Push(Message(SHARE_WINDOW_INFO, ShareList(shareWindowMap)));
    }

    method CreateMeeting(e: Engine)
      modifies this, hi
      ensures Refreshed(e) && hi.queue == old(hi.queue) + FiveLists()
      ensures Maps() == Refresh(old(Maps()), e) && hi.queue == old(hi.queue) + RenderAll(Maps(), LIST_POSTS)
    {
      GetDevInfo(e);
      PostDevInfo();
    }

    method OnJoinMeetingSuccess(timePoint: int, e: Engine)
      modifies this, hi
      ensures Refreshed(e)
      ensures hi.queue == old(hi.queue) + FiveLists() + [Message(JOIN_MEETING_OK, Stamp(timePoint))]
      ensures Maps() == Refresh(old(Maps()), e)
      ensures hi.queue == old(hi.queue) + RenderAll(Maps(), LIST_POSTS) + [Message(JOIN_MEETING_OK, Stamp(timePoint))]
    {
      GetDevInfo(e);
      PostDevInfo();
      hi.Push(Message(JOIN_MEETING_OK, Stamp(timePoint)));
    }

    method OnReceiveTrack(track: nat, video: bool)
      modifies hi
      ensures hi.queue == old(hi.queue) + [Message(ADD_TRACK, Track(track, video))]
    {
      hi.Push(Message(ADD_TRACK, Track(track, video)));
    }

    method JoinMeeting(to: string)
      modifies this
      ensures Maps() == old(Maps()).(meetId := to)
    {
      meetId := to;
    }

    method DisconnectFromCurrentPeer(e: Engine)
      modifies this
      ensures Maps() == old(Maps()).(meetId := if e.exitOk then "" else old(meetId))
    {
      if e.exitOk {
        meetId := "";
      }
    }

    method CustomMessageCallback(m: Message, e: Engine)
      requires IsForwarded(m.id) || m.id.DISCONNECT_PEER?
      modifies this, hi
      ensures Maps() == DevicesAfter(old(Maps()), LOGOUT, m, e)
      ensures hi.queue == old(hi.queue) + RenderAll(Maps(), PostsFor(old(Maps()), LOGOUT, m, e))
      ensures Maps() == old(Maps()).(windows := shareWindowMap)
      ensures shareWindowMap ==
              if m.id.REQUEST_WINDOW_LIST? && e.windows.Some? then e.windows.value else old(shareWindowMap)
      ensures hi.queue == old(hi.queue) +
              if m.id.REQUEST_WINDOW_LIST? && |shareWindowMap| != |old(shareWindowMap)| then
                [Message(SHARE_WINDOW_INFO, ShareList(shareWindowMap))]
              else if m.id.REQUEST_MEETING_INFO? then [Message(MEETING_MEDIA_INFO, Media)] else []
    {
      if m.id.REQUEST_WINDOW_LIST? {
        var tmp := shareWindowMap;
        shareWindowMap := Or(e.windows, shareWindowMap);
        if |tmp| != |shareWindowMap| {
          hi.Push(Message(SHARE_WINDOW_INFO, ShareList(shareWindowMap)));
        }
      } else if m.id.REQUEST_MEETING_INFO? {
        hi.Push(Message(MEETING_MEDIA_INFO, Media));
      }
    }
  }

  class VisionCentralController {
    const callback: Controller
    const hi: ThreadSafeQueue<Message>
    var type_: VisionType
    var wnd: bool          // the isActive flags of the five windows
    var loginWnd: bool
    var enterWnd: bool
    var enterType: EnterType
    var streamWnd: bool
    var inviteWnd: bool
    var told: Told
    var msg: Message
    ghost var effects: seq<Effect>

    ghost function View(): Vision
      reads this
    {
      Vision(type_, Screens(wnd, loginWnd, enterWnd, enterType, streamWnd, inviteWnd), told)
    }

    constructor (callback: Controller)
      ensures this.callback == callback && hi == callback.hi && View() == FRESH_VISION && effects == []
    {
      this.callback := callback;
      hi := callback.hi;
      type_ := LOGOUT;
      wnd, loginWnd, enterWnd, enterType, streamWnd, inviteWnd := true, false, false, CREATE, false, false;
      told := Told("", "", 0, "", None, map[]);
      msg := Message(SETTING, Nil);
      effects := [];
    }

    /** What handling `msg` from the old state must leave behind. */
    twostate predicate Handled(m: Message, e: Engine)
      reads this, callback, hi
    {
      var o := Handle(old(View()), old(callback.Maps()), m, e);
      && msg == old(msg) && View() == o.vision && callback.Maps() == o.devices
      && hi.queue == old(hi.queue) + RenderAll(o.devices, o.posts)
      && effects == old(effects) + if o.effect.Some? then [o.effect.value] else []
    }

    ghost method Note(effect: Effect)
      modifies this`effects
      ensures effects == old(effects) + [effect]
    {
      effects := effects + [effect];
    }

    method OpenEnterWnd(m: Message, e: Engine)
      requires m.id.CREATE_MEETING? || m.id.JOIN_MEETING?
      modifies this
      ensures Handled(m, e)
    {
      WindowsParts(View(), callback.Maps(), m, e);
      if type_ == LOGOUT || enterWnd {
        return;
      }
      enterWnd := true;
      enterType := if m.id.CREATE_MEETING? then CREATE else JOIN;
    }

    method CreateOrBook(m: Message, e: Engine)
      requires callback.hi == hi
      requires m.id.IS_CREATE? || m.id.IS_BOOKING?
      modifies this, callback, hi
      ensures Handled(m, e)
    {
      if type_ == LOGOUT || !m.data.WideTexts? || |m.data.wide| != 4 {
        return;
      }
      if m.id.IS_CREATE? {
        Note(Called(Create(m.data.wide)));
        callback.CreateMeeting(e);
      } else {
        Note(Called(Book(m.data.wide)));
      }
    }

    method JoinMeeting(m: Message, e: Engine)
      requires callback.hi == hi
      requires m.id.IS_JOIN?
      modifies this, callback, hi
      ensures Handled(m, e)
    {
      if type_ == LOGOUT || !m.data.Text? || m.data.text == "" {
        return;
      }
      Note(Called(Join(m.data.text)));
      callback.JoinMeeting(m.data.text);
      told := told.(session := m.data.text);
    }

    method StartLogin(m: Message, e: Engine)
      requires m.id.START_LOGIN?
      modifies this
      ensures Handled(m, e)
    {
      WindowsParts(View(), callback.Maps(), m, e);
      loginWnd := true;
    }

    method StartInvite(m: Message, e: Engine)
      requires m.id.START_INVITE?
      modifies this
      ensures Handled(m, e)
    {
      WindowsParts(View(), callback.Maps(), m, e);
      inviteWnd := true;
    }

    method InviteUser(m: Message, e: Engine)
      requires m.id.INVITE_USER?
      modifies this
      ensures Handled(m, e)
    {
      inviteWnd := false;
      if m.data.Text? && m.data.text != "" {
        Note(Called(Invite(m.data.text)));
      }
    }

    method EndMeeting(m: Message, e: Engine)
      requires callback.hi == hi
      requires m.id.MEETING_END?
      modifies this, callback, hi
      ensures Handled(m, e)
    {
      MeetingParts(View(), callback.Maps(), m, e);
      streamWnd := false;
      wnd := true;
      Note(Called(HangUp));
      told := told.(rendering := None);
      callback.DisconnectFromCurrentPeer(e);
    }

    method DisconnectPeer(m: Message, e: Engine)
      requires callback.hi == hi
      requires m.id.DISCONNECT_PEER?
      modifies this, callback, hi
      ensures Handled(m, e)
    {
      MeetingParts(View(), callback.Maps(), m, e);
      streamWnd := false;
      wnd := true;
      Note(Called(Custom(m)));
      callback.CustomMessageCallback(m, e);
    }

    method AddTrack(m: Message, e: Engine)
      requires m.id.ADD_TRACK?
      modifies this
      ensures Handled(m, e)
    {
      MeetingParts(View(), callback.Maps(), m, e);
      if !m.data.Track? {
        return;
      }
      if m.data.video {
        enterWnd := false;
        wnd := false;
        streamWnd := true;
        told := told.(rendering := Some(m.data.track));
      }
      Note(Released(m.data.track));
    }

    method RemoveTrack(m: Message, e: Engine)
      requires m.id.REMOVE_TRACK?
      modifies this
      ensures Handled(m, e)
    {
      MeetingParts(View(), callback.Maps(), m, e);
      if m.data.Track? {
        Note(Released(m.data.track));
      }
    }

    method LoginSucceeded(m: Message, e: Engine)
      requires m.id.LOGIN_SUCCESS?
      modifies this
      ensures Handled(m, e)
    {
      assert !IsTrack(m) && !IsList(m) && !WellFormedMeeting(m) && !IsForwarded(m.id);
      loginWnd := false;
      if !m.data.Text? {
        return;
      }
      told := told.(userId := m.data.text);
      if type_ == RECONNECT {
        Note(Called(Custom(Message(RECONNECT_PEER, Nil))));
      }
      type_ := LOGIN;
    }

    method ReconnectFailed(m: Message, e: Engine)
      requires m.id.RECONNECT_SERVER_FAILED?
      modifies this
      ensures Handled(m, e)
    {
      ToldParts(View(), callback.Maps(), m, e);
      told := told.(userId := "");
    }

    method MeetingCreated(m: Message, e: Engine)
      requires m.id.CREATE_MEETING_OK?
      modifies this
      ensures Handled(m, e)
    {
      ToldParts(View(), callback.Maps(), m, e);
      if m.data.Session? {
        told := told.(session := m.data.id, since := m.data.since);
      }
    }

    method MeetingJoined(m: Message, e: Engine)
      requires m.id.JOIN_MEETING_OK?
      modifies this
      ensures Handled(m, e)
    {
      ToldParts(View(), callback.Maps(), m, e);
      if m.data.Stamp? {
        told := told.(since := m.data.stamp);
      }
    }

    method MeetingBooked(m: Message, e: Engine)
      requires m.id.BOOKING_MEETING_OK?
      modifies this
      ensures Handled(m, e)
    {
      if m.data.Text? {
        told := told.(booking := m.data.text);
        enterWnd := false;
      }
    }

    method SetDevList(m: Message, e: Engine)
      requires IsDeviceInfo(m.id)
      modifies this
      ensures Handled(m, e)
    {
      ToldParts(View(), callback.Maps(), m, e);
      if m.data.DevList? {
        told := told.(lists := told.lists[m.id := m.data.devices]);
        Note(Delivered(m.id, m.data.devices));
      }
    }

    method SetShareList(m: Message, e: Engine)
      requires IsShareInfo(m.id)
      modifies this
      ensures Handled(m, e)
    {
      ToldParts(View(), callback.Maps(), m, e);
      if m.data.ShareList? {
        told := told.(lists := told.lists[m.id := m.data.shares]);
        Note(Delivered(m.id, m.data.shares));
      }
    }

    method Forward(m: Message, e: Engine)
      requires callback.hi == hi
      requires IsForwarded(m.id)
      modifies this, callback, hi
      ensures Handled(m, e)
    {
      ForwardedParts(View(), callback.Maps(), m, e);
      Note(Called(Custom(m)));
      callback.CustomMessageCallback(m, e);
    }

    method LoginUser(m: Message, e: Engine)
      requires m.id.IS_LOGIN?
      modifies this
      ensures Handled(m, e)
    {
      if m.data.Texts? && |m.data.texts| >= 3 {
        Note(Called(Login(m.data.texts[0], m.data.texts[1], m.data.texts[2])));
      }
    }

    method LogoutUser(m: Message, e: Engine)
      requires m.id.START_LOGOUT?
      modifies this
      ensures Handled(m, e)
    {
      Note(Called(Logout));
    }

    /** The switch of `update` on the message just taken. */
    method Dispatch(m: Message, e: Engine)
      requires callback.hi == hi
      modifies this, callback, hi
      ensures Handled(m, e)
    {
      if m.id.CREATE_MEETING? || m.id.JOIN_MEETING? {
        OpenEnterWnd(m, e);
      } else if m.id.START_LOGIN? {
        StartLogin(m, e);
      } else if m.id.START_INVITE? {
        StartInvite(m, e);
      } else if m.id.IS_CREATE? || m.id.IS_BOOKING? {
        CreateOrBook(m, e);
      } else if m.id.IS_JOIN? {
        JoinMeeting(m, e);
      } else if m.id.LOGIN_SUCCESS? {
        LoginSucceeded(m, e);
      } else if m.id.MEETING_END? {
        EndMeeting(m, e);
      } else if m.id.INVITE_USER? {
        InviteUser(m, e);
      } else if m.id.DISCONNECT_PEER? {
        DisconnectPeer(m, e);
      } else if IsDeviceInfo(m.id) {
        SetDevList(m, e);
      } else if IsShareInfo(m.id) {
        SetShareList(m, e);
      } else if m.id.RECONNECT_SERVER_FAILED? {
        ReconnectFailed(m, e);
      } else if m.id.CREATE_MEETING_OK? {
        MeetingCreated(m, e);
      } else if m.id.JOIN_MEETING_OK? {
        MeetingJoined(m, e);
      } else if m.id.BOOKING_MEETING_OK? {
        MeetingBooked(m, e);
      } else if m.id.ADD_TRACK? {
        AddTrack(m, e);
      } else if m.id.REMOVE_TRACK? {
        RemoveTrack(m, e);
      } else if IsForwarded(m.id) {
        Forward(m, e);
      } else if m.id.IS_LOGIN? {
        LoginUser(m, e);
      } else if m.id.START_LOGOUT? {
        LogoutUser(m, e);
      }
    }

    /** Take one message, if there is one, and handle it. */
    method Update(e: Engine)
      requires callback.hi == hi
      modifies this, callback, hi
      ensures old(hi.queue) == [] ==>
        View() == old(View()) && callback.Maps() == old(callback.Maps()) && hi.queue == [] && effects == old(effects)
      ensures old(hi.queue) != [] ==>
        var m := old(hi.queue)[0];
        var o := Handle(old(View()), old(callback.Maps()), m, e);
        && msg == m && View() == o.vision && callback.Maps() == o.devices
        && hi.queue == old(hi.queue)[1..] + RenderAll(o.devices, o.posts)
        && effects == old(effects) + if o.effect.Some? then [o.effect.value] else []
    {
      var ok, m := hi.TryPop(msg);
      if !ok {
        return;
      }
      msg := m;
      Dispatch(m, e);
    }

    /** The pump in state s looks as these objects do. */
    ghost predicate Mirrors(s: Pump.System)
      reads this, callback, hi
    {
      && View() == s.vision && callback.Maps() == s.devices
      && hi.queue == MessagesOf(s.queue) && effects == EffectsOf(s.trace) && Quiet(s)
    }

    /** One thing that happens outside `update`: it is some steps of the pump. */
    method Occur(event: Event, ghost s: Pump.System)
      requires callback.hi == hi && Mirrors(s) && Allowed(event)
      modifies this, callback, hi
      ensures Mirrors(Pump.Run(s, EventSteps(s, event)))
    {
      EventIsPump(s, event);
      match event
      case Arrives(m) => hi.Push(m);
      case TrackArrives(track, video) => callback.OnReceiveTrack(track, video);
      case JoinEnds(stamp, e) => callback.OnJoinMeetingSuccess(stamp, e);
      case UserCloses(d) => CloseDialog(d);
    }

    method CloseDialog(d: Dialog)
      modifies this
      ensures View() == old(View()).(screens := Closed(old(View()).screens, d)) && effects == old(effects)
    {
      match d
      case LOGIN_DIALOG => loginWnd := false;
      case ENTER_DIALOG => enterWnd := false;
      case INVITE_DIALOG => inviteWnd := false;
    }

    /** Between two updates. */
    method PollEvents(events: seq<Event>, ghost s: Pump.System)
      requires callback.hi == hi && Mirrors(s) && forall event <- events :: Allowed(event)
      modifies this, callback, hi
      ensures Mirrors(Pump.Run(s, EventsSteps(s, events)))
      ensures events == [] ==> hi.queue == old(hi.queue)
    {
      for i := 0 to |events|
        invariant Mirrors(Pump.Run(s, EventsSteps(s, events[..i])))
        invariant i == 0 ==> hi.queue == old(hi.queue)
      {
        ghost var before := EventsSteps(s, events[..i]);
        EventsPlay(s, events[..i]);
        Occur(events[i], Pump.Run(s, before));
        assert events[..i + 1][..i] == events[..i];
        RunThen(s, before, EventSteps(Pump.Run(s, before), events[i]));
      }
      assert events[..|events|] == events;
    }

    /** `update` is the pump's update followed by all posts of the handler. */
    method UpdatePumped(e: Engine, ghost s: Pump.System)
      requires callback.hi == hi && Mirrors(s)
      modifies this, callback, hi
      ensures Mirrors(Pump.Run(s, UpdateSteps(s, e)))
      ensures hi.queue == [] || 1 + Load(hi.queue) <= Load(old(hi.queue))
    {
      ghost var queue, v, d := hi.queue, View(), callback.Maps();
      Update(e);
      if queue != [] {
        UpdateIsPump(s, e);
        Extended(s.trace, Pump.Run(s, UpdateSteps(s, e)).trace);
        var o := Handle(v, d, queue[0], e);
        HandlersLighten(d, v.login, queue[0], e, o.devices);
        LoadConcat(queue[1..], RenderAll(o.devices, o.posts));
      }
    }

    /** One pass of the loop of `run`. */
    method RunFrame(f: Frame, ghost s: Pump.System)
      requires callback.hi == hi && Mirrors(s) && forall event <- f.events :: Allowed(event)
      modifies this, callback, hi
      ensures Mirrors(Pump.Run(s, FrameSteps(s, f)))
      ensures f.events == [] ==> hi.queue == [] || 1 + Load(hi.queue) <= Load(old(hi.queue))
    {
      PollEvents(f.events, s);
      ghost var polled := Pump.Run(s, EventsSteps(s, f.events));
      EventsPlay(s, f.events);
      UpdatePumped(f.e, polled);
      RunThen(s, EventsSteps(s, f.events), UpdateSteps(polled, f.e));
    }

    /** The loop of `run`: a run of the pump. If nothing comes from outside, the queue is empty after
        as many frames as its load. */
    method Run(frames: seq<Frame>, ghost s: Pump.System)
      requires callback.hi == hi && Mirrors(s) && AllAllowed(frames)
      modifies this, callback, hi
      ensures PumpLists.AllTaken(s, FramesSteps(s, frames)) && Mirrors(Pump.Run(s, FramesSteps(s, frames)))
      ensures (forall f <- frames :: f.events == []) ==>
        hi.queue == [] || |frames| + Load(hi.queue) <= Load(old(hi.queue))
    {
      for i := 0 to |frames|
        invariant Mirrors(Pump.Run(s, FramesSteps(s, frames[..i])))
        invariant (forall f <- frames :: f.events == []) ==>
          hi.queue == [] || i + Load(hi.queue) <= Load(old(hi.queue))
      {
        ghost var now := Pump.Run(s, FramesSteps(s, frames[..i]));
        assert frames[i] in frames;
        FramesPlay(s, frames[..i]);
        RunFrame(frames[i], now);
        assert frames[..i + 1][..i] == frames[..i];
        RunThen(s, FramesSteps(s, frames[..i]), FrameSteps(now, frames[i]));
      }
      assert frames[..|frames|] == frames;
      FramesPlay(s, frames);
    }
  }

  /** The program: whatever happens in each frame, one of start and stream window is shown; a
      create, booking or join call was made only if the user is logged in; every track reference
      handed over is queued or was released, once; windows, dialogs, what they were told and the
      controller's lists are what the history says; and whenever the queue is empty the list of
      windows last given to the stream window is as long as the controller's. */
  method Boot(frames: seq<Frame>) returns (vcc: VisionCentralController)
    requires AllAllowed(frames)
    ensures vcc.callback.hi == vcc.hi && vcc.Mirrors(Pump.Run(Pump.FRESH, FramesSteps(Pump.FRESH, frames)))
    ensures vcc.wnd != vcc.streamWnd && vcc.type_ != RECONNECT
    ensures forall effect <- vcc.effects :: NeedsLogin(Some(effect)) ==> vcc.type_ == LOGIN
    ensures FramesTracks(frames) == TracksIn(vcc.hi.queue) + ReleasedIn(vcc.effects)
    ensures var s := Pump.Run(Pump.FRESH, FramesSteps(Pump.FRESH, frames));
      && PumpHistory.ScreensTell(vcc.View().screens, s.log) && PumpHistory.AllTold(vcc.told, s.log)
      && PumpHistory.DevicesTell(vcc.callback.Maps(), s.log) && PumpHistory.MeetingTells(vcc.callback.meetId, s.log)
      && PumpHistory.EffectsTell(s.log, s.trace) && vcc.effects == EffectsOf(s.trace)
    ensures vcc.hi.queue == [] ==> PumpLists.GivenSize(vcc.told) == |vcc.callback.shareWindowMap|
  {
    var hi := new ThreadSafeQueue();
    var controller := new Controller(hi);
    vcc := new VisionCentralController(controller);
    vcc.Run(frames, Pump.FRESH);
    FramesPlay(Pump.FRESH, frames);
    RunObeys(FramesSteps(Pump.FRESH, frames));
    PumpHistory.HistoryTells(FramesSteps(Pump.FRESH, frames));
  }

  lemma Extended(trace: seq<Pump.Handled>, trace': seq<Pump.Handled>)
    requires |trace'| == |trace| + 1 && trace'[..|trace|] == trace
    ensures EffectsOf(trace') ==
            EffectsOf(trace) + if trace'[|trace|].effect.Some? then [trace'[|trace|].effect.value] else []
  {
  }

  /** Messages that only move windows. */
  lemma WindowsParts(v: Vision, d: Devices, m: Message, e: Engine)
    requires m.id.CREATE_MEETING? || m.id.JOIN_MEETING? || m.id.START_LOGIN? || m.id.START_INVITE?
    ensures LoginAfter(v.login, m) == v.login && ToldAfter(v.told, v.login, m) == v.told
    ensures DevicesAfter(d, v.login, m, e) == d && PostsFor(d, v.login, m, e) == [] && EffectOf(v.login, m) == None
  {
  }

  /** Messages that only tell the windows something; lists are handed to the stream window. */
  lemma ToldParts(v: Vision, d: Devices, m: Message, e: Engine)
    requires IsListInfo(m.id) || m.id.RECONNECT_SERVER_FAILED? || m.id.CREATE_MEETING_OK? || m.id.JOIN_MEETING_OK?
    ensures LoginAfter(v.login, m) == v.login && ScreensAfter(v.screens, v.login, m) == v.screens
    ensures DevicesAfter(d, v.login, m, e) == d && PostsFor(d, v.login, m, e) == []
    ensures EffectOf(v.login, m) == if IsList(m) then Some(Delivered(m.id, NamesIn(m))) else None
    ensures IsList(m) ==> ToldAfter(v.told, v.login, m) == v.told.(lists := v.told.lists[m.id := NamesIn(m)])
  {
  }

  /** Tracks and the end of a meeting leave the login state alone and post nothing. */
  lemma MeetingParts(v: Vision, d: Devices, m: Message, e: Engine)
    requires m.id.ADD_TRACK? || m.id.REMOVE_TRACK? || m.id.MEETING_END? || m.id.DISCONNECT_PEER?
    ensures LoginAfter(v.login, m) == v.login && PostsFor(d, v.login, m, e) == []
    ensures DevicesAfter(d, v.login, m, e) == if m.id.MEETING_END? && e.exitOk then d.(meetId := "") else d
    ensures EffectOf(v.login, m) ==
            if m.id.MEETING_END? then Some(Called(HangUp))
            else if m.id.DISCONNECT_PEER? then Some(Called(Custom(m)))
            else if m.data.Track? then Some(Released(m.data.track)) else None
    ensures ToldAfter(v.told, v.login, m) ==
            if m.id.MEETING_END? then v.told.(rendering := None)
            else if IsVideoTrack(m) then v.told.(rendering := Some(m.data.track)) else v.told
  {
  }

  lemma ForwardedParts(v: Vision, d: Devices, m: Message, e: Engine)
    requires IsForwarded(m.id)
    ensures Handle(v, d, m, e) ==
            Outcome(v, DevicesAfter(d, LOGOUT, m, e), PostsFor(d, LOGOUT, m, e), Some(Called(Custom(m))))
  {
    assert !IsList(m) && !IsTrack(m) && !WellFormedMeeting(m);
    assert ScreensAfter(v.screens, v.login, m) == v.screens;
    assert ToldAfter(v.told, v.login, m) == v.told;
  }

  /** A message counts for itself and for everything its handler posts. */
  function LoadOf(m: Message): nat {
    if m.id.IS_CREATE? then 6
    else if m.id.REQUEST_WINDOW_LIST? || m.id.REQUEST_MEETING_INFO? then 2
    else 1
  }

  ghost function Load(queue: seq<Message>): nat {
    if queue == [] then 0 else LoadOf(queue[0]) + Load(queue[1..])
  }

  lemma {:induction false} LoadConcat(a: seq<Message>, b: seq<Message>)
    ensures Load(a + b) == Load(a) + Load(b)
  {
    if a == [] {
      assert a + b == b;
    } else {
      assert (a + b)[1..] == a[1..] + b;
      LoadConcat(a[1..], b);
    }
  }

  lemma {:induction false} LightLoad(queue: seq<Message>)
    requires forall m <- queue :: LoadOf(m) == 1
    ensures Load(queue) == |queue|
  {
    if queue != [] {
      LightLoad(queue[1..]);
    }
  }

  /** Handlers post messages, but always less than they take off the load of the queue. */
  lemma HandlersLighten(d: Devices, login: VisionType, m: Message, e: Engine, d': Devices)
    ensures Load(RenderAll(d', PostsFor(d, login, m, e))) < LoadOf(m)
  {
    var posts := PostsFor(d, login, m, e);
    assert forall p <- posts :: LoadOf(Render(d', p)) == 1;
    assert forall x <- RenderAll(d', posts) :: LoadOf(x) == 1;
    LightLoad(RenderAll(d', posts));
  }
}
