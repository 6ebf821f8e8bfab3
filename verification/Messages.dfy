/** Message identifiers and payloads of the application's queue. */
module Messages {

  datatype MessageType =
    | CREATE_MEETING | JOIN_MEETING | START_LOGIN | START_LOGOUT | SETTING
    | IS_LOGIN
    | IS_CREATE | IS_BOOKING | IS_JOIN
    | MEETING_END | SWITCH_AUDIO_INPUT_STR | SWITCH_AUDIO_OUTPUT_STR | SWITCH_VIDEO_INPUT | SWITCH_SHARE_SCREEN
    | SWITCH_SHARE_WINDOW | SWITCH_MIC_VOLUME | SET_MIC_PHONE | SET_CAMERA | SET_SHARE | REQUEST_IFRAME
    | REQUEST_WINDOW_LIST | REQUEST_MEETING_INFO | START_INVITE | INVITE_USER
    | LOGIN_SUCCESS | CREATE_MEETING_OK | BOOKING_MEETING_OK | JOIN_MEETING_OK
    | SEND_SDP_TO_PEER | SEND_ICE_TO_PEER | SEND_ICE_COMPLETE_TO_PEER | SEND_MSG_FAILED
    | ADD_TRACK | REMOVE_TRACK | DISCONNECT_PEER | RECONNECT_SERVER_FAILED | RECONNECT_PEER
    | AUDIO_INPUT_DEV_INFO | AUDIO_OUTPUT_DEV_INFO | VIDEO_DEV_INFO | SHARE_SCREEN_INFO | SHARE_WINDOW_INFO
    | MEETING_MEDIA_INFO

  type Names = map<int, string>

  /** std::any, as far as the handlers look into it; an any_cast to another case throws. */
  datatype Any =
    | Nil
    | Text(text: string)
    | Texts(texts: seq<string>)         // vector of string
    | WideTexts(wide: seq<string>)      // vector of wstring
    | DevList(devices: Names)           // map from int16_t
    | ShareList(shares: Names)          // map from int
    | Stamp(stamp: int)                 // int64_t
    | Session(id: string, since: int)   // tuple of string and int64_t
    | Track(track: nat, video: bool)    // a track reference and its kind
    | Media
    | Flag(flag: bool)
    | Number(number: int)

  datatype Message = Message(id: MessageType, data: Any)

  predicate IsDeviceInfo(id: MessageType) {
    id.AUDIO_INPUT_DEV_INFO? || id.AUDIO_OUTPUT_DEV_INFO? || id.VIDEO_DEV_INFO?
  }

  predicate IsShareInfo(id: MessageType) { id.SHARE_SCREEN_INFO? || id.SHARE_WINDOW_INFO? }

  /** The lists that the stream window is given. */
  predicate IsListInfo(id: MessageType) { IsDeviceInfo(id) || IsShareInfo(id) }

  /** Messages that the vision hands on to the controller unread. */
  predicate IsForwarded(id: MessageType) {
    || id.SWITCH_AUDIO_INPUT_STR? || id.SWITCH_AUDIO_OUTPUT_STR? || id.SWITCH_VIDEO_INPUT?
    || id.SWITCH_SHARE_SCREEN? || id.SWITCH_SHARE_WINDOW? || id.SWITCH_MIC_VOLUME? || id.SET_MIC_PHONE?
    || id.SET_CAMERA? || id.SET_SHARE? || id.REQUEST_IFRAME? || id.REQUEST_WINDOW_LIST?
    || id.REQUEST_MEETING_INFO? || id.SEND_SDP_TO_PEER? || id.SEND_ICE_COMPLETE_TO_PEER?
    || id.SEND_ICE_TO_PEER? || id.RECONNECT_PEER?
  }
}
