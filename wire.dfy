/**
 * The watch's proprietary wire format, as BlueDeviceService.kt builds and
 * reads it: fixed outbound byte layouts (time, date, SMS reminder and the
 * notify-enable descriptor value) and the classification of inbound
 * notification payloads into phone-side reactions.
 */
module Wire {
  import opened Wrappers

  /** One octet of a payload, as its unsigned value. */
  newtype Byte = x: int | 0 <= x < 256

  /** Kotlin's `Int.toByte()`: keeps the low eight bits, two's complement. */
  function ToByte(n: int): (b: Byte)
    ensures (n - b as int) % 256 == 0
    ensures 0 <= n < 256 ==> b as int == n
  {
    (n % 256) as Byte
  }

  // Inbound command classes and playback action codes.
  const PLAYBACK_CMD: Byte := 0x65
  const PLAY_PAUSE: Byte := 0x01
  const VOL_UP: Byte := 0x20
  const VOL_DOWN: Byte := 0x10
  const TRACK_NEXT: Byte := 0x08
  const TRACK_PREVIOUS: Byte := 0x04
  const FIND_PHONE_CMD: Byte := 0x61
  const CAMERA_CMD: seq<Byte> := [0x65, 0x29]

  // Outbound command codes.
  const TIME_SETTING_CODE: Byte := 0x09
  const DATE_SETTING_CODE: Byte := 0x08
  const SMS_REMIND_CMD: Byte := 0x07
  /** The SMS reminder's second byte is written in the source as the Int -86. */
  const SMS_REMIND_VAL: int := -86

  /** Written to every descriptor of the notification characteristic to enable notifications. */
  const NOTIFY_ENABLE_VALUE: seq<Byte> := [0x01, 0x00]

  /** The wall-clock fields `syncDateTime` reads from `Calendar`; `month` is 0-based and sent as is. */
  datatype Clock = Clock(hourOfDay: int, minute: int, second: int, dayOfMonth: int, month: int)

  /** Outbound watch commands written to the command characteristic. */
  datatype Command =
    | SetTime(hour: Byte, minute: Byte, second: Byte)
    | SetDate(month: Byte, day: Byte)
    | SmsReminder

  /** The payload written for each command: a command code, then the command's fields. */
  function Encode(c: Command): (e: seq<Byte>)
    ensures |e| >= 2
    ensures c.SetTime? <==> e[0] == TIME_SETTING_CODE
    ensures c.SetDate? <==> e[0] == DATE_SETTING_CODE
    ensures c.SmsReminder? <==> e[0] == SMS_REMIND_CMD
    ensures c.SetTime? ==> e == [TIME_SETTING_CODE, c.hour, c.minute, c.second]
    ensures c.SetDate? ==> |e| == 5 && e[1..3] == [0x01, 0x01] && e[3] == c.month && e[4] == c.day
    ensures c.SmsReminder? ==> e == [0x07, 0xAA]
  {
    match c
    case SetTime(h, m, s) => [TIME_SETTING_CODE, h, m, s]
    case SetDate(month, day) => [DATE_SETTING_CODE, 0x01, 0x01, month, day]
    case SmsReminder => [SMS_REMIND_CMD, ToByte(SMS_REMIND_VAL)]
  }

  /**
   * How the watch reads a command write: an independent description of the
   * three layouts, used as the partner of Encode.
   */
  function Decode(p: seq<Byte>): (c: Option<Command>)
    ensures c.Some? ==> Encode(c.value) == p
  {
    if |p| == 4 && p[0] == TIME_SETTING_CODE then Some(SetTime(p[1], p[2], p[3]))
    else if |p| == 5 && p[0] == DATE_SETTING_CODE && p[1] == 0x01 && p[2] == 0x01 then Some(SetDate(p[3], p[4]))
    else if |p| == 2 && p[0] == SMS_REMIND_CMD && p[1] == 0xAA then Some(SmsReminder)
    else None
  }

  /** Every command is read back by the watch as itself. */
  lemma DecodeEncode(c: Command)
    ensures Decode(Encode(c)) == Some(c)
  {
  }

  /** The time write of `syncDateTime`: each field truncated by `toByte()`. */
  function TimePayload(clock: Clock): (p: seq<Byte>)
    ensures Decode(p) == Some(SetTime(ToByte(clock.hourOfDay), ToByte(clock.minute), ToByte(clock.second)))
    ensures (p[1] as int - clock.hourOfDay) % 256 == 0 && (p[2] as int - clock.minute) % 256 == 0
    ensures (p[3] as int - clock.second) % 256 == 0
  {
    Encode(SetTime(ToByte(clock.hourOfDay), ToByte(clock.minute), ToByte(clock.second)))
  }

  /** The date write of `syncDateTime`: month (0-based, unadjusted) before day. */
  function DatePayload(clock: Clock): (p: seq<Byte>)
    ensures Decode(p) == Some(SetDate(ToByte(clock.month), ToByte(clock.dayOfMonth)))
    ensures (p[3] as int - clock.month) % 256 == 0 && (p[4] as int - clock.dayOfMonth) % 256 == 0
  {
    Encode(SetDate(ToByte(clock.month), ToByte(clock.dayOfMonth)))
  }

  const SMS_REMINDER_PAYLOAD: seq<Byte> := Encode(SmsReminder)

  /** `smsRemindVAL.toByte()` with -86 is 0xAA, so the reminder is `07 AA`. */
  lemma SmsReminderLayout()
    ensures SMS_REMINDER_PAYLOAD == [0x07, 0xAA]
    ensures Decode(SMS_REMINDER_PAYLOAD) == Some(SmsReminder)
  {
    assert ToByte(SMS_REMIND_VAL) == 0xAA;
  }

  /** The byte layouts the watch expects, for in-range clock fields. */
  lemma PayloadLayouts(clock: Clock)
    requires 0 <= clock.hourOfDay < 256 && 0 <= clock.minute < 256 && 0 <= clock.second < 256
    requires 0 <= clock.dayOfMonth < 256 && 0 <= clock.month < 256
    ensures TimePayload(clock) == [0x09, clock.hourOfDay as Byte, clock.minute as Byte, clock.second as Byte]
    ensures DatePayload(clock) == [0x08, 0x01, 0x01, clock.month as Byte, clock.dayOfMonth as Byte]
  {
  }

  /** Phone-side media keys the playback class dispatches. */
  datatype MediaKey = Play | Pause | Next | Previous

  /** What the phone does in response to one inbound payload. */
  datatype Reaction =
    | DispatchKey(key: MediaKey)
    | StepVolume(delta: int)
    | PlayNotificationSound
    | ReportCameraNotImplemented
    | SyncTime

  /**
   * The payloads the source reads without failing: `message[0]` is read
   * unconditionally and `message[1]` whenever byte 0 is the playback class.
   */
  predicate Readable(message: seq<Byte>)
  {
    |message| >= 1 && (message[0] == PLAYBACK_CMD ==> |message| >= 2)
  }

  /** A byte with exactly one bit set. */
  predicate SingleBit(b: Byte)
  {
    var v := b as bv8;
    v != 0 && v & (v - 1) == 0
  }

  /** The second byte of a playback-class payload, as an action mask. */
  function PlaybackReaction(code: Byte, musicActive: bool): (r: Option<Reaction>)
    ensures r.Some? <==> code in {PLAY_PAUSE, VOL_UP, VOL_DOWN, TRACK_NEXT, TRACK_PREVIOUS}
    ensures r.Some? ==> SingleBit(code)
    ensures r.Some? ==> r.value.DispatchKey? || r.value.StepVolume?
    ensures r.Some? && r.value.StepVolume? ==> r.value.delta == 1 || r.value.delta == -1
    ensures r == Some(DispatchKey(Play)) ==> !musicActive
    ensures r == Some(DispatchKey(Pause)) ==> musicActive
    ensures code == PLAY_PAUSE ==> r == Some(DispatchKey(if musicActive then Pause else Play))
    ensures code == TRACK_NEXT ==> r == Some(DispatchKey(Next))
    ensures code == TRACK_PREVIOUS ==> r == Some(DispatchKey(Previous))
    ensures code == VOL_UP ==> r == Some(StepVolume(1))
    ensures code == VOL_DOWN ==> r == Some(StepVolume(-1))
  {
    if code == PLAY_PAUSE then Some(DispatchKey(if !musicActive then Play else Pause))
    else if code == TRACK_NEXT then Some(DispatchKey(Next))
    else if code == TRACK_PREVIOUS then Some(DispatchKey(Previous))
    else if code == VOL_UP then Some(StepVolume(1))
    else if code == VOL_DOWN then Some(StepVolume(-1))
    else None
  }

  /**
   * The reactions to one inbound payload, in the order the source runs its
   * three independent checks: playback class, find phone, camera.
   */
  function Reactions(message: seq<Byte>, musicActive: bool): (rs: seq<Reaction>)
    requires Readable(message)
    ensures ReportCameraNotImplemented in rs <==> message == CAMERA_CMD
    ensures SyncTime in rs <==> message == CAMERA_CMD
    ensures PlayNotificationSound in rs <==> message[0] == FIND_PHONE_CMD || message == CAMERA_CMD
    ensures forall r | r in rs && (r.DispatchKey? || r.StepVolume?) ::
              message[0] == PLAYBACK_CMD && PlaybackReaction(message[1], musicActive) == Some(r)
    ensures message[0] != PLAYBACK_CMD && message[0] != FIND_PHONE_CMD ==> rs == []
    ensures message[0] == PLAYBACK_CMD && message != CAMERA_CMD ==> rs == OptionToSeq(PlaybackReaction(message[1], musicActive))
    ensures |rs| <= 3
  {
    (if message[0] == PLAYBACK_CMD then OptionToSeq(PlaybackReaction(message[1], musicActive)) else [])
    + (if message[0] == FIND_PHONE_CMD then [PlayNotificationSound] else [])
    + (if message == CAMERA_CMD then [ReportCameraNotImplemented, PlayNotificationSound, SyncTime] else [])
  }

  /** The camera message raises the error, plays the sound and syncs the clock; 0x29 is no playback code. */
  lemma CameraMessage(musicActive: bool)
    ensures Reactions(CAMERA_CMD, musicActive) == [ReportCameraNotImplemented, PlayNotificationSound, SyncTime]
  {
  }

  /** A two-byte playback payload with a known code yields exactly that code's media reaction. */
  lemma PlaybackMessage(code: Byte, musicActive: bool)
    requires code in {PLAY_PAUSE, VOL_UP, VOL_DOWN, TRACK_NEXT, TRACK_PREVIOUS}
    ensures Readable([PLAYBACK_CMD, code])
    ensures Reactions([PLAYBACK_CMD, code], musicActive) == [PlaybackReaction(code, musicActive).value]
  {
    assert [PLAYBACK_CMD, code] != CAMERA_CMD;
  }

  /** A longer payload that merely starts with 0x65 0x29 is not the camera message and does nothing. */
  lemma CameraPrefixIsIgnored(message: seq<Byte>, musicActive: bool)
    requires |message| > 2 && message[..2] == CAMERA_CMD
    ensures Readable(message) && Reactions(message, musicActive) == []
  {
    assert message[0] == 0x65 && message[1] == 0x29;
  }

  /** Find phone plays the sound whatever follows the first byte. */
  lemma FindPhoneIgnoresRest(message: seq<Byte>, musicActive: bool)
    requires |message| >= 1 && message[0] == FIND_PHONE_CMD
    ensures Readable(message) && Reactions(message, musicActive) == [PlayNotificationSound]
  {
  }
}
