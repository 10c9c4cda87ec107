/**
 * The action sequences the callbacks of BlueDeviceService.kt append, as
 * functions of their inputs, and what they promise: how many writes each
 * SG2 service causes, in what order and with which bytes.
 */
module Effects {
  import opened Wrappers
  import opened Wire
  import opened Link
  import opened Gatt

  // ---------------------------------------------------------------------
  // Iterating `services` and acting on each SG2 service.
  // ---------------------------------------------------------------------

  /** The number of services whose UUID is the SG2 service UUID. */
  function Sg2Count(services: seq<GattService>): (k: nat)
    ensures k <= |services|
  {
    if services == [] then 0
    else Sg2Count(services[..|services| - 1]) + (if services[|services| - 1].uuid == SG2_SERVICE_UUID then 1 else 0)
  }

  /** A service list holding an SG2 service counts it. */
  lemma {:induction false} Sg2CountPositive(services: seq<GattService>, i: nat)
    requires i < |services| && services[i].uuid == SG2_SERVICE_UUID
    ensures Sg2Count(services) >= 1
  {
    if i < |services| - 1 {
      Sg2CountPositive(services[..|services| - 1], i);
    }
  }

  /** `services.forEach { if (it.uuid == SG2_SERVICE_UUID) <block> }` for a block that does not depend on the service. */
  function PerSg2(services: seq<GattService>, block: seq<Action>): (w: seq<Action>)
    ensures |w| == Sg2Count(services) * |block|
  {
    if services == [] then []
    else PerSg2(services[..|services| - 1], block) + (if services[|services| - 1].uuid == SG2_SERVICE_UUID then block else [])
  }

  lemma AppendAssoc(a: seq<Action>, b: seq<Action>, c: seq<Action>)
    ensures (a + b) + c == a + (b + c)
  {
  }

  /** One more service visited by the loop. */
  lemma PerSg2Step(services: seq<GattService>, block: seq<Action>, i: nat)
    requires i < |services|
    ensures PerSg2(services[..i + 1], block)
            == PerSg2(services[..i], block) + (if services[i].uuid == SG2_SERVICE_UUID then block else [])
  {
    assert services[..i + 1][..i] == services[..i];
  }

  /** Nothing but the block's actions is issued. */
  lemma {:induction false} PerSg2Members(services: seq<GattService>, block: seq<Action>, a: Action)
    requires a in PerSg2(services, block)
    ensures a in block
  {
    if services != [] {
      var prefix := services[..|services| - 1];
      if a !in PerSg2(prefix, block) {
        assert services[|services| - 1].uuid == SG2_SERVICE_UUID;
      } else {
        PerSg2Members(prefix, block, a);
      }
    }
  }

  /** With exactly one SG2 service the block is issued exactly once. */
  lemma {:induction false} PerSg2Single(services: seq<GattService>, block: seq<Action>)
    requires Sg2Count(services) == 1
    ensures PerSg2(services, block) == block
  {
    var prefix := services[..|services| - 1];
    if services[|services| - 1].uuid == SG2_SERVICE_UUID {
      assert |PerSg2(prefix, block)| == 0;
    } else {
      PerSg2Single(prefix, block);
    }
  }

  /** A two-action block is issued as consecutive pairs, first action first. */
  lemma {:induction false} PerSg2PairAt(services: seq<GattService>, block: seq<Action>, k: nat)
    requires |block| == 2 && k < Sg2Count(services)
    ensures |PerSg2(services, block)| == 2 * Sg2Count(services)
    ensures PerSg2(services, block)[2 * k] == block[0]
    ensures PerSg2(services, block)[2 * k + 1] == block[1]
  {
    var prefix := services[..|services| - 1];
    var w := PerSg2(services, block);
    var w' := PerSg2(prefix, block);
    if k < Sg2Count(prefix) {
      PerSg2PairAt(prefix, block, k);
      assert w[2 * k] == w'[2 * k] && w[2 * k + 1] == w'[2 * k + 1];
    } else {
      assert services[|services| - 1].uuid == SG2_SERVICE_UUID;
      assert w == w' + block && |w'| == 2 * k;
    }
  }

  // ---------------------------------------------------------------------
  // syncDateTime
  // ---------------------------------------------------------------------

  /** The two command writes per SG2 service: time, then date. */
  function TimeDateBlock(g: GattHandle, clock: Clock): seq<Action>
  {
    [WriteCommand(g, TimePayload(clock)), WriteCommand(g, DatePayload(clock))]
  }

  function SyncDateTimeWrites(g: GattHandle?, services: seq<GattService>, clock: Clock): seq<Action>
  {
    if g == null then [] else PerSg2(services, TimeDateBlock(g, clock))
  }

  /** Exactly two command writes per SG2 service, the time write before the date write. */
  lemma SyncDateTimeOrder(g: GattHandle, services: seq<GattService>, clock: Clock, k: nat)
    requires k < Sg2Count(services)
    ensures |SyncDateTimeWrites(g, services, clock)| == 2 * Sg2Count(services)
    ensures SyncDateTimeWrites(g, services, clock)[2 * k] == WriteCommand(g, TimePayload(clock))
    ensures SyncDateTimeWrites(g, services, clock)[2 * k + 1] == WriteCommand(g, DatePayload(clock))
  {
    PerSg2PairAt(services, TimeDateBlock(g, clock), k);
  }

  /** With one SG2 service: exactly the time write, then the date write. */
  lemma SyncDateTimeSingleService(g: GattHandle, services: seq<GattService>, clock: Clock)
    requires Sg2Count(services) == 1
    ensures SyncDateTimeWrites(g, services, clock)
            == [WriteCommand(g, TimePayload(clock)), WriteCommand(g, DatePayload(clock))]
  {
    PerSg2Single(services, TimeDateBlock(g, clock));
  }

  // ---------------------------------------------------------------------
  // sendSMSReminder and handleNotificationEvent
  // ---------------------------------------------------------------------

  function SmsReminderWrites(g: GattHandle?, services: seq<GattService>): seq<Action>
  {
    if g == null then [] else PerSg2(services, [WriteCommand(g, SMS_REMINDER_PAYLOAD)])
  }

  /**
   * `handleNotificationEvent` iterates the services and, for each SG2 service
   * and an allowed package, calls `sendSMSReminder`, which iterates them again.
   */
  function NotificationWrites(g: GattHandle?, services: seq<GattService>, packageName: string): (w: seq<Action>)
    ensures g == null || !IsWhitelisted(packageName) ==> w == []
    ensures g != null && IsWhitelisted(packageName) ==> |w| == Sg2Count(services) * Sg2Count(services)
  {
    if g == null then []
    else PerSg2(services, if IsWhitelisted(packageName) then SmsReminderWrites(g, services) else [])
  }

  /**
   * Only SMS reminder writes are issued, k * k of them for k SG2 services
   * when the package is allowed, none otherwise.
   */
  lemma NotificationWritesAreReminders(g: GattHandle, services: seq<GattService>, packageName: string)
    ensures var k := Sg2Count(services);
            |NotificationWrites(g, services, packageName)| == if IsWhitelisted(packageName) then k * k else 0
    ensures forall a | a in NotificationWrites(g, services, packageName) :: a == WriteCommand(g, SMS_REMINDER_PAYLOAD)
  {
    var inner := if IsWhitelisted(packageName) then SmsReminderWrites(g, services) else [];
    forall a | a in NotificationWrites(g, services, packageName)
      ensures a == WriteCommand(g, SMS_REMINDER_PAYLOAD)
    {
      PerSg2Members(services, inner, a);
      PerSg2Members(services, [WriteCommand(g, SMS_REMINDER_PAYLOAD)], a);
    }
  }

  /** With one SG2 service an allowed package yields exactly one reminder write, any other package none. */
  lemma NotificationSingleService(g: GattHandle, services: seq<GattService>, packageName: string)
    requires Sg2Count(services) == 1
    ensures NotificationWrites(g, services, packageName)
            == if IsWhitelisted(packageName) then [WriteCommand(g, [0x07, 0xAA])] else []
  {
    PerSg2Single(services, [WriteCommand(g, SMS_REMINDER_PAYLOAD)]);
    PerSg2Single(services, if IsWhitelisted(packageName) then SmsReminderWrites(g, services) else []);
    SmsReminderLayout();
  }

  // ---------------------------------------------------------------------
  // onServicesDiscovered
  // ---------------------------------------------------------------------

  /** `[0x01, 0x00]` written to each descriptor, in order. */
  function DescriptorWrites(g: GattHandle, descriptors: seq<DescriptorId>): (w: seq<Action>)
    ensures |w| == |descriptors|
    ensures forall j | 0 <= j < |descriptors| :: w[j] == WriteDescriptor(g, descriptors[j], NOTIFY_ENABLE_VALUE)
  {
    if descriptors == [] then []
    else DescriptorWrites(g, descriptors[..|descriptors| - 1])
         + [WriteDescriptor(g, descriptors[|descriptors| - 1], NOTIFY_ENABLE_VALUE)]
  }

  /** Per SG2 service: enable every notification descriptor, then enable the characteristic notification. */
  function DiscoveryWrites(g: GattHandle?, services: seq<GattService>): (w: seq<Action>)
    ensures Sg2Count(services) == 0 ==> w == []
  {
    if g == null || services == [] then []
    else
      var last := services[|services| - 1];
      DiscoveryWrites(g, services[..|services| - 1])
      + (if last.uuid == SG2_SERVICE_UUID
         then DescriptorWrites(g, last.notificationDescriptors) + [EnableNotification(g)]
         else [])
  }

  lemma DescriptorWritesStep(g: GattHandle, descriptors: seq<DescriptorId>, j: nat)
    requires j < |descriptors|
    ensures DescriptorWrites(g, descriptors[..j + 1])
            == DescriptorWrites(g, descriptors[..j]) + [WriteDescriptor(g, descriptors[j], NOTIFY_ENABLE_VALUE)]
  {
    assert descriptors[..j + 1][..j] == descriptors[..j];
  }

  lemma DiscoveryWritesStep(g: GattHandle, services: seq<GattService>, i: nat)
    requires i < |services|
    ensures DiscoveryWrites(g, services[..i + 1])
            == DiscoveryWrites(g, services[..i])
               + (if services[i].uuid == SG2_SERVICE_UUID
                  then DescriptorWrites(g, services[i].notificationDescriptors) + [EnableNotification(g)]
                  else [])
  {
    assert services[..i + 1][..i] == services[..i];
  }

  /** Discovery only enables notifications on the handle. */
  lemma {:induction false} DiscoveryWritesMembers(g: GattHandle, services: seq<GattService>, a: Action)
    requires a in DiscoveryWrites(g, services)
    ensures a == EnableNotification(g) || (a.WriteDescriptor? && a.gatt == g && a.value == NOTIFY_ENABLE_VALUE)
  {
    var prefix := services[..|services| - 1];
    var last := services[|services| - 1];
    if a in DiscoveryWrites(g, prefix) {
      DiscoveryWritesMembers(g, prefix, a);
    } else if a != EnableNotification(g) {
      var ds := DescriptorWrites(g, last.notificationDescriptors);
      assert a in ds;
      var j :| 0 <= j < |ds| && ds[j] == a;
    }
  }

  /** With one SG2 service: its descriptors are written in order, then the notification is enabled. */
  lemma {:induction false} DiscoverySingleService(g: GattHandle, services: seq<GattService>, i: nat)
    requires i < |services| && services[i].uuid == SG2_SERVICE_UUID && Sg2Count(services) == 1
    ensures DiscoveryWrites(g, services)
            == DescriptorWrites(g, services[i].notificationDescriptors) + [EnableNotification(g)]
  {
    var prefix := services[..|services| - 1];
    var last := services[|services| - 1];
    assert services != [];
    if i == |services| - 1 {
      assert Sg2Count(prefix) == 0;
      assert DiscoveryWrites(g, prefix) == [];
    } else {
      assert prefix[i] == services[i];
      Sg2CountPositive(prefix, i);
      assert last.uuid != SG2_SERVICE_UUID;
      DiscoverySingleService(g, prefix, i);
      assert DiscoveryWrites(g, services) == DiscoveryWrites(g, prefix) + [];
    }
  }

  // ---------------------------------------------------------------------
  // Status publication, reconnect and teardown
  // ---------------------------------------------------------------------

  /** `updateNotification`: the status is shown unless updates were disabled by `onDestroy`. */
  function Published(updatesDisabled: bool, text: string): seq<Action>
  {
    if updatesDisabled then [] else [Status(text)]
  }

  /** `reconnectBle`: disconnect, then connect, on the stored handle. */
  function ReconnectActions(g: GattHandle?): seq<Action>
  {
    if g == null then [] else [Disconnect(g), Connect(g)]
  }

  /** `closeBleConnection`: disconnect, then close, on the stored handle. */
  function CloseActions(g: GattHandle?): seq<Action>
  {
    if g == null then [] else [Disconnect(g), Close(g)]
  }

  // ---------------------------------------------------------------------
  // onCharacteristicChanged
  // ---------------------------------------------------------------------

  const CAMERA_ERROR_TEXT: string := "Remote camera not implemented"

  function ReactionEffects(g: GattHandle?, services: seq<GattService>, r: Reaction, clock: Clock): seq<Action>
  {
    match r
    case DispatchKey(key) => [SendMediaKey(key)]
    case StepVolume(delta) => [AdjustVolume(delta)]
    case PlayNotificationSound => [PlaySound]
    case ReportCameraNotImplemented => [ErrorNotice(CAMERA_ERROR_TEXT)]
    case SyncTime => SyncDateTimeWrites(g, services, clock)
  }

  function ReactionsEffects(g: GattHandle?, services: seq<GattService>, rs: seq<Reaction>, clock: Clock): seq<Action>
  {
    if rs == [] then []
    else ReactionEffects(g, services, rs[0], clock) + ReactionsEffects(g, services, rs[1..], clock)
  }

  lemma {:induction false} ReactionsEffectsAppend(g: GattHandle?, services: seq<GattService>, rs: seq<Reaction>, rs': seq<Reaction>, clock: Clock)
    ensures ReactionsEffects(g, services, rs + rs', clock)
            == ReactionsEffects(g, services, rs, clock) + ReactionsEffects(g, services, rs', clock)
  {
    if rs == [] {
      assert rs + rs' == rs';
    } else {
      assert (rs + rs')[0] == rs[0];
      assert (rs + rs')[1..] == rs[1..] + rs';
      ReactionsEffectsAppend(g, services, rs[1..], rs', clock);
    }
  }

  lemma SingleReactionEffects(g: GattHandle?, services: seq<GattService>, r: Reaction, clock: Clock)
    ensures ReactionsEffects(g, services, [r], clock) == ReactionEffects(g, services, r, clock)
  {
    assert [r][1..] == [];
  }

  /** The actions one inbound payload causes. */
  function InboundEffects(g: GattHandle?, services: seq<GattService>, message: seq<Byte>, musicActive: bool, clock: Clock): seq<Action>
    requires Readable(message)
  {
    ReactionsEffects(g, services, Reactions(message, musicActive), clock)
  }

  /** The camera message: error notice, sound, then the clock sync writes. */
  lemma CameraEffects(g: GattHandle?, services: seq<GattService>, musicActive: bool, clock: Clock)
    ensures Readable(CAMERA_CMD)
    ensures InboundEffects(g, services, CAMERA_CMD, musicActive, clock)
            == [ErrorNotice(CAMERA_ERROR_TEXT), PlaySound] + SyncDateTimeWrites(g, services, clock)
  {
    CameraMessage(musicActive);
    CameraReactionsEffects(g, services, clock);
  }

  lemma CameraReactionsEffects(g: GattHandle?, services: seq<GattService>, clock: Clock)
    ensures ReactionsEffects(g, services, [ReportCameraNotImplemented, PlayNotificationSound, SyncTime], clock)
            == [ErrorNotice(CAMERA_ERROR_TEXT), PlaySound] + SyncDateTimeWrites(g, services, clock)
  {
    var sync := SyncDateTimeWrites(g, services, clock);
    assert [ReportCameraNotImplemented, PlayNotificationSound, SyncTime]
        == [ReportCameraNotImplemented] + [PlayNotificationSound, SyncTime];
    assert [PlayNotificationSound, SyncTime] == [PlayNotificationSound] + [SyncTime];
    ReactionsEffectsCons(g, services, ReportCameraNotImplemented, [PlayNotificationSound, SyncTime], clock);
    ReactionsEffectsCons(g, services, PlayNotificationSound, [SyncTime], clock);
    SingleReactionEffects(g, services, SyncTime, clock);
    assert [ErrorNotice(CAMERA_ERROR_TEXT)] + ([PlaySound] + sync) == [ErrorNotice(CAMERA_ERROR_TEXT), PlaySound] + sync;
  }

  /** One reaction in front of others: its effects come first. */
  lemma ReactionsEffectsCons(g: GattHandle?, services: seq<GattService>, r: Reaction, rs: seq<Reaction>, clock: Clock)
    ensures ReactionsEffects(g, services, [r] + rs, clock)
            == ReactionEffects(g, services, r, clock) + ReactionsEffects(g, services, rs, clock)
  {
    assert ([r] + rs)[0] == r && ([r] + rs)[1..] == rs;
  }

  // ---------------------------------------------------------------------
  // Whether a scan is running, as the issued actions tell it.
  // ---------------------------------------------------------------------

  predicate IsScanControl(a: Action)
  {
    a.StartScan? || a.StopScan?
  }

  predicate NoScanControl(u: seq<Action>)
  {
    forall a | a in u :: !IsScanControl(a)
  }

  /** A scan is running when the last scan-control call issued was StartScan. */
  function ScanActive(t: seq<Action>): bool
  {
    if t == [] then false
    else if t[|t| - 1].StartScan? then true
    else if t[|t| - 1].StopScan? then false
    else ScanActive(t[..|t| - 1])
  }

  /** Actions other than scan control do not change whether a scan is running. */
  lemma {:induction false} ScanActiveIgnores(t: seq<Action>, u: seq<Action>)
    requires NoScanControl(u)
    ensures ScanActive(t + u) == ScanActive(t)
  {
    if u == [] {
      assert t + u == t;
    } else {
      var u' := u[..|u| - 1];
      assert u[|u| - 1] in u;
      assert (t + u)[|t + u| - 1] == u[|u| - 1];
      assert (t + u)[..|t + u| - 1] == t + u';
      forall a | a in u' ensures !IsScanControl(a) {
        assert a in u;
      }
      ScanActiveIgnores(t, u');
    }
  }

  /** Reconnecting and closing only act on the handle. */
  lemma HandleActionsHaveNoScanControl(g: GattHandle?)
    ensures NoScanControl(ReconnectActions(g)) && NoScanControl(CloseActions(g))
  {
  }

  /** The clock sync issues only command writes. */
  lemma SyncWritesHaveNoScanControl(g: GattHandle?, services: seq<GattService>, clock: Clock)
    ensures NoScanControl(SyncDateTimeWrites(g, services, clock))
  {
    if g != null {
      forall a | a in SyncDateTimeWrites(g, services, clock) ensures !IsScanControl(a) {
        PerSg2Members(services, TimeDateBlock(g, clock), a);
      }
    }
  }

  /** The SMS reminder issues only command writes. */
  lemma SmsWritesHaveNoScanControl(g: GattHandle?, services: seq<GattService>)
    ensures NoScanControl(SmsReminderWrites(g, services))
  {
    if g != null {
      forall a | a in SmsReminderWrites(g, services) ensures !IsScanControl(a) {
        PerSg2Members(services, [WriteCommand(g, SMS_REMINDER_PAYLOAD)], a);
      }
    }
  }

  /** Forwarding a notification issues only command writes. */
  lemma NotificationWritesHaveNoScanControl(g: GattHandle?, services: seq<GattService>, packageName: string)
    ensures NoScanControl(NotificationWrites(g, services, packageName))
  {
    if g != null {
      NotificationWritesAreReminders(g, services, packageName);
    }
  }

  /** Service discovery issues only descriptor writes and notification enables. */
  lemma DiscoveryWritesHaveNoScanControl(g: GattHandle?, services: seq<GattService>)
    ensures NoScanControl(DiscoveryWrites(g, services))
  {
    if g != null {
      forall a | a in DiscoveryWrites(g, services) ensures !IsScanControl(a) {
        DiscoveryWritesMembers(g, services, a);
      }
    }
  }

  lemma {:induction false} ReactionsEffectsHaveNoScanControl(g: GattHandle?, services: seq<GattService>, rs: seq<Reaction>, clock: Clock)
    ensures NoScanControl(ReactionsEffects(g, services, rs, clock))
  {
    if rs != [] {
      var head := ReactionEffects(g, services, rs[0], clock);
      ReactionEffectsHaveNoScanControl(g, services, rs[0], clock);
      ReactionsEffectsHaveNoScanControl(g, services, rs[1..], clock);
      NoScanControlAppend(head, ReactionsEffects(g, services, rs[1..], clock));
    }
  }

  lemma ReactionEffectsHaveNoScanControl(g: GattHandle?, services: seq<GattService>, r: Reaction, clock: Clock)
    ensures NoScanControl(ReactionEffects(g, services, r, clock))
  {
    if r.SyncTime? {
      SyncWritesHaveNoScanControl(g, services, clock);
    }
  }

  lemma NoScanControlAppend(u: seq<Action>, v: seq<Action>)
    requires NoScanControl(u) && NoScanControl(v)
    ensures NoScanControl(u + v)
  {
    forall a | a in u + v ensures !IsScanControl(a) {
      assert a in u || a in v;
    }
  }
}
