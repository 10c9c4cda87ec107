/**
 * The connection controller of BlueDeviceService.kt: a foreground service
 * that scans for the target watch, connects, enables notifications on the
 * SG2 service, reacts to the watch's notifications and forwards allowed
 * phone notifications as SMS reminders. Callbacks are modelled as
 * serialized method calls; each appends the platform calls and phone
 * actions it issues to `trace`.
 */
module Service {
  import opened Wrappers
  import opened Wire
  import opened Link
  import opened Gatt
  import opened Effects

  class BlueDeviceService {
    var targetDeviceName: Option<string>
    var targetDeviceAddress: Option<string>
    var targetDeviceObject: Option<Device>
    var persistentNotificationUpdateDisabled: bool
    var bleScanRunning: bool
    var bleGatt: GattHandle?
    /** Every platform call, phone action and status update issued so far, in order. */
    var trace: seq<Action>

    /** The scan flag always tells whether the last scan-control call was a start. */
    ghost predicate Valid()
      reads this
    {
      bleScanRunning == ScanActive(trace)
    }

    constructor ()
      ensures Valid()
      ensures targetDeviceName == None && targetDeviceAddress == None && targetDeviceObject == None
      ensures !persistentNotificationUpdateDisabled && !bleScanRunning && bleGatt == null
      ensures trace == []
    {
      targetDeviceName, targetDeviceAddress, targetDeviceObject := None, None, None;
      persistentNotificationUpdateDisabled := false;
      bleScanRunning := false;
      bleGatt := null;
      trace := [];
    }

    /** The status line is updated only while updates are not disabled. */
    method UpdateNotification(statusText: string)
      requires Valid()
      modifies this`trace
      ensures Valid()
      ensures trace == old(trace) + Published(persistentNotificationUpdateDisabled, statusText)
    {
      if !persistentNotificationUpdateDisabled {
        trace := trace + [Status(statusText)];
      }
      ScanActiveIgnores(old(trace), Published(persistentNotificationUpdateDisabled, statusText));
    }

    /** A scan starts only when the adapter is on; otherwise the error is published and nothing else changes. */
    method StartBleScan(adapterEnabled: bool)
      requires Valid()
      modifies this`trace, this`bleScanRunning
      ensures Valid()
      ensures adapterEnabled ==>
                bleScanRunning && trace == old(trace) + Published(persistentNotificationUpdateDisabled, "Scanning") + [StartScan]
      ensures !adapterEnabled ==>
                bleScanRunning == old(bleScanRunning)
                && trace == old(trace) + Published(persistentNotificationUpdateDisabled, "Error (Bluetooth Off)")
    {
      if adapterEnabled {
        UpdateNotification("Scanning");
        trace := trace + [StartScan];
        bleScanRunning := true;
      } else {
        UpdateNotification("Error (Bluetooth Off)");
      }
    }

    method StopBleScan()
      requires Valid()
      modifies this`trace, this`bleScanRunning
      ensures Valid()
      ensures !bleScanRunning && trace == old(trace) + [StopScan]
    {
      trace := trace + [StopScan];
      bleScanRunning := false;
    }

    /**
     * A result from the target address stops the scan, records the device
     * and connects to it once; any other result changes nothing.
     */
    method OnScanResult(result: ScanResult)
      requires Valid()
      modifies this`trace, this`bleScanRunning, this`targetDeviceObject
      ensures Valid()
      ensures Some(result.device.address) == old(targetDeviceAddress) ==>
                !bleScanRunning && targetDeviceObject == Some(result.device)
                && trace == old(trace) + Published(persistentNotificationUpdateDisabled, "Scanning (Device Found)")
                            + [StopScan] + Published(persistentNotificationUpdateDisabled, "Connecting")
                            + [ConnectGatt(result.device)]
      ensures Some(result.device.address) != old(targetDeviceAddress) ==> unchanged(this)
    {
      if Some(result.device.address) == targetDeviceAddress {
        UpdateNotification("Scanning (Device Found)");
        StopBleScan();
        targetDeviceObject := Some(result.device);
        UpdateNotification("Connecting");
        ghost var before := trace;
        trace := trace + [ConnectGatt(result.device)];
        ScanActiveIgnores(before, [ConnectGatt(result.device)]);
      }
    }

    method OnScanFailed(errorCode: int)
      requires Valid()
      modifies this`trace, this`bleScanRunning
      ensures Valid()
      ensures !bleScanRunning && trace == old(trace) + [StopScan]
    {
      StopBleScan();
    }

    /**
     * Status 8, 19 and 133 publish "Disconnected" and reconnect; status 0 is
     * dispatched on `newState`, and only STATE_CONNECTED stores the handle
     * and requests service discovery; any other status publishes an error.
     */
    method OnConnectionStateChange(gatt: GattHandle, status: int, newState: int)
      requires Valid()
      modifies this`trace, this`bleGatt
      ensures Valid()
      ensures var r := ClassifyConnectionChange(status, newState);
              var shown := old(trace) + Published(persistentNotificationUpdateDisabled, r.text);
              match r
              case StoreAndDiscover(_) => bleGatt == gatt && trace == shown + [DiscoverServices(gatt)]
              case PublishOnly(_) => bleGatt == old(bleGatt) && trace == shown
              case PublishAndReconnect(_) => bleGatt == old(bleGatt) && trace == shown + ReconnectActions(bleGatt)
    {
      var reaction := ClassifyConnectionChange(status, newState);
      UpdateNotification(reaction.text);
      match reaction {
        case StoreAndDiscover(_) =>
          bleGatt := gatt;
          // The posted `bleGatt?.discoverServices()` runs on the handle just stored.
          ghost var before := trace;
          trace := trace + [DiscoverServices(gatt)];
          ScanActiveIgnores(before, [DiscoverServices(gatt)]);
        case PublishOnly(_) =>
        case PublishAndReconnect(_) =>
          ReconnectBle();
      }
    }

    /** Enables notifications on every SG2 service discovered, through the stored handle. */
    method OnServicesDiscovered(gatt: GattHandle, status: int)
      requires Valid()
      modifies this`trace
      ensures Valid()
      ensures trace == old(trace) + DiscoveryWrites(bleGatt, gatt.services)
    {
      var services := gatt.services;
      var i := 0;
      while i < |services|
        invariant 0 <= i <= |services|
        invariant trace == old(trace) + DiscoveryWrites(bleGatt, services[..i])
      {
        var service := services[i];
        ghost var visited := trace;
        ghost var step :=
          if bleGatt == null || service.uuid != SG2_SERVICE_UUID then []
          else DescriptorWrites(bleGatt, service.notificationDescriptors) + [EnableNotification(bleGatt)];
        if service.uuid == SG2_SERVICE_UUID {
          var descriptors := service.notificationDescriptors;
          var j := 0;
          while j < |descriptors|
            invariant 0 <= j <= |descriptors|
            invariant bleGatt == null ==> trace == visited
            invariant bleGatt != null ==> trace == visited + DescriptorWrites(bleGatt, descriptors[..j])
          {
            if bleGatt != null {
              var write := WriteDescriptor(bleGatt, descriptors[j], NOTIFY_ENABLE_VALUE);
              trace := trace + [write];
              assert trace == visited + DescriptorWrites(bleGatt, descriptors[..j + 1]) by {
                DescriptorWritesStep(bleGatt, descriptors, j);
                AppendAssoc(visited, DescriptorWrites(bleGatt, descriptors[..j]), [write]);
              }
            }
            j := j + 1;
          }
          assert descriptors[..j] == descriptors;
          if bleGatt != null {
            trace := trace + [EnableNotification(bleGatt)];
            assert trace == visited + step by {
              AppendAssoc(visited, DescriptorWrites(bleGatt, descriptors), [EnableNotification(bleGatt)]);
            }
          } else {
            assert trace == visited + step;
          }
        } else {
          assert trace == visited + step;
        }
        assert trace == old(trace) + DiscoveryWrites(bleGatt, services[..i + 1]) by {
          if bleGatt != null {
            DiscoveryWritesStep(bleGatt, services, i);
          }
          AppendAssoc(old(trace), DiscoveryWrites(bleGatt, services[..i]), step);
        }
        i := i + 1;
      }
      assert services[..i] == services;
      DiscoveryWritesHaveNoScanControl(bleGatt, services);
      ScanActiveIgnores(old(trace), DiscoveryWrites(bleGatt, services));
    }

    /**
     * Runs the watch's notification payload through the three checks:
     * playback class, find phone and the exact camera message.
     */
    method OnCharacteristicChanged(value: Option<seq<Byte>>, musicActive: bool, clock: Clock)
      requires Valid()
      requires value.Some? ==> Readable(value.value)
      modifies this`trace
      ensures Valid()
      ensures value.None? ==> trace == old(trace)
      ensures value.Some? ==>
                trace == old(trace) + InboundEffects(bleGatt, ServicesOf(bleGatt), value.value, musicActive, clock)
    {
      if value.Some? {
        var message := value.value;
        var cmdCode := message[0];
        ghost var services := ServicesOf(bleGatt);
        ghost var playback := if cmdCode == PLAYBACK_CMD then OptionToSeq(PlaybackReaction(message[1], musicActive)) else [];
        ghost var find := if cmdCode == FIND_PHONE_CMD then [PlayNotificationSound] else [];
        ghost var camera := if message == CAMERA_CMD then [ReportCameraNotImplemented, PlayNotificationSound, SyncTime] else [];

        if cmdCode == PLAYBACK_CMD {
          var code := message[1];
          if code == PLAY_PAUSE {
            if !musicActive {
              trace := trace + [SendMediaKey(Play)];
            } else {
              trace := trace + [SendMediaKey(Pause)];
            }
          } else if code == TRACK_NEXT {
            trace := trace + [SendMediaKey(Next)];
          } else if code == TRACK_PREVIOUS {
            trace := trace + [SendMediaKey(Previous)];
          } else if code == VOL_UP {
            trace := trace + [AdjustVolume(1)];
          } else if code == VOL_DOWN {
            trace := trace + [AdjustVolume(-1)];
          }
        }
        ghost var ep := ReactionsEffects(bleGatt, services, playback, clock);
        assert trace == old(trace) + ep by {
          if cmdCode == PLAYBACK_CMD && PlaybackReaction(message[1], musicActive).Some? {
            SingleReactionEffects(bleGatt, services, PlaybackReaction(message[1], musicActive).value, clock);
          }
        }
        assert ScanActive(trace) == ScanActive(old(trace)) by {
          ReactionsEffectsHaveNoScanControl(bleGatt, services, playback, clock);
          ScanActiveIgnores(old(trace), ep);
        }
        ghost var afterPlayback := trace;

        if cmdCode == FIND_PHONE_CMD {
          trace := trace + [PlaySound];
        }
        ghost var ef := ReactionsEffects(bleGatt, services, find, clock);
        assert trace == afterPlayback + ef by {
          SingleReactionEffects(bleGatt, services, PlayNotificationSound, clock);
        }
        assert ScanActive(trace) == ScanActive(afterPlayback) by {
          ReactionsEffectsHaveNoScanControl(bleGatt, services, find, clock);
          ScanActiveIgnores(afterPlayback, ef);
        }
        ghost var afterFind := trace;

        if message == CAMERA_CMD {
          trace := trace + [ErrorNotice(CAMERA_ERROR_TEXT), PlaySound];
          assert Valid() by {
            ScanActiveIgnores(afterFind, [ErrorNotice(CAMERA_ERROR_TEXT), PlaySound]);
          }
          SyncDateTime(clock);
        }
        ghost var ec := ReactionsEffects(bleGatt, services, camera, clock);
        assert trace == afterFind + ec by {
          if message == CAMERA_CMD {
            CameraReactionsEffects(bleGatt, services, clock);
            AppendAssoc(afterFind, [ErrorNotice(CAMERA_ERROR_TEXT), PlaySound], SyncDateTimeWrites(bleGatt, services, clock));
          }
        }

        assert trace == old(trace) + InboundEffects(bleGatt, services, message, musicActive, clock) by {
          ReactionsEffectsAppend(bleGatt, services, playback, find, clock);
          ReactionsEffectsAppend(bleGatt, services, playback + find, camera, clock);
          assert Reactions(message, musicActive) == playback + find + camera;
          AppendAssoc(old(trace), ep, ef);
          AppendAssoc(old(trace), ep + ef, ec);
        }
      }
    }

    /** Disconnect, close and forget the handle; with no handle nothing is issued. */
    method CloseBleConnection()
      requires Valid()
      modifies this`trace, this`bleGatt
      ensures Valid()
      ensures bleGatt == null && trace == old(trace) + CloseActions(old(bleGatt))
    {
      ghost var g := bleGatt;
      if bleGatt != null {
        trace := trace + [Disconnect(bleGatt)];
      }
      if bleGatt != null {
        trace := trace + [Close(bleGatt)];
      }
      bleGatt := null;
      assert trace == old(trace) + CloseActions(g);
      assert Valid() by {
        HandleActionsHaveNoScanControl(g);
        ScanActiveIgnores(old(trace), CloseActions(g));
      }
    }

    /** Disconnect, then connect again, on the stored handle; with no handle nothing is issued. */
    method ReconnectBle()
      requires Valid()
      modifies this`trace
      ensures Valid()
      ensures trace == old(trace) + ReconnectActions(bleGatt)
    {
      if bleGatt != null {
        trace := trace + [Disconnect(bleGatt)];
      }
      if bleGatt != null {
        trace := trace + [Connect(bleGatt)];
      }
      assert trace == old(trace) + ReconnectActions(bleGatt);
      assert Valid() by {
        HandleActionsHaveNoScanControl(bleGatt);
        ScanActiveIgnores(old(trace), ReconnectActions(bleGatt));
      }
    }

    /** For each SG2 service: write the time, then overwrite the value with the date and write again. */
    method SyncDateTime(clock: Clock)
      requires Valid()
      modifies this`trace
      ensures Valid()
      ensures trace == old(trace) + SyncDateTimeWrites(bleGatt, ServicesOf(bleGatt), clock)
    {
      if bleGatt != null {
        var services := bleGatt.services;
        var i := 0;
        while i < |services|
          invariant 0 <= i <= |services|
          invariant trace == old(trace) + SyncDateTimeWrites(bleGatt, services[..i], clock)
        {
          ghost var visited := trace;
          ghost var block := TimeDateBlock(bleGatt, clock);
          ghost var step := if services[i].uuid == SG2_SERVICE_UUID then block else [];
          if services[i].uuid == SG2_SERVICE_UUID {
            var cmdValue := TimePayload(clock);
            trace := trace + [WriteCommand(bleGatt, cmdValue)];
            cmdValue := DatePayload(clock);
            trace := trace + [WriteCommand(bleGatt, cmdValue)];
            assert trace == visited + step;
          }
          assert trace == old(trace) + SyncDateTimeWrites(bleGatt, services[..i + 1], clock) by {
            PerSg2Step(services, block, i);
            AppendAssoc(old(trace), PerSg2(services[..i], block), step);
          }
          i := i + 1;
        }
        assert services[..i] == services;
      }
      SyncWritesHaveNoScanControl(bleGatt, ServicesOf(bleGatt), clock);
      ScanActiveIgnores(old(trace), SyncDateTimeWrites(bleGatt, ServicesOf(bleGatt), clock));
    }

    /** For each SG2 service: write `[0x07, 0xAA]` to the command characteristic. */
    method SendSmsReminder()
      requires Valid()
      modifies this`trace
      ensures Valid()
      ensures trace == old(trace) + SmsReminderWrites(bleGatt, ServicesOf(bleGatt))
    {
      if bleGatt != null {
        var services := bleGatt.services;
        var i := 0;
        while i < |services|
          invariant 0 <= i <= |services|
          invariant trace == old(trace) + SmsReminderWrites(bleGatt, services[..i])
        {
          ghost var visited := trace;
          ghost var block := [WriteCommand(bleGatt, SMS_REMINDER_PAYLOAD)];
          ghost var step := if services[i].uuid == SG2_SERVICE_UUID then block else [];
          if services[i].uuid == SG2_SERVICE_UUID {
            var cmdValue := [SMS_REMIND_CMD, ToByte(SMS_REMIND_VAL)];
            trace := trace + [WriteCommand(bleGatt, cmdValue)];
            assert trace == visited + step;
          }
          assert trace == old(trace) + SmsReminderWrites(bleGatt, services[..i + 1]) by {
            PerSg2Step(services, block, i);
            AppendAssoc(old(trace), PerSg2(services[..i], block), step);
          }
          i := i + 1;
        }
        assert services[..i] == services;
      }
      SmsWritesHaveNoScanControl(bleGatt, ServicesOf(bleGatt));
      ScanActiveIgnores(old(trace), SmsReminderWrites(bleGatt, ServicesOf(bleGatt)));
    }

    /** For each SG2 service, an allowed package sends the SMS reminder. */
    method HandleNotificationEvent(packageName: string)
      requires Valid()
      modifies this`trace
      ensures Valid()
      ensures trace == old(trace) + NotificationWrites(bleGatt, ServicesOf(bleGatt), packageName)
    {
      if bleGatt != null {
        var services := bleGatt.services;
        ghost var reminder := if IsWhitelisted(packageName) then SmsReminderWrites(bleGatt, services) else [];
        var i := 0;
        while i < |services|
          invariant 0 <= i <= |services|
          invariant Valid()
          invariant bleGatt != null
          invariant trace == old(trace) + PerSg2(services[..i], reminder)
        {
          ghost var visited := trace;
          ghost var step := if services[i].uuid == SG2_SERVICE_UUID then reminder else [];
          if services[i].uuid == SG2_SERVICE_UUID {
            if IsWhitelisted(packageName) {
              SendSmsReminder();
              assert trace == visited + step by {
                assert ServicesOf(bleGatt) == services;
              }
            }
          }
          assert trace == old(trace) + PerSg2(services[..i + 1], reminder) by {
            PerSg2Step(services, reminder, i);
            AppendAssoc(old(trace), PerSg2(services[..i], reminder), step);
          }
          i := i + 1;
        }
        assert services[..i] == services;
      }
    }

    /**
     * The service starts: record the target, show the initial "Starting"
     * status (shown whatever the update flag says), then start scanning.
     */
    method OnStartCommand(name: Option<string>, address: Option<string>, adapterEnabled: bool)
      requires Valid()
      modifies this`targetDeviceName, this`targetDeviceAddress, this`trace, this`bleScanRunning
      ensures Valid()
      ensures targetDeviceName == name && targetDeviceAddress == address
      ensures adapterEnabled ==>
                bleScanRunning
                && trace == old(trace) + [Status("Starting")]
                            + Published(persistentNotificationUpdateDisabled, "Scanning") + [StartScan]
      ensures !adapterEnabled ==>
                bleScanRunning == old(bleScanRunning)
                && trace == old(trace) + [Status("Starting")]
                            + Published(persistentNotificationUpdateDisabled, "Error (Bluetooth Off)")
    {
      targetDeviceName := name;
      targetDeviceAddress := address;
      trace := trace + [Status("Starting")];
      ScanActiveIgnores(old(trace), [Status("Starting")]);
      StartBleScan(adapterEnabled);
    }

    /** The service stops: suppress further status updates, then tear the connection down. */
    method OnDestroy()
      requires Valid()
      modifies this`persistentNotificationUpdateDisabled, this`trace, this`bleGatt
      ensures Valid()
      ensures persistentNotificationUpdateDisabled && bleGatt == null
      ensures trace == old(trace) + CloseActions(old(bleGatt))
    {
      persistentNotificationUpdateDisabled := true;
      CloseBleConnection();
    }
  }

  /** Closing twice releases the handle once: the second call issues nothing. */
  method CloseTwiceReleasesOnce(s: BlueDeviceService)
    requires s.Valid()
    modifies s
    ensures s.Valid() && s.bleGatt == null
    ensures s.trace == old(s.trace) + CloseActions(old(s.bleGatt))
  {
    s.CloseBleConnection();
    s.CloseBleConnection();
  }

  /**
   * Stopping the service while a connection is still being made closes
   * nothing, since the handle is stored only once connected; a connection
   * that completes afterwards stores the handle and requests discovery,
   * with the status update suppressed.
   */
  method DestroyWhileConnecting(s: BlueDeviceService, gatt: GattHandle)
    requires s.Valid() && s.bleGatt == null
    modifies s
    ensures s.Valid() && s.bleGatt == gatt && s.persistentNotificationUpdateDisabled
    ensures s.trace == old(s.trace) + [DiscoverServices(gatt)]
  {
    s.OnDestroy();
    s.OnConnectionStateChange(gatt, GATT_SUCCESS, STATE_CONNECTED);
  }
}
