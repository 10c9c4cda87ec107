/**
 * The decisions BlueDeviceService.kt takes on platform codes: how a
 * connection-state change is classified by its `status` and `newState`,
 * and which notification packages trigger the SMS reminder.
 */
module Link {

  /** `BluetoothGatt.GATT_SUCCESS`. */
  const GATT_SUCCESS: int := 0

  // `BluetoothProfile` connection states.
  const STATE_DISCONNECTED: int := 0
  const STATE_CONNECTING: int := 1
  const STATE_CONNECTED: int := 2
  const STATE_DISCONNECTING: int := 3

  /** What `onConnectionStateChange` does; every reaction publishes `text` first. */
  datatype LinkReaction =
    | StoreAndDiscover(text: string)     // store the handle, request service discovery
    | PublishOnly(text: string)          // status text only
    | PublishAndReconnect(text: string)  // status text, then `reconnectBle`

  /**
   * The `when (status)` of `onConnectionStateChange`. The branches are tried
   * in source order, so the `0 ->` branch, which comes after the
   * `GATT_SUCCESS ->` branch and GATT_SUCCESS is 0, never runs: status 0 is
   * dispatched on `newState` alone and never reconnects.
   */
  function ClassifyConnectionChange(status: int, newState: int): (r: LinkReaction)
    ensures r.PublishAndReconnect? <==> status == 8 || status == 19 || status == 133
    ensures r.PublishAndReconnect? ==> r.text == "Disconnected"
    ensures r.StoreAndDiscover? <==> status == GATT_SUCCESS && newState == STATE_CONNECTED
    ensures r.StoreAndDiscover? ==> r.text == "Connected"
    ensures status == GATT_SUCCESS && newState == STATE_CONNECTING ==> r == PublishOnly("Connecting")
    ensures status == GATT_SUCCESS && newState == STATE_DISCONNECTED ==> r == PublishOnly("Disconnected")
    ensures status == GATT_SUCCESS && newState == STATE_DISCONNECTING ==> r == PublishOnly("Disconnecting")
    ensures status == GATT_SUCCESS && !(0 <= newState <= 3) ==> r == PublishOnly("Error (Unhandled State)")
    ensures status !in {GATT_SUCCESS, 8, 19, 133} ==> r == PublishOnly("Error (Unhandled Status)")
  {
    if status == GATT_SUCCESS then
      if newState == STATE_CONNECTED then StoreAndDiscover("Connected")
      else if newState == STATE_CONNECTING then PublishOnly("Connecting")
      else if newState == STATE_DISCONNECTED then PublishOnly("Disconnected")
      else if newState == STATE_DISCONNECTING then PublishOnly("Disconnecting")
      else PublishOnly("Error (Unhandled State)")
    else if status == 8 then PublishAndReconnect("Disconnected")     // device out of range?
    else if status == 19 then PublishAndReconnect("Disconnected")    // disconnected by device?
    else if status == 133 then PublishAndReconnect("Disconnected")   // device not found?
    else if status == 0 then PublishAndReconnect("Disconnected")     // programmatic disconnect? (shadowed)
    else PublishOnly("Error (Unhandled Status)")
  }

  /** Packages whose notifications make the watch show an SMS reminder. */
  const PACKAGE_WHITELIST: seq<string> := ["com.google.android.apps.messaging", "com.zoho.mail"]

  /** `packageWhitelist.contains(notificationPackageName)`: exact string equality. */
  predicate IsWhitelisted(packageName: string)
  {
    packageName in PACKAGE_WHITELIST
  }

  /** Exactly the two listed packages are allowed. */
  lemma WhitelistIsExactlyTwoPackages(packageName: string)
    ensures IsWhitelisted(packageName) <==>
              packageName == "com.google.android.apps.messaging" || packageName == "com.zoho.mail"
  {
  }
}
