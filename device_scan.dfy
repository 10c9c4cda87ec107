/**
 * The device picker of DeviceScanActivity.kt: while a scan runs, results are
 * kept in a list with at most one entry per device address (a later result
 * for a known address replaces the entry in place); tapping an entry returns
 * its address and name, the back button cancels.
 */
module DeviceScan {
  import opened Wrappers
  import Gatt

  /** `Activity.RESULT_OK` and `Activity.RESULT_CANCELED`. */
  const RESULT_OK: int := -1
  const RESULT_CANCELED: int := 0

  /** Calls into the BLE scanner, in the order issued. */
  datatype ScannerCall = ScannerStart | ScannerStop

  /** The result set with `setResult`: the code and the "BT_MAC" and "BT_NAME" extras. */
  datatype ActivityResult = ActivityResult(resultCode: int, btMac: Option<string>, btName: Option<string>)

  /** `indexOfFirst { it.device.address == address }`: the first matching index, or -1. */
  function IndexOfFirst(results: seq<Gatt.ScanResult>, address: string): (k: int)
    ensures -1 <= k < |results|
    ensures k == -1 <==> forall i | 0 <= i < |results| :: results[i].device.address != address
    ensures k != -1 ==> results[k].device.address == address
    ensures k != -1 ==> forall i | 0 <= i < k :: results[i].device.address != address
  {
    if results == [] then -1
    else if results[0].device.address == address then 0
    else
      var k := IndexOfFirst(results[1..], address);
      if k == -1 then -1 else k + 1
  }

  /** No two entries share a device address. */
  predicate DistinctAddresses(results: seq<Gatt.ScanResult>)
  {
    forall i, j | 0 <= i < j < |results| :: results[i].device.address != results[j].device.address
  }

  /**
   * `onScanResult`: replace the first entry with the same address, or append.
   * Every other entry keeps its index and value.
   */
  function Upsert(results: seq<Gatt.ScanResult>, r: Gatt.ScanResult): (u: seq<Gatt.ScanResult>)
    ensures |u| == |results| || |u| == |results| + 1
    ensures |u| == |results| + 1 <==> forall i | 0 <= i < |results| :: results[i].device.address != r.device.address
    ensures |u| == |results| + 1 ==> u[|results|] == r
    ensures forall i | 0 <= i < |results| ::
              u[i] == if i == IndexOfFirst(results, r.device.address) then r else results[i]
    ensures r in u
  {
    var k := IndexOfFirst(results, r.device.address);
    if k == -1 then results + [r] else results[k := r]
  }

  /** Addresses stay pairwise distinct under upsert. */
  lemma UpsertKeepsAddressesDistinct(results: seq<Gatt.ScanResult>, r: Gatt.ScanResult)
    requires DistinctAddresses(results)
    ensures DistinctAddresses(Upsert(results, r))
  {
    var u := Upsert(results, r);
    var k := IndexOfFirst(results, r.device.address);
    forall i, j | 0 <= i < j < |u|
      ensures u[i].device.address != u[j].device.address
    {
      if j == |results| {
        assert u[j] == r && u[i] == results[i];
      } else if i == k {
        assert u[j] == results[j] && results[k].device.address == r.device.address;
      } else if j == k {
        assert u[i] == results[i] && results[k].device.address == r.device.address;
      } else {
        assert u[i] == results[i] && u[j] == results[j];
      }
    }
  }

  /** The scan is running exactly when the last scanner call was a start. */
  predicate ScannerOn(calls: seq<ScannerCall>)
  {
    |calls| > 0 && calls[|calls| - 1] == ScannerStart
  }

  class DeviceScanActivity {
    var bleScanRunning: bool
    var bleScanResults: seq<Gatt.ScanResult>
    var scannerCalls: seq<ScannerCall>
    /** Requests to the user to turn Bluetooth on. */
    var enableRequests: nat
    var result: Option<ActivityResult>
    var finished: bool

    ghost predicate Valid()
      reads this
    {
      DistinctAddresses(bleScanResults) && bleScanRunning == ScannerOn(scannerCalls)
    }

    constructor ()
      ensures Valid()
      ensures !bleScanRunning && bleScanResults == [] && scannerCalls == []
      ensures enableRequests == 0 && result == None && !finished
    {
      bleScanRunning := false;
      bleScanResults := [];
      scannerCalls := [];
      enableRequests := 0;
      result := None;
      finished := false;
    }

    /**
     * With the adapter on: clear the list and start scanning. Otherwise only
     * ask the user to enable Bluetooth; the list and the flag are untouched.
     */
    method StartBleScan(adapterEnabled: bool)
      requires Valid()
      modifies this`bleScanResults, this`scannerCalls, this`bleScanRunning, this`enableRequests
      ensures Valid()
      ensures adapterEnabled ==>
                bleScanResults == [] && bleScanRunning && scannerCalls == old(scannerCalls) + [ScannerStart]
                && enableRequests == old(enableRequests)
      ensures !adapterEnabled ==>
                bleScanResults == old(bleScanResults) && bleScanRunning == old(bleScanRunning)
                && scannerCalls == old(scannerCalls) && enableRequests == old(enableRequests) + 1
    {
      if adapterEnabled {
        bleScanResults := [];
        scannerCalls := scannerCalls + [ScannerStart];
        bleScanRunning := true;
      } else {
        enableRequests := enableRequests + 1;
      }
    }

    method StopBleScan()
      requires Valid()
      modifies this`scannerCalls, this`bleScanRunning
      ensures Valid()
      ensures !bleScanRunning && scannerCalls == old(scannerCalls) + [ScannerStop]
    {
      scannerCalls := scannerCalls + [ScannerStop];
      bleScanRunning := false;
    }

    /** A result replaces the entry with its address in place, or is appended at the end. */
    method OnScanResult(r: Gatt.ScanResult)
      requires Valid()
      modifies this`bleScanResults
      ensures Valid()
      ensures bleScanResults == Upsert(old(bleScanResults), r)
    {
      var indexQuery := IndexOfFirst(bleScanResults, r.device.address);
      UpsertKeepsAddressesDistinct(bleScanResults, r);
      if indexQuery != -1 {
        bleScanResults := bleScanResults[indexQuery := r];
      } else {
        bleScanResults := bleScanResults + [r];
      }
    }

    /** A tap stops a running scan and returns the tapped device's address and name. */
    method OnResultTapped(r: Gatt.ScanResult)
      requires Valid()
      modifies this`scannerCalls, this`bleScanRunning, this`result, this`finished
      ensures Valid()
      ensures !bleScanRunning && finished
      ensures scannerCalls == old(scannerCalls) + (if old(bleScanRunning) then [ScannerStop] else [])
      ensures result == Some(ActivityResult(RESULT_OK, Some(r.device.address), r.device.name))
    {
      if bleScanRunning {
        StopBleScan();
      }
      result := Some(ActivityResult(RESULT_OK, Some(r.device.address), r.device.name));
      finished := true;
    }

    /** Back always stops the scan and cancels, with no extras. */
    method OnBackPressed()
      requires Valid()
      modifies this`scannerCalls, this`bleScanRunning, this`result, this`finished
      ensures Valid()
      ensures !bleScanRunning && finished
      ensures scannerCalls == old(scannerCalls) + [ScannerStop]
      ensures result == Some(ActivityResult(RESULT_CANCELED, None, None))
    {
      StopBleScan();
      result := Some(ActivityResult(RESULT_CANCELED, None, None));
      finished := true;
    }
  }
}
