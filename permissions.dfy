/**
 * The permission handling of the scanner screen: which runtime permissions BLE needs on
 * a given Android version, whether they are all held, how the result of a permission
 * request is classified, and what the scan button does.
 */
module Permissions {

  datatype BlePermissionState = Granted | Denied | PermanentlyDenied

  datatype Permission = BluetoothScan | BluetoothConnect | AccessFineLocation

  /** `Build.VERSION_CODES.S`, Android 12. */
  const VersionCodesS := 31

  /** From Android 12 on, scanning and connecting are separate permissions; before, location. */
  function RequiredBlePermissions(sdkInt: int): (r: seq<Permission>)
    ensures sdkInt >= VersionCodesS ==> r == [BluetoothScan, BluetoothConnect]
    ensures sdkInt < VersionCodesS ==> r == [AccessFineLocation]
  {
    if sdkInt >= VersionCodesS then [BluetoothScan, BluetoothConnect] else [AccessFineLocation]
  }

  /** `permissions.all { checkSelfPermission(it) == GRANTED }`; `isGranted` is the platform's answer. */
  function HasBlePermissions(permissions: seq<Permission>, isGranted: Permission -> bool): (r: bool)
    ensures r <==> forall i :: 0 <= i < |permissions| ==> isGranted(permissions[i])
    ensures |permissions| == 0 ==> r
  {
    if |permissions| == 0 then true
    else isGranted(permissions[0]) && HasBlePermissions(permissions[1..], isGranted)
  }

  /** `permissions.any { !shouldShowRequestPermissionRationale(it) }`. */
  function AnyWithoutRationale(permissions: seq<Permission>, showRationale: Permission -> bool): (r: bool)
    ensures r <==> exists i :: 0 <= i < |permissions| && !showRationale(permissions[i])
  {
    if |permissions| == 0 then false
    else !showRationale(permissions[0]) || AnyWithoutRationale(permissions[1..], showRationale)
  }

  /**
   * The permission-request callback's `when`: every result granted (an empty result
   * included) gives Granted whatever the rationale flags; otherwise PermanentlyDenied when
   * some required permission has no rationale to show, and Denied when all of them have one.
   */
  function Classify(result: map<Permission, bool>, permissions: seq<Permission>, showRationale: Permission -> bool)
    : (s: BlePermissionState)
    ensures s == Granted <==> forall k :: k in result ==> result[k]
    ensures s == PermanentlyDenied <==>
      (exists k :: k in result && !result[k]) && exists i :: 0 <= i < |permissions| && !showRationale(permissions[i])
    ensures s == Denied <==>
      (exists k :: k in result && !result[k]) && forall i :: 0 <= i < |permissions| ==> showRationale(permissions[i])
  {
    var allGranted := forall k :: k in result ==> result[k];
    if allGranted then Granted
    else if AnyWithoutRationale(permissions, showRationale) then PermanentlyDenied
    else Denied
  }

  /** What a press of the scan button does. */
  datatype ButtonAction = StartScan | StopScan | RequestPermissions

  /**
   * With the permissions held the button starts a scan when none runs and stops the
   * running one; without them it only launches the permission request.
   */
  function OnStartScan(hasPermissions: bool, isScanning: bool): (a: ButtonAction)
    ensures a == RequestPermissions <==> !hasPermissions
    ensures a == StartScan <==> hasPermissions && !isScanning
    ensures a == StopScan <==> hasPermissions && isScanning
  {
    if hasPermissions then (if !isScanning then StartScan else StopScan) else RequestPermissions
  }

  /** The `permissionState` the screen remembers across recompositions. */
  class PermissionGate {
    var permissionState: BlePermissionState

    constructor ()
      ensures permissionState == Denied
    {
      permissionState := Denied;
    }

    /**
     * The permission-request callback: store the classified state, and request a scan
     * exactly when that state is Granted.
     */
    method OnPermissionResult(result: map<Permission, bool>, permissions: seq<Permission>,
                              showRationale: Permission -> bool)
      returns (scanRequested: bool)
      modifies this
      ensures permissionState == Classify(result, permissions, showRationale)
      ensures scanRequested <==> forall k :: k in result ==> result[k]
    {
      permissionState := Classify(result, permissions, showRationale);
      scanRequested := permissionState == Granted;
    }
  }
}
