/** Values shared by the Bluetooth device managers and the SCO link controller. */
module BluetoothTypes {

  /** A remote device is known to this code by its address alone. */
  type Address = string

  /** The address of a default-constructed remote device. */
  const DEFAULT_ADDRESS: Address := "00:00:00:00:00:00"

  /** The two device managers: media (A2DP) and hands-free (HFP). */
  datatype Profile = A2dp | Hfp

  datatype DeviceCategory =
    | CategoryDefault
    | BtHeadphone
    | BtSoundbox
    | BtCar
    | BtGlasses
    | BtWatch
    | BtHearaid
    | BtUnwearHeadphone

  // BluetoothDeviceAction
  const WEAR_ACTION := 0
  const UNWEAR_ACTION := 1
  const ENABLEFROMREMOTE_ACTION := 2
  const DISABLEFROMREMOTE_ACTION := 3
  const ENABLE_WEAR_DETECTION_ACTION := 4
  const DISABLE_WEAR_DETECTION_ACTION := 5
  const USER_SELECTION_ACTION := 6
  const STOP_VIRTUAL_CALL := 7
  const CONNECT_ACTION := 100
  const DISCONNECT_ACTION := 101
  const VIRTUAL_DEVICE_ADD_ACTION := 102
  const VIRTUAL_DEVICE_REMOVE_ACTION := 103

  datatype ConnectState = Connected | DeactiveConnected | SuspendConnected | VirtualConnected

  /** What the registered device observer is told. */
  datatype Note =
    | DeviceStatus(profile: Profile, device: Address, category: DeviceCategory, state: ConnectState, isConnected: bool)
    | CategoryUpdate(profile: Profile, device: Address, category: DeviceCategory)
    | EnableUpdate(profile: Profile, device: Address, isEnable: bool)
    | ConnectStateUpdate(profile: Profile, device: Address, state: ConnectState)
    | ForcedSelection(profile: Profile, device: Address)
}
