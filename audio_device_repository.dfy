/**
 * AudioDeviceRepository.kt: the audio devices a config can be bound to, the list of them
 * the repository offers, the route it reports as current, and its per-device
 * "connected" answer. What the platform reports (the permission, the adapter's bonded
 * devices, whether A2DP and a wired headset are on, the proxy's active device and a
 * remote device's connection) comes in as parameters.
 */
module AudioDeviceRepository {
  import opened Wrappers

  /** `AudioDevice`: the phone speaker, the wired output, or a Bluetooth device. */
  datatype AudioDevice = Phone | Aux | Bluetooth(address: string, name: string)

  const PhoneId: string := "audio_device_phone"
  const AuxId: string := "audio_device_aux"

  /** `id`: fixed for the phone and the wired output, the address for Bluetooth. */
  function Id(d: AudioDevice): (id: string)
    ensures d.Phone? ==> id == PhoneId
    ensures d.Aux? ==> id == AuxId
    ensures d.Bluetooth? ==> id == d.address
  {
    match d
    case Phone => PhoneId
    case Aux => AuxId
    case Bluetooth(address, _) => address
  }

  /** `name`. */
  function Name(d: AudioDevice): (name: string)
    ensures d.Bluetooth? ==> name == d.name
  {
    match d
    case Phone => "Phone speaker"
    case Aux => "Aux"
    case Bluetooth(_, name) => name
  }

  /** A bonded device as the adapter reports it: its address, alias and name. */
  datatype BondedDevice = BondedDevice(address: string, alias: Option<string>, name: string)

  /** `AudioDevice.Bluetooth(it.address, it.alias ?: it.name)`. */
  function FromBonded(b: BondedDevice): (d: AudioDevice)
    ensures d.Bluetooth? && Id(d) == b.address
    ensures Name(d) == if b.alias.Some? then b.alias.value else b.name
  {
    Bluetooth(b.address, b.alias.GetOr(b.name))
  }

  /** `audioDevices`: without the permission, or without an adapter, no Bluetooth devices;
      otherwise one per bonded device, in the adapter's order; then the phone and the
      wired output. */
  function AudioDevices(permission: bool, bonded: Option<seq<BondedDevice>>): (ds: seq<AudioDevice>)
    ensures |ds| >= 2 && ds[|ds| - 2] == Phone && ds[|ds| - 1] == Aux
    ensures !permission || bonded.None? ==> ds == [Phone, Aux]
    ensures permission && bonded.Some? ==>
      |ds| == |bonded.value| + 2 &&
      forall i :: 0 <= i < |bonded.value| ==> ds[i] == FromBonded(bonded.value[i])
  {
    var bluetooth := if permission && bonded.Some? then
      seq(|bonded.value|, i requires 0 <= i < |bonded.value| => FromBonded(bonded.value[i]))
    else [];
    bluetooth + [Phone, Aux]
  }

  /** The devices of a list whose id is `id`, in order. */
  function WithId(ds: seq<AudioDevice>, id: string): (r: seq<AudioDevice>)
    ensures |r| <= |ds|
  {
    if ds == [] then []
    else (if Id(ds[0]) == id then [ds[0]] else []) + WithId(ds[1..], id)
  }

  /** `singleOrNull { it.id == id }`. */
  function SingleOrNull(ds: seq<AudioDevice>, id: string): (r: Option<AudioDevice>)
  {
    var m := WithId(ds, id);
    if |m| == 1 then Some(m[0]) else None
  }

  /** Position `i` holds the only device with id `id`. */
  predicate UniqueAt(ds: seq<AudioDevice>, id: string, i: int) {
    0 <= i < |ds| && Id(ds[i]) == id && forall j :: 0 <= j < |ds| && j != i ==> Id(ds[j]) != id
  }

  /** Two positions hold a device with id `id`. */
  predicate Several(ds: seq<AudioDevice>, id: string) {
    exists i, j :: 0 <= i < j < |ds| && Id(ds[i]) == id && Id(ds[j]) == id
  }

  lemma {:induction false} WithIdNone(ds: seq<AudioDevice>, id: string)
    requires forall j :: 0 <= j < |ds| ==> Id(ds[j]) != id
    ensures WithId(ds, id) == []
  {
    if ds != [] {
      WithIdNone(ds[1..], id);
    }
  }

  lemma {:induction false} WithIdUnique(ds: seq<AudioDevice>, id: string, i: int)
    requires UniqueAt(ds, id, i)
    ensures WithId(ds, id) == [ds[i]]
  {
    if i == 0 {
      WithIdNone(ds[1..], id);
    } else {
      assert UniqueAt(ds[1..], id, i - 1);
      WithIdUnique(ds[1..], id, i - 1);
    }
  }

  lemma {:induction false} WithIdMember(ds: seq<AudioDevice>, id: string, i: int)
    requires 0 <= i < |ds| && Id(ds[i]) == id
    ensures |WithId(ds, id)| >= 1
  {
    if i > 0 && Id(ds[0]) != id {
      WithIdMember(ds[1..], id, i - 1);
    }
  }

  lemma {:induction false} WithIdSeveral(ds: seq<AudioDevice>, id: string, i: int, j: int)
    requires 0 <= i < j < |ds| && Id(ds[i]) == id && Id(ds[j]) == id
    ensures |WithId(ds, id)| >= 2
  {
    if i == 0 {
      WithIdMember(ds[1..], id, j - 1);
    } else if Id(ds[0]) == id {
      WithIdMember(ds[1..], id, i - 1);
    } else {
      WithIdSeveral(ds[1..], id, i - 1, j - 1);
    }
  }

  lemma {:induction false} WithIdSound(ds: seq<AudioDevice>, id: string)
    ensures forall d :: d in WithId(ds, id) ==> d in ds && Id(d) == id
  {
    if ds != [] {
      WithIdSound(ds[1..], id);
    }
  }

  /** `singleOrNull` finds the device at a position that alone holds the id; when no
      position holds it, or two do, it finds nothing. */
  lemma SingleOrNullSpec(ds: seq<AudioDevice>, id: string)
    ensures forall i :: UniqueAt(ds, id, i) ==> SingleOrNull(ds, id) == Some(ds[i])
    ensures (forall j :: 0 <= j < |ds| ==> Id(ds[j]) != id) ==> SingleOrNull(ds, id).None?
    ensures Several(ds, id) ==> SingleOrNull(ds, id).None?
    ensures SingleOrNull(ds, id).Some? ==>
      SingleOrNull(ds, id).value in ds && Id(SingleOrNull(ds, id).value) == id
  {
    forall i | UniqueAt(ds, id, i) ensures SingleOrNull(ds, id) == Some(ds[i]) {
      WithIdUnique(ds, id, i);
    }
    if forall j :: 0 <= j < |ds| ==> Id(ds[j]) != id {
      WithIdNone(ds, id);
    }
    if Several(ds, id) {
      var i, j :| 0 <= i < j < |ds| && Id(ds[i]) == id && Id(ds[j]) == id;
      WithIdSeveral(ds, id, i, j);
    }
    WithIdSound(ds, id);
    if SingleOrNull(ds, id).Some? {
      assert WithId(ds, id)[0] in WithId(ds, id);
    }
  }

  /** Every position either holds no device with the id, or one position alone holds it,
      or two do. */
  lemma Trichotomy(ds: seq<AudioDevice>, id: string)
    ensures (forall j :: 0 <= j < |ds| ==> Id(ds[j]) != id) || (exists i :: UniqueAt(ds, id, i)) || Several(ds, id)
  {
    if !(forall j :: 0 <= j < |ds| ==> Id(ds[j]) != id) && !(exists i :: UniqueAt(ds, id, i)) {
      var i :| 0 <= i < |ds| && Id(ds[i]) == id;
      assert !UniqueAt(ds, id, i);
      var j :| 0 <= j < |ds| && j != i && Id(ds[j]) == id;
      if i < j {
        assert 0 <= i < j < |ds| && Id(ds[i]) == id && Id(ds[j]) == id;
      } else {
        assert 0 <= j < i < |ds| && Id(ds[j]) == id && Id(ds[i]) == id;
      }
    }
  }

  /** The device the active A2DP device resolves to: nothing when A2DP is off or there is
      no active address, whatever the proxy would answer; otherwise the one device listed
      with that address as id. */
  function ConnectedBluetoothDevice(a2dpOn: bool, activeAddress: Option<string>, ds: seq<AudioDevice>)
    : (r: Option<AudioDevice>)
    ensures !a2dpOn || activeAddress.None? ==> r.None?
    ensures a2dpOn && activeAddress.Some? ==> r == SingleOrNull(ds, activeAddress.value)
  {
    if !a2dpOn then None
    else if activeAddress.None? then None
    else SingleOrNull(ds, activeAddress.value)
  }

  /** `currentAudioDevice`: the resolved Bluetooth device if any, else the wired output
      if a headset is plugged in, else the phone speaker. */
  function CurrentAudioDevice(connected: Option<AudioDevice>, headsetOn: bool): (d: AudioDevice)
  {
    if connected.Some? then connected.value
    else if headsetOn then Aux
    else Phone
  }

  /** The fallback when no Bluetooth device is resolved: the wired output when one is
      plugged in, otherwise the phone. */
  function Fallback(headsetOn: bool): (d: AudioDevice)
    ensures headsetOn ==> d == Aux
    ensures !headsetOn ==> d == Phone
  {
    if headsetOn then Aux else Phone
  }

  /** The precedence of `currentAudioDevice` over any device list that holds the phone
      and the wired output. */
  lemma CurrentAudioDeviceIn(a2dpOn: bool, activeAddress: Option<string>, headsetOn: bool, ds: seq<AudioDevice>)
    requires Phone in ds && Aux in ds
    ensures var d := CurrentAudioDevice(ConnectedBluetoothDevice(a2dpOn, activeAddress, ds), headsetOn);
      d in ds &&
      (!a2dpOn || activeAddress.None? ==> d == Fallback(headsetOn)) &&
      (forall i :: a2dpOn && activeAddress.Some? && UniqueAt(ds, activeAddress.value, i) ==> d == ds[i]) &&
      (a2dpOn && activeAddress.Some? && Several(ds, activeAddress.value) ==> d == Fallback(headsetOn)) &&
      (a2dpOn && activeAddress.Some? && (forall j :: 0 <= j < |ds| ==> Id(ds[j]) != activeAddress.value) ==>
        d == Fallback(headsetOn))
  {
    if activeAddress.Some? {
      SingleOrNullSpec(ds, activeAddress.value);
    }
  }

  /** The current device given what the platform reports: with A2DP off, or with no
      active address, it is the wired output or the phone, whatever the proxy would say;
      in any case it is one of the devices `audioDevices` lists; the active Bluetooth
      address is followed exactly when one listed device alone has it as id, and an
      address that no listed device or several listed devices have falls back to the
      wired output when one is plugged in and to the phone otherwise. */
  lemma CurrentAudioDeviceSpec(a2dpOn: bool, activeAddress: Option<string>, headsetOn: bool,
                               permission: bool, bonded: Option<seq<BondedDevice>>)
    ensures var ds := AudioDevices(permission, bonded);
      var d := CurrentAudioDevice(ConnectedBluetoothDevice(a2dpOn, activeAddress, ds), headsetOn);
      d in ds &&
      (!a2dpOn || activeAddress.None? ==> d == Fallback(headsetOn)) &&
      (forall i :: a2dpOn && activeAddress.Some? && UniqueAt(ds, activeAddress.value, i) ==> d == ds[i]) &&
      (a2dpOn && activeAddress.Some? && Several(ds, activeAddress.value) ==> d == Fallback(headsetOn)) &&
      (a2dpOn && activeAddress.Some? && (forall j :: 0 <= j < |ds| ==> Id(ds[j]) != activeAddress.value) ==>
        d == Fallback(headsetOn))
  {
    var ds := AudioDevices(permission, bonded);
    assert Phone in ds && Aux in ds by {
      assert ds[|ds| - 2] == Phone && ds[|ds| - 1] == Aux;
    }
    CurrentAudioDeviceIn(a2dpOn, activeAddress, headsetOn, ds);
  }

  /** Why `isAudioDeviceConnected` fails: `single` found no device or several. */
  datatype LookupError = NoSuchDevice | SeveralDevices

  /** `isAudioDeviceConnected(id)`: the one listed device with that id decides: the
      phone speaker is connected, the wired output is not, and a Bluetooth device is
      when the remote device reports so (no remote device: not connected). */
  function IsAudioDeviceConnected(ds: seq<AudioDevice>, id: string, remoteConnected: Option<bool>)
    : (r: Result<bool, LookupError>)
  {
    var m := WithId(ds, id);
    if |m| == 0 then Failure(NoSuchDevice)
    else if |m| > 1 then Failure(SeveralDevices)
    else match m[0]
      case Aux => Success(false)
      case Bluetooth(_, _) => Success(remoteConnected.GetOr(false))
      case Phone => Success(true)
  }

  /** The answer by kind of the one device with the id, and the failures of `single`. */
  lemma IsAudioDeviceConnectedSpec(ds: seq<AudioDevice>, id: string, remoteConnected: Option<bool>)
    ensures var r := IsAudioDeviceConnected(ds, id, remoteConnected);
      ((forall j :: 0 <= j < |ds| ==> Id(ds[j]) != id) <==> r == Failure(NoSuchDevice)) &&
      (Several(ds, id) <==> r == Failure(SeveralDevices)) &&
      forall i :: UniqueAt(ds, id, i) ==>
        (ds[i].Phone? ==> r == Success(true)) &&
        (ds[i].Aux? ==> r == Success(false)) &&
        (ds[i].Bluetooth? ==> r == Success(remoteConnected == Some(true)))
  {
    var r := IsAudioDeviceConnected(ds, id, remoteConnected);
    Trichotomy(ds, id);
    if forall j :: 0 <= j < |ds| ==> Id(ds[j]) != id {
      WithIdNone(ds, id);
    } else if Several(ds, id) {
      var i, j :| 0 <= i < j < |ds| && Id(ds[i]) == id && Id(ds[j]) == id;
      WithIdSeveral(ds, id, i, j);
    } else {
      var i :| UniqueAt(ds, id, i);
      WithIdUnique(ds, id, i);
      assert WithId(ds, id)[0] == ds[i];
      assert remoteConnected.GetOr(false) == (remoteConnected == Some(true));
    }
  }

  /** With no bonded address equal to a fixed id, the phone and the wired output are each
      found by their id in the device list. */
  lemma FixedDevicesFound(permission: bool, bonded: Option<seq<BondedDevice>>)
    requires bonded.Some? ==> forall b :: b in bonded.value ==> b.address != PhoneId && b.address != AuxId
    ensures SingleOrNull(AudioDevices(permission, bonded), PhoneId) == Some(Phone)
    ensures SingleOrNull(AudioDevices(permission, bonded), AuxId) == Some(Aux)
  {
    var ds := AudioDevices(permission, bonded);
    var n := |ds|;
    forall i | 0 <= i < n - 2 ensures Id(ds[i]) != PhoneId && Id(ds[i]) != AuxId {
      assert bonded.value[i] in bonded.value;
    }
    assert PhoneId != AuxId;
    assert UniqueAt(ds, PhoneId, n - 2);
    assert UniqueAt(ds, AuxId, n - 1);
    SingleOrNullSpec(ds, PhoneId);
    SingleOrNullSpec(ds, AuxId);
  }
}
