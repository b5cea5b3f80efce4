/**
 * The writes the app sends to its realtime database, as an ordered log, and
 * the state of the remote tree that a log leaves behind. A device's value
 * lives at the path `room/device`; removing a room removes its whole subtree.
 */
module RemoteMirror {
  import opened Model

  datatype RemoteOp =
    | Set(room: string, device: string, value: int)   // `getReference(room).child(device).setValue(value)`
    | RemoveSubtree(room: string)                     // `getReference(room).removeValue()`

  /** The remote tree, flattened to its `room/device` leaves. */
  type Tree = map<(string, string), int>

  function Apply(tree: Tree, op: RemoteOp): Tree
  {
    match op
    case Set(room, device, value) => tree[(room, device) := value]
    case RemoveSubtree(room) => map path | path in tree && path.0 != room :: tree[path]
  }

  /** The tree after the operations of `ops`, in order. */
  function ApplyAll(tree: Tree, ops: seq<RemoteOp>): Tree
    decreases |ops|
  {
    if ops == [] then tree else ApplyAll(Apply(tree, ops[0]), ops[1..])
  }

  /** The writes that create a new room: one `room/device = 0` per device, in device order. */
  function CreateOps(room: string, devices: seq<Device>): (ops: seq<RemoteOp>)
    ensures |ops| == |devices|
    ensures forall i :: 0 <= i < |devices| ==> ops[i] == Set(room, devices[i].name, 0)
  {
    if devices == [] then []
    else CreateOps(room, devices[..|devices| - 1]) + [Set(room, devices[|devices| - 1].name, 0)]
  }

  lemma {:induction false} ApplyAllAppend(tree: Tree, xs: seq<RemoteOp>, ys: seq<RemoteOp>)
    ensures ApplyAll(tree, xs + ys) == ApplyAll(ApplyAll(tree, xs), ys)
    decreases |xs|
  {
    if xs == [] {
      assert xs + ys == ys;
    } else {
      assert (xs + ys)[0] == xs[0];
      assert (xs + ys)[1..] == xs[1..] + ys;
      ApplyAllAppend(Apply(tree, xs[0]), xs[1..], ys);
    }
  }

  /** Creating a room with one more device performs one more write, the last. */
  lemma CreateOpsSnoc(tree: Tree, room: string, devices: seq<Device>, last: Device)
    ensures ApplyAll(tree, CreateOps(room, devices + [last]))
         == ApplyAll(tree, CreateOps(room, devices))[(room, last.name) := 0]
  {
    var all := devices + [last];
    assert all[..|all| - 1] == devices;
    ApplyAllAppend(tree, CreateOps(room, devices), [Set(room, last.name, 0)]);
  }

  /** The paths of a room's devices. */
  function DevicePaths(room: string, devices: seq<Device>): set<(string, string)>
  {
    set i | 0 <= i < |devices| :: (room, devices[i].name)
  }

  /** Each of a room's device paths, holding 0. */
  function ZeroedDevices(room: string, devices: seq<Device>): Tree
  {
    map path | path in DevicePaths(room, devices) :: 0
  }

  lemma DevicePathsSnoc(room: string, devices: seq<Device>, last: Device)
    ensures DevicePaths(room, devices + [last]) == DevicePaths(room, devices) + {(room, last.name)}
  {
    var all := devices + [last];
    forall path | path in DevicePaths(room, all) ensures path in DevicePaths(room, devices) + {(room, last.name)} {
      var i :| 0 <= i < |all| && path == (room, all[i].name);
      if i < |devices| {
        assert all[i] == devices[i];
      }
    }
    forall path | path in DevicePaths(room, devices) ensures path in DevicePaths(room, all) {
      var i :| 0 <= i < |devices| && path == (room, devices[i].name);
      assert all[i] == devices[i];
    }
    assert all[|devices|] == last;
  }

  lemma ZeroedDevicesSnoc(room: string, devices: seq<Device>, last: Device)
    ensures ZeroedDevices(room, devices + [last]) == ZeroedDevices(room, devices)[(room, last.name) := 0]
  {
    DevicePathsSnoc(room, devices, last);
  }

  lemma UpdateMerged(a: Tree, b: Tree, path: (string, string), value: int)
    ensures (a + b)[path := value] == a + b[path := value]
  {
  }

  /**
   * Creating a room sets every one of its devices to 0 under the room's path
   * and leaves every other path, and its value, as it was.
   */
  lemma {:induction false} CreateOpsEffect(tree: Tree, room: string, devices: seq<Device>)
    ensures ApplyAll(tree, CreateOps(room, devices)) == tree + ZeroedDevices(room, devices)
    decreases |devices|
  {
    if devices == [] {
      assert ZeroedDevices(room, devices) == map[];
      assert tree + map[] == tree;
    } else {
      var init, last := devices[..|devices| - 1], devices[|devices| - 1];
      assert devices == init + [last];
      CreateOpsEffect(tree, room, init);
      CreateOpsSnoc(tree, room, init, last);
      ZeroedDevicesSnoc(room, init, last);
      UpdateMerged(tree, ZeroedDevices(room, init), (room, last.name), 0);
    }
  }

  /** Removing a room's subtree leaves no path under it, adds no path, and keeps every other path as it was. */
  lemma RemoveSubtreeEffect(tree: Tree, room: string)
    ensures var after := Apply(tree, RemoveSubtree(room));
      && (forall path :: path in after ==> path in tree && path.0 != room)
      && (forall path :: path in tree && path.0 != room ==> path in after && after[path] == tree[path])
  {
  }
}
