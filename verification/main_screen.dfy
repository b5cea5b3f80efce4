/**
 * `MainScreen`'s room handling: the in-memory list of the user's rooms, the
 * remote writes that creating, deleting and operating rooms send, and the
 * stored copy of the list in the local preferences.
 */
module MainScreen {
  import opened Wrappers
  import opened Text
  import opened Numbers
  import opened Model
  import opened Lists
  import opened RoomPreferences
  import opened RoomPreferencesLaws
  import opened RemoteMirror
  import opened AddRoomDialog
  import opened DeviceControl

  /** The comment of a room created from the dialog. */
  const NewComment := "Newly added room"

  // ----- Finding and removing rooms -----

  /** The position of the first room called `name`, or `|rooms|` when there is none. */
  function FirstWithName(rooms: seq<Room>, name: string): (i: nat)
    ensures i <= |rooms|
    ensures i < |rooms| ==> rooms[i].name == name
    ensures forall j :: 0 <= j < i ==> rooms[j].name != name
  {
    if rooms == [] then 0
    else if rooms[0].name == name then 0
    else 1 + FirstWithName(rooms[1..], name)
  }

  /** `customRooms.find { it.name == roomName }`: the first room with that name, if any. */
  function FindByName(rooms: seq<Room>, name: string): (r: Option<Room>)
    ensures r.None? <==> forall j :: 0 <= j < |rooms| ==> rooms[j].name != name
    ensures r.Some? ==> r.value.name == name && r.value == rooms[FirstWithName(rooms, name)]
  {
    var i := FirstWithName(rooms, name);
    if i < |rooms| then Some(rooms[i]) else None
  }

  /** Removing the room found by name removes exactly the first room with that name. */
  lemma RemoveFoundRoom(rooms: seq<Room>, name: string)
    requires FindByName(rooms, name).Some?
    ensures var i := FirstWithName(rooms, name);
      RemoveFirst(rooms, FindByName(rooms, name).value) == rooms[..i] + rooms[i + 1..]
  {
    var room, i := FindByName(rooms, name).value, FirstWithName(rooms, name);
    RemoveFirstSplices(rooms, room);
    assert FirstIndex(rooms, room) == i;
  }

  /** No two rooms share a name (the app relies on it but does not enforce it). */
  predicate UniqueNames(rooms: seq<Room>)
  {
    forall i, j :: 0 <= i < j < |rooms| ==> rooms[i].name != rooms[j].name
  }

  /** Adding a room keeps the names unique exactly when its name is not taken yet. */
  lemma AddKeepsNamesUnique(rooms: seq<Room>, room: Room)
    ensures UniqueNames(rooms + [room]) <==> UniqueNames(rooms) && FindByName(rooms, room.name).None?
  {
    var after := rooms + [room];
    if UniqueNames(after) {
      forall j | 0 <= j < |rooms| ensures rooms[j].name != room.name {
        assert after[j] == rooms[j] && after[|rooms|] == room;
      }
      forall i, j | 0 <= i < j < |rooms| ensures rooms[i].name != rooms[j].name {
        assert after[i] == rooms[i] && after[j] == rooms[j];
      }
    }
  }

  /**
   * With two rooms of the same name, deleting the one found by that name
   * keeps the other in the list but removes the remote subtree its devices
   * live under.
   */
  lemma DeleteOfSharedNameClearsSurvivor(rooms: seq<Room>, i: nat, j: nat, tree: Tree, device: string)
    requires i < j < |rooms| && rooms[i].name == rooms[j].name
    requires forall k :: 0 <= k < i ==> rooms[k].name != rooms[i].name
    ensures rooms[j] in RemoveFirst(rooms, FindByName(rooms, rooms[i].name).value)
    ensures (rooms[j].name, device) !in Apply(tree, RemoveSubtree(rooms[i].name))
  {
    var name := rooms[i].name;
    assert FirstWithName(rooms, name) == i;
    var room := FindByName(rooms, name).value;
    assert room == rooms[i];
    assert FirstIndex(rooms, room) <= i;
    RemoveFirstKeepsLater(rooms, room, j);
  }

  // ----- The room store -----

  /**
   * The rooms `MainScreen` keeps in `customRooms`, the log of the writes it
   * sent to the realtime database, and the string stored in the preferences.
   */
  class RoomStore {
    var rooms: seq<Room>
    var remoteLog: seq<RemoteOp>
    var stored: string

    /** Startup: the rooms are whatever the stored string decodes to. */
    constructor Load(saved: string)
      ensures stored == saved && rooms == Decode(saved) && remoteLog == []
    {
      stored := saved;
      rooms := Decode(saved);
      remoteLog := [];
    }

    /**
     * `saveRooms`: the stored string becomes the encoding of the rooms, so a
     * later load gives back the rooms with their placeholders reset.
     */
    method Save()
      modifies this`stored
      ensures stored == Encode(rooms)
      ensures (forall i :: 0 <= i < |rooms| ==> PlainRoom(rooms[i])) ==> Decode(stored) == PersistedAll(rooms)
    {
      stored := Encode(rooms);
      if forall i :: 0 <= i < |rooms| ==> PlainRoom(rooms[i]) {
        RoundTrip(rooms);
      }
    }

    /**
     * `onAddRoom`: the new room goes at the end of the list and every one of
     * its devices gets a `room/device = 0` write, in device order.
     */
    method AddRoom(name: string, devices: seq<Device>, color: Int32)
      modifies this`rooms, this`remoteLog
      ensures rooms == old(rooms) + [Room(name, 0, 0, NewComment, devices, color)]
      ensures remoteLog == old(remoteLog) + CreateOps(name, devices)
    {
      rooms := rooms + [Room(name, 0, 0, NewComment, devices, color)];
      var i := 0;
      while i < |devices|
        invariant 0 <= i <= |devices|
        invariant rooms == old(rooms) + [Room(name, 0, 0, NewComment, devices, color)]
        invariant remoteLog == old(remoteLog) + CreateOps(name, devices[..i])
      {
        assert devices[..i + 1][..i] == devices[..i];
        remoteLog := remoteLog + [Set(name, devices[i].name, 0)];
        i := i + 1;
      }
      assert devices[..i] == devices;
    }

    /**
     * The dialog's confirm button: nothing happens for a blank room name;
     * otherwise the room is added with the rows whose device name is not blank.
     */
    method CreateRoom(roomName: string, rows: DeviceRows, color: Int32) returns (created: bool)
      requires rows.Valid()
      modifies this`rooms, this`remoteLog
      ensures created <==> !IsBlank(roomName)
      ensures created ==> rooms == old(rooms) + [Room(roomName, 0, 0, NewComment, rows.Devices(), color)]
      ensures created ==> remoteLog == old(remoteLog) + CreateOps(roomName, rows.Devices())
      ensures !created ==> rooms == old(rooms) && remoteLog == old(remoteLog)
    {
      created := !IsBlank(roomName);
      if created {
        AddRoom(roomName, rows.Devices(), color);
      }
    }

    /**
     * `onDeleteRoom` for the room the screen was opened with: its remote
     * subtree is removed, the room is taken out of the list and the list is saved.
     */
    method DeleteRoom(room: Room)
      modifies this
      ensures remoteLog == old(remoteLog) + [RemoveSubtree(room.name)]
      ensures rooms == RemoveFirst(old(rooms), room)
      ensures stored == Encode(rooms)
    {
      remoteLog := remoteLog + [RemoveSubtree(room.name)];
      rooms := RemoveFirst(rooms, room);
      Save();
    }

    /** The switch of a device that is not a fan writes 1 or 0 to the device's path. */
    method ToggleDevice(roomName: string, device: Device, on: bool)
      requires HasSwitch(device)
      modifies this`remoteLog
      ensures remoteLog == old(remoteLog) + [Set(roomName, device.name, SwitchValue(on))]
    {
      remoteLog := remoteLog + [Set(roomName, device.name, SwitchValue(on))];
    }

    /** A fan's slider writes the speed level itself to the device's path. */
    method SetFanSpeed(roomName: string, device: Device, level: int)
      requires !HasSwitch(device) && 0 <= level <= 100
      modifies this`remoteLog
      ensures remoteLog == old(remoteLog) + [Set(roomName, device.name, level)]
    {
      remoteLog := remoteLog + [Set(roomName, device.name, level)];
    }
  }
}
