/**
 * `RoomPreferences`: the string format in which the room list is kept in the
 * app's local preferences, and the lenient decoder that reads it back.
 *
 *   rooms    := room (';' room)*          (the empty list is the empty string)
 *   room     := name '|' devices '|' color
 *   devices  := device (',' device)*      (no devices is the empty string)
 *   device   := name ':' type
 *   color    := the signed 32-bit ARGB value in decimal
 */
module RoomPreferences {
  import opened Wrappers
  import opened Text
  import opened Numbers
  import opened Model
  import opened Lists

  /** The color of a decoded room whose color field is not a 32-bit integer. */
  const FallbackColor: Int32 := DefaultColor
  /** The type of a decoded device entry that has no ':'. */
  const DefaultKind := "Bulb"
  /** The comment every decoded room carries. */
  const SavedComment := "Saved room"

  // ----- Encoding (`saveRooms`) -----

  function EncodeDevice(d: Device): string
  {
    d.name + ":" + d.kind
  }

  function DevicesField(devices: seq<Device>): string
  {
    Join(seq(|devices|, i requires 0 <= i < |devices| => EncodeDevice(devices[i])), ',')
  }

  function EncodeRoom(room: Room): string
  {
    room.name + "|" + DevicesField(room.devices) + "|" + IntToString(room.color)
  }

  function EncodedRooms(rooms: seq<Room>): seq<string>
  {
    seq(|rooms|, i requires 0 <= i < |rooms| => EncodeRoom(rooms[i]))
  }

  /** The string `saveRooms` stores for `rooms`. */
  function Encode(rooms: seq<Room>): string
  {
    Join(EncodedRooms(rooms), ';')
  }

  // ----- Decoding (`loadRooms`) -----

  /**
   * One device entry: the text before the first ':' is the name, the text
   * between the first and the second ':' (or the end) is the type, and an
   * entry without ':' is a "Bulb".
   */
  function DecodeDevice(entry: string): (d: Device)
    ensures ':' !in entry ==> d == Device(entry, DefaultKind)
    ensures ':' in entry ==>
      var rest := entry[IndexOf(entry, ':') + 1..];
      && d.name == entry[..IndexOf(entry, ':')]
      && d.kind <= rest && ':' !in d.kind
      && (d.kind == rest || rest[|d.kind|] == ':')
  {
    var dParts := Split(entry, ':');
    var d := Device(dParts[0], if |dParts| > 1 then dParts[1] else DefaultKind);
    if ':' in entry then SplitFirst(entry[IndexOf(entry, ':') + 1..], ':'); d else d
  }

  /** `filter { it.isNotBlank() }`. */
  function NonBlank(entries: seq<string>): (r: seq<string>)
    ensures |r| <= |entries|
    ensures forall i :: 0 <= i < |r| ==> !IsBlank(r[i])
    ensures forall x :: x in r ==> x in entries
  {
    if entries == [] then []
    else if IsBlank(entries[0]) then NonBlank(entries[1..])
    else [entries[0]] + NonBlank(entries[1..])
  }

  /** `map { ... }` over the device entries. */
  function DecodeEntries(entries: seq<string>): seq<Device>
  {
    seq(|entries|, i requires 0 <= i < |entries| => DecodeDevice(entries[i]))
  }

  /** The devices field: non-blank ','-separated entries, each decoded in order. */
  function DecodeDevices(field: string): seq<Device>
  {
    DecodeEntries(NonBlank(Split(field, ',')))
  }

  /** A room as the decoder rebuilds it: placeholder figures and the "Saved room" comment. */
  predicate IsSavedRoom(room: Room)
  {
    room.bulbs == 0 && room.power == 0 && room.comment == SavedComment
  }

  /**
   * One room record: dropped unless it has at least two '|' (three fields);
   * the name is the text before the first '|', and an unparseable color
   * becomes the fallback color.
   */
  function DecodeRecord(record: string): (r: Option<Room>)
    ensures r.Some? <==> multiset(record)['|'] >= 2
    ensures r.Some? ==> IsSavedRoom(r.value) && r.value.name == record[..IndexOf(record, '|')]
  {
    var parts := Split(record, '|');
    SplitCount(record, '|');
    if |parts| >= 3 then
      var color := ParseInt32(parts[2]).GetOr(FallbackColor);
      Some(Room(parts[0], 0, 0, SavedComment, DecodeDevices(parts[1]), color))
    else None
  }

  /** The rooms `loadRooms` reads back from the stored string `s`. */
  function Decode(s: string): (rooms: seq<Room>)
    ensures IsBlank(s) ==> rooms == []
    ensures forall i :: 0 <= i < |rooms| ==> IsSavedRoom(rooms[i])
  {
    if IsBlank(s) then []
    else
      var rooms := MapNotNull(Split(s, ';'), DecodeRecord);
      assert forall i :: 0 <= i < |rooms| ==> IsSavedRoom(rooms[i]) by {
        forall i | 0 <= i < |rooms| ensures IsSavedRoom(rooms[i]) {
          assert rooms[i] in rooms;
          var record :| record in Split(s, ';') && DecodeRecord(record) == Some(rooms[i]);
        }
      }
      rooms
  }
}
