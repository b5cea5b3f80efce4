/**
 * What the stored format promises: the decoder undoes the encoder for rooms
 * whose texts avoid the four separators, it decodes records independently and
 * in order, and it recovers from malformed records, device entries and colors.
 */
module RoomPreferencesLaws {
  import opened Wrappers
  import opened Text
  import opened Numbers
  import opened Model
  import opened RoomPreferences
  import opened Lists

  /** `s` contains none of the format's separators. */
  predicate Plain(s: string)
  {
    ';' !in s && '|' !in s && ',' !in s && ':' !in s
  }

  predicate PlainDevice(d: Device)
  {
    Plain(d.name) && Plain(d.kind)
  }

  predicate PlainRoom(room: Room)
  {
    Plain(room.name) && forall i :: 0 <= i < |room.devices| ==> PlainDevice(room.devices[i])
  }

  /** What survives a save and a load: name, devices and color; the rest is reset. */
  function Persisted(room: Room): Room
  {
    room.(bulbs := 0, power := 0, comment := SavedComment)
  }

  // ----- Encoding -----

  lemma DecimalAvoidsSeparators(x: Int32)
    ensures Plain(IntToString(x))
  {
  }

  /** The devices field of plain devices splits on ',' into one "name:type" entry per device, in order. */
  lemma DevicesFieldEntries(devices: seq<Device>)
    requires |devices| >= 1
    requires forall i :: 0 <= i < |devices| ==> PlainDevice(devices[i])
    ensures var entries := Split(DevicesField(devices), ',');
      && |entries| == |devices|
      && forall i :: 0 <= i < |devices| ==> entries[i] == devices[i].name + ":" + devices[i].kind
    ensures '|' !in DevicesField(devices) && ';' !in DevicesField(devices)
  {
    var entries := seq(|devices|, i requires 0 <= i < |devices| => EncodeDevice(devices[i]));
    JoinAvoids(entries, ',', '|');
    JoinAvoids(entries, ',', ';');
    SplitJoin(entries, ',');
  }

  /** A plain room's record is `name|devices|color`: it splits on '|' into exactly these three fields. */
  lemma EncodeRoomFields(room: Room)
    requires PlainRoom(room)
    ensures Split(EncodeRoom(room), '|') == [room.name, DevicesField(room.devices), IntToString(room.color)]
    ensures ';' !in EncodeRoom(room)
  {
    var df, cs := DevicesField(room.devices), IntToString(room.color);
    if |room.devices| == 0 {
      assert df == "";
    } else {
      DevicesFieldEntries(room.devices);
    }
    DecimalAvoidsSeparators(room.color);
    assert [room.name, df, cs][1..] == [df, cs];
    assert Join([df, cs], '|') == df + ['|'] + cs;
    assert Join([room.name, df, cs], '|') == room.name + ['|'] + (df + ['|'] + cs);
    assert EncodeRoom(room) == room.name + ['|'] + (df + ['|'] + cs);
    SplitJoin([room.name, df, cs], '|');
  }

  /** Rooms are joined by ';': plain rooms' encoding splits on ';' into one record per room, in order. */
  lemma EncodeRecords(rooms: seq<Room>)
    requires |rooms| >= 1
    requires forall i :: 0 <= i < |rooms| ==> PlainRoom(rooms[i])
    ensures Split(Encode(rooms), ';') == EncodedRooms(rooms)
  {
    var records := EncodedRooms(rooms);
    forall i | 0 <= i < |records| ensures ';' !in records[i] {
      EncodeRoomFields(rooms[i]);
    }
    SplitJoin(records, ';');
  }

  /** Saving one more room appends `;` and that room's record to the stored string. */
  lemma EncodeAppend(rooms: seq<Room>, room: Room)
    requires |rooms| >= 1
    ensures Encode(rooms + [room]) == Encode(rooms) + ";" + EncodeRoom(room)
  {
    assert EncodedRooms(rooms + [room]) == EncodedRooms(rooms) + [EncodeRoom(room)];
    JoinAppend(EncodedRooms(rooms), [EncodeRoom(room)], ';');
  }

  // ----- Decoding -----

  lemma {:induction false} NonBlankAppend(xs: seq<string>, ys: seq<string>)
    ensures NonBlank(xs + ys) == NonBlank(xs) + NonBlank(ys)
    decreases |xs|
  {
    if xs != [] {
      NonBlankAppend(xs[1..], ys);
      assert (xs + ys)[0] == xs[0];
      assert (xs + ys)[1..] == xs[1..] + ys;
    } else {
      assert xs + ys == ys;
    }
  }

  lemma {:induction false} NonBlankKeepsAll(xs: seq<string>)
    requires forall i :: 0 <= i < |xs| ==> !IsBlank(xs[i])
    ensures NonBlank(xs) == xs
    decreases |xs|
  {
    if xs != [] {
      NonBlankKeepsAll(xs[1..]);
    }
  }

  /** Device entries decode independently: a ',' splits the field into two fields decoded in turn. */
  lemma DecodeDevicesAppend(a: string, b: string)
    ensures DecodeDevices(a + "," + b) == DecodeDevices(a) + DecodeDevices(b)
  {
    var sa, sb := Split(a, ','), Split(b, ',');
    SplitAt(a, b, ',');
    NonBlankAppend(sa, sb);
    DecodeEntriesAppend(NonBlank(sa), NonBlank(sb));
  }

  lemma DecodeEntriesAppend(xs: seq<string>, ys: seq<string>)
    ensures DecodeEntries(xs + ys) == DecodeEntries(xs) + DecodeEntries(ys)
  {
    var l, r := DecodeEntries(xs + ys), DecodeEntries(xs) + DecodeEntries(ys);
    assert |l| == |r|;
    forall i | 0 <= i < |l| ensures l[i] == r[i] {
      if i < |xs| {
        assert (xs + ys)[i] == xs[i];
      } else {
        assert (xs + ys)[i] == ys[i - |xs|];
      }
    }
  }

  /** A single device entry: dropped if blank, otherwise decoded. */
  lemma DecodeDevicesEntry(entry: string)
    requires ',' !in entry
    ensures DecodeDevices(entry) == if IsBlank(entry) then [] else [DecodeDevice(entry)]
  {
    assert Split(entry, ',') == [entry];
    if !IsBlank(entry) {
      assert NonBlank([entry]) == [entry];
    }
  }

  /** A "name:type" entry of a plain device is never blank and decodes to that device. */
  lemma DecodeEncodeDevice(d: Device)
    requires PlainDevice(d)
    ensures !IsBlank(EncodeDevice(d)) && DecodeDevice(EncodeDevice(d)) == d
  {
    var entry := EncodeDevice(d);
    assert entry[|d.name|] == ':';
    assert entry[..|d.name|] == d.name && entry[|d.name| + 1..] == d.kind;
  }

  lemma DecodeDevicesField(devices: seq<Device>)
    requires forall i :: 0 <= i < |devices| ==> PlainDevice(devices[i])
    ensures DecodeDevices(DevicesField(devices)) == devices
  {
    if |devices| == 0 {
      assert DevicesField(devices) == "";
      assert Split("", ',') == [""];
      assert IsBlank("");
    } else {
      var entries := Split(DevicesField(devices), ',');
      DevicesFieldEntries(devices);
      forall i | 0 <= i < |devices| ensures !IsBlank(entries[i]) && DecodeDevice(entries[i]) == devices[i] {
        DecodeEncodeDevice(devices[i]);
      }
      NonBlankKeepsAll(entries);
    }
  }

  /** A plain room's record decodes to the room with its figures and comment reset. */
  lemma DecodeEncodeRoom(room: Room)
    requires PlainRoom(room)
    ensures DecodeRecord(EncodeRoom(room)) == Some(Persisted(room))
  {
    EncodeRoomFields(room);
    DecodeDevicesField(room.devices);
    ParseIntToString(room.color);
  }

  /**
   * Any record of three or more '|'-fields decodes field by field: the first
   * is the name, the second the devices, the third the color (the fallback
   * color when it is not a 32-bit integer), and further fields are ignored.
   */
  lemma DecodeRecordFields(name: string, devices: string, color: string, extra: seq<string>)
    requires '|' !in name && '|' !in devices && '|' !in color && NoneContains(extra, '|')
    ensures DecodeRecord(Join([name, devices, color] + extra, '|'))
         == Some(Room(name, 0, 0, SavedComment, DecodeDevices(devices), ParseInt32(color).GetOr(FallbackColor)))
  {
    SplitJoin([name, devices, color] + extra, '|');
  }

  /** A record of exactly three fields, as `saveRooms` writes it, joined by '|'. */
  lemma JoinThreeFields(name: string, devices: string, color: string)
    ensures Join([name, devices, color] + [], '|') == name + "|" + devices + "|" + color
  {
    var fields := [name, devices, color];
    assert fields + [] == fields;
    assert Join(fields[2..], '|') == color;
    assert Join(fields[1..], '|') == devices + "|" + color;
  }

  /** A stored string of one record with exactly three fields loads as that one room. */
  lemma DecodeThreeFields(name: string, devices: string, color: string)
    requires '|' !in name && '|' !in devices && '|' !in color
    requires ';' !in name && ';' !in devices && ';' !in color
    ensures Decode(name + "|" + devices + "|" + color)
         == [Room(name, 0, 0, SavedComment, DecodeDevices(devices), ParseInt32(color).GetOr(FallbackColor))]
  {
    var record := name + "|" + devices + "|" + color;
    var room := Room(name, 0, 0, SavedComment, DecodeDevices(devices), ParseInt32(color).GetOr(FallbackColor));
    assert DecodeRecord(record) == Some(room) by {
      JoinThreeFields(name, devices, color);
      DecodeRecordFields(name, devices, color, []);
    }
    assert ';' !in record;
    DecodeWellFormedRecord(record);
  }

  /**
   * The blank check of `loadRooms` changes nothing: a blank string would
   * decode to no rooms anyway, as its one record has no '|'.
   */
  lemma BlankCheckRedundant(s: string)
    ensures Decode(s) == MapNotNull(Split(s, ';'), DecodeRecord)
  {
    if IsBlank(s) {
      assert ';' !in s && '|' !in s;
      assert Split(s, ';') == [s];
      assert DecodeRecord(s) == None;
    }
  }

  /** Records decode independently and in order: a ';' splits the input into two inputs decoded in turn. */
  lemma DecodeAppend(a: string, b: string)
    ensures Decode(a + ";" + b) == Decode(a) + Decode(b)
  {
    BlankCheckRedundant(a + ";" + b);
    BlankCheckRedundant(a);
    BlankCheckRedundant(b);
    SplitAt(a, b, ';');
    MapNotNullAppend(Split(a, ';'), Split(b, ';'), DecodeRecord);
  }

  /** A single record decodes to at most one room, and to none when it has fewer than three '|' fields. */
  lemma DecodeSingleRecord(record: string)
    requires ';' !in record
    ensures Decode(record) == if multiset(record)['|'] >= 2 then [DecodeRecord(record).value] else []
  {
    BlankCheckRedundant(record);
    assert Split(record, ';') == [record];
  }

  /** A string of one record that has its three fields loads as exactly that record's room. */
  lemma DecodeWellFormedRecord(record: string)
    requires ';' !in record && DecodeRecord(record).Some?
    ensures Decode(record) == [DecodeRecord(record).value]
  {
    DecodeSingleRecord(record);
  }

  /** A malformed record between two others is dropped without disturbing them. */
  lemma DecodeSkipsMalformed(a: string, bad: string, b: string)
    requires ';' !in bad && multiset(bad)['|'] < 2
    ensures Decode(a + ";" + bad + ";" + b) == Decode(a) + Decode(b)
  {
    var rest := bad + ";" + b;
    assert a + ";" + bad + ";" + b == a + ";" + rest;
    DecodeAppend(a, rest);
    DecodeAppend(bad, b);
    DecodeSingleRecord(bad);
    assert Decode(bad) == [];
    assert Decode(rest) == Decode(b);
  }

  /** What a save keeps of each room, in order. */
  function PersistedAll(rooms: seq<Room>): seq<Room>
  {
    seq(|rooms|, i requires 0 <= i < |rooms| => Persisted(rooms[i]))
  }

  lemma DecodeEncodedRooms(rooms: seq<Room>)
    requires forall i :: 0 <= i < |rooms| ==> PlainRoom(rooms[i])
    ensures MapNotNull(EncodedRooms(rooms), DecodeRecord) == PersistedAll(rooms)
  {
    var records, saved := EncodedRooms(rooms), PersistedAll(rooms);
    forall i | 0 <= i < |rooms| ensures DecodeRecord(records[i]) == Some(saved[i]) {
      DecodeEncodeRoom(rooms[i]);
    }
    MapNotNullTotal(records, DecodeRecord, saved);
  }

  /**
   * Round trip: loading what was saved gives back every room's name, device
   * list (names, types, order) and color, provided no text holds a separator;
   * the display figures and the comment come back as placeholders.
   */
  lemma RoundTrip(rooms: seq<Room>)
    requires forall i :: 0 <= i < |rooms| ==> PlainRoom(rooms[i])
    ensures |Decode(Encode(rooms))| == |rooms|
    ensures forall i :: 0 <= i < |rooms| ==> Decode(Encode(rooms))[i] == Persisted(rooms[i])
  {
    var stored := Encode(rooms);
    if |rooms| == 0 {
      assert stored == "";
    } else {
      EncodeRecords(rooms);
      BlankCheckRedundant(stored);
      DecodeEncodedRooms(rooms);
      assert Decode(stored) == PersistedAll(rooms);
    }
  }
}

/** Concrete inputs: blank strings, a malformed record, an out-of-range color, a separator in a name. */
module RoomPreferencesExamples {
  import opened Wrappers
  import opened Text
  import opened Numbers
  import opened Model
  import opened RoomPreferences
  import opened RoomPreferencesLaws

  lemma BlankDecodesToNothing()
    ensures Decode("") == [] && Decode(" ") == [] && Decode("\t\n ") == []
  {
    assert IsBlank("") && IsBlank(" ") && IsBlank("\t\n ");
  }

  /** 4278255360 (0xFF00FF00 read unsigned) is out of the 32-bit range, so the color falls back. */
  lemma OverflowingColorFallsBack()
    ensures ParseInt32("4278255360") == None
  {
    var s := "4278255360";
    assert DigitsValue(s[..1]) == 4;
    assert s[..2][..1] == s[..1];
    assert DigitsValue(s[..2]) == 42;
    assert s[..3][..2] == s[..2];
    assert DigitsValue(s[..3]) == 427;
    assert s[..4][..3] == s[..3];
    assert DigitsValue(s[..4]) == 4278;
    assert s[..5][..4] == s[..4];
    assert DigitsValue(s[..5]) == 42782;
    assert s[..6][..5] == s[..5];
    assert DigitsValue(s[..6]) == 427825;
    assert s[..7][..6] == s[..6];
    assert DigitsValue(s[..7]) == 4278255;
    assert s[..8][..7] == s[..7];
    assert DigitsValue(s[..8]) == 42782553;
    assert s[..9][..8] == s[..8];
    assert DigitsValue(s[..9]) == 427825536;
    assert s[..10][..9] == s[..9];
    assert s[..10] == s;
  }

  /**
   * A room whose color field `toIntOrNull` rejects, followed by a record
   * without fields (as in `Kitchen|Fan:Fan|4278255360;BadRecord`): the room
   * loads with its device and the fallback color, and the record is dropped.
   */
  lemma UnparseableColorFallsBack(name: string, d: Device, color: string, bad: string)
    requires Plain(name) && PlainDevice(d) && Plain(color) && ParseInt32(color) == None
    requires ';' !in bad && '|' !in bad
    ensures Decode(name + "|" + EncodeDevice(d) + "|" + color + ";" + bad)
         == [Room(name, 0, 0, SavedComment, [d], FallbackColor)]
  {
    var entry := EncodeDevice(d);
    var record := name + "|" + entry + "|" + color;
    assert name + "|" + entry + "|" + color + ";" + bad == record + ";" + bad;
    DecodeAppend(record, bad);
    assert multiset(bad)['|'] == 0;
    DecodeSingleRecord(bad);
    DecodeEncodeDevice(d);
    DecodeDevicesEntry(entry);
    DecodeThreeFields(name, entry, color);
  }

  /** A record `a|b||digits` has four fields: the empty third one is not a color. */
  lemma ShiftedRecord(a: string, b: string, digits: string)
    requires Plain(a) && Plain(b) && Plain(digits) && !IsBlank(b)
    ensures var stored := a + "|" + b + "|" + "" + "|" + digits;
      && multiset(stored)['|'] >= 2
      && DecodeRecord(stored) == Some(Room(a, 0, 0, SavedComment, [Device(b, DefaultKind)], FallbackColor))
  {
    var stored := a + "|" + b + "|" + "" + "|" + digits;
    var fields := [a, b, "", digits];
    assert Join(fields[2..], '|') == "" + "|" + digits;
    assert Join(fields[1..], '|') == b + "|" + ("" + "|" + digits);
    assert Join(fields, '|') == stored;
    SplitJoin(fields, '|');
    SplitCount(stored, '|');
    DecodeDevicesEntry(b);
  }

  /**
   * Why the round trip needs separator-free names: a room named `a|b`
   * (with `b` not blank) comes back named `a`, with one "Bulb" device `b`,
   * and the empty devices field is read as the color, so the color is lost.
   */
  lemma SeparatorInNameCorrupts(a: string, b: string, comment: string, color: Int32)
    requires Plain(a) && Plain(b) && !IsBlank(b)
    ensures Decode(Encode([Room(a + "|" + b, 0, 0, comment, [], color)]))
         == [Room(a, 0, 0, SavedComment, [Device(b, DefaultKind)], FallbackColor)]
  {
    var room := Room(a + "|" + b, 0, 0, comment, [], color);
    var digits := IntToString(color);
    var stored := a + "|" + b + "|" + "" + "|" + digits;
    assert DevicesField([]) == "";
    assert Encode([room]) == EncodeRoom(room) == stored;
    DecimalAvoidsSeparators(color);
    ShiftedRecord(a, b, digits);
    DecodeSingleRecord(stored);
  }
}
