# Smart-home room list: persistence codec and room controller

This project models the room handling of the LoRa-Nexus SmartHome Android app
(`MainActivity.kt`) in Dafny and proves properties of the model:

- **`RoomPreferences`**: the codec that keeps the user's rooms in the app's
  preferences as one string, `name|dev:type,dev:type|color` per room, rooms
  joined by `;`. `saveRooms` writes it and `loadRooms` reads it back.
  Loading is forgiving. A blank string gives no rooms. A record with fewer than
  three `|`-fields is dropped. Blank device entries are skipped. A device
  entry without `:` gets the type `Bulb`. A color that `toIntOrNull` rejects,
  including one that overflows a 32-bit `Int`, falls back to `0xFF6200EE`.
  Every loaded room has zero bulbs, zero power and the comment `Saved room`.
- **`MainScreen`**: the room controller. It holds the in-memory list of rooms
  (`customRooms`), loaded at start-up. Adding a room appends it and writes
  `room/device = 0` to the realtime database for each device. Opening a
  room finds the first room with that name. Deleting it removes the room's
  database subtree, removes the room from the list and saves the list.
- **`AddRoomDialog`**: the dialog's rows of device names and types. Its
  confirm button turns every row with a non-blank name into a device, and
  does nothing when the room name is blank.
- **`DeviceControlCard`**: the database writes of a device card. A switch
  writes `1`/`0`; a fan's speed slider writes its level.

Kotlin's library behaviour is modelled exactly where the codec depends on it:

- `split` on one character keeps empty pieces, and `"".split(c)` is `[""]`.
- `joinToString` of an empty list is `""`.
- `isBlank` uses the JVM's whitespace set.
- `toIntOrNull` takes an optional sign and decimal digits, and gives null on overflow.
- `Int.toString` prints the decimal form.
- `mapNotNull`, `filter` and `mapIndexedNotNull` are modelled too.
- `MutableList.remove` removes the first equal element.

Colors are the signed 32-bit ARGB integers that `Color.toArgb()` produces and
`Color(Int)` accepts.

The main results:

- **Round trip.** For rooms whose names, device names and device types avoid
  the four separators `; | , :`, loading what was saved gives back the same
  rooms, in order, with their devices and colors. Only `bulbs`, `power` and
  `comment` are reset to the values loading puts there
  (`RoomPreferencesLaws.RoundTrip`).
- **The separator condition is needed.** A room named `a|b` comes back named
  `a`, with a `Bulb` device `b` and the fallback color
  (`RoomPreferencesExamples.SeparatorInNameCorrupts`).
- **Loading is compositional.** It distributes over `;`, and a malformed
  record in the middle is skipped without disturbing its neighbours.
- **Every record reads field by field.** Any record of three or more fields
  loads as a room named by the first field, with the devices of the second
  and the color of the third, or the fallback color when `toIntOrNull`
  rejects it (`RoomPreferencesLaws.DecodeRecordFields`).
- **Creating a room is visible remotely.** The database writes it sends leave
  every device of the new room at 0 and leave every other path as it was.
- **Deleting removes the first match.** Deleting the room found by name removes
  exactly the first room with that name. If two rooms share a name, the
  survivor stays in the list, but its database subtree is gone: the app does
  not keep room names unique.

The modules are:

- `Wrappers`: `Option`.
- `Lists`: `mapNotNull` and `remove`.
- `Text`: `split`, `joinToString` and `isBlank`.
- `Numbers`: 32-bit integers, `toString` and `toIntOrNull`.
- `Model`: `DeviceInfo` and `RoomStatus`.
- `RoomPreferences`: the codec.
- `RoomPreferencesLaws` and `RoomPreferencesExamples`: the codec's properties.
- `RemoteMirror`: database writes as a log, and the tree that the log produces.
- `AddRoomDialog`.
- `DeviceControl`.
- `MainScreen`: the `RoomStore` class.

## Model

| member | source | states |
|---|---|---|
| Model.DefaultColorValue | app/src/main/java/com/example/smarthome/MainActivity.kt:174 | `0xFF6200EE.toInt()` is the negative Int -10354450 |
| Numbers.ToInt32 | app/src/main/java/com/example/smarthome/MainActivity.kt:174 | `Long.toInt()` keeps the value modulo 2^32, and keeps it unchanged when it fits an Int |
| Numbers.NatToString | app/src/main/java/com/example/smarthome/MainActivity.kt:156 | a natural number prints as a non-empty string of decimal digits, with a leading 0 only for 0 itself |
| Numbers.IntToString | app/src/main/java/com/example/smarthome/MainActivity.kt:156 | an Int prints as a non-empty string of digits and minus signs |
| Numbers.ParseInt32 | app/src/main/java/com/example/smarthome/MainActivity.kt:174 | `toIntOrNull` gives null for a non-digit after the first character, for a first character that is neither a digit nor a sign followed by more, and for a value outside the Int range; otherwise it gives the value of the digits, negated after a leading `-` |
| Numbers.DigitsOfNat | app/src/main/java/com/example/smarthome/MainActivity.kt:156 | the printed digits of a natural number read back as that number |
| Numbers.ParseIntToString | app/src/main/java/com/example/smarthome/MainActivity.kt:156-174 | every Int read back from its printed form is that Int, so a saved color survives loading |
| Text.IndexOf | app/src/main/java/com/example/smarthome/MainActivity.kt:167 | the position found holds the character, and no earlier position does |
| Text.Split | app/src/main/java/com/example/smarthome/MainActivity.kt:166-171 | `split` gives at least one piece, and no piece contains the delimiter |
| Text.JoinSplit | app/src/main/java/com/example/smarthome/MainActivity.kt:154-171 | joining the pieces of a split with the delimiter gives back the string |
| Text.SplitCount | app/src/main/java/com/example/smarthome/MainActivity.kt:167-168 | a split has one piece more than the string has delimiters, so `parts.size >= 3` means at least two `|` |
| Text.SplitFirst | app/src/main/java/com/example/smarthome/MainActivity.kt:171-172 | the first piece is the longest delimiter-free prefix, followed by the delimiter or by nothing |
| Text.JoinAvoids | app/src/main/java/com/example/smarthome/MainActivity.kt:154-155 | a join contains no character that is neither in a part nor the separator |
| Text.JoinAppend | app/src/main/java/com/example/smarthome/MainActivity.kt:154 | joining two non-empty lists puts exactly one separator between their joins |
| Text.SplitJoin | app/src/main/java/com/example/smarthome/MainActivity.kt:154-167 | splitting a join gives back the parts when no part contains the separator |
| Text.SplitAt | app/src/main/java/com/example/smarthome/MainActivity.kt:166 | splitting `a;b` gives the pieces of `a` followed by the pieces of `b` |
| Lists.MapNotNull | app/src/main/java/com/example/smarthome/MainActivity.kt:166 | `mapNotNull` gives no more results than inputs, each one the present result of some input |
| Lists.MapNotNullAppend | app/src/main/java/com/example/smarthome/MainActivity.kt:166 | `mapNotNull` distributes over concatenation |
| Lists.MapNotNullTotal | app/src/main/java/com/example/smarthome/MainActivity.kt:166 | when every input has a present result, `mapNotNull` is a plain map |
| Lists.FirstIndex | app/src/main/java/com/example/smarthome/MainActivity.kt:246 | the index of the first element equal to the given one, or the length when there is none |
| Lists.RemoveFirstSplices | app/src/main/java/com/example/smarthome/MainActivity.kt:246 | `remove` cuts out exactly the first equal element and keeps the others in order, or changes nothing when there is none |
| Lists.RemoveFirstMultiset | app/src/main/java/com/example/smarthome/MainActivity.kt:246 | `remove` takes away exactly one copy of the element, as a multiset |
| Lists.RemoveFirstKeepsLater | app/src/main/java/com/example/smarthome/MainActivity.kt:246 | every element after the removed one is still in the list |
| RoomPreferences.DecodeDevice | app/src/main/java/com/example/smarthome/MainActivity.kt:171-172 | an entry without `:` is a device of type `Bulb`; otherwise the name is the text before the first `:`, and the type is the text up to the next `:` |
| RoomPreferences.NonBlank | app/src/main/java/com/example/smarthome/MainActivity.kt:170 | the filter keeps only non-blank entries, and each of them is one of its inputs |
| RoomPreferences.DecodeRecord | app/src/main/java/com/example/smarthome/MainActivity.kt:167-177 | a record gives a room exactly when it has at least two `\|`; the room is named by the first field, and has 0 bulbs, 0 power and the comment `Saved room` |
| RoomPreferences.Decode | app/src/main/java/com/example/smarthome/MainActivity.kt:161-178 | a blank string loads no rooms, and every loaded room carries the loading placeholders |
| RoomPreferencesLaws.DecimalAvoidsSeparators | app/src/main/java/com/example/smarthome/MainActivity.kt:156 | a printed color contains none of the four separators |
| RoomPreferencesLaws.DevicesFieldEntries | app/src/main/java/com/example/smarthome/MainActivity.kt:155 | the devices field of separator-free devices splits on `,` into their `name:type` entries, and contains no `\|` or `;` |
| RoomPreferencesLaws.EncodeRoomFields | app/src/main/java/com/example/smarthome/MainActivity.kt:156 | a separator-free room's record splits on `\|` into name, devices field and color, and contains no `;` |
| RoomPreferencesLaws.EncodeRecords | app/src/main/java/com/example/smarthome/MainActivity.kt:154-157 | the saved string of a non-empty list of separator-free rooms splits on `;` into their records |
| RoomPreferencesLaws.EncodeAppend | app/src/main/java/com/example/smarthome/MainActivity.kt:154-157 | saving one more room appends `;` and its record to the saved string |
| RoomPreferencesLaws.NonBlankAppend | app/src/main/java/com/example/smarthome/MainActivity.kt:170 | the blank-entry filter distributes over concatenation |
| RoomPreferencesLaws.NonBlankKeepsAll | app/src/main/java/com/example/smarthome/MainActivity.kt:170 | the filter keeps a list of non-blank entries unchanged |
| RoomPreferencesLaws.DecodeDevicesAppend | app/src/main/java/com/example/smarthome/MainActivity.kt:170-173 | the devices of `a,b` are the devices of `a` followed by those of `b` |
| RoomPreferencesLaws.DecodeEntriesAppend | app/src/main/java/com/example/smarthome/MainActivity.kt:170-173 | reading entries distributes over concatenation |
| RoomPreferencesLaws.DecodeDevicesEntry | app/src/main/java/com/example/smarthome/MainActivity.kt:170-173 | a devices field without `,` gives no device when blank, and otherwise exactly one |
| RoomPreferencesLaws.DecodeEncodeDevice | app/src/main/java/com/example/smarthome/MainActivity.kt:155-172 | a separator-free device's `name:type` entry is non-blank and reads back as that device |
| RoomPreferencesLaws.DecodeDevicesField | app/src/main/java/com/example/smarthome/MainActivity.kt:155-173 | the devices field of separator-free devices reads back as the same devices, in order |
| RoomPreferencesLaws.DecodeEncodeRoom | app/src/main/java/com/example/smarthome/MainActivity.kt:156-175 | a separator-free room's record reads back as the room, with only bulbs, power and comment reset |
| RoomPreferencesLaws.DecodeRecordFields | app/src/main/java/com/example/smarthome/MainActivity.kt:167-176 | every record of three or more `\|`-fields loads as a room named by the first field, with the devices of the second and the color of the third, the fallback color when `toIntOrNull` rejects it; further fields are ignored |
| RoomPreferencesLaws.DecodeThreeFields | app/src/main/java/com/example/smarthome/MainActivity.kt:164-177 | a stored string holding one record of exactly three fields loads as that one room |
| RoomPreferencesLaws.BlankCheckRedundant | app/src/main/java/com/example/smarthome/MainActivity.kt:164-166 | the early return for a blank string gives what splitting and decoding would give anyway |
| RoomPreferencesLaws.DecodeAppend | app/src/main/java/com/example/smarthome/MainActivity.kt:164-178 | loading `a;b` gives the rooms of `a` followed by the rooms of `b` |
| RoomPreferencesLaws.DecodeSingleRecord | app/src/main/java/com/example/smarthome/MainActivity.kt:166-177 | a string without `;` loads as one room when it has two `\|`, and as none otherwise |
| RoomPreferencesLaws.DecodeWellFormedRecord | app/src/main/java/com/example/smarthome/MainActivity.kt:166-177 | a string of one record that yields a room loads as exactly that room |
| RoomPreferencesLaws.DecodeSkipsMalformed | app/src/main/java/com/example/smarthome/MainActivity.kt:166-177 | a record with fewer than two `\|` between two others is dropped and disturbs neither neighbour |
| RoomPreferencesLaws.DecodeEncodedRooms | app/src/main/java/com/example/smarthome/MainActivity.kt:154-177 | decoding the records of separator-free rooms gives each room with its placeholders reset |
| RoomPreferencesLaws.RoundTrip | app/src/main/java/com/example/smarthome/MainActivity.kt:152-178 | `loadRooms` after `saveRooms` gives back every separator-free room, in order, with devices and color intact and only bulbs, power and comment reset |
| RoomPreferencesExamples.BlankDecodesToNothing | app/src/main/java/com/example/smarthome/MainActivity.kt:163-164 | the empty string and whitespace-only strings load no rooms |
| RoomPreferencesExamples.OverflowingColorFallsBack | app/src/main/java/com/example/smarthome/MainActivity.kt:174 | `4278255360`, which is `0xFF00FF00` written unsigned, is not an Int, so such a color falls back |
| RoomPreferencesExamples.UnparseableColorFallsBack | app/src/main/java/com/example/smarthome/MainActivity.kt:166-177 | a room whose color field `toIntOrNull` rejects, followed by a record without fields, as in `Kitchen\|Fan:Fan\|4278255360;BadRecord`, loads as that room with its device and the fallback color, and the record is dropped |
| RoomPreferencesExamples.ShiftedRecord | app/src/main/java/com/example/smarthome/MainActivity.kt:167-175 | in a record `a\|b\|\|digits`, the empty third field is read as the color, so it falls back, and the fourth field is ignored |
| RoomPreferencesExamples.SeparatorInNameCorrupts | app/src/main/java/com/example/smarthome/MainActivity.kt:152-178 | a room named `a\|b` comes back named `a`, with a `Bulb` device `b` and the fallback color |
| RemoteMirror.CreateOps | app/src/main/java/com/example/smarthome/MainActivity.kt:223-226 | creating a room sends one `room/device = 0` write per device, in device order |
| RemoteMirror.ApplyAllAppend | app/src/main/java/com/example/smarthome/MainActivity.kt:221-226 | playing two logs one after the other is playing their concatenation |
| RemoteMirror.CreateOpsSnoc | app/src/main/java/com/example/smarthome/MainActivity.kt:224-226 | one more device adds exactly one more write, the last |
| RemoteMirror.DevicePathsSnoc | app/src/main/java/com/example/smarthome/MainActivity.kt:224-226 | one more device adds exactly its own path |
| RemoteMirror.ZeroedDevicesSnoc | app/src/main/java/com/example/smarthome/MainActivity.kt:224-226 | one more device adds exactly its own path at 0 |
| RemoteMirror.CreateOpsEffect | app/src/main/java/com/example/smarthome/MainActivity.kt:221-226 | after the writes of a new room, its device paths are 0, and every other path keeps its presence and value |
| RemoteMirror.RemoveSubtreeEffect | app/src/main/java/com/example/smarthome/MainActivity.kt:244 | `removeValue` on a room leaves no path under the room, adds no path, and keeps every other path and its value |
| AddRoomDialog.DialogDevices | app/src/main/java/com/example/smarthome/MainActivity.kt:433-435 | the devices are exactly the rows with a non-blank name: none blank, none without a row, none such row missing |
| AddRoomDialog.DialogDevicesSnoc | app/src/main/java/com/example/smarthome/MainActivity.kt:433-435 | rows are read in order: one more row appends its device, or nothing when its name is blank |
| AddRoomDialog.EmptyRowsGiveNoDevices | app/src/main/java/com/example/smarthome/MainActivity.kt:334-335 | a dialog whose rows were all left empty creates a room without devices |
| AddRoomDialog.DeviceRows.constructor | app/src/main/java/com/example/smarthome/MainActivity.kt:334-335 | the dialog opens with three empty `Bulb` rows |
| AddRoomDialog.DeviceRows.AddRow | app/src/main/java/com/example/smarthome/MainActivity.kt:421-425 | "Add device" appends an empty `Bulb` row to both lists, keeping them the same length |
| AddRoomDialog.DeviceRows.SetName | app/src/main/java/com/example/smarthome/MainActivity.kt:380-384 | typing changes exactly that row's name |
| AddRoomDialog.DeviceRows.SetType | app/src/main/java/com/example/smarthome/MainActivity.kt:408-413 | picking a type changes exactly that row's type, to one of the offered options |
| AddRoomDialog.DeviceRows.Devices | app/src/main/java/com/example/smarthome/MainActivity.kt:433-435 | the confirm button hands on at most one device per row; what those devices are is stated by `AddRoomDialog.DialogDevices`, which it applies to the rows |
| DeviceControl.SwitchValue | app/src/main/java/com/example/smarthome/MainActivity.kt:595 | a switch writes 1 exactly when it is turned on, and 0 otherwise |
| MainScreen.FirstWithName | app/src/main/java/com/example/smarthome/MainActivity.kt:236 | the position of the first room with that name, and no earlier room has it |
| MainScreen.FindByName | app/src/main/java/com/example/smarthome/MainActivity.kt:236 | `find` gives nothing exactly when no room has the name, and otherwise the first room that has it |
| MainScreen.RemoveFoundRoom | app/src/main/java/com/example/smarthome/MainActivity.kt:236-246 | removing the room found by name removes exactly the first room with that name |
| MainScreen.AddKeepsNamesUnique | app/src/main/java/com/example/smarthome/MainActivity.kt:217-219 | adding a room keeps names unique exactly when no room has its name yet |
| MainScreen.DeleteOfSharedNameClearsSurvivor | app/src/main/java/com/example/smarthome/MainActivity.kt:236-246 | with two rooms of the same name, deleting the first keeps the second in the list but removes the database subtree its devices live under |
| MainScreen.RoomStore.Load | app/src/main/java/com/example/smarthome/MainActivity.kt:188-190 | the room list starts as whatever the stored string loads to, and nothing has been written remotely |
| MainScreen.RoomStore.Save | app/src/main/java/com/example/smarthome/MainActivity.kt:152-158 | the stored string becomes the encoding of the list; for separator-free rooms, loading it gives back the list with placeholders reset |
| MainScreen.RoomStore.AddRoom | app/src/main/java/com/example/smarthome/MainActivity.kt:217-226 | the new room, with the comment `Newly added room`, goes at the end of the list, and one write per device is logged, in device order |
| MainScreen.RoomStore.CreateRoom | app/src/main/java/com/example/smarthome/MainActivity.kt:431-437 | a room is created exactly when its name is not blank, with the rows' devices; otherwise nothing changes |
| MainScreen.RoomStore.DeleteRoom | app/src/main/java/com/example/smarthome/MainActivity.kt:241-248 | the room's subtree removal is logged, the first equal room leaves the list, and the list is saved |
| MainScreen.RoomStore.ToggleDevice | app/src/main/java/com/example/smarthome/MainActivity.kt:590-596 | a non-fan device's switch logs a 1/0 write to `room/device` |
| MainScreen.RoomStore.SetFanSpeed | app/src/main/java/com/example/smarthome/MainActivity.kt:605-617 | a fan's slider logs its level, between 0 and 100, to `room/device` |
| Wrappers.Option.GetOr | app/src/main/java/com/example/smarthome/MainActivity.kt:174 | the `?:` of the color: the parsed value when there is one, else the fallback; its effect is stated by `RoomPreferencesLaws.DecodeRecordFields` |
| Text.IsWhitespace | app/src/main/java/com/example/smarthome/MainActivity.kt:164 | the characters Kotlin's `isWhitespace` accepts on the JVM; used by `Text.IsBlank` |
| Text.IsBlank | app/src/main/java/com/example/smarthome/MainActivity.kt:164 | `isBlank`: empty or whitespace only; what it decides is stated by `RoomPreferences.Decode`, `RoomPreferences.NonBlank` and `MainScreen.RoomStore.CreateRoom` |
| Text.Join | app/src/main/java/com/example/smarthome/MainActivity.kt:154-155 | `joinToString`: its laws are `Text.JoinSplit`, `Text.SplitJoin`, `Text.JoinAppend` and `Text.JoinAvoids` |
| Lists.RemoveFirst | app/src/main/java/com/example/smarthome/MainActivity.kt:246 | `MutableList.remove`: its laws are `Lists.RemoveFirstSplices`, `Lists.RemoveFirstMultiset` and `Lists.RemoveFirstKeepsLater` |
| RoomPreferences.EncodeDevice | app/src/main/java/com/example/smarthome/MainActivity.kt:155 | a device's `name:type` entry; it reads back by `RoomPreferencesLaws.DecodeEncodeDevice` |
| RoomPreferences.DevicesField | app/src/main/java/com/example/smarthome/MainActivity.kt:155 | the `,`-joined entries of a room's devices; stated by `RoomPreferencesLaws.DevicesFieldEntries` and `RoomPreferencesLaws.DecodeDevicesField` |
| RoomPreferences.EncodeRoom | app/src/main/java/com/example/smarthome/MainActivity.kt:156 | a room's `name\|devices\|color` record; stated by `RoomPreferencesLaws.EncodeRoomFields` and `RoomPreferencesLaws.DecodeEncodeRoom` |
| RoomPreferences.Encode | app/src/main/java/com/example/smarthome/MainActivity.kt:152-158 | the string `saveRooms` stores; stated by `RoomPreferencesLaws.EncodeRecords`, `RoomPreferencesLaws.EncodeAppend` and `RoomPreferencesLaws.RoundTrip` |
| RoomPreferences.DecodeEntries | app/src/main/java/com/example/smarthome/MainActivity.kt:170-173 | the `map` over device entries, in order; stated by `RoomPreferencesLaws.DecodeEntriesAppend` |
| RoomPreferences.DecodeDevices | app/src/main/java/com/example/smarthome/MainActivity.kt:170-173 | a room's devices field read back; stated by `RoomPreferencesLaws.DecodeDevicesAppend`, `RoomPreferencesLaws.DecodeDevicesEntry` and `RoomPreferencesLaws.DecodeDevicesField` |
| RemoteMirror.Apply | app/src/main/java/com/example/smarthome/MainActivity.kt:225-244 | the meaning of `setValue` and `removeValue` on the database tree; stated by `RemoteMirror.CreateOpsEffect` and `RemoteMirror.RemoveSubtreeEffect` |
| RemoteMirror.ApplyAll | app/src/main/java/com/example/smarthome/MainActivity.kt:221-226 | a log of writes played in order; stated by `RemoteMirror.ApplyAllAppend` and `RemoteMirror.CreateOpsEffect` |
| DeviceControl.HasSwitch | app/src/main/java/com/example/smarthome/MainActivity.kt:590-605 | a device gets an on/off switch exactly when its type is not `Fan`, and a speed slider otherwise; used by `MainScreen.RoomStore.ToggleDevice` and `MainScreen.RoomStore.SetFanSpeed` |

## Left out

- User interface: drawer, navigation, carousel, colour palette, icons, the Bluetooth dialog and the settings screen (`Setting.kt`) are not modelled.
- Realtime database I/O: writes are recorded in `RoomStore.remoteLog` and given meaning by `RemoteMirror.Apply`. Network failure, listeners and values read back are not modelled. Paths are flattened to `room/device` pairs. Firebase's rules on which characters a key may contain are not modelled.
- `SharedPreferences`: the stored string is the `RoomStore.stored` field. Asynchronous `apply()` is not modelled.
- MainScreen.RoomStore.AddRoom: does not save the list itself. In the app, `LaunchedEffect(customRooms.size)` (lines 192-194) saves after the next recomposition; that effect is a call of `RoomStore.Save`, and the model does not schedule it.
- MainScreen.RoomStore.Load: keeps the stored string as it was. In the app the same effect also runs on the first composition, so right after start-up the stored string becomes `Encode(Decode(saved))`: dropped records, blank device entries and fallback colors become permanent. In the model this is a `Save` call after `Load`.
- Color: `androidx.compose.ui.graphics.Color` is reduced to its ARGB `Int`. The model assumes `Color(Int).toArgb()` gives back the same Int, which holds for sRGB colors.
- MainScreen.RoomStore.SetFanSpeed: takes the level as an integer 0..100. The slider's `Float`, `roundToInt` and its snapping to five steps are not modelled.
- Numbers.ParseInt32: accepts ASCII digits only. The JVM's `toIntOrNull` also accepts other Unicode decimal digits, which cannot occur in a string this app saved.
- Navigation by route `room/{roomName}`: the route string and what a `/` in a room name does to it are not modelled. The room handed to the delete handler is modelled as the room that `find` returned (line 236).
- Device card state: `isActive` and `fanSpeed` are initial UI state and are not modelled, nor are values read from the database.
