/**
 * `AddRoomDialog`'s confirm button: the device rows the user filled in become
 * the new room's devices. The dialog keeps a name and a type per row; both
 * lists start with three rows and grow together.
 */
module AddRoomDialog {
  import opened Text
  import opened Model

  /** The type every new device row starts with. */
  const DefaultRowType := "Bulb"

  /** `mapIndexedNotNull`: a device for each row whose name is not blank, in row order. */
  function DialogDevices(names: seq<string>, types: seq<string>): (devices: seq<Device>)
    requires |names| == |types|
    ensures |devices| <= |names|
    ensures forall i :: 0 <= i < |devices| ==> !IsBlank(devices[i].name)
    ensures forall i :: 0 <= i < |names| && !IsBlank(names[i]) ==> Device(names[i], types[i]) in devices
    ensures forall d :: d in devices ==> exists i :: 0 <= i < |names| && names[i] == d.name && types[i] == d.kind
  {
    if names == [] then []
    else
      var rest := DialogDevices(names[1..], types[1..]);
      assert forall d :: d in rest ==> exists i :: 0 <= i < |names| && names[i] == d.name && types[i] == d.kind by {
        forall d | d in rest ensures exists i :: 0 <= i < |names| && names[i] == d.name && types[i] == d.kind {
          var j :| 0 <= j < |names| - 1 && names[1..][j] == d.name && types[1..][j] == d.kind;
          assert names[j + 1] == d.name && types[j + 1] == d.kind;
        }
      }
      assert forall i :: 1 <= i < |names| && !IsBlank(names[i]) ==> Device(names[i], types[i]) in rest by {
        forall i | 1 <= i < |names| && !IsBlank(names[i]) ensures Device(names[i], types[i]) in rest {
          assert names[1..][i - 1] == names[i] && types[1..][i - 1] == types[i];
        }
      }
      if IsBlank(names[0]) then rest else [Device(names[0], types[0])] + rest
  }

  /**
   * Rows are taken in order: filling one more row appends its device at the
   * end (or nothing, when its name is blank).
   */
  lemma {:induction false} DialogDevicesSnoc(names: seq<string>, types: seq<string>, name: string, kind: string)
    requires |names| == |types|
    ensures DialogDevices(names + [name], types + [kind])
         == DialogDevices(names, types) + (if IsBlank(name) then [] else [Device(name, kind)])
    decreases |names|
  {
    if names == [] {
      assert names + [name] == [name] && types + [kind] == [kind];
    } else {
      assert (names + [name])[1..] == names[1..] + [name];
      assert (types + [kind])[1..] == types[1..] + [kind];
      DialogDevicesSnoc(names[1..], types[1..], name, kind);
    }
  }

  /** The types a row's drop-down offers. */
  const TypeOptions: seq<string> := ["Bulb", "Fan", "Heater", "Others"]

  /** A dialog whose rows were all left empty creates a room without devices. */
  lemma {:induction false} EmptyRowsGiveNoDevices(rows: nat)
    ensures DialogDevices(seq(rows, _ => ""), seq(rows, _ => DefaultRowType)) == []
  {
    if rows > 0 {
      EmptyRowsGiveNoDevices(rows - 1);
      var names, types := seq(rows - 1, _ => ""), seq(rows - 1, _ => DefaultRowType);
      assert seq(rows, _ => "") == names + [""];
      assert seq(rows, _ => DefaultRowType) == types + [DefaultRowType];
      DialogDevicesSnoc(names, types, "", DefaultRowType);
    }
  }

  /**
   * The dialog's device rows: a name and a type per row, kept in two lists
   * that start with three empty `Bulb` rows and always grow together.
   */
  class DeviceRows {
    var names: seq<string>
    var types: seq<string>

    predicate Valid()
      reads this
    {
      |names| == |types|
    }

    constructor ()
      ensures Valid()
      ensures names == ["", "", ""] && types == [DefaultRowType, DefaultRowType, DefaultRowType]
    {
      names := ["", "", ""];
      types := [DefaultRowType, DefaultRowType, DefaultRowType];
    }

    /** The "Add device" button: one more empty `Bulb` row. */
    method AddRow()
      requires Valid()
      modifies this
      ensures Valid()
      ensures names == old(names) + [""] && types == old(types) + [DefaultRowType]
    {
      names := names + [""];
      types := types + [DefaultRowType];
    }

    /** Typing into a row's name field. */
    method SetName(i: nat, name: string)
      requires Valid() && i < |names|
      modifies this`names
      ensures Valid()
      ensures names == old(names)[i := name]
    {
      names := names[i := name];
    }

    /** Picking a type from a row's drop-down. */
    method SetType(i: nat, option: string)
      requires Valid() && i < |types| && option in TypeOptions
      modifies this`types
      ensures Valid()
      ensures types == old(types)[i := option]
    {
      types := types[i := option];
    }

    /** The devices the confirm button hands on. */
    function Devices(): (devices: seq<Device>)
      requires Valid()
      reads this
      ensures |devices| <= |names|
    {
      DialogDevices(names, types)
    }
  }
}
