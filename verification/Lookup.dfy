/** Looking up a channel in a list by its name or by its number. */
module Lookup {
  import opened Bytes
  import opened Recording

  /** The first channel with a name, or their number. */
  function Position(channels: seq<ChannelDef>, name: bytes): (k: nat)
    ensures k <= |channels|
    ensures k < |channels| ==> channels[k].name == name
    ensures forall i :: 0 <= i < k ==> channels[i].name != name
  {
    if channels == [] then 0
    else
      var k := Position(channels[..|channels| - 1], name);
      if k < |channels| - 1 || channels[|channels| - 1].name == name then k else |channels|
  }

  method FindName(channels: seq<ChannelDef>, name: bytes) returns (k: nat)
    ensures k == Position(channels, name)
  {
    k := 0;
    while k < |channels| && channels[k].name != name
      invariant k <= |channels|
      invariant forall i :: 0 <= i < k ==> channels[i].name != name
    {
      k := k + 1;
    }
  }

  /** The index of the first channel with an id, or their number. */
  function IndexOf(channels: seq<ChannelDef>, id: u16): (k: nat)
    ensures k <= |channels|
    ensures k < |channels| ==> channels[k].id == id
    ensures forall i :: 0 <= i < k ==> channels[i].id != id
  {
    if channels == [] then 0
    else
      var k := IndexOf(channels[..|channels| - 1], id);
      if k < |channels| - 1 || channels[|channels| - 1].id == id then k else |channels|
  }

  method FindId(channels: seq<ChannelDef>, id: u16) returns (k: nat)
    ensures k == IndexOf(channels, id)
  {
    k := 0;
    while k < |channels| && channels[k].id != id
      invariant k <= |channels|
      invariant forall i :: 0 <= i < k ==> channels[i].id != id
    {
      k := k + 1;
    }
  }
}
