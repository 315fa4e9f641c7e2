/** `DiscoveryViewModel`: the list of row objects, the index into it, and the progress callback that updates both. */
module DiscoveryViewModel {
  import opened Prelude
  import opened Ipv4Text
  import opened Discovery
  import opened DiscoveryScreen

  class RowItem {
    var device: Found

    constructor (device: Found)
      ensures this.device == device
    {
      this.device := device;
    }
  }

  ghost function Devices(items: seq<RowItem>): (devices: seq<Found>)
    reads items
    ensures |devices| == |items| && forall i | 0 <= i < |items| :: devices[i] == items[i].device
  {
    if items == [] then [] else Devices(items[..|items| - 1]) + [items[|items| - 1].device]
  }

  ghost predicate Distinct(items: seq<RowItem>) {
    forall i, j :: 0 <= i < j < |items| ==> items[i] != items[j]
  }

  ghost predicate Indexed(items: seq<RowItem>, index: map<string, RowItem>)
    reads items
  {
    forall i | 0 <= i < |items| :: items[i].device.address in index && index[items[i].device.address] == items[i]
  }

  ghost predicate Listed(items: seq<RowItem>, index: map<string, RowItem>)
    reads items
  {
    forall a | a in index :: index[a] in items && index[a].device.address == a
  }

  lemma InsertKeepsDistinct(items: seq<RowItem>, p: nat, row: RowItem)
    requires Distinct(items) && p <= |items| && row !in items
    ensures Distinct(items[..p] + [row] + items[p..])
  {
    var after := items[..p] + [row] + items[p..];
    forall i, j | 0 <= i < j < |after| ensures after[i] != after[j] {
      InsertAt(items, p, row, i);
      InsertAt(items, p, row, j);
    }
  }

  lemma InsertKeepsIndexed(items: seq<RowItem>, index: map<string, RowItem>, p: nat, row: RowItem)
    requires Indexed(items, index) && p <= |items| && row.device.address !in index
    ensures Indexed(items[..p] + [row] + items[p..], index[row.device.address := row])
  {
    var after := items[..p] + [row] + items[p..];
    var more := index[row.device.address := row];
    forall i | 0 <= i < |after| ensures after[i].device.address in more && more[after[i].device.address] == after[i] {
      InsertAt(items, p, row, i);
    }
  }

  lemma InsertKeepsListed(items: seq<RowItem>, index: map<string, RowItem>, p: nat, row: RowItem)
    requires Listed(items, index) && p <= |items|
    ensures Listed(items[..p] + [row] + items[p..], index[row.device.address := row])
  {
    var after := items[..p] + [row] + items[p..];
    var more := index[row.device.address := row];
    forall a | a in more ensures more[a] in after && more[a].device.address == a {
      if a != row.device.address {
        assert index[a] in items[..p] + items[p..] by {
          assert items == items[..p] + items[p..];
        }
      }
    }
  }

  lemma DevicesInsert(items: seq<RowItem>, p: nat, row: RowItem)
    requires p <= |items|
    ensures Devices(items[..p] + [row] + items[p..]) == Devices(items)[..p] + [row.device] + Devices(items)[p..]
  {
    hide Devices;
    var after := items[..p] + [row] + items[p..];
    var devices := Devices(items)[..p] + [row.device] + Devices(items)[p..];
    var shown := Devices(after);
    assert |shown| == |devices|;
    forall i | 0 <= i < |devices| ensures shown[i] == devices[i] {
      InsertAt(items, p, row, i);
      InsertAt(Devices(items), p, row.device, i);
    }
  }

  lemma NotIndexed(items: seq<RowItem>, index: map<string, RowItem>, address: string)
    requires Indexed(items, index) && address !in index
    ensures forall k | 0 <= k < |items| :: Devices(items)[k].address != address
  {
    hide Devices;
  }

  class ViewModel {
    var results: seq<RowItem>
    var byAddress: map<string, RowItem>
    var completed: nat
    var total: nat
    var scanGeneration: nat
    var isScanning: bool

    ghost function View(): Screen
      reads this, results
    {
      Screen(Devices(results), completed, total, scanGeneration, isScanning)
    }

    /** The index maps exactly the addresses shown to their rows. */
    ghost predicate Valid()
      reads this, results
    {
      Distinct(results) && Indexed(results, byAddress) && Listed(results, byAddress)
    }

    constructor ()
      ensures Valid() && View() == Screen([], 0, 0, 0, false)
    {
      results, byAddress, completed, total, scanGeneration, isScanning := [], map[], 0, 0, 0, false;
    }

    method BeginScan()
      requires Valid()
      modifies this
      ensures Valid() && View() == Next(old(View()), Event.BeginScan)
    {
      hide Distinct, Listed, Indexed, Devices;
      if !isScanning {
        isScanning := true;
        scanGeneration := scanGeneration + 1;
      }
    }

    method ClearScan()
      requires Valid()
      modifies this
      ensures Valid() && View() == Next(old(View()), Event.ClearScan)
    {
      results, byAddress, completed := [], map[], 0;
    }

    method Complete(scanned: nat)
      requires Valid()
      modifies this
      ensures Valid() && View() == Next(old(View()), Event.Complete(scanned))
    {
      hide Distinct, Listed, Indexed, Devices;
      completed := scanned;
    }

    method EndScan()
      requires Valid()
      modifies this
      ensures Valid() && View() == Next(old(View()), Event.EndScan)
    {
      hide Distinct, Listed, Indexed, Devices;
      isScanning := false;
    }

    /** The progress callback that captured `generation`. A device's address is one `Parse` reads. */
    method Report(generation: nat, cancelled: bool, u: Update)
      requires Valid()
      requires u.device.Some? ==> Parse(u.device.value.address).Some?
      modifies this, results
      ensures Valid()
      ensures forall r | r in results :: r in old(results) || fresh(r)
      ensures View() == Next(old(View()), Event.Report(generation, cancelled, u))
    {
      hide Show, Devices, Parse, Distinct, Listed, Indexed;
      if !isScanning || scanGeneration != generation || cancelled {
        return;
      }
      if u.completed > completed {
        completed := u.completed;
      }
      total := u.total;
      if u.device.Some? {
        ShowDevice(u.device.value);
      }
    }

    method ShowDevice(found: Found)
      requires Valid() && Parse(found.address).Some?
      modifies this`results, this`byAddress, results
      ensures Valid()
      ensures forall r | r in results :: r in old(results) || fresh(r)
      ensures Devices(results) == Show(old(Devices(results)), found)
    {
      hide Parse, Find, Position, Show;
      if found.address in byAddress {
        Replace(byAddress[found.address], found);
      } else {
        Insert(found);
      }
    }

    method Replace(row: RowItem, found: Found)
      requires Valid() && found.address in byAddress && row == byAddress[found.address]
      modifies row
      ensures Valid() && Devices(results) == Show(old(Devices(results)), found)
    {
      hide Parse, Find, Position, Devices;
      ghost var rows := Devices(results);
      ghost var i :| 0 <= i < |results| && results[i] == row;
      row.device := found;
      assert forall k | 0 <= k < |results| && k != i :: results[k] != row;
      assert Devices(results) == rows[i := found];
    }

    method Insert(found: Found)
      requires Valid() && Parse(found.address).Some? && found.address !in byAddress
      modifies this`results, this`byAddress
      ensures Valid()
      ensures forall r | r in results :: r in old(results) || fresh(r)
      ensures Devices(results) == Show(old(Devices(results)), found)
    {
      hide Parse, Find, Position, Devices, Distinct, Listed, Indexed, Keys;
      NotIndexed(results, byAddress, found.address);
      var position := PositionOf(Parse(found.address).value);
      NoneFound(Devices(results), found.address);
      var row := new RowItem(found);
      InsertKeepsDistinct(results, position, row);
      InsertKeepsIndexed(results, byAddress, position, row);
      InsertKeepsListed(results, byAddress, position, row);
      DevicesInsert(results, position, row);
      byAddress := byAddress[found.address := row];
      results := results[..position] + [row] + results[position..];
    }

    /** The loop that looks for the insertion point. */
    method PositionOf(ip: UInt32) returns (position: nat)
      ensures position <= |results| && position == Position(Keys(Devices(results)), ip)
    {
      hide Parse, Position;
      position := 0;
      while position < |results| && Parse(results[position].device.address).GetOr(0) < ip
        invariant position <= |results|
        invariant forall k :: 0 <= k < position ==> Keys(Devices(results))[k] < ip
      {
        position := position + 1;
      }
    }
  }

  lemma NoneFound(rows: seq<Found>, address: string)
    requires forall k | 0 <= k < |rows| :: rows[k].address != address
    ensures Find(rows, address) == |rows|
  {
  }

}
