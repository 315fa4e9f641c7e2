/** The rows a scan shows: one per address, in numeric order, whatever the order in which the updates arrive. */
module DiscoveryScreen {
  import opened Prelude
  import opened Ipv4Text
  import opened Discovery
  import NetworkDiscovery

  /** The number a row is ordered by; `Parse` throws where there is none, which no published address reaches. */
  function Key(d: Found): UInt32 {
    Parse(d.address).GetOr(0)
  }

  /** Where the row of an address is, or how many rows there are. */
  function Find(rows: seq<Found>, address: string): (i: nat)
    ensures i <= |rows|
    ensures i < |rows| ==> rows[i].address == address
    ensures forall k :: 0 <= k < i ==> rows[k].address != address
  {
    if rows == [] || rows[0].address == address then 0 else 1 + Find(rows[1..], address)
  }

  function Keys(rows: seq<Found>): (keys: seq<UInt32>)
    ensures |keys| == |rows|
    ensures forall i | 0 <= i < |rows| :: keys[i] == Key(rows[i])
  {
    seq(|rows|, i requires 0 <= i < |rows| => Key(rows[i]))
  }

  /** The first position whose key does not come before the address. */
  function Position(keys: seq<UInt32>, ip: UInt32): (i: nat)
    ensures i <= |keys|
    ensures forall k :: 0 <= k < i ==> keys[k] < ip
    ensures i < |keys| ==> ip <= keys[i]
  {
    if keys == [] || ip <= keys[0] then 0 else 1 + Position(keys[1..], ip)
  }

  /** The progress callback on the rows: a known address is replaced in place, a new one is inserted in order. */
  function Show(rows: seq<Found>, d: Found): seq<Found> {
    var i := Find(rows, d.address);
    if i < |rows| then rows[i := d] else
      var p := Position(Keys(rows), Key(d));
      rows[..p] + [d] + rows[p..]
  }

  function ShowAll(updates: seq<Found>): seq<Found> {
    if updates == [] then [] else Show(ShowAll(updates[..|updates| - 1]), updates[|updates| - 1])
  }

  ghost predicate Ascending(rows: seq<Found>) {
    forall i, j :: 0 <= i < j < |rows| ==> Key(rows[i]) < Key(rows[j])
  }

  /** The rows are exactly the latest update of each address. */
  ghost predicate Lists(rows: seq<Found>, shown: map<string, Found>) {
    && (forall i | 0 <= i < |rows| :: rows[i].address in shown && shown[rows[i].address] == rows[i])
    && (forall a | a in shown :: HasRow(rows, a))
  }

  ghost predicate HasRow(rows: seq<Found>, address: string) {
    exists i :: 0 <= i < |rows| && rows[i].address == address
  }

  /** Every address of the first has a row in the second. */
  ghost predicate Covers(a: seq<Found>, b: seq<Found>) {
    forall i | 0 <= i < |a| :: HasRow(b, a[i].address)
  }

  ghost predicate CanonicalRows(rows: seq<Found>) {
    forall i | 0 <= i < |rows| :: Canonical(rows[i].address)
  }

  lemma SameKeySameAddress(a: Found, b: Found)
    requires Canonical(a.address) && Canonical(b.address) && Key(a) == Key(b)
    ensures a.address == b.address
  {
  }

  lemma ReplaceKeepsRows(rows: seq<Found>, i: nat, d: Found, address: string)
    requires i < |rows| && rows[i].address == d.address && (address == d.address || HasRow(rows, address))
    ensures HasRow(rows[i := d], address)
  {
    if address == d.address {
      assert rows[i := d][i].address == address;
    } else {
      var k :| 0 <= k < |rows| && rows[k].address == address;
      assert rows[i := d][k].address == address;
    }
  }

  lemma ReplaceKeeps(rows: seq<Found>, shown: map<string, Found>, i: nat, d: Found)
    requires Ascending(rows) && Lists(rows, shown) && CanonicalRows(rows)
    requires i < |rows| && rows[i].address == d.address
    ensures var after := rows[i := d];
            Ascending(after) && Lists(after, shown[d.address := d]) && CanonicalRows(after)
  {
    hide Parse, Format, Canonical, HasRow;
    var after := rows[i := d];
    forall a | a in shown[d.address := d] ensures HasRow(after, a) {
      ReplaceKeepsRows(rows, i, d, a);
    }
    forall k | 0 <= k < |after|
      ensures after[k].address in shown[d.address := d]
      ensures shown[d.address := d][after[k].address] == after[k]
    {
      if k != i {
        assert Key(rows[k]) != Key(rows[i]);
      }
    }
  }

  lemma InsertAt<T>(rows: seq<T>, p: nat, d: T, k: nat)
    requires p <= |rows| && k <= |rows|
    ensures var after := rows[..p] + [d] + rows[p..];
            && |after| == |rows| + 1
            && after[k] == if k < p then rows[k] else if k == p then d else rows[k - 1]
  {
  }

  lemma InsertKeepsRows(rows: seq<Found>, p: nat, d: Found, address: string)
    requires p <= |rows| && (address == d.address || HasRow(rows, address))
    ensures HasRow(rows[..p] + [d] + rows[p..], address)
  {
    var after := rows[..p] + [d] + rows[p..];
    if address == d.address {
      assert after[p].address == address;
    } else {
      var k :| 0 <= k < |rows| && rows[k].address == address;
      InsertAt(rows, p, d, if k < p then k else k + 1);
      assert after[if k < p then k else k + 1].address == address;
    }
  }

  lemma InsertKeepsLists(rows: seq<Found>, shown: map<string, Found>, p: nat, d: Found)
    requires Lists(rows, shown) && CanonicalRows(rows) && Canonical(d.address) && p <= |rows|
    requires forall k :: 0 <= k < |rows| ==> rows[k].address != d.address
    ensures var after := rows[..p] + [d] + rows[p..];
            Lists(after, shown[d.address := d]) && CanonicalRows(after)
  {
    hide Canonical, HasRow;
    var after := rows[..p] + [d] + rows[p..];
    var later := shown[d.address := d];
    forall a | a in later ensures HasRow(after, a) {
      InsertKeepsRows(rows, p, d, a);
    }
    assert forall k | 0 <= k < |rows| :: rows[k].address in shown && rows[k].address != d.address;
    forall k | 0 <= k < |after|
      ensures after[k].address in later
      ensures later[after[k].address] == after[k]
      ensures Canonical(after[k].address)
    {
      InsertAt(rows, p, d, k);
    }
  }

  lemma ShowKeeps(rows: seq<Found>, shown: map<string, Found>, d: Found)
    requires Ascending(rows) && Lists(rows, shown) && CanonicalRows(rows) && Canonical(d.address)
    ensures var after := Show(rows, d);
            Ascending(after) && Lists(after, shown[d.address := d]) && CanonicalRows(after)
  {
    hide Lists, Find, Position, Canonical, Parse;
    var i := Find(rows, d.address);
    if i < |rows| {
      ReplaceKeeps(rows, shown, i, d);
    } else {
      var p := Position(Keys(rows), Key(d));
      forall k | p <= k < |rows| ensures Key(d) < Key(rows[k]) {
        AscendingFrom(rows, p, k);
        if Key(d) == Key(rows[k]) {
          SameKeySameAddress(d, rows[k]);
        }
      }
      InsertKeepsLists(rows, shown, p, d);
    }
  }

  lemma AscendingFrom(rows: seq<Found>, i: nat, j: nat)
    requires Ascending(rows) && i <= j < |rows|
    ensures Key(rows[i]) <= Key(rows[j])
  {
  }

  /** After any updates the rows ascend strictly and are exactly the latest update of each address. */
  lemma {:induction false} RowsAreTheLatestUpdates(updates: seq<Found>)
    requires CanonicalRows(updates)
    ensures Ascending(ShowAll(updates)) && CanonicalRows(ShowAll(updates))
    ensures Lists(ShowAll(updates), NetworkDiscovery.Shown(updates))
  {
    hide Show, Canonical;
    if updates == [] {
    } else {
      RowsAreTheLatestUpdates(updates[..|updates| - 1]);
      ShowKeeps(ShowAll(updates[..|updates| - 1]), NetworkDiscovery.Shown(updates[..|updates| - 1]), updates[|updates| - 1]);
    }
  }

  /** Rows in ascending order are determined by the addresses they show. */
  lemma {:induction false} SameAddressesSameOrder(a: seq<Found>, b: seq<Found>)
    requires Ascending(a) && Ascending(b) && Covers(a, b) && Covers(b, a)
    ensures |a| == |b| && forall i | 0 <= i < |a| :: a[i].address == b[i].address
  {
    hide Ascending, Covers, Key;
    if a == [] || b == [] {
      CoveredByNothing(a, b);
      CoveredByNothing(b, a);
    } else {
      SmallestFirst(a, b);
      RestMatches(a, b);
      RestMatches(b, a);
      SameAddressesSameOrder(a[1..], b[1..]);
      forall i | 0 <= i < |a| ensures a[i].address == b[i].address {
        if i > 0 {
          assert a[i] == a[1..][i - 1] && b[i] == b[1..][i - 1];
        }
      }
    }
  }

  lemma CoveredByNothing(a: seq<Found>, b: seq<Found>)
    requires Covers(a, b)
    ensures b == [] ==> a == []
  {
    if a != [] {
      assert HasRow(b, a[0].address);
    }
  }

  lemma SmallestFirst(a: seq<Found>, b: seq<Found>)
    requires Ascending(a) && Ascending(b) && Covers(a, b) && Covers(b, a) && a != [] && b != []
    ensures a[0].address == b[0].address
  {
    hide Parse;
    assert HasRow(b, a[0].address) && HasRow(a, b[0].address);
    var j :| 0 <= j < |b| && b[j].address == a[0].address;
    var i :| 0 <= i < |a| && a[i].address == b[0].address;
    AscendingFrom(b, 0, j);
    AscendingFrom(a, 0, i);
  }

  lemma RestMatches(a: seq<Found>, b: seq<Found>)
    requires Ascending(a) && a != [] && b != [] && a[0].address == b[0].address && Covers(a, b)
    ensures Covers(a[1..], b[1..]) && Ascending(a[1..])
  {
    hide Parse;
    forall i | 0 <= i < |a[1..]| ensures HasRow(b[1..], a[1..][i].address) {
      assert HasRow(b, a[i + 1].address);
      var j :| 0 <= j < |b| && b[j].address == a[i + 1].address;
      assert Key(a[0]) < Key(a[i + 1]);
      assert b[1..][j - 1] == b[j];
    }
  }

  lemma ListsCover(a: seq<Found>, shown: map<string, Found>, b: seq<Found>, other: map<string, Found>)
    requires Lists(a, shown) && Lists(b, other) && shown.Keys == other.Keys
    ensures Covers(a, b)
  {
    hide HasRow;
  }

  /** The order of the rows depends only on which addresses were seen, and the rows only on what was said last of each. */
  lemma RowOrderIgnoresArrival(us: seq<Found>, vs: seq<Found>)
    requires CanonicalRows(us) && CanonicalRows(vs)
    requires NetworkDiscovery.Shown(us).Keys == NetworkDiscovery.Shown(vs).Keys
    ensures |ShowAll(us)| == |ShowAll(vs)|
    ensures forall i | 0 <= i < |ShowAll(us)| :: ShowAll(us)[i].address == ShowAll(vs)[i].address
    ensures NetworkDiscovery.Shown(us) == NetworkDiscovery.Shown(vs) ==> ShowAll(us) == ShowAll(vs)
  {
    hide Show, ShowAll, NetworkDiscovery.Shown, Ascending, CanonicalRows, Covers, HasRow;
    RowsAreTheLatestUpdates(us);
    RowsAreTheLatestUpdates(vs);
    ListsCover(ShowAll(us), NetworkDiscovery.Shown(us), ShowAll(vs), NetworkDiscovery.Shown(vs));
    ListsCover(ShowAll(vs), NetworkDiscovery.Shown(vs), ShowAll(us), NetworkDiscovery.Shown(us));
    SameAddressesSameOrder(ShowAll(us), ShowAll(vs));
  }

  lemma {:induction false} ListsCount(rows: seq<Found>, shown: map<string, Found>)
    requires Lists(rows, shown) && forall i, j :: 0 <= i < j < |rows| ==> rows[i].address != rows[j].address
    ensures |rows| == |shown|
  {
    if rows == [] {
      assert forall a | a in shown :: HasRow(rows, a);
      assert shown.Keys == {};
    } else {
      var last := |rows| - 1;
      var rest := rows[..last];
      var less := shown - {rows[last].address};
      assert |less| == |shown| - 1 by {
        assert less.Keys == shown.Keys - {rows[last].address};
        assert |less.Keys| == |less| && |shown.Keys| == |shown|;
      }
      forall a | a in less ensures HasRow(rest, a) {
        assert HasRow(rows, a);
        var i :| 0 <= i < |rows| && rows[i].address == a;
        assert rest[i] == rows[i];
      }
      ListsCount(rest, less);
    }
  }

  /**
   * When a scan has ended and its reports were shown in the order they were made, the list is the scan's result table
   * in ascending order, one row per device found.
   */
  lemma FinishedScanIsListed(network: NetworkInterface, range: Range, events: seq<NetworkDiscovery.Event>)
    requires NetworkDiscovery.GoodRange(range) && NetworkDiscovery.CanonicalNeighbors(events)
    requires NetworkDiscovery.Run(NetworkDiscovery.Start(network, range), events).phase.Finished?
    ensures var s := NetworkDiscovery.Run(NetworkDiscovery.Start(network, range), events);
            && Ascending(ShowAll(s.reports)) && Lists(ShowAll(s.reports), s.results)
            && |ShowAll(s.reports)| == s.phase.found
  {
    hide Parse, Canonical, ShowAll, NetworkDiscovery.Run, NetworkDiscovery.Start, NetworkDiscovery.Shown,
      NetworkDiscovery.Inv, NetworkDiscovery.CanonicalNeighbors, NetworkDiscovery.Honest;
    var start := NetworkDiscovery.Start(network, range);
    var s := NetworkDiscovery.Run(start, events);
    NetworkDiscovery.FinishedScanIsShown(network, range, events);
    NetworkDiscovery.StartInv(network, range);
    NetworkDiscovery.StartIs(network, range);
    NetworkDiscovery.EveryScanKeepsInv(start, events);
    NetworkDiscovery.InvParts(s);
    NetworkDiscovery.CanonicalOverRun(start, events);
    RowsAreTheLatestUpdates(s.reports);
    ListsCount(ShowAll(s.reports), s.results);
  }

  // ---- Scans one after another ----

  datatype Update = Update(completed: nat, total: nat, device: Option<Found>)

  datatype Screen = Screen(rows: seq<Found>, completed: nat, total: nat, generation: nat, scanning: bool)

  /** `Report` carries the generation its callback captured and whether that scan's token is cancelled by then. */
  datatype Event =
    | BeginScan
    | ClearScan
    | Report(generation: nat, cancelled: bool, u: Update)
    | Complete(scanned: nat)
    | EndScan

  function Accept(s: Screen, u: Update): Screen {
    s.(completed := if s.completed >= u.completed then s.completed else u.completed,
       total := u.total,
       rows := if u.device.Some? then Show(s.rows, u.device.value) else s.rows)
  }

  function Next(s: Screen, e: Event): Screen {
    match e
    case BeginScan => if s.scanning then s else s.(scanning := true, generation := s.generation + 1)
    case ClearScan => s.(rows := [], completed := 0)
    case Report(generation, cancelled, u) => if !s.scanning || s.generation != generation || cancelled then s else Accept(s, u)
    case Complete(scanned) => s.(completed := scanned)
    case EndScan => s.(scanning := false)
  }

  function Run(s: Screen, events: seq<Event>): Screen
    decreases |events|
  {
    if events == [] then s else Run(Next(s, events[0]), events[1..])
  }

  function DropStale(events: seq<Event>, generation: nat): seq<Event> {
    if events == [] then [] else
      var rest := DropStale(events[1..], generation);
      if events[0].Report? && events[0].generation < generation then rest else [events[0]] + rest
  }

  /** Updates of earlier scans change nothing, however late they arrive. */
  lemma {:induction false} StaleUpdatesChangeNothing(s: Screen, events: seq<Event>, generation: nat)
    requires generation <= s.generation
    ensures Run(s, events) == Run(s, DropStale(events, generation))
    decreases |events|
  {
    hide Show;
    if events != [] {
      StaleUpdatesChangeNothing(Next(s, events[0]), events[1..], generation);
      var rest := DropStale(events[1..], generation);
      assert ([events[0]] + rest)[1..] == rest;
    }
  }

  /** The generation of the scan that a report belongs to is the only one whose reports count until the next scan. */
  function CurrentDevices(events: seq<Event>, generation: nat): seq<Found> {
    if events == [] then [] else
      var e := events[|events| - 1];
      var before := CurrentDevices(events[..|events| - 1], generation);
      if e.Report? && e.generation == generation && !e.cancelled && e.u.device.Some? then before + [e.u.device.value]
      else before
  }

  /** The report is of the scan of that generation, and its token is not cancelled. */
  predicate IsCurrent(e: Event, generation: nat) {
    e.Report? && e.generation == generation && !e.cancelled
  }

  /** The total the last current report names. */
  function LastTotal(events: seq<Event>, generation: nat, before: nat): nat {
    if events == [] then before
    else if IsCurrent(events[|events| - 1], generation) then events[|events| - 1].u.total
    else LastTotal(events[..|events| - 1], generation, before)
  }

  predicate OnlyReports(events: seq<Event>) {
    forall i | 0 <= i < |events| :: events[i].Report?
  }

  /** What may happen during a scan: reports arrive, of this or earlier scans, and the user asks for another scan. */
  predicate DuringScan(events: seq<Event>) {
    forall i | 0 <= i < |events| :: events[i].Report? || events[i].BeginScan?
  }

  lemma {:induction false} RunSnoc(s: Screen, events: seq<Event>)
    requires events != []
    ensures Run(s, events) == Next(Run(s, events[..|events| - 1]), events[|events| - 1])
    decreases |events|
  {
    hide Next;
    if |events| == 1 {
      assert events[1..] == [];
      assert Run(s, events) == Run(Next(s, events[0]), []);
      assert Run(s, events[..0]) == s;
    } else {
      RunSnoc(Next(s, events[0]), events[1..]);
      assert events[1..][..|events| - 2] == events[..|events| - 1][1..];
    }
  }

  lemma RunNone(s: Screen)
    ensures Run(s, []) == s
  {
  }

  /**
   * While a scan runs, its rows are its own reports shown from an empty list, and its count of checked addresses is the
   * largest one reported: it never goes back.
   */
  lemma {:induction false} ScreenShowsTheCurrentScan(s: Screen, events: seq<Event>)
    requires s.scanning && s.rows == [] && DuringScan(events)
    ensures var t := Run(s, events);
            && t.scanning && t.generation == s.generation && t.completed >= s.completed
            && t.rows == ShowAll(CurrentDevices(events, s.generation))
            && t.total == LastTotal(events, s.generation, s.total)
            && (forall i | 0 <= i < |events| && IsCurrent(events[i], s.generation) :: events[i].u.completed <= t.completed)
            && (t.completed == s.completed
                || exists i | 0 <= i < |events| :: IsCurrent(events[i], s.generation) && events[i].u.completed == t.completed)
    decreases |events|
  {
    hide Show, Run;
    if events != [] {
      var before := events[..|events| - 1];
      RunSnoc(s, events);
      ScreenShowsTheCurrentScan(s, before);
      assert forall i | 0 <= i < |before| :: before[i] == events[i];
      var devices := CurrentDevices(before, s.generation);
      var e := events[|events| - 1];
      if e.Report? && e.u.device.Some? {
        assert (devices + [e.u.device.value])[..|devices|] == devices;
      }
    } else {
      RunNone(s);
    }
  }

  lemma {:induction false} RunAppend(s: Screen, before: seq<Event>, after: seq<Event>)
    ensures Run(s, before + after) == Run(Run(s, before), after)
    decreases |before|
  {
    hide Next;
    if before == [] {
      assert before + after == after;
    } else {
      assert (before + after)[1..] == before[1..] + after;
      RunAppend(Next(s, before[0]), before[1..], after);
    }
  }

  lemma {:induction false} ReportsAreDropped(s: Screen, events: seq<Event>)
    requires if s.scanning then DuringScan(events) else OnlyReports(events)
    requires s.scanning ==> forall i | 0 <= i < |events| :: !IsCurrent(events[i], s.generation)
    ensures Run(s, events) == s
    decreases |events|
  {
    if events != [] {
      assert IsCurrent(events[0], s.generation) ==> !s.scanning;
      ReportsAreDropped(s, events[1..]);
    }
  }

  function ScanSoFar(stale: seq<Event>, reports: seq<Event>): seq<Event> {
    [BeginScan] + (stale + ([ClearScan] + reports))
  }

  /**
   * A scan under way on a screen that showed anything before, whatever reports of earlier scans arrive before the list is
   * cleared: its rows are its own reports, and it has counted as far as the largest one reported.
   */
  lemma ScanInProgress(s: Screen, stale: seq<Event>, reports: seq<Event>)
    requires !s.scanning && DuringScan(stale) && DuringScan(reports)
    requires forall i | 0 <= i < |stale| :: !IsCurrent(stale[i], s.generation + 1)
    ensures var t, generation := Run(s, ScanSoFar(stale, reports)), s.generation + 1;
            && t == Screen(ShowAll(CurrentDevices(reports, generation)), t.completed, LastTotal(reports, generation, s.total),
                           generation, true)
            && (forall i | 0 <= i < |reports| && IsCurrent(reports[i], generation) :: reports[i].u.completed <= t.completed)
            && (t.completed == 0
                || exists i | 0 <= i < |reports| :: IsCurrent(reports[i], generation) && reports[i].u.completed == t.completed)
  {
    hide Show, Run, ShowAll, CurrentDevices, LastTotal;
    var tail := [ClearScan] + reports;
    RunStep(s, BeginScan, stale + tail);
    var s1 := Next(s, BeginScan);
    RunAppend(s1, stale, tail);
    ReportsAreDropped(s1, stale);
    RunStep(s1, ClearScan, reports);
    ScreenShowsTheCurrentScan(Next(s1, ClearScan), reports);
  }

  function ScanEvents(stale: seq<Event>, reports: seq<Event>, scanned: nat, late: seq<Event>): seq<Event> {
    ScanSoFar(stale, reports) + ([Complete(scanned)] + ([EndScan] + late))
  }

  /** When it ends, the rows stay, whatever arrives afterwards, and the count is what the scan says. */
  lemma ScanStartsAfresh(s: Screen, stale: seq<Event>, reports: seq<Event>, scanned: nat, late: seq<Event>)
    requires !s.scanning && DuringScan(stale) && DuringScan(reports) && OnlyReports(late)
    requires forall i | 0 <= i < |stale| :: !IsCurrent(stale[i], s.generation + 1)
    ensures var t := Run(s, ScanEvents(stale, reports, scanned, late));
            t == Screen(ShowAll(CurrentDevices(reports, s.generation + 1)), scanned,
                        LastTotal(reports, s.generation + 1, s.total), s.generation + 1, false)
  {
    hide Show, Run, ShowAll, CurrentDevices, LastTotal;
    var tail4 := [EndScan] + late;
    var tail3 := [Complete(scanned)] + tail4;
    RunAppend(s, ScanSoFar(stale, reports), tail3);
    ScanInProgress(s, stale, reports);
    var s3 := Run(s, ScanSoFar(stale, reports));
    RunStep(s3, Complete(scanned), tail4);
    RunStep(Next(s3, Complete(scanned)), EndScan, late);
    ReportsAreDropped(Next(Next(s3, Complete(scanned)), EndScan), late);
  }

  lemma RunStep(s: Screen, e: Event, rest: seq<Event>)
    ensures Run(s, [e] + rest) == Run(Next(s, e), rest)
  {
    hide Next;
    assert ([e] + rest)[1..] == rest;
  }
}
