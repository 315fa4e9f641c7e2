/** How observations of one device converge, whatever order they arrive in. */
module Observations {
  import opened Prelude
  import opened Devices
  import opened InventoryRules
  import opened DeviceRepository

  datatype Arrival = Arrival(observation: StatusObservation, verifyWake: bool)

  predicate Observation(a: Arrival) {
    !a.observation.state.Waking?
  }

  /** The table after all `arrivals`, made on `expected`, were applied in that order. */
  function ApplyAll(t: Table, expected: Device, arrivals: seq<Arrival>): (t': Table)
    ensures t'.Keys == t.Keys
  {
    if arrivals == [] then t else
      var last := arrivals[|arrivals| - 1];
      ObserveStep(ApplyAll(t, expected, arrivals[..|arrivals| - 1]), expected, last.observation, last.verifyWake, Never).0
  }

  predicate AtOrBefore(a: Option<Time>, b: Option<Time>) {
    a.Some? ==> b.Some? && a.value <= b.value
  }

  /** The device was never seen online later than it was last checked. */
  predicate SeenByCheck(d: Device) {
    AtOrBefore(d.lastSeen, d.lastChecked)
  }

  /** `i` is the last arrival among the newest ones, and no older than what was stored. */
  predicate DecidedBy(stored: Device, arrivals: seq<Arrival>, i: int, final: Device) {
    && 0 <= i < |arrivals|
    && final.lastKnownState == arrivals[i].observation.state
    && final.lastChecked == Some(arrivals[i].observation.checkedAt)
    && AtOrBefore(stored.lastChecked, final.lastChecked)
    && (forall j | 0 <= j < |arrivals| :: arrivals[j].observation.checkedAt <= arrivals[i].observation.checkedAt)
    && (forall j | i < j < |arrivals| :: arrivals[j].observation.checkedAt < arrivals[i].observation.checkedAt)
  }

  predicate AllOlder(stored: Device, arrivals: seq<Arrival>) {
    forall j | 0 <= j < |arrivals| :: NewerThan(stored.lastChecked, arrivals[j].observation.checkedAt)
  }

  ghost predicate Decided(stored: Device, arrivals: seq<Arrival>, final: Device) {
    if AllOlder(stored, arrivals) then
      final.lastKnownState == stored.lastKnownState && final.lastChecked == stored.lastChecked
    else exists i :: DecidedBy(stored, arrivals, i, final)
  }

  /**
   * Whatever the order, the stored state ends up being that of the newest observation (of several equally
   * new ones, the last to arrive), or stays as it was when all of them are older than the stored check.
   */
  lemma {:induction false} NewestArrivalWins(t: Table, expected: Device, arrivals: seq<Arrival>)
    requires expected.id in t && SameStatus(t[expected.id].document, expected)
    requires forall i | 0 <= i < |arrivals| :: Observation(arrivals[i])
    ensures var t' := ApplyAll(t, expected, arrivals);
            && expected.id in t' && SameStatus(t'[expected.id].document, expected)
            && Decided(t[expected.id].document, arrivals, t'[expected.id].document)
  {
    hide Decided;
    if arrivals == [] {
      NothingDecided(t[expected.id].document);
    } else {
      var n := |arrivals| - 1;
      var front, last := arrivals[..n], arrivals[n];
      NewestArrivalWins(t, expected, front);
      var mid := ApplyAll(t, expected, front)[expected.id].document;
      assert arrivals == front + [last];
      DecidedNext(t[expected.id].document, front, last, mid, ApplyAll(t, expected, arrivals)[expected.id].document);
    }
  }

  lemma NothingDecided(stored: Device)
    ensures Decided(stored, [], stored)
  {
  }

  /** One more arrival takes over, or is older and changes nothing. */
  lemma DecidedNext(stored: Device, front: seq<Arrival>, last: Arrival, mid: Device, final: Device)
    requires Decided(stored, front, mid)
    requires if NewerThan(mid.lastChecked, last.observation.checkedAt) then final == mid else
               final.lastKnownState == last.observation.state && final.lastChecked == Some(last.observation.checkedAt)
    ensures Decided(stored, front + [last], final)
  {
    var arrivals, n := front + [last], |front|;
    if !NewerThan(mid.lastChecked, last.observation.checkedAt) {
      if !AllOlder(stored, front) {
        var i :| DecidedBy(stored, front, i, mid);
      }
      assert DecidedBy(stored, arrivals, n, final);
      assert !NewerThan(stored.lastChecked, arrivals[n].observation.checkedAt);
    } else if AllOlder(stored, front) {
      assert AllOlder(stored, arrivals);
    } else {
      var i :| DecidedBy(stored, front, i, mid);
      assert DecidedBy(stored, arrivals, i, final);
      var j :| 0 <= j < n && !NewerThan(stored.lastChecked, front[j].observation.checkedAt);
      assert arrivals[j] == front[j];
    }
  }

  predicate IsNewest(arrivals: seq<Arrival>, i: int)
    requires 0 <= i < |arrivals|
  {
    forall j | 0 <= j < |arrivals| :: arrivals[j].observation.checkedAt <= arrivals[i].observation.checkedAt
  }

  /** The newest arrivals, if there are several, report the same state; distinct times satisfy this. */
  predicate NewestAgree(arrivals: seq<Arrival>) {
    forall i, j | 0 <= i < |arrivals| && 0 <= j < |arrivals| && IsNewest(arrivals, i) && IsNewest(arrivals, j) ::
      arrivals[i].observation.state == arrivals[j].observation.state
  }

  ghost predicate SameEnd(t: Table, expected: Device, a: seq<Arrival>, b: seq<Arrival>)
    requires expected.id in t
  {
    var d, e := ApplyAll(t, expected, a)[expected.id].document, ApplyAll(t, expected, b)[expected.id].document;
    d.lastKnownState == e.lastKnownState && d.lastChecked == e.lastChecked
  }

  /** The final state and check time do not depend on the order of arrival. */
  lemma OrderOfArrivalDoesNotMatter(t: Table, expected: Device, arrivals: seq<Arrival>, reordered: seq<Arrival>)
    requires expected.id in t && SameStatus(t[expected.id].document, expected)
    requires forall i | 0 <= i < |arrivals| :: Observation(arrivals[i])
    requires multiset(reordered) == multiset(arrivals)
    requires AllOlder(t[expected.id].document, arrivals) || NewestAgree(arrivals)
    ensures SameEnd(t, expected, arrivals, reordered)
  {
    hide ApplyAll, AllOlder, NewestAgree, DecidedBy, SameStatus;
    SameElements(arrivals, reordered);
    forall i | 0 <= i < |reordered| ensures Observation(reordered[i]) {
      var k := IndexIn(arrivals, reordered, i);
    }
    NewestArrivalWins(t, expected, arrivals);
    NewestArrivalWins(t, expected, reordered);
    var stored := t[expected.id].document;
    var a, b := ApplyAll(t, expected, arrivals)[expected.id].document, ApplyAll(t, expected, reordered)[expected.id].document;
    OlderInAnyOrder(stored, arrivals, reordered);
    OlderInAnyOrder(stored, reordered, arrivals);
    if !AllOlder(stored, arrivals) {
      var i :| DecidedBy(stored, arrivals, i, a);
      var j :| DecidedBy(stored, reordered, j, b);
      SameDecision(stored, arrivals, reordered, i, j, a, b);
    }
  }

  lemma OlderInAnyOrder(stored: Device, a: seq<Arrival>, b: seq<Arrival>)
    requires multiset(a) == multiset(b)
    ensures AllOlder(stored, a) ==> AllOlder(stored, b)
  {
    SameElements(a, b);
    if AllOlder(stored, a) {
      forall i | 0 <= i < |b| ensures NewerThan(stored.lastChecked, b[i].observation.checkedAt) {
        var k := IndexIn(a, b, i);
      }
    }
  }

  lemma SameDecision(stored: Device, a: seq<Arrival>, b: seq<Arrival>, i: int, j: int, d: Device, e: Device)
    requires multiset(a) == multiset(b) && NewestAgree(a) && DecidedBy(stored, a, i, d) && DecidedBy(stored, b, j, e)
    ensures d.lastKnownState == e.lastKnownState && d.lastChecked == e.lastChecked
  {
    SameElements(a, b);
    SameElements(b, a);
    var k := IndexIn(a, b, j);
    var l := IndexIn(b, a, i);
    assert IsNewest(a, i) && IsNewest(a, k);
  }

  /** The same arrivals with the `i`-th one coming last. */
  function LateComer(arrivals: seq<Arrival>, i: nat): (r: seq<Arrival>)
    requires i < |arrivals|
    ensures |r| == |arrivals| && r[|r| - 1] == arrivals[i]
  {
    arrivals[..i] + arrivals[i + 1..] + [arrivals[i]]
  }

  lemma LateComerReorders(arrivals: seq<Arrival>, i: nat)
    requires i < |arrivals|
    ensures multiset(LateComer(arrivals, i)) == multiset(arrivals)
  {
    assert arrivals == arrivals[..i] + [arrivals[i]] + arrivals[i + 1..];
  }

  /** A newest observation that arrives last decides. */
  lemma LateComerDecides(t: Table, expected: Device, arrivals: seq<Arrival>, i: nat)
    requires expected.id in t && SameStatus(t[expected.id].document, expected)
    requires forall k | 0 <= k < |arrivals| :: Observation(arrivals[k])
    requires i < |arrivals| && IsNewest(arrivals, i) && !AllOlder(t[expected.id].document, arrivals)
    ensures ApplyAll(t, expected, LateComer(arrivals, i))[expected.id].document.lastKnownState == arrivals[i].observation.state
  {
    hide ApplyAll, LateComer;
    var late := LateComer(arrivals, i);
    var stored := t[expected.id].document;
    LateComerReorders(arrivals, i);
    SameElements(arrivals, late);
    forall k | 0 <= k < |late|
      ensures Observation(late[k])
      ensures late[k].observation.checkedAt <= arrivals[i].observation.checkedAt
    {
      var l := IndexIn(arrivals, late, k);
    }
    OlderInAnyOrder(stored, late, arrivals);
    NewestArrivalWins(t, expected, late);
    var final := ApplyAll(t, expected, late)[expected.id].document;
    var k :| DecidedBy(stored, late, k, final);
    assert late[|late| - 1].observation.checkedAt <= late[k].observation.checkedAt;
  }

  ghost predicate Converges(t: Table, expected: Device, arrivals: seq<Arrival>)
    requires expected.id in t
  {
    forall a, b | multiset(a) == multiset(arrivals) && multiset(b) == multiset(arrivals) :: SameEnd(t, expected, a, b)
  }

  /**
   * Observations of one target converge in every order of arrival exactly when they are all older than what is stored,
   * or the newest of them report one state.
   */
  lemma ConvergesIffNewestAgree(t: Table, expected: Device, arrivals: seq<Arrival>)
    requires expected.id in t && SameStatus(t[expected.id].document, expected)
    requires forall i | 0 <= i < |arrivals| :: Observation(arrivals[i])
    ensures Converges(t, expected, arrivals) <==> AllOlder(t[expected.id].document, arrivals) || NewestAgree(arrivals)
  {
    hide ApplyAll, LateComer, SameStatus, AllOlder, IsNewest;
    if AllOlder(t[expected.id].document, arrivals) || NewestAgree(arrivals) {
      forall a, b | multiset(a) == multiset(arrivals) && multiset(b) == multiset(arrivals)
        ensures SameEnd(t, expected, a, b)
      {
        OrderOfArrivalDoesNotMatter(t, expected, arrivals, a);
        OrderOfArrivalDoesNotMatter(t, expected, arrivals, b);
      }
    } else {
      var i, j :| 0 <= i < |arrivals| && 0 <= j < |arrivals| && IsNewest(arrivals, i) && IsNewest(arrivals, j)
                  && arrivals[i].observation.state != arrivals[j].observation.state;
      LateComerReorders(arrivals, i);
      LateComerReorders(arrivals, j);
      LateComerDecides(t, expected, arrivals, i);
      LateComerDecides(t, expected, arrivals, j);
      assert !SameEnd(t, expected, LateComer(arrivals, i), LateComer(arrivals, j));
    }
  }

  lemma SameElements(a: seq<Arrival>, b: seq<Arrival>)
    requires multiset(a) == multiset(b)
    ensures forall x | x in b :: x in a
  {
    forall x | x in b ensures x in a {
      assert x in multiset(b);
    }
  }

  lemma IndexIn(a: seq<Arrival>, b: seq<Arrival>, i: int) returns (k: int)
    requires 0 <= i < |b| && forall x | x in b :: x in a
    ensures 0 <= k < |a| && a[k] == b[i]
  {
    assert b[i] in a;
    k :| 0 <= k < |a| && a[k] == b[i];
  }

  lemma ApplyTwo(t: Table, expected: Device, a: Arrival, b: Arrival)
    ensures var mid := ObserveStep(t, expected, a.observation, a.verifyWake, Never).0;
            ApplyAll(t, expected, [a, b]) == ObserveStep(mid, expected, b.observation, b.verifyWake, Never).0
  {
    hide ObserveStep;
    assert [a, b][..1] == [a] && [a][..0] == [];
    assert ApplyAll(t, expected, [a]) == ObserveStep(t, expected, a.observation, a.verifyWake, Never).0;
  }

  /**
   * `LastSeen` does not converge in this way: an Online observation that arrives after a newer Offline one
   * is dropped, so the device keeps an older `LastSeen` than in the other order.
   */
  lemma LastSeenDependsOnOrder(t: Table, expected: Device, online: Arrival, offline: Arrival)
    requires expected.id in t && SameStatus(t[expected.id].document, expected)
    requires t[expected.id].document.lastChecked == None && t[expected.id].document.lastSeen == None
    requires online.observation.state.Online? && offline.observation.state.Offline?
    requires online.observation.checkedAt < offline.observation.checkedAt
    ensures ApplyAll(t, expected, [online, offline])[expected.id].document.lastSeen == Some(online.observation.checkedAt)
    ensures ApplyAll(t, expected, [offline, online])[expected.id].document.lastSeen == None
  {
    hide ApplyAll;
    ApplyTwo(t, expected, online, offline);
    ApplyTwo(t, expected, offline, online);
  }

  // ---------------------------------------------------------------- when LastSeen converges

  /** Not older than the stored check. */
  predicate Relevant(stored: Device, a: Arrival) {
    !NewerThan(stored.lastChecked, a.observation.checkedAt)
  }

  predicate OnlineNewest(stored: Device, arrivals: seq<Arrival>) {
    exists i | 0 <= i < |arrivals| ::
      IsNewest(arrivals, i) && Relevant(stored, arrivals[i]) && arrivals[i].observation.state.Online?
  }

  /** Whatever sighting could be taken over is the stored one already. */
  predicate NothingNewSeen(stored: Device, arrivals: seq<Arrival>) {
    forall i | 0 <= i < |arrivals| && Relevant(stored, arrivals[i]) && arrivals[i].observation.state.Online? ::
      stored.lastSeen == Some(arrivals[i].observation.checkedAt)
  }

  /** `t` has the device, with the probe target of the observations, and they are observations. */
  predicate Applicable(t: Table, expected: Device, arrivals: seq<Arrival>) {
    && expected.id in t && SameStatus(t[expected.id].document, expected)
    && forall i | 0 <= i < |arrivals| :: Observation(arrivals[i])
  }

  function After(t: Table, expected: Device, arrivals: seq<Arrival>): Device
    requires expected.id in t
  {
    ApplyAll(t, expected, arrivals)[expected.id].document
  }

  /** The last arrival is taken over if it is not older than the latest check so far, and dropped otherwise. */
  lemma LastArrival(t: Table, expected: Device, front: seq<Arrival>, last: Arrival)
    requires Applicable(t, expected, front + [last])
    ensures Applicable(t, expected, front)
    ensures var mid := After(t, expected, front);
            After(t, expected, front + [last])
              == if Relevant(mid, last) then WithObservation(mid, expected, last.observation, last.verifyWake) else mid
  {
    hide WithObservation, SameStatus;
    assert (front + [last])[..|front|] == front;
    forall i | 0 <= i < |front| ensures Observation(front[i]) {
      assert (front + [last])[i] == front[i];
    }
    assert Observation((front + [last])[|front|]);
    NewestArrivalWins(t, expected, front);
  }

  /** How far the check time has come. */
  lemma CheckedSoFar(t: Table, expected: Device, arrivals: seq<Arrival>)
    requires Applicable(t, expected, arrivals)
    ensures var stored, final := t[expected.id].document, After(t, expected, arrivals);
            && AtOrBefore(stored.lastChecked, final.lastChecked)
            && (final.lastChecked == stored.lastChecked
                || exists i :: 0 <= i < |arrivals| && final.lastChecked == Some(arrivals[i].observation.checkedAt))
            && (forall i | 0 <= i < |arrivals| && Relevant(stored, arrivals[i]) ::
                  AtOrBefore(Some(arrivals[i].observation.checkedAt), final.lastChecked))
  {
    hide ApplyAll, SameStatus;
    NewestArrivalWins(t, expected, arrivals);
  }

  /**
   * LastSeen ends as the stored one or as the time of a relevant Online arrival, and as that of a newest one if it is such.
   */
  lemma {:induction false} SeenSoFar(t: Table, expected: Device, arrivals: seq<Arrival>)
    requires Applicable(t, expected, arrivals)
    ensures var stored, final := t[expected.id].document, After(t, expected, arrivals);
            && (NothingNewSeen(stored, arrivals) ==> final.lastSeen == stored.lastSeen)
            && (forall i | 0 <= i < |arrivals| && IsNewest(arrivals, i) && Relevant(stored, arrivals[i])
                           && arrivals[i].observation.state.Online? ::
                  final.lastSeen == Some(arrivals[i].observation.checkedAt))
  {
    hide ApplyAll, SameStatus, Verifies;
    var stored := t[expected.id].document;
    if arrivals == [] {
      NoArrivals(t, expected);
    } else {
      var n := |arrivals| - 1;
      var front, last := arrivals[..n], arrivals[n];
      assert arrivals == front + [last];
      LastArrival(t, expected, front, last);
      SeenSoFar(t, expected, front);
      CheckedSoFar(t, expected, front);
      var mid := After(t, expected, front);
      forall i | 0 <= i < |arrivals| && IsNewest(arrivals, i) && Relevant(stored, arrivals[i])
                 && arrivals[i].observation.state.Online?
        ensures After(t, expected, arrivals).lastSeen == Some(arrivals[i].observation.checkedAt)
      {
        if i < n {
          assert front[i] == arrivals[i] && IsNewest(front, i);
          assert arrivals[n].observation.checkedAt <= arrivals[i].observation.checkedAt;
        }
      }
    }
  }

  lemma NoArrivals(t: Table, expected: Device)
    requires expected.id in t
    ensures After(t, expected, []) == t[expected.id].document
  {
  }

  /** Behind a newest arrival that is not Online, when none of the newest is, no sighting is taken over any more. */
  lemma {:induction false} NewestFirstHidesSightings(t: Table, expected: Device, arrivals: seq<Arrival>)
    requires Applicable(t, expected, arrivals) && arrivals != [] && IsNewest(arrivals, 0)
    requires Relevant(t[expected.id].document, arrivals[0])
    requires forall i | 0 <= i < |arrivals| && IsNewest(arrivals, i) :: !arrivals[i].observation.state.Online?
    ensures var final := After(t, expected, arrivals);
            final.lastSeen == t[expected.id].document.lastSeen && final.lastChecked == Some(arrivals[0].observation.checkedAt)
  {
    hide ApplyAll, SameStatus, Verifies;
    var n := |arrivals| - 1;
    var front, last := arrivals[..n], arrivals[n];
    assert arrivals == front + [last];
    LastArrival(t, expected, front, last);
    if n == 0 {
      assert front == [];
      NoArrivals(t, expected);
    } else {
      forall i | 0 <= i < |front| && IsNewest(front, i) ensures !front[i].observation.state.Online? {
        assert front[i] == arrivals[i] && front[0] == arrivals[0];
        assert front[0].observation.checkedAt <= front[i].observation.checkedAt;
        assert IsNewest(arrivals, i);
      }
      assert IsNewest(front, 0);
      NewestFirstHidesSightings(t, expected, front);
      if last.observation.checkedAt == arrivals[0].observation.checkedAt {
        assert IsNewest(arrivals, n);
      }
    }
  }

  lemma {:induction false} FirstArrival(t: Table, expected: Device, a: Arrival, rest: seq<Arrival>)
    requires expected.id in t
    ensures After(t, expected, [a] + rest)
              == After(ObserveStep(t, expected, a.observation, a.verifyWake, Never).0, expected, rest)
    ensures ApplyAll(t, expected, [a] + rest)
              == ApplyAll(ObserveStep(t, expected, a.observation, a.verifyWake, Never).0, expected, rest)
  {
    hide ObserveStep;
    if rest == [] {
      assert [a] + rest == [a] && [a][..0] == [];
      assert ApplyAll(t, expected, []) == t;
    } else {
      var front := rest[..|rest| - 1];
      FirstArrival(t, expected, a, front);
      assert ([a] + rest)[..|rest|] == [a] + front;
    }
  }

  /** The others, in their order. */
  function Others(arrivals: seq<Arrival>, i: nat): seq<Arrival>
    requires i < |arrivals|
  {
    arrivals[..i] + arrivals[i + 1..]
  }

  lemma FirstComerReorders(arrivals: seq<Arrival>, i: nat)
    requires i < |arrivals|
    ensures multiset([arrivals[i]] + Others(arrivals, i)) == multiset(arrivals)
  {
    assert arrivals == arrivals[..i] + [arrivals[i]] + arrivals[i + 1..];
  }

  ghost predicate SeenConverges(t: Table, expected: Device, arrivals: seq<Arrival>)
    requires expected.id in t
  {
    forall a, b | multiset(a) == multiset(arrivals) && multiset(b) == multiset(arrivals) ::
      After(t, expected, a).lastSeen == After(t, expected, b).lastSeen
  }

  /** The conditions do not depend on the order either. */
  lemma ConditionsIgnoreOrder(t: Table, expected: Device, arrivals: seq<Arrival>, reordered: seq<Arrival>)
    requires Applicable(t, expected, arrivals) && multiset(reordered) == multiset(arrivals)
    ensures Applicable(t, expected, reordered)
    ensures var stored := t[expected.id].document;
            && (NothingNewSeen(stored, arrivals) ==> NothingNewSeen(stored, reordered))
            && (forall i | 0 <= i < |arrivals| && IsNewest(arrivals, i) && Relevant(stored, arrivals[i])
                           && arrivals[i].observation.state.Online? ::
                  exists k :: 0 <= k < |reordered| && reordered[k] == arrivals[i] && IsNewest(reordered, k))
  {
    hide SameStatus;
    SameElements(arrivals, reordered);
    SameElements(reordered, arrivals);
    forall k | 0 <= k < |reordered| ensures exists i :: 0 <= i < |arrivals| && arrivals[i] == reordered[k] {
      var i := IndexIn(arrivals, reordered, k);
    }
    forall i | 0 <= i < |arrivals| && IsNewest(arrivals, i)
      ensures exists k :: 0 <= k < |reordered| && reordered[k] == arrivals[i] && IsNewest(reordered, k)
    {
      var k := IndexIn(reordered, arrivals, i);
      assert IsNewest(reordered, k);
    }
  }

  lemma SeenConvergesIf(t: Table, expected: Device, arrivals: seq<Arrival>)
    requires Applicable(t, expected, arrivals)
    requires OnlineNewest(t[expected.id].document, arrivals) || NothingNewSeen(t[expected.id].document, arrivals)
    ensures SeenConverges(t, expected, arrivals)
  {
    hide After, NothingNewSeen, IsNewest, Relevant;
    forall a, b | multiset(a) == multiset(arrivals) && multiset(b) == multiset(arrivals)
      ensures After(t, expected, a).lastSeen == After(t, expected, b).lastSeen
    {
      ConditionsIgnoreOrder(t, expected, arrivals, a);
      ConditionsIgnoreOrder(t, expected, arrivals, b);
      SeenSoFar(t, expected, a);
      SeenSoFar(t, expected, b);
    }
  }

  /** A newest arrival exists, and every relevant one is dominated by it. */
  lemma {:induction false} SomeNewest(arrivals: seq<Arrival>) returns (n: nat)
    requires arrivals != []
    ensures n < |arrivals| && IsNewest(arrivals, n)
  {
    var last := |arrivals| - 1;
    if last == 0 {
      n := 0;
    } else {
      n := SomeNewest(arrivals[..last]);
      assert forall j | 0 <= j < last :: arrivals[..last][j] == arrivals[j];
      if arrivals[n].observation.checkedAt < arrivals[last].observation.checkedAt {
        n := last;
      }
    }
  }

  /** Neither condition: one order ends with the sighting of `x`, another with the stored one. */
  lemma SeenDivergesUnless(t: Table, expected: Device, arrivals: seq<Arrival>)
    requires Applicable(t, expected, arrivals)
    requires !OnlineNewest(t[expected.id].document, arrivals) && !NothingNewSeen(t[expected.id].document, arrivals)
    ensures !SeenConverges(t, expected, arrivals)
  {
    hide ApplyAll, ObserveStep, Others, SameStatus;
    var stored := t[expected.id].document;
    var x :| 0 <= x < |arrivals| && Relevant(stored, arrivals[x]) && arrivals[x].observation.state.Online?
             && stored.lastSeen != Some(arrivals[x].observation.checkedAt);
    var n := SomeNewest(arrivals);
    assert n != x;
    var b := [arrivals[n]] + Others(arrivals, n);
    FirstComerReorders(arrivals, n);
    NewestStaysDark(t, expected, arrivals, b, n);
    var rest := Others(arrivals, x);
    FirstComerReorders(arrivals, x);
    SightingSurvives(t, expected, arrivals, rest, x, n);
  }

  /** The order that begins with the newest arrival. */
  lemma NewestStaysDark(t: Table, expected: Device, arrivals: seq<Arrival>, b: seq<Arrival>, n: nat)
    requires Applicable(t, expected, arrivals) && !OnlineNewest(t[expected.id].document, arrivals)
    requires n < |arrivals| && IsNewest(arrivals, n) && Relevant(t[expected.id].document, arrivals[n])
    requires multiset(b) == multiset(arrivals) && b != [] && b[0] == arrivals[n]
    ensures After(t, expected, b).lastSeen == t[expected.id].document.lastSeen
  {
    hide ApplyAll, SameStatus, After;
    ConditionsIgnoreOrder(t, expected, arrivals, b);
    SameElements(arrivals, b);
    forall k | 0 <= k < |b| ensures b[k].observation.checkedAt <= b[0].observation.checkedAt {
      var i := IndexIn(arrivals, b, k);
    }
    forall k | 0 <= k < |b| && IsNewest(b, k) ensures !b[k].observation.state.Online? {
      var i := IndexIn(arrivals, b, k);
      assert b[0].observation.checkedAt <= b[k].observation.checkedAt;
      assert IsNewest(arrivals, i);
    }
    NewestFirstHidesSightings(t, expected, b);
  }

  /** The order that begins with the sighting, followed by the newest arrival. */
  lemma SightingSurvives(t: Table, expected: Device, arrivals: seq<Arrival>, rest: seq<Arrival>, x: nat, n: nat)
    requires Applicable(t, expected, arrivals) && !OnlineNewest(t[expected.id].document, arrivals)
    requires x < |arrivals| && Relevant(t[expected.id].document, arrivals[x]) && arrivals[x].observation.state.Online?
    requires n < |arrivals| && IsNewest(arrivals, n) && multiset([arrivals[x]] + rest) == multiset(arrivals)
    ensures exists a :: multiset(a) == multiset(arrivals)
                        && After(t, expected, a).lastSeen == Some(arrivals[x].observation.checkedAt)
  {
    hide ApplyAll, Others, After, Verifies;
    var sighting := arrivals[x];
    SameElements([sighting] + rest, arrivals);
    var k := IndexIn([sighting] + rest, arrivals, n);
    var m := k - 1;
    assert rest[m] == arrivals[n];
    var tail := [rest[m]] + Others(rest, m);
    FirstComerReorders(rest, m);
    var a := [sighting] + tail;
    assert multiset(a) == multiset(arrivals);
    ConditionsIgnoreOrder(t, expected, arrivals, a);
    var t1 := ObserveStep(t, expected, sighting.observation, sighting.verifyWake, Never).0;
    FirstArrival(t, expected, sighting, tail);
    assert Applicable(t1, expected, tail) by {
      forall i | 0 <= i < |tail| ensures Observation(tail[i]) {
        assert a[i + 1] == tail[i];
      }
    }
    TailStaysDark(t, t1, expected, arrivals, a, tail);
  }

  lemma TailStaysDark(t: Table, t1: Table, expected: Device, arrivals: seq<Arrival>, a: seq<Arrival>, tail: seq<Arrival>)
    requires Applicable(t, expected, arrivals) && !OnlineNewest(t[expected.id].document, arrivals)
    requires multiset(a) == multiset(arrivals) && |a| >= 2 && a == [a[0]] + tail && Applicable(t1, expected, tail)
    requires Relevant(t[expected.id].document, a[0]) && t1[expected.id].document.lastChecked == Some(a[0].observation.checkedAt)
    requires a[0].observation.checkedAt < tail[0].observation.checkedAt
    requires forall i | 0 <= i < |arrivals| :: arrivals[i].observation.checkedAt <= tail[0].observation.checkedAt
    ensures After(t1, expected, tail).lastSeen == t1[expected.id].document.lastSeen
  {
    hide ApplyAll, SameStatus, After;
    SameElements(arrivals, a);
    forall k | 0 <= k < |tail| ensures tail[k].observation.checkedAt <= tail[0].observation.checkedAt {
      var i := IndexIn(arrivals, a, k + 1);
      assert a[k + 1] == tail[k];
    }
    forall k | 0 <= k < |tail| && IsNewest(tail, k) ensures !tail[k].observation.state.Online? {
      var i := IndexIn(arrivals, a, k + 1);
      assert a[k + 1] == tail[k];
      assert tail[0].observation.checkedAt <= tail[k].observation.checkedAt;
      assert IsNewest(arrivals, i);
    }
    NewestFirstHidesSightings(t1, expected, tail);
  }

  /**
   * LastSeen ends alike in every order of arrival exactly when a newest arrival, not older than the stored check, is Online,
   * or every Online arrival not older than it was made at the stored LastSeen already.
   */
  lemma LastSeenConvergesIff(t: Table, expected: Device, arrivals: seq<Arrival>)
    requires expected.id in t && SameStatus(t[expected.id].document, expected)
    requires forall i | 0 <= i < |arrivals| :: Observation(arrivals[i])
    ensures var stored := t[expected.id].document;
            SeenConverges(t, expected, arrivals) <==> OnlineNewest(stored, arrivals) || NothingNewSeen(stored, arrivals)
  {
    hide SameStatus, SeenConverges, OnlineNewest, NothingNewSeen;
    if OnlineNewest(t[expected.id].document, arrivals) || NothingNewSeen(t[expected.id].document, arrivals) {
      SeenConvergesIf(t, expected, arrivals);
    } else {
      SeenDivergesUnless(t, expected, arrivals);
    }
  }

  /** From `d` to `d'` both clocks moved forward only, and `LastSeen` is still within `LastChecked`. */
  predicate Forward(d: Device, d': Device) {
    AtOrBefore(d.lastChecked, d'.lastChecked) && AtOrBefore(d.lastSeen, d'.lastSeen) && SeenByCheck(d')
  }

  /** Every operation that leaves the probe target of a stored device unchanged moves its clocks forward only. */
  lemma ClocksMoveForward(rules: Rules, t: Table, op: Op, id: Guid)
    requires id in t && id in Step(rules, t, op).0
    requires SameStatus(t[id].document, Step(rules, t, op).0[id].document)
    requires SeenByCheck(t[id].document)
    ensures Forward(t[id].document, Step(rules, t, op).0[id].document)
  {
    hide HasDuplicate, IndexesAccept, SameWake;
  }

  /** `t'` follows `t` by one operation that leaves `id` stored with the same probe target. */
  ghost predicate KeepsTarget(rules: Rules, t: Table, op: Op, t': Table, id: Guid) {
    t' == Step(rules, t, op).0 && id in t && id in t' && SameStatus(t[id].document, t'[id].document)
  }

  /** Consecutive tables of a run, from any start, during which `id` stays stored with the same probe target. */
  ghost predicate StableTrace(rules: Rules, ops: seq<Op>, tables: seq<Table>, id: Guid) {
    && |tables| == |ops| + 1
    && forall m | 0 <= m < |ops| :: KeepsTarget(rules, tables[m], ops[m], tables[m + 1], id)
  }

  /** Over any such stretch of a run the clocks only move forward. */
  lemma {:induction false} ClocksOverTrace(rules: Rules, ops: seq<Op>, tables: seq<Table>, id: Guid, m: nat)
    requires StableTrace(rules, ops, tables, id) && m <= |ops|
    requires id in tables[0] && SeenByCheck(tables[0][id].document)
    ensures id in tables[m] && Forward(tables[0][id].document, tables[m][id].document)
  {
    hide Step, SameStatus;
    if m > 0 {
      ClocksOverTrace(rules, ops, tables, id, m - 1);
      assert KeepsTarget(rules, tables[m - 1], ops[m - 1], tables[m - 1 + 1], id);
      ClocksMoveForward(rules, tables[m - 1], ops[m - 1], id);
    }
  }
}
