/** `WindowsDeviceStatusService.CheckAsync`: one time budget shared out over the addresses of a host. Times are milliseconds. */
module StatusCheck {
  import opened Prelude
  import opened Devices

  /** How one attempt ended. `CallerCancelled` also stands for the caller cancelling just before the attempt. */
  datatype Reply = Success | PingTimedOut | PingOther | SliceExpired | SocketFailed | PingFailed | CallerCancelled

  /** One attempt: the time it took, how it ended, and whether the overall budget's timer had fired by then. */
  datatype Attempt = Attempt(used: real, reply: Reply, budgetFired: bool)

  datatype Flags = Flags(timedOut: bool, checkFailed: bool)

  datatype Verdict = Checked(state: DeviceState) | Cancelled

  /** What resolving the host gave. */
  datatype Resolution = Resolved(addresses: nat) | ResolutionTimedOut | ResolutionFailed

  /** A fair share of the remaining time for each address still to try, but at least one millisecond. */
  function Slice(remaining: real, left: nat): real
    requires left > 0
  {
    var share := remaining / left as real;
    if share <= 1.0 then 1.0 else share
  }

  function Mark(f: Flags, reply: Reply): Flags {
    match reply
    case PingTimedOut => f.(timedOut := true, checkFailed := true)
    case PingOther => f.(checkFailed := true)
    case SliceExpired => f.(timedOut := true)
    case SocketFailed => f.(checkFailed := true)
    case PingFailed => f
    case Success => f
    case CallerCancelled => f
  }

  function Conclude(f: Flags, budgetFired: bool): Verdict {
    if f.timedOut || budgetFired then Checked(Offline)
    else if f.checkFailed then Checked(Offline)
    else Checked(Unknown)
  }

  predicate Ends(reply: Reply) {
    reply.Success? || reply.CallerCancelled?
  }

  /** Time left before attempt `i`. */
  function Remaining(budget: real, attempts: seq<Attempt>, i: nat): real
    requires i <= |attempts|
  {
    if i == 0 then budget else Remaining(budget, attempts, i - 1) - attempts[i - 1].used
  }

  predicate FiredBefore(attempts: seq<Attempt>, i: nat)
    requires i <= |attempts|
  {
    exists j | 0 <= j < i :: attempts[j].budgetFired
  }

  /** The loop goes on to attempt `i`. */
  predicate Reaches(budget: real, attempts: seq<Attempt>, i: nat)
    requires i < |attempts|
  {
    forall j | 0 <= j <= i ::
      && Remaining(budget, attempts, j) > 0.0 && !FiredBefore(attempts, j)
      && (j < i ==> !Ends(attempts[j].reply))
  }

  ghost predicate EndsWith(budget: real, attempts: seq<Attempt>, reply: Reply) {
    exists i :: 0 <= i < |attempts| && Reaches(budget, attempts, i) && attempts[i].reply == reply
  }

  /** Every address was tried in time, and Windows could not perform a single check. */
  ghost predicate NothingLearned(budget: real, attempts: seq<Attempt>)
    requires |attempts| > 0
  {
    && Reaches(budget, attempts, |attempts| - 1) && !FiredBefore(attempts, |attempts|)
    && forall i | 0 <= i < |attempts| :: attempts[i].reply.PingFailed?
  }

  /** What each verdict means. */
  ghost predicate Meant(budget: real, attempts: seq<Attempt>, r: Verdict)
    requires |attempts| > 0
  {
    && (r == Checked(Online) <==> EndsWith(budget, attempts, Success))
    && (r == Cancelled <==> EndsWith(budget, attempts, CallerCancelled))
    && (r == Checked(Unknown) <==> NothingLearned(budget, attempts))
    && (r.Checked? ==> r.state != Waking)
  }

  /** The first `i` attempts were made and none ended the check. */
  ghost predicate Tried(budget: real, attempts: seq<Attempt>, i: nat, fired: bool, flags: Flags) {
    && i <= |attempts|
    && fired == FiredBefore(attempts, i)
    && (forall j | 0 <= j < i :: Reaches(budget, attempts, j) && !Ends(attempts[j].reply))
    && (!flags.timedOut && !flags.checkFailed <==> forall j | 0 <= j < i :: attempts[j].reply.PingFailed?)
  }

  lemma TriedOneMore(budget: real, attempts: seq<Attempt>, i: nat, fired: bool, flags: Flags)
    requires Tried(budget, attempts, i, fired, flags) && i < |attempts|
    requires Remaining(budget, attempts, i) > 0.0 && !fired && !Ends(attempts[i].reply)
    ensures Reaches(budget, attempts, i)
    ensures Tried(budget, attempts, i + 1, attempts[i].budgetFired, Mark(flags, attempts[i].reply))
  {
    hide Remaining;
    ReachesNext(budget, attempts, i, fired, flags);
    var later := Mark(flags, attempts[i].reply);
    assert !later.timedOut && !later.checkFailed <==> !flags.timedOut && !flags.checkFailed && attempts[i].reply.PingFailed?;
  }

  lemma ReachesNext(budget: real, attempts: seq<Attempt>, i: nat, fired: bool, flags: Flags)
    requires Tried(budget, attempts, i, fired, flags) && i < |attempts| && Remaining(budget, attempts, i) > 0.0
    requires !fired
    ensures Reaches(budget, attempts, i)
  {
    hide Remaining, FiredBefore;
    if i > 0 {
      assert Reaches(budget, attempts, i - 1);
    }
  }

  lemma EndedHere(budget: real, attempts: seq<Attempt>, i: nat, fired: bool, flags: Flags)
    requires Tried(budget, attempts, i, fired, flags) && i < |attempts|
    requires Remaining(budget, attempts, i) > 0.0 && !fired && Ends(attempts[i].reply)
    ensures Meant(budget, attempts, if attempts[i].reply.Success? then Checked(Online) else Cancelled)
  {
    hide Remaining, FiredBefore;
    ReachesNext(budget, attempts, i, fired, flags);
    forall j | 0 <= j < |attempts| && Reaches(budget, attempts, j) && Ends(attempts[j].reply) ensures j == i {
    }
    assert !attempts[i].reply.PingFailed?;
  }

  lemma NoneAfterBudget(budget: real, attempts: seq<Attempt>, i: nat, fired: bool, flags: Flags)
    requires Tried(budget, attempts, i, fired, flags) && i < |attempts|
    requires Remaining(budget, attempts, i) <= 0.0 || fired
    ensures forall j | i <= j < |attempts| :: !Reaches(budget, attempts, j)
  {
    hide Remaining;
  }

  lemma NoneAfterEnd(budget: real, attempts: seq<Attempt>, i: nat)
    requires i < |attempts| && Ends(attempts[i].reply)
    ensures forall j | i < j < |attempts| :: !Reaches(budget, attempts, j)
  {
    hide Remaining;
  }

  lemma RanOut(budget: real, attempts: seq<Attempt>, i: nat, fired: bool, flags: Flags)
    requires Tried(budget, attempts, i, fired, flags) && i < |attempts|
    requires (Remaining(budget, attempts, i) <= 0.0 || fired)
    ensures Meant(budget, attempts, Checked(Offline))
  {
    hide Remaining;
    forall j | i <= j < |attempts| ensures !Reaches(budget, attempts, j) {
      assert Remaining(budget, attempts, i) <= 0.0 || FiredBefore(attempts, i);
    }
  }

  lemma TriedAll(budget: real, attempts: seq<Attempt>, fired: bool, flags: Flags)
    requires |attempts| > 0 && Tried(budget, attempts, |attempts|, fired, flags)
    ensures Meant(budget, attempts, Conclude(flags, fired))
  {
    hide Remaining, Reaches, FiredBefore;
  }

  /**
   * The check, given how each attempt would go: the state is `Online` exactly when a reached attempt succeeded,
   * `Unknown` exactly when there was nothing to try or nothing was learned, and otherwise, unless the caller
   * cancelled, `Offline`. `slices` are the time limits given to the attempts made.
   */
  method CheckAsync(
    budget: real, resolution: Resolution, attempts: seq<Attempt>) returns (r: Verdict, slices: seq<real>)
    requires resolution.Resolved? ==> resolution.addresses == |attempts|
    ensures !resolution.Resolved? || |attempts| == 0 ==> r == Checked(Unknown)
    ensures resolution.Resolved? && |attempts| > 0 ==> Meant(budget, attempts, r)
    ensures |slices| <= |attempts|
    ensures forall i | 0 <= i < |slices| :: Reaches(budget, attempts, i) && slices[i] == SliceAt(budget, attempts, i)
    ensures resolution.Resolved? ==> forall i | 0 <= i < |attempts| && Reaches(budget, attempts, i) :: i < |slices|
  {
    hide Meant, Tried, Reaches, FiredBefore, Slice;
    slices := [];
    if !resolution.Resolved? || resolution.addresses == 0 {
      return Checked(Unknown), slices;
    }
    var flags := Flags(false, false);
    var fired := false;
    var elapsed := 0.0;
    var i := 0;
    TriedNone(budget, attempts);
    while i < |attempts|
      invariant i <= |attempts| && |slices| == i
      invariant budget - elapsed == Remaining(budget, attempts, i)
      invariant Tried(budget, attempts, i, fired, flags)
      invariant forall j | 0 <= j < i :: Reaches(budget, attempts, j) && slices[j] == SliceAt(budget, attempts, j)
    {
      var remaining := budget - elapsed;
      if remaining <= 0.0 || fired {
        RanOut(budget, attempts, i, fired, flags);
        NoneAfterBudget(budget, attempts, i, fired, flags);
        return Conclude(flags.(timedOut := true), fired), slices;
      }
      ReachesNext(budget, attempts, i, fired, flags);
      slices := slices + [Slice(remaining, |attempts| - i)];
      var a := attempts[i];
      if a.reply.Success? {
        EndedHere(budget, attempts, i, fired, flags);
        NoneAfterEnd(budget, attempts, i);
        return Checked(Online), slices;
      }
      if a.reply.CallerCancelled? {
        EndedHere(budget, attempts, i, fired, flags);
        NoneAfterEnd(budget, attempts, i);
        return Cancelled, slices;
      }
      TriedOneMore(budget, attempts, i, fired, flags);
      flags := Mark(flags, a.reply);
      elapsed := elapsed + a.used;
      fired := a.budgetFired;
      i := i + 1;
    }
    TriedAll(budget, attempts, fired, flags);
    r := Conclude(flags, fired);
  }

  lemma TriedNone(budget: real, attempts: seq<Attempt>)
    ensures Tried(budget, attempts, 0, false, Flags(false, false))
  {
  }

  // ---- Slices ----

  function SliceAt(budget: real, attempts: seq<Attempt>, i: nat): real
    requires i < |attempts|
  {
    Slice(Remaining(budget, attempts, i), |attempts| - i)
  }

  /** Every attempt keeps to its slice. */
  predicate KeepsToSlices(budget: real, attempts: seq<Attempt>) {
    forall i | 0 <= i < |attempts| :: 0.0 <= attempts[i].used <= SliceAt(budget, attempts, i)
  }

  /** Taking at most its share leaves at least as large a share to each of the others. */
  lemma ShareGrows(remaining: real, used: real, left: nat)
    requires left >= 2 && 0.0 <= used <= remaining / left as real
    ensures (remaining - used) / (left - 1) as real >= remaining / left as real
  {
    var k := left as real;
    var share := remaining / k;
    assert remaining == share * k;
    assert remaining - used >= share * (k - 1.0);
    DivideBound(remaining - used, share, k - 1.0);
  }

  lemma DivideBound(x: real, y: real, k: real)
    requires k > 0.0
    ensures x >= y * k ==> x / k >= y
    ensures x <= y * k ==> x / k <= y
  {
    assert x == x / k * k;
    if x / k < y {
      assert x / k * k < y * k;
    }
    if x / k > y {
      assert x / k * k > y * k;
    }
  }

  /** The share of each address still to try, before attempt `i`. */
  function Share(budget: real, attempts: seq<Attempt>, i: nat): real
    requires i < |attempts|
  {
    Remaining(budget, attempts, i) / (|attempts| - i) as real
  }

  lemma {:induction false} SharesGrow(budget: real, attempts: seq<Attempt>, i: nat)
    requires i < |attempts| && budget >= |attempts| as real && KeepsToSlices(budget, attempts)
    ensures Share(budget, attempts, i) >= Share(budget, attempts, 0) >= 1.0
    ensures SliceAt(budget, attempts, i) == Share(budget, attempts, i)
    ensures i + 1 < |attempts| ==> Share(budget, attempts, i + 1) >= Share(budget, attempts, i)
  {
    var n := |attempts|;
    DivideBound(budget, 1.0, n as real);
    if i > 0 {
      SharesGrow(budget, attempts, i - 1);
    }
    if i + 1 < n {
      ShareGrows(Remaining(budget, attempts, i), attempts[i].used, n - i);
    }
  }

  /**
   * With at least a millisecond per address left after resolving, slices never shrink, each is at least an even share, and
   * the whole stays within the budget, so every address gets its turn unless an earlier one ends the check.
   */
  lemma SlicesAreFair(budget: real, attempts: seq<Attempt>)
    requires |attempts| > 0 && budget >= |attempts| as real && KeepsToSlices(budget, attempts)
    ensures forall i, j | 0 <= i <= j < |attempts| :: SliceAt(budget, attempts, i) <= SliceAt(budget, attempts, j)
    ensures forall i | 0 <= i < |attempts| :: SliceAt(budget, attempts, i) >= budget / |attempts| as real
    ensures Remaining(budget, attempts, |attempts|) >= 0.0
    ensures (forall i | 0 <= i < |attempts| :: !Ends(attempts[i].reply) && !attempts[i].budgetFired) ==>
              Reaches(budget, attempts, |attempts| - 1)
  {
    hide Slice;
    var n := |attempts|;
    forall i | 0 <= i < n
      ensures SliceAt(budget, attempts, i) >= budget / n as real && Remaining(budget, attempts, i) > 0.0
    {
      SharesGrow(budget, attempts, i);
    }
    forall i, j | 0 <= i <= j < n ensures SliceAt(budget, attempts, i) <= SliceAt(budget, attempts, j) {
      SlicesNeverShrink(budget, attempts, i, j);
    }
    SharesGrow(budget, attempts, n - 1);
    assert Share(budget, attempts, n - 1) == Remaining(budget, attempts, n - 1);
  }

  lemma {:induction false} SlicesNeverShrink(budget: real, attempts: seq<Attempt>, i: nat, j: nat)
    requires i <= j < |attempts| && budget >= |attempts| as real && KeepsToSlices(budget, attempts)
    ensures SliceAt(budget, attempts, i) <= SliceAt(budget, attempts, j)
    decreases j
  {
    hide Slice, Share;
    if i < j {
      SlicesNeverShrink(budget, attempts, i, j - 1);
      SharesGrow(budget, attempts, j - 1);
      SharesGrow(budget, attempts, j);
    }
  }

  // ---- Who gets a turn ----

  /** Every attempt keeps to its slice, none ends the check, and the budget's timer has not fired. */
  predicate Uneventful(budget: real, attempts: seq<Attempt>) {
    && KeepsToSlices(budget, attempts)
    && forall i | 0 <= i < |attempts| :: !Ends(attempts[i].reply) && !attempts[i].budgetFired
  }

  /** A slice leaves at least a millisecond for each of the others when there was one for each before. */
  lemma SliceLeavesMargin(remaining: real, used: real, left: nat)
    requires left > 0 && 0.0 <= used <= Slice(remaining, left)
    ensures remaining > (left - 1) as real ==> remaining - used > (left - 2) as real
    ensures remaining >= left as real ==> remaining - used >= (left - 1) as real
  {
    var k := left as real;
    var share := remaining / k;
    assert remaining == share * k;
    if share > 1.0 {
      assert remaining - share == share * (k - 1.0);
      ProductSign(share - 1.0, k - 1.0);
      assert share * (k - 1.0) - (k - 1.0) == (share - 1.0) * (k - 1.0);
    } else {
      DivideBound(remaining, 1.0, k);
    }
  }

  lemma ProductSign(x: real, y: real)
    requires x >= 0.0 && y >= 0.0
    ensures x * y >= 0.0
  {
  }

  lemma {:induction false} MarginRemains(budget: real, attempts: seq<Attempt>, i: nat)
    requires i <= |attempts| && KeepsToSlices(budget, attempts)
    ensures budget > (|attempts| - 1) as real ==> Remaining(budget, attempts, i) > (|attempts| - 1 - i) as real
    ensures budget >= |attempts| as real ==> Remaining(budget, attempts, i) >= (|attempts| - i) as real
  {
    hide Slice;
    if i > 0 {
      MarginRemains(budget, attempts, i - 1);
      SliceLeavesMargin(Remaining(budget, attempts, i - 1), attempts[i - 1].used, |attempts| - (i - 1));
    }
  }

  lemma UneventfulReaches(budget: real, attempts: seq<Attempt>)
    requires |attempts| > 0 && Uneventful(budget, attempts) && budget > (|attempts| - 1) as real
    ensures Reaches(budget, attempts, |attempts| - 1)
  {
    hide Remaining, SliceAt;
    forall j | 0 <= j < |attempts| ensures Remaining(budget, attempts, j) > 0.0 {
      MarginRemains(budget, attempts, j);
    }
  }

  /** `n` attempts that take a millisecond each, the least a slice can be. */
  function Minimal(n: nat): (r: seq<Attempt>)
    ensures |r| == n
  {
    seq(n, _ => Attempt(1.0, PingOther, false))
  }

  lemma {:induction false} MinimalSpends(budget: real, n: nat, i: nat)
    requires i <= n
    ensures Remaining(budget, Minimal(n), i) == budget - i as real
  {
    if i > 0 {
      MinimalSpends(budget, n, i - 1);
    }
  }

  lemma MinimalIsUneventful(budget: real, n: nat)
    ensures Uneventful(budget, Minimal(n))
  {
    hide Remaining;
  }

  lemma MinimalStarves(budget: real, n: nat)
    requires n > 0 && budget <= (n - 1) as real
    ensures !Reaches(budget, Minimal(n), n - 1)
  {
    hide Remaining;
    MinimalSpends(budget, n, n - 1);
  }

  /**
   * Every address gets its turn in every check in which no attempt ends it and each keeps to its slice, exactly when more
   * than a millisecond for each further address is left after resolving; and every such check stays within the budget
   * exactly when there is a millisecond for each. Below that the last addresses can starve.
   */
  lemma EveryAddressGetsItsTurnIff(budget: real, n: nat)
    requires n > 0
    ensures (forall attempts | |attempts| == n && Uneventful(budget, attempts) :: Reaches(budget, attempts, n - 1))
            <==> budget > (n - 1) as real
    ensures (forall attempts | |attempts| == n && Uneventful(budget, attempts) :: Remaining(budget, attempts, n) >= 0.0)
            <==> budget >= n as real
  {
    hide Slice, Remaining, Reaches;
    MinimalIsUneventful(budget, n);
    MinimalSpends(budget, n, n);
    if budget > (n - 1) as real {
      forall attempts | |attempts| == n && Uneventful(budget, attempts) ensures Reaches(budget, attempts, n - 1) {
        UneventfulReaches(budget, attempts);
      }
    } else {
      MinimalStarves(budget, n);
    }
    if budget >= n as real {
      forall attempts | |attempts| == n && Uneventful(budget, attempts) ensures Remaining(budget, attempts, n) >= 0.0 {
        MarginRemains(budget, attempts, n);
      }
    }
  }
}
