/** `WakeDeviceService`: one check, the wake packets, then polling until the device answers or time runs out. */
module WakeDevice {
  import opened Prelude
  import opened Devices

  /** How a status check ends: an observation, a cancelled token, or an exception. */
  datatype Probe = Observed(observation: StatusObservation) | ProbeCancelled(byCaller: bool) | ProbeFailed

  datatype Sending = SendCompleted | SendCancelled | SendFailed

  /** One turn of the polling loop: the delay either elapses or its token is cancelled, by the caller or by the deadline. */
  datatype Poll = Interrupted(byCaller: bool) | Elapsed(probe: Probe)

  /** What the network, the clock and the caller do during one wake. */
  datatype Script = Script(before: Probe, sending: Sending, polls: seq<Poll>)

  /** What the service did to the outside, in order. */
  datatype Effect = Checked(device: Device, state: DeviceState) | Sent(device: Device)

  datatype WakeResult =
    | Outcome(observation: StatusObservation, verified: bool)
    | WakeDisabled | BadWait | Cancelled | Failed
    | StillWaiting(latest: StatusObservation)

  function PollStep(device: Device, before: StatusObservation, latest: StatusObservation, poll: Poll)
    : (Option<WakeResult>, StatusObservation, seq<Effect>)
  {
    match poll
    case Interrupted(true) => (Some(Cancelled), latest, [])
    case Interrupted(false) => (Some(Outcome(latest, false)), latest, [])
    case Elapsed(ProbeCancelled(true)) => (Some(Cancelled), latest, [])
    case Elapsed(ProbeCancelled(false)) => (Some(Outcome(latest, false)), latest, [])
    case Elapsed(ProbeFailed) => (Some(Failed), latest, [])
    case Elapsed(Observed(o)) =>
      (if o.state.Online? then Some(Outcome(o, before.state.Offline?)) else None, o, [Checked(device, o.state)])
  }

  function Polling(device: Device, before: StatusObservation, latest: StatusObservation, polls: seq<Poll>)
    : (WakeResult, seq<Effect>)
    decreases |polls|
  {
    if polls == [] then (StillWaiting(latest), []) else
      var (ended, next, effects) := PollStep(device, before, latest, polls[0]);
      if ended.Some? then (ended.value, effects) else
        var (r, rest) := Polling(device, before, next, polls[1..]);
        (r, effects + rest)
  }

  /** The whole call; `timeout` and `interval` are the caller's wait and polling interval. */
  function Wake(device: Device, timeout: int, interval: int, script: Script): (WakeResult, seq<Effect>) {
    if device.wake.capability.Disabled? then (WakeDisabled, [])
    else if timeout <= 0 || interval <= 0 then (BadWait, [])
    else match script.before
      case ProbeCancelled(_) => (Cancelled, [])
      case ProbeFailed => (Failed, [])
      case Observed(before) =>
        if before.state.Online? then (Outcome(before, false), [Checked(device, Online)])
        else match script.sending
          case SendCancelled => (Cancelled, [Checked(device, before.state)])
          case SendFailed => (Failed, [Checked(device, before.state)])
          case SendCompleted =>
            var (r, effects) := Polling(device, before, before, script.polls);
            (r, [Checked(device, before.state), Sent(device)] + effects)
  }

  // ---------------------------------------------------------------- what each script leads to

  /** The turn observed the device. */
  predicate Observes(poll: Poll) {
    poll.Elapsed? && poll.probe.Observed?
  }

  /** It observed it, but not Online, so the loop goes on. */
  predicate Dark(poll: Poll) {
    Observes(poll) && !poll.probe.observation.state.Online?
  }

  predicate AllDark(polls: seq<Poll>) {
    forall j | 0 <= j < |polls| :: Dark(polls[j])
  }

  /** Turn `i` is the first one after which the loop does not go on. */
  predicate EndsAt(polls: seq<Poll>, i: int) {
    0 <= i < |polls| && !Dark(polls[i]) && AllDark(polls[..i])
  }

  /** The latest observation once `polls` were taken. */
  function Latest(before: StatusObservation, polls: seq<Poll>): StatusObservation
    requires AllDark(polls)
  {
    if polls == [] then before else polls[|polls| - 1].probe.observation
  }

  /** One check for each turn. */
  function Probes(device: Device, polls: seq<Poll>): seq<Effect>
    requires forall j | 0 <= j < |polls| :: Observes(polls[j])
  {
    seq(|polls|, j requires 0 <= j < |polls| && Observes(polls[j]) => Checked(device, polls[j].probe.observation.state))
  }

  /** The wake is enabled and asked for properly, the device was not Online at first, and its packets were sent. */
  predicate Sends(device: Device, timeout: int, interval: int, script: Script) {
    && !device.wake.capability.Disabled? && timeout > 0 && interval > 0
    && script.before.Observed? && !script.before.observation.state.Online? && script.sending.SendCompleted?
  }

  /** How the loop ends at turn `i`, and what it did until then. */
  predicate EndsBy(device: Device, before: StatusObservation, polls: seq<Poll>, i: int, r: WakeResult, effects: seq<Effect>)
    requires EndsAt(polls, i)
  {
    match polls[i]
    case Elapsed(Observed(o)) => r == Outcome(o, before.state.Offline?) && effects == Probes(device, polls[..i + 1])
    case Elapsed(ProbeFailed) => r == Failed && effects == Probes(device, polls[..i])
    case Elapsed(ProbeCancelled(byCaller)) =>
      r == (if byCaller then Cancelled else Outcome(Latest(before, polls[..i]), false)) && effects == Probes(device, polls[..i])
    case Interrupted(byCaller) =>
      r == (if byCaller then Cancelled else Outcome(Latest(before, polls[..i]), false)) && effects == Probes(device, polls[..i])
  }

  lemma {:induction false} PollingEnds(
    device: Device, before: StatusObservation, passed: seq<Poll>, polls: seq<Poll>)
    requires AllDark(passed)
    ensures var (r, effects) := Polling(device, before, Latest(before, passed), polls);
            && (forall i | EndsAt(passed + polls, i) ::
                  EndsBy(device, before, passed + polls, i, r, Probes(device, passed) + effects))
            && (AllDark(polls) ==>
                  && AllDark(passed + polls) && r == StillWaiting(Latest(before, passed + polls))
                  && Probes(device, passed) + effects == Probes(device, passed + polls))
    decreases |polls|
  {
    var all := passed + polls;
    if polls == [] {
      assert all == passed;
      assert Probes(device, passed) + [] == Probes(device, passed);
    } else {
      var next := passed + [polls[0]];
      assert next + polls[1..] == all && all[..|passed|] == passed && all[..|passed| + 1] == next;
      if Dark(polls[0]) {
        PollingEnds(device, before, next, polls[1..]);
        var rest := Polling(device, before, Latest(before, next), polls[1..]).1;
        assert Probes(device, next) + rest
            == Probes(device, passed) + ([Checked(device, polls[0].probe.observation.state)] + rest);
      } else {
        assert forall j | 0 <= j < |passed| :: all[j] == passed[j];
        forall i | EndsAt(all, i) ensures i == |passed| {
          assert forall j | 0 <= j < i :: all[..i][j] == all[j];
        }
        if Observes(polls[0]) {
          assert Probes(device, next) == Probes(device, passed) + [Checked(device, polls[0].probe.observation.state)];
        }
        assert Probes(device, passed) + [] == Probes(device, passed);
      }
    }
  }

  /**
   * How every wake ends once its packets are sent, from what the network, the clock and the caller do alone: with the first turn
   * that sees the device Online, verified if it was Offline at first; with the latest observation, unverified, if the deadline
   * comes before that; cancelled or failed if the caller or a probe does. Each turn that observed it is one check.
   */
  lemma SentWakeEnds(device: Device, timeout: int, interval: int, script: Script)
    requires Sends(device, timeout, interval, script)
    ensures var (r, effects) := Wake(device, timeout, interval, script);
            var before := script.before.observation;
            && |effects| >= 2 && effects[..2] == [Checked(device, before.state), Sent(device)]
            && (forall i | EndsAt(script.polls, i) :: EndsBy(device, before, script.polls, i, r, effects[2..]))
            && (AllDark(script.polls) ==>
                  r == StillWaiting(Latest(before, script.polls)) && effects[2..] == Probes(device, script.polls))
  {
    var before := script.before.observation;
    PollingEnds(device, before, [], script.polls);
    assert [] + script.polls == script.polls;
    var rest := Polling(device, before, before, script.polls).1;
    assert Probes(device, []) + rest == rest;
    assert Wake(device, timeout, interval, script).1[2..] == rest;
  }

  lemma {:induction false} FirstEnd(polls: seq<Poll>) returns (i: nat)
    requires !AllDark(polls)
    ensures EndsAt(polls, i)
  {
    var n := |polls| - 1;
    if AllDark(polls[..n]) {
      i := n;
      assert forall j | 0 <= j < n :: polls[j] == polls[..n][j];
    } else {
      i := FirstEnd(polls[..n]);
      assert polls[..n][..i] == polls[..i];
    }
  }

  /** So the device is reported Online exactly when some turn saw it Online and every turn before saw it otherwise. */
  lemma OnlineIffSeen(device: Device, timeout: int, interval: int, script: Script)
    requires Sends(device, timeout, interval, script)
    ensures var r := Wake(device, timeout, interval, script).0;
            r.Outcome? && r.observation.state.Online? <==>
              exists i | 0 <= i < |script.polls| ::
                AllDark(script.polls[..i]) && Observes(script.polls[i]) && !Dark(script.polls[i])
  {
    hide Wake;
    SentWakeEnds(device, timeout, interval, script);
    if !AllDark(script.polls) {
      var i := FirstEnd(script.polls);
      assert forall j | 0 <= j < i :: script.polls[..i][j] == script.polls[j];
      forall k | 0 <= k < |script.polls| && AllDark(script.polls[..k]) && !Dark(script.polls[k]) ensures k == i {
        assert forall j | 0 <= j < k :: script.polls[..k][j] == script.polls[j];
      }
      LatestIsDark(script.before.observation, script.polls[..i]);
    }
  }

  lemma LatestIsDark(before: StatusObservation, polls: seq<Poll>)
    requires AllDark(polls) && !before.state.Online?
    ensures !Latest(before, polls).state.Online?
  {
    if polls != [] {
      assert Dark(polls[|polls| - 1]);
    }
  }

  /** A call that sends nothing ends at once, and never as a verified wake. */
  lemma UnsentWakeEnds(device: Device, timeout: int, interval: int, script: Script)
    requires !Sends(device, timeout, interval, script)
    ensures var (r, effects) := Wake(device, timeout, interval, script);
            && (r == WakeDisabled <==> device.wake.capability.Disabled?)
            && (r == BadWait <==> !device.wake.capability.Disabled? && (timeout <= 0 || interval <= 0))
            && (!r.WakeDisabled? && !r.BadWait? ==>
                  match script.before
                  case ProbeCancelled(_) => r == Cancelled && effects == []
                  case ProbeFailed => r == Failed && effects == []
                  case Observed(o) =>
                    && effects == [Checked(device, o.state)]
                    && r == if o.state.Online? then Outcome(o, false)
                            else if script.sending.SendCancelled? then Cancelled else Failed)
            && (r.WakeDisabled? || r.BadWait? ==> effects == [])
  {
  }

  /** Offline was observed, then the packets were sent, then the device was polled until it was Online. */
  predicate Sighted(device: Device, effects: seq<Effect>) {
    && |effects| >= 3
    && effects[0] == Checked(device, Offline)
    && effects[1] == Sent(device)
    && (forall i | 2 <= i < |effects| - 1 :: effects[i].Checked? && effects[i].device == device && !effects[i].state.Online?)
    && effects[|effects| - 1] == Checked(device, Online)
  }

  /**
   * A wake is reported as verified exactly when the device was seen Offline, then its packets were sent,
   * and then it was seen Online, all on the configuration the caller passed.
   */
  lemma VerifiedIffWitnessed(device: Device, timeout: int, interval: int, script: Script)
    ensures var (r, effects) := Wake(device, timeout, interval, script);
            && (r.Outcome? && r.verified <==> Sighted(device, effects))
            && (r.Outcome? && r.verified ==> r.observation.state.Online? && !device.wake.capability.Disabled?)
  {
    hide Wake;
    var (r, effects) := Wake(device, timeout, interval, script);
    if Sends(device, timeout, interval, script) {
      SentWakeEnds(device, timeout, interval, script);
      var rest := effects[2..];
      assert effects[0] == effects[..2][0] && effects[1] == effects[..2][1];
      assert forall k | 2 <= k < |effects| :: effects[k] == rest[k - 2];
      if AllDark(script.polls) {
        LastIsDark(device, effects, script.polls);
      } else {
        var i := FirstEnd(script.polls);
        if Observes(script.polls[i]) {
          OnlineIsSighted(device, effects, script.before.observation, script.polls, i);
        } else {
          LastIsDark(device, effects, script.polls[..i]);
        }
      }
    } else {
      UnsentWakeEnds(device, timeout, interval, script);
    }
  }

  lemma LastIsDark(device: Device, effects: seq<Effect>, polls: seq<Poll>)
    requires |effects| >= 2 && AllDark(polls) && effects[2..] == Probes(device, polls)
    ensures !Sighted(device, effects)
  {
    if |effects| >= 3 {
      assert effects[|effects| - 1] == effects[2..][|polls| - 1];
      assert Dark(polls[|polls| - 1]);
    }
  }

  lemma OnlineIsSighted(device: Device, effects: seq<Effect>, before: StatusObservation, polls: seq<Poll>, i: nat)
    requires EndsAt(polls, i) && Observes(polls[i]) && |effects| >= 2
    requires effects[0] == Checked(device, before.state) && effects[1] == Sent(device)
    requires effects[2..] == Probes(device, polls[..i + 1])
    ensures Sighted(device, effects) <==> before.state.Offline?
  {
    forall k | 2 <= k < |effects| - 1 ensures effects[k].Checked? && effects[k].device == device && !effects[k].state.Online? {
      assert effects[k] == effects[2..][k - 2];
      assert Dark(polls[..i][k - 2]);
    }
    assert effects[|effects| - 1] == effects[2..][i];
  }

  /** No packet is sent to a device that answers the first check, and packets are sent at most once per call. */
  lemma AtMostOneSend(device: Device, timeout: int, interval: int, script: Script)
    ensures var (r, effects) := Wake(device, timeout, interval, script);
            forall i | 0 <= i < |effects| && effects[i].Sent? ::
              i == 1 && effects[0].Checked? && !effects[0].state.Online?
  {
    var (r, effects) := Wake(device, timeout, interval, script);
    if |effects| >= 2 {
      var before := script.before.observation;
      PollsOnlyCheck(device, before, before, script.polls);
      forall i | 2 <= i < |effects| ensures effects[i].Checked? {
        assert effects[i] in Polling(device, before, before, script.polls).1;
      }
    }
  }

  lemma {:induction false} PollsOnlyCheck(
    device: Device, before: StatusObservation, latest: StatusObservation, polls: seq<Poll>)
    ensures forall e | e in Polling(device, before, latest, polls).1 :: e.Checked?
    decreases |polls|
  {
    if polls != [] {
      PollsOnlyCheck(device, before, PollStep(device, before, latest, polls[0]).1, polls[1..]);
    }
  }

  method WakeAsync(device: Device, timeout: int, interval: int, script: Script)
    returns (result: WakeResult, effects: seq<Effect>)
    ensures (result, effects) == Wake(device, timeout, interval, script)
  {
    effects := [];
    if device.wake.capability.Disabled? {
      return WakeDisabled, effects;
    }
    if timeout <= 0 || interval <= 0 {
      return BadWait, effects;
    }
    if script.before.ProbeCancelled? {
      return Cancelled, effects;
    }
    if script.before.ProbeFailed? {
      return Failed, effects;
    }
    var before := script.before.observation;
    effects := [Checked(device, before.state)];
    if before.state.Online? {
      return Outcome(before, false), effects;
    }
    if script.sending != SendCompleted {
      return if script.sending.SendCancelled? then Cancelled else Failed, effects;
    }
    effects := effects + [Sent(device)];
    assert effects == [Checked(device, before.state), Sent(device)];
    var latest := before;
    var i := 0;
    assert script.polls[0..] == script.polls;
    while i < |script.polls|
      invariant 0 <= i <= |script.polls|
      invariant Wake(device, timeout, interval, script) ==
                (Polling(device, before, latest, script.polls[i..]).0,
                 effects + Polling(device, before, latest, script.polls[i..]).1)
    {
      var poll := script.polls[i];
      assert effects + [] == effects;
      ghost var rest := script.polls[i..];
      assert rest[1..] == script.polls[i + 1..];
      assert forall a: seq<Effect>, b: seq<Effect> :: (effects + a) + b == effects + (a + b);
      i := i + 1;
      if poll.Interrupted? || poll.probe.ProbeCancelled? {
        var byCaller := if poll.Interrupted? then poll.byCaller else poll.probe.byCaller;
        return if byCaller then Cancelled else Outcome(latest, false), effects;
      }
      if poll.probe.ProbeFailed? {
        return Failed, effects;
      }
      latest := poll.probe.observation;
      effects := effects + [Checked(device, latest.state)];
      if latest.state.Online? {
        return Outcome(latest, before.state.Offline?), effects;
      }
    }
    assert effects + [] == effects;
    result := StillWaiting(latest);
  }
}
