/**
 * The service-discovery walk run for a connected peripheral.
 *
 * Every emission of the peripheral's services flow bumps a pass counter, `null` included.
 * A non-null emission starts a pass tagged with the counter's value: read every
 * characteristic and then each of its descriptors, then try to subscribe to every
 * characteristic, then look for the LED Button service. The outcome of each foreign call
 * (read, subscribe, write) is an oracle carried by the tree or passed in, and the walk
 * records what it attempted as a trace of operations.
 */
module Discovery {
  import opened Common

  datatype Descriptor = Descriptor(uuid: string, readOk: bool)

  /** `subscribable` is the characteristic's own flag; the `...Ok` fields are call outcomes. */
  datatype Characteristic = Characteristic(
    uuid: string,
    subscribable: bool,
    readOk: bool,
    subscribeOk: bool,
    descriptors: seq<Descriptor>)

  datatype Service = Service(uuid: string, characteristics: seq<Characteristic>)

  /** A characteristic or a descriptor, by its position in the tree. */
  datatype Item =
    | CharItem(service: nat, characteristic: nat)
    | DescItem(service: nat, characteristic: nat, descriptor: nat)

  /**
   * How a subscription attempt ended. A refusal from a characteristic that is not
   * subscribable is expected and not reported; one from a subscribable one is an anomaly.
   */
  datatype SubscribeOutcome = Active | ExpectedRefusal | Anomaly

  datatype Op =
    | Read(pass: nat, item: Item, ok: bool)
    | Subscribe(pass: nat, service: nat, characteristic: nat, outcome: SubscribeOutcome)
    /** Waiting for a button change; `triggerWrite` says whether 0x01 is written to the LED first. */
    | AwaitButton(pass: nat, triggerWrite: bool)
    | BlinkLaunched(pass: nat)

  const BlinkyServiceUuid := "00001523-1212-efde-1523-785feabcd123"
  const ButtonCharacteristicUuid := "00001524-1212-efde-1523-785feabcd123"
  const LedCharacteristicUuid := "00001525-1212-efde-1523-785feabcd123"

  /** The number of times the blink job writes to the LED. */
  const BlinkCount := 9

  // ---- Specification of one pass ----

  /** Reads of the first n descriptors of characteristic ci of service si. */
  function DescriptorReads(pass: nat, si: nat, ci: nat, ds: seq<Descriptor>, n: nat): seq<Op>
    requires n <= |ds|
  {
    if n == 0 then []
    else DescriptorReads(pass, si, ci, ds, n - 1) + [Read(pass, DescItem(si, ci, n - 1), ds[n - 1].readOk)]
  }

  /** A characteristic's own read followed by the reads of all its descriptors. */
  function CharacteristicReads(pass: nat, si: nat, ci: nat, c: Characteristic): seq<Op> {
    [Read(pass, CharItem(si, ci), c.readOk)] + DescriptorReads(pass, si, ci, c.descriptors, |c.descriptors|)
  }

  /** Reads for the first n characteristics of service si. */
  function ServiceReads(pass: nat, si: nat, cs: seq<Characteristic>, n: nat): seq<Op>
    requires n <= |cs|
  {
    if n == 0 then []
    else ServiceReads(pass, si, cs, n - 1) + CharacteristicReads(pass, si, n - 1, cs[n - 1])
  }

  /** The read phase over the first n services. */
  function ReadPhase(pass: nat, services: seq<Service>, n: nat): seq<Op>
    requires n <= |services|
  {
    if n == 0 then []
    else
      var cs := services[n - 1].characteristics;
      ReadPhase(pass, services, n - 1) + ServiceReads(pass, n - 1, cs, |cs|)
  }

  function OutcomeOf(c: Characteristic): SubscribeOutcome {
    if c.subscribeOk then Active
    else if c.subscribable then Anomaly
    else ExpectedRefusal
  }

  /** Subscription attempts for the first n characteristics of service si. */
  function ServiceSubscriptions(pass: nat, si: nat, cs: seq<Characteristic>, n: nat): seq<Op>
    requires n <= |cs|
  {
    if n == 0 then []
    else ServiceSubscriptions(pass, si, cs, n - 1) + [Subscribe(pass, si, n - 1, OutcomeOf(cs[n - 1]))]
  }

  /** The subscription phase over the first n services. */
  function SubscribePhase(pass: nat, services: seq<Service>, n: nat): seq<Op>
    requires n <= |services|
  {
    if n == 0 then []
    else
      var cs := services[n - 1].characteristics;
      SubscribePhase(pass, services, n - 1) + ServiceSubscriptions(pass, n - 1, cs, |cs|)
  }

  /** `firstOrNull`: the index of the first element that matches, if any. */
  function FirstWhere<T>(xs: seq<T>, matches: T -> bool): (r: Option<nat>)
    ensures r.Some? ==> r.value < |xs| && matches(xs[r.value])
    ensures r.Some? ==> forall j :: 0 <= j < r.value ==> !matches(xs[j])
    ensures r.None? ==> forall j :: 0 <= j < |xs| ==> !matches(xs[j])
  {
    if |xs| == 0 then None
    else if matches(xs[0]) then Some(0)
    else match FirstWhere(xs[1..], matches)
      case None => None
      case Some(k) => Some(k + 1)
  }

  /**
   * The LED Button part of a pass: in the first service with the LED Button UUID, wait
   * for the button (writing 0x01 to the LED as the trigger when the LED exists), then
   * launch the blink job when the LED characteristic exists.
   */
  function BlinkPhase(pass: nat, services: seq<Service>): seq<Op> {
    match FirstWhere(services, (s: Service) => s.uuid == BlinkyServiceUuid)
    case None => []
    case Some(i) =>
      var cs := services[i].characteristics;
      var button := FirstWhere(cs, (c: Characteristic) => c.uuid == ButtonCharacteristicUuid);
      var led := FirstWhere(cs, (c: Characteristic) => c.uuid == LedCharacteristicUuid);
      (if button.Some? then [AwaitButton(pass, led.Some?)] else [])
        + (if led.Some? then [BlinkLaunched(pass)] else [])
  }

  /** Everything one pass over a complete service list does, in order. */
  function PassTrace(pass: nat, services: seq<Service>): seq<Op> {
    ReadPhase(pass, services, |services|) + SubscribePhase(pass, services, |services|) + BlinkPhase(pass, services)
  }

  /** The number of characteristics and descriptors among the first n characteristics. */
  function CharItemCount(cs: seq<Characteristic>, n: nat): nat
    requires n <= |cs|
  {
    if n == 0 then 0 else CharItemCount(cs, n - 1) + 1 + |cs[n - 1].descriptors|
  }

  /** The number of characteristics and descriptors in the first n services. */
  function ItemCount(services: seq<Service>, n: nat): nat
    requires n <= |services|
  {
    if n == 0 then 0
    else
      var cs := services[n - 1].characteristics;
      ItemCount(services, n - 1) + CharItemCount(cs, |cs|)
  }

  /** The number of characteristics in the first n services. */
  function CharacteristicCount(services: seq<Service>, n: nat): nat
    requires n <= |services|
  {
    if n == 0 then 0 else CharacteristicCount(services, n - 1) + |services[n - 1].characteristics|
  }

  // ---- The walk itself ----

  /** The first nested loop: read every characteristic, then each of its descriptors. */
  method ReadAll(pass: nat, services: seq<Service>) returns (ops: seq<Op>)
    ensures ops == ReadPhase(pass, services, |services|)
  {
    ops := [];
    var si := 0;
    while si < |services|
      invariant 0 <= si <= |services|
      invariant ops == ReadPhase(pass, services, si)
    {
      var cs := services[si].characteristics;
      var ci := 0;
      while ci < |cs|
        invariant 0 <= ci <= |cs|
        invariant ops == ReadPhase(pass, services, si) + ServiceReads(pass, si, cs, ci)
      {
        var c := cs[ci];
        ghost var before := ops;
        ops := ops + [Read(pass, CharItem(si, ci), c.readOk)];
        var di := 0;
        while di < |c.descriptors|
          invariant 0 <= di <= |c.descriptors|
          invariant ops == before + [Read(pass, CharItem(si, ci), c.readOk)]
                           + DescriptorReads(pass, si, ci, c.descriptors, di)
        {
          ops := ops + [Read(pass, DescItem(si, ci, di), c.descriptors[di].readOk)];
          di := di + 1;
        }
        ci := ci + 1;
      }
      si := si + 1;
    }
  }

  /** The second nested loop: try to subscribe to every characteristic. */
  method SubscribeAll(pass: nat, services: seq<Service>) returns (ops: seq<Op>)
    ensures ops == SubscribePhase(pass, services, |services|)
  {
    ops := [];
    var si := 0;
    while si < |services|
      invariant 0 <= si <= |services|
      invariant ops == SubscribePhase(pass, services, si)
    {
      var cs := services[si].characteristics;
      var ci := 0;
      while ci < |cs|
        invariant 0 <= ci <= |cs|
        invariant ops == SubscribePhase(pass, services, si) + ServiceSubscriptions(pass, si, cs, ci)
      {
        var c := cs[ci];
        var expectError := !c.subscribable;
        var outcome := if c.subscribeOk then Active else if expectError then ExpectedRefusal else Anomaly;
        ops := ops + [Subscribe(pass, si, ci, outcome)];
        ci := ci + 1;
      }
      si := si + 1;
    }
  }

  /**
   * The blink job: `repeat(9) { i -> write(i % 2) }` inside one try block, so the first
   * failed write ends the job. `writeOk(i)` is the outcome of the i-th write.
   */
  method BlinkLed(writeOk: nat -> bool) returns (written: seq<int>, failed: bool)
    ensures |written| <= BlinkCount
    ensures forall i :: 0 <= i < |written| ==> written[i] == i % 2
    ensures forall i :: 0 <= i < |written| - 1 ==> writeOk(i)
    ensures failed <==> exists i :: 0 <= i < BlinkCount && !writeOk(i)
    ensures failed ==> |written| > 0 && !writeOk(|written| - 1)
    ensures !failed ==> |written| == BlinkCount
  {
    written, failed := [], false;
    var i := 0;
    while i < BlinkCount && !failed
      invariant 0 <= i <= BlinkCount
      invariant |written| == (if failed then i + 1 else i)
      invariant forall k :: 0 <= k < |written| ==> written[k] == k % 2
      invariant forall k :: 0 <= k < i ==> writeOk(k)
      invariant failed ==> i < BlinkCount && !writeOk(i)
      decreases 2 * (BlinkCount - i) + (if failed then 0 else 1)
    {
      written := written + [i % 2];
      if writeOk(i) {
        i := i + 1;
      } else {
        failed := true;
      }
    }
  }

  /**
   * The services observer of one connection. `event` counts every emission of the services
   * flow, `null` included; `trace` is what the passes have done so far.
   */
  class ServiceObserver {
    var event: nat
    var trace: seq<Op>

    /** Every operation belongs to a pass already counted, and pass indices never go back. */
    ghost predicate Valid()
      reads this
    {
      && (forall k :: 0 <= k < |trace| ==> 1 <= trace[k].pass <= event)
      && (forall i, j :: 0 <= i < j < |trace| ==> trace[i].pass <= trace[j].pass)
    }

    constructor ()
      ensures Valid() && event == 0 && trace == []
    {
      event := 0;
      trace := [];
    }

    /** One emission of the services flow: count it, and run a pass if it is a service list. */
    method OnServices(emission: Option<seq<Service>>)
      requires Valid()
      modifies this
      ensures Valid()
      ensures event == old(event) + 1
      ensures emission.None? ==> trace == old(trace)
      ensures emission.Some? ==> trace == old(trace) + PassTrace(event, emission.value)
    {
      event := event + 1;
      if emission.Some? {
        var services := emission.value;
        var ce := event;
        var readOps := ReadAll(ce, services);
        var subscriptions := SubscribeAll(ce, services);
        var pass := readOps + subscriptions + BlinkPhase(ce, services);
        PassTraceTagged(ce, services);
        ghost var prev := trace;
        trace := trace + pass;
        assert forall k :: |prev| <= k < |trace| ==> trace[k] == pass[k - |prev|];
        assert forall k :: 0 <= k < |prev| ==> trace[k] == prev[k];
        assert pass == PassTrace(ce, services);
        forall k | 0 <= k < |trace|
          ensures if k < |prev| then trace[k].pass < ce else trace[k].pass == ce
        {
          if k < |prev| {
            assert trace[k] == prev[k];
          } else {
            assert trace[k] == pass[k - |prev|];
          }
        }
      }
    }
  }

  // ---- Properties of a pass ----

  lemma {:induction false} DescriptorReadsTagged(pass: nat, si: nat, ci: nat, ds: seq<Descriptor>, n: nat)
    requires n <= |ds|
    ensures forall k :: 0 <= k < |DescriptorReads(pass, si, ci, ds, n)| ==>
      DescriptorReads(pass, si, ci, ds, n)[k].Read? && DescriptorReads(pass, si, ci, ds, n)[k].pass == pass
  {
    if n > 0 { DescriptorReadsTagged(pass, si, ci, ds, n - 1); }
  }

  lemma {:induction false} ServiceReadsTagged(pass: nat, si: nat, cs: seq<Characteristic>, n: nat)
    requires n <= |cs|
    ensures forall k :: 0 <= k < |ServiceReads(pass, si, cs, n)| ==>
      ServiceReads(pass, si, cs, n)[k].Read? && ServiceReads(pass, si, cs, n)[k].pass == pass
  {
    if n > 0 {
      ServiceReadsTagged(pass, si, cs, n - 1);
      DescriptorReadsTagged(pass, si, n - 1, cs[n - 1].descriptors, |cs[n - 1].descriptors|);
    }
  }

  /** The read phase consists of reads only, all tagged with the pass index. */
  lemma {:induction false} ReadPhaseTagged(pass: nat, services: seq<Service>, n: nat)
    requires n <= |services|
    ensures forall k :: 0 <= k < |ReadPhase(pass, services, n)| ==>
      ReadPhase(pass, services, n)[k].Read? && ReadPhase(pass, services, n)[k].pass == pass
  {
    if n > 0 {
      ReadPhaseTagged(pass, services, n - 1);
      var cs := services[n - 1].characteristics;
      ServiceReadsTagged(pass, n - 1, cs, |cs|);
    }
  }

  lemma {:induction false} ServiceSubscriptionsTagged(pass: nat, si: nat, cs: seq<Characteristic>, n: nat)
    requires n <= |cs|
    ensures forall k :: 0 <= k < |ServiceSubscriptions(pass, si, cs, n)| ==>
      ServiceSubscriptions(pass, si, cs, n)[k].Subscribe? && ServiceSubscriptions(pass, si, cs, n)[k].pass == pass
  {
    if n > 0 { ServiceSubscriptionsTagged(pass, si, cs, n - 1); }
  }

  /** The subscription phase consists of subscription attempts only, all tagged with the pass index. */
  lemma {:induction false} SubscribePhaseTagged(pass: nat, services: seq<Service>, n: nat)
    requires n <= |services|
    ensures forall k :: 0 <= k < |SubscribePhase(pass, services, n)| ==>
      SubscribePhase(pass, services, n)[k].Subscribe? && SubscribePhase(pass, services, n)[k].pass == pass
  {
    if n > 0 {
      SubscribePhaseTagged(pass, services, n - 1);
      var cs := services[n - 1].characteristics;
      ServiceSubscriptionsTagged(pass, n - 1, cs, |cs|);
    }
  }

  /**
   * A pass keeps its index fixed: every operation it performs carries the index the pass
   * started with. All reads come before the first subscription attempt.
   */
  lemma PassTraceTagged(pass: nat, services: seq<Service>)
    ensures forall k :: 0 <= k < |PassTrace(pass, services)| ==> PassTrace(pass, services)[k].pass == pass
    ensures forall i, j :: 0 <= i < j < |PassTrace(pass, services)| && PassTrace(pass, services)[j].Read? ==>
      PassTrace(pass, services)[i].Read?
  {
    ReadPhaseTagged(pass, services, |services|);
    SubscribePhaseTagged(pass, services, |services|);
    var r := ReadPhase(pass, services, |services|);
    var s := SubscribePhase(pass, services, |services|);
    var b := BlinkPhase(pass, services);
    var t := PassTrace(pass, services);
    assert t == r + s + b;
    assert forall k :: 0 <= k < |b| ==> !b[k].Read? && b[k].pass == pass;
    forall i, j | 0 <= i < j < |t| && t[j].Read?
      ensures t[i].Read?
    {
      assert j < |r|;
    }
  }

  lemma {:induction false} DescriptorReadsLength(pass: nat, si: nat, ci: nat, ds: seq<Descriptor>, n: nat)
    requires n <= |ds|
    ensures |DescriptorReads(pass, si, ci, ds, n)| == n
  {
    if n > 0 { DescriptorReadsLength(pass, si, ci, ds, n - 1); }
  }

  lemma {:induction false} ServiceReadsLength(pass: nat, si: nat, cs: seq<Characteristic>, n: nat)
    requires n <= |cs|
    ensures |ServiceReads(pass, si, cs, n)| == CharItemCount(cs, n)
  {
    if n > 0 {
      ServiceReadsLength(pass, si, cs, n - 1);
      DescriptorReadsLength(pass, si, n - 1, cs[n - 1].descriptors, |cs[n - 1].descriptors|);
    }
  }

  /**
   * One read per characteristic and per descriptor, whatever the outcomes: no failure
   * shortens the read phase.
   */
  lemma {:induction false} ReadPhaseLength(pass: nat, services: seq<Service>, n: nat)
    requires n <= |services|
    ensures |ReadPhase(pass, services, n)| == ItemCount(services, n)
  {
    if n > 0 {
      ReadPhaseLength(pass, services, n - 1);
      var cs := services[n - 1].characteristics;
      ServiceReadsLength(pass, n - 1, cs, |cs|);
    }
  }

  lemma {:induction false} ServiceSubscriptionsLength(pass: nat, si: nat, cs: seq<Characteristic>, n: nat)
    requires n <= |cs|
    ensures |ServiceSubscriptions(pass, si, cs, n)| == n
  {
    if n > 0 { ServiceSubscriptionsLength(pass, si, cs, n - 1); }
  }

  /** One subscription attempt per characteristic, whatever the outcomes. */
  lemma {:induction false} SubscribePhaseLength(pass: nat, services: seq<Service>, n: nat)
    requires n <= |services|
    ensures |SubscribePhase(pass, services, n)| == CharacteristicCount(services, n)
  {
    if n > 0 {
      SubscribePhaseLength(pass, services, n - 1);
      var cs := services[n - 1].characteristics;
      ServiceSubscriptionsLength(pass, n - 1, cs, |cs|);
    }
  }

  lemma {:induction false} DescriptorReadsCover(pass: nat, si: nat, ci: nat, ds: seq<Descriptor>, n: nat, di: nat)
    requires di < n <= |ds|
    ensures Read(pass, DescItem(si, ci, di), ds[di].readOk) in DescriptorReads(pass, si, ci, ds, n)
  {
    if di < n - 1 { DescriptorReadsCover(pass, si, ci, ds, n - 1, di); }
  }

  lemma {:induction false} ServiceReadsCover(pass: nat, si: nat, cs: seq<Characteristic>, n: nat, ci: nat)
    requires ci < n <= |cs|
    ensures Read(pass, CharItem(si, ci), cs[ci].readOk) in ServiceReads(pass, si, cs, n)
    ensures forall di :: 0 <= di < |cs[ci].descriptors| ==>
      Read(pass, DescItem(si, ci, di), cs[ci].descriptors[di].readOk) in ServiceReads(pass, si, cs, n)
  {
    if ci < n - 1 {
      ServiceReadsCover(pass, si, cs, n - 1, ci);
    } else {
      var ds := cs[ci].descriptors;
      forall di | 0 <= di < |ds|
        ensures Read(pass, DescItem(si, ci, di), ds[di].readOk) in CharacteristicReads(pass, si, ci, cs[ci])
      {
        DescriptorReadsCover(pass, si, ci, ds, |ds|, di);
      }
    }
  }

  /**
   * Failure isolation: in every pass, whatever the outcomes, each characteristic is read
   * and each of its descriptors is read, with the outcome the transport gave.
   */
  lemma {:induction false} EveryItemRead(pass: nat, services: seq<Service>, n: nat, si: nat, ci: nat)
    requires si < n <= |services| && ci < |services[si].characteristics|
    ensures Read(pass, CharItem(si, ci), services[si].characteristics[ci].readOk) in ReadPhase(pass, services, n)
    ensures forall di :: 0 <= di < |services[si].characteristics[ci].descriptors| ==>
      Read(pass, DescItem(si, ci, di), services[si].characteristics[ci].descriptors[di].readOk)
        in ReadPhase(pass, services, n)
  {
    if si < n - 1 {
      EveryItemRead(pass, services, n - 1, si, ci);
    } else {
      var cs := services[si].characteristics;
      ServiceReadsCover(pass, si, cs, |cs|, ci);
    }
  }

  lemma {:induction false} ServiceSubscriptionsCover(pass: nat, si: nat, cs: seq<Characteristic>, n: nat, ci: nat)
    requires ci < n <= |cs|
    ensures Subscribe(pass, si, ci, OutcomeOf(cs[ci])) in ServiceSubscriptions(pass, si, cs, n)
  {
    if ci < n - 1 { ServiceSubscriptionsCover(pass, si, cs, n - 1, ci); }
  }

  /** Every characteristic gets a subscription attempt, whether or not it is subscribable. */
  lemma {:induction false} EveryCharacteristicSubscribed(pass: nat, services: seq<Service>, n: nat, si: nat, ci: nat)
    requires si < n <= |services| && ci < |services[si].characteristics|
    ensures Subscribe(pass, si, ci, OutcomeOf(services[si].characteristics[ci])) in SubscribePhase(pass, services, n)
  {
    if si < n - 1 {
      EveryCharacteristicSubscribed(pass, services, n - 1, si, ci);
    } else {
      var cs := services[si].characteristics;
      ServiceSubscriptionsCover(pass, si, cs, |cs|, ci);
    }
  }

  lemma {:induction false} ServiceSubscriptionsSound(pass: nat, si: nat, cs: seq<Characteristic>, n: nat)
    requires n <= |cs|
    ensures forall op :: op in ServiceSubscriptions(pass, si, cs, n) ==>
      op.Subscribe? && op.service == si && op.characteristic < n && op.outcome == OutcomeOf(cs[op.characteristic])
  {
    if n > 0 { ServiceSubscriptionsSound(pass, si, cs, n - 1); }
  }

  /**
   * A subscription attempt is reported as an anomaly exactly when it failed on a
   * characteristic that is subscribable; a failure on one that is not is an expected
   * refusal, and a call that did not throw leaves the subscription active.
   */
  lemma {:induction false} SubscriptionOutcomes(pass: nat, services: seq<Service>, n: nat)
    requires n <= |services|
    ensures forall op :: op in SubscribePhase(pass, services, n) ==>
      && op.Subscribe? && op.service < n
      && op.characteristic < |services[op.service].characteristics|
      && var c := services[op.service].characteristics[op.characteristic];
         && (op.outcome == Anomaly <==> !c.subscribeOk && c.subscribable)
         && (op.outcome == ExpectedRefusal <==> !c.subscribeOk && !c.subscribable)
         && (op.outcome == Active <==> c.subscribeOk)
  {
    if n > 0 {
      SubscriptionOutcomes(pass, services, n - 1);
      var cs := services[n - 1].characteristics;
      ServiceSubscriptionsSound(pass, n - 1, cs, |cs|);
    }
  }

  /**
   * The blink job is launched exactly when the first service with the LED Button UUID has
   * an LED characteristic; the button is awaited exactly when it has a button characteristic.
   */
  lemma BlinkPhaseLaunches(pass: nat, services: seq<Service>)
    ensures BlinkLaunched(pass) in BlinkPhase(pass, services) <==>
      exists i :: 0 <= i < |services| && services[i].uuid == BlinkyServiceUuid
        && (forall j :: 0 <= j < i ==> services[j].uuid != BlinkyServiceUuid)
        && (exists c :: c in services[i].characteristics && c.uuid == LedCharacteristicUuid)
    ensures (exists t :: AwaitButton(pass, t) in BlinkPhase(pass, services)) <==>
      exists i :: 0 <= i < |services| && services[i].uuid == BlinkyServiceUuid
        && (forall j :: 0 <= j < i ==> services[j].uuid != BlinkyServiceUuid)
        && (exists c :: c in services[i].characteristics && c.uuid == ButtonCharacteristicUuid)
  {
  }
}
