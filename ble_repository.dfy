/**
 * The single-peripheral repository: one field holding the peripheral currently
 * connected (or null), a toggle that decides between connecting and disconnecting, and
 * the completions of the connect and disconnect coroutines it launches.
 */
module Repository {
  import opened Common

  /** The coroutine a toggle launches. */
  datatype Command<P> = ConnectCmd(target: P) | DisconnectCmd

  /** The completion of a launched coroutine, as seen by the `_peripheral` field. */
  datatype Completion<P> =
    | ConnectSucceeded(target: P)
    | ConnectFailed(target: P)
    /** The disconnect coroutine ran; `transportThrew` is the outcome of `p.disconnect()`. */
    | DisconnectRan(transportThrew: bool)

  /** The field after a completion. */
  function Next<P>(current: Option<P>, c: Completion<P>): Option<P> {
    match c
    case ConnectSucceeded(p) => Some(p)
    case ConnectFailed(_) => None
    case DisconnectRan(_) => None
  }

  /** The field after a run of completions, in order. */
  function Replay<P>(current: Option<P>, cs: seq<Completion<P>>): Option<P>
    decreases |cs|
  {
    if |cs| == 0 then current else Replay(Next(current, cs[0]), cs[1..])
  }

  /**
   * The field only ever holds the target of the latest completion when that completion is a
   * successful connect, and is null after any other completion, whatever came before.
   */
  lemma {:induction false} ReplayFollowsLatest<P>(current: Option<P>, cs: seq<Completion<P>>)
    requires |cs| > 0
    ensures Replay(current, cs) == if cs[|cs| - 1].ConnectSucceeded? then Some(cs[|cs| - 1].target) else None
    decreases |cs|
  {
    if |cs| > 1 {
      ReplayFollowsLatest(Next(current, cs[0]), cs[1..]);
    }
  }

  class BleRepository<P(==)> {
    /** `_peripheral`: the peripheral currently connected, or null. */
    var current: Option<P>

    constructor ()
      ensures current == None
    {
      current := None;
    }

    /** Toggling the held peripheral disconnects; any other peripheral, or none held, connects. */
    method ToggleConnection(p: P) returns (cmd: Command<P>)
      ensures cmd == DisconnectCmd <==> current == Some(p)
      ensures cmd.ConnectCmd? ==> cmd.target == p
    {
      if current == Some(p) {
        cmd := DisconnectCmd;
      } else {
        cmd := ConnectCmd(p);
      }
    }

    /**
     * The connect coroutine: on success the field holds p; on failure it is null, even if
     * another peripheral was held before.
     */
    method Connect(p: P, ok: bool)
      modifies this
      ensures current == Next(old(current), if ok then ConnectSucceeded(p) else ConnectFailed(p))
      ensures ok ==> current == Some(p)
      ensures !ok ==> current == None
    {
      if ok {
        current := Some(p);
      } else {
        current := None;
      }
    }

    /**
     * The disconnect coroutine: with nothing held it returns at once; otherwise it asks the
     * held peripheral to disconnect and, whether or not that threw, clears the field.
     */
    method Disconnect(transportThrew: bool) returns (target: Option<P>)
      modifies this
      ensures target == old(current)
      ensures current == Next(old(current), DisconnectRan(transportThrew))
      ensures current == None
    {
      target := current;
      if current.None? {
        return;
      }
      current := None;
    }

    /**
     * `toggleConnection` read sequentially: the decision, then the coroutine it launched.
     * Toggling the held peripheral ends with nothing held; toggling any other peripheral
     * ends holding it exactly when the connect succeeded.
     */
    method ToggleAndAwait(p: P, connectOk: bool, transportThrew: bool) returns (cmd: Command<P>)
      modifies this
      ensures cmd == DisconnectCmd <==> old(current) == Some(p)
      ensures old(current) == Some(p) ==> current == None
      ensures old(current) != Some(p) ==> (current == Some(p) <==> connectOk)
      ensures old(current) != Some(p) && !connectOk ==> current == None
    {
      cmd := ToggleConnection(p);
      match cmd {
        case ConnectCmd(target) =>
          Connect(target, connectOk);
        case DisconnectCmd =>
          var _ := Disconnect(transportThrew);
      }
    }
  }

  /**
   * One stretch of `observeServices`: a value the peripheral field held, and what the
   * services flow of the latest non-null peripheral (the one `flatMapLatest` is following)
   * emitted while the field held that value. A null value is filtered out before
   * `flatMapLatest`, so it does not stop the flow of the peripheral held before it.
   */
  datatype Stretch<P, S> = Stretch(peripheral: Option<P>, emissions: seq<Option<S>>)

  /** `filterNotNull` over one services flow. */
  function NonNull<S(!new)>(xs: seq<Option<S>>): (r: seq<S>)
    ensures |r| <= |xs|
    ensures forall v :: v in r <==> Some(v) in xs
  {
    if |xs| == 0 then []
    else
      assert forall v :: Some(v) in xs <==> Some(v) == xs[0] || Some(v) in xs[1..];
      (if xs[0].Some? then [xs[0].value] else []) + NonNull(xs[1..])
  }

  /**
   * `filterNotNull` keeps order and multiplicity: it distributes over concatenation,
   * keeps a non-null value and drops a null.
   */
  lemma {:induction false} NonNullAppend<S(!new)>(xs: seq<Option<S>>, ys: seq<Option<S>>)
    ensures NonNull(xs + ys) == NonNull(xs) + NonNull(ys)
    ensures forall v: S :: NonNull([Some(v)]) == [v]
    ensures NonNull<S>([None]) == []
    decreases |xs|
  {
    if |xs| > 0 {
      assert (xs + ys)[0] == xs[0];
      assert (xs + ys)[1..] == xs[1..] + ys;
      NonNullAppend(xs[1..], ys);
    } else {
      assert xs + ys == ys;
    }
  }

  /** Some stretch among the first n held a non-null peripheral. */
  ghost predicate HeldBefore<P, S>(stretches: seq<Stretch<P, S>>, n: int) {
    exists j :: 0 <= j < n && j < |stretches| && stretches[j].peripheral.Some?
  }

  /** Dropping the first stretch shifts the window by one. */
  lemma HeldBeforeShift<P, S>(stretches: seq<Stretch<P, S>>)
    requires |stretches| > 0
    ensures forall k :: 0 <= k ==>
      (HeldBefore(stretches, k + 1) <==> stretches[0].peripheral.Some? || HeldBefore(stretches[1..], k))
  {
    forall k | 0 <= k
      ensures HeldBefore(stretches, k + 1) <==> stretches[0].peripheral.Some? || HeldBefore(stretches[1..], k)
    {
      if HeldBefore(stretches[1..], k) {
        var j :| 0 <= j < k && j < |stretches[1..]| && stretches[1..][j].peripheral.Some?;
        assert stretches[j + 1] == stretches[1..][j];
      }
      if HeldBefore(stretches, k + 1) && !stretches[0].peripheral.Some? {
        var j :| 0 <= j < k + 1 && j < |stretches| && stretches[j].peripheral.Some?;
        assert stretches[1..][j - 1] == stretches[j];
      }
    }
  }

  /**
   * The services stream from a point on; `following` says whether `flatMapLatest` is
   * already following some peripheral's services flow.
   */
  function ObserveFrom<P, S(!new)>(following: bool, stretches: seq<Stretch<P, S>>): (r: seq<S>)
    ensures forall v :: v in r <==>
      exists k :: 0 <= k < |stretches| && (following || HeldBefore(stretches, k + 1))
        && Some(v) in stretches[k].emissions
    decreases |stretches|
  {
    if |stretches| == 0 then []
    else
      var now := following || stretches[0].peripheral.Some?;
      var rest := stretches[1..];
      var tail := ObserveFrom(now, rest);
      assert forall k :: 1 <= k < |stretches| ==> stretches[k] == rest[k - 1];
      HeldBeforeShift(stretches);
      (if now then NonNull(stretches[0].emissions) else []) + tail
  }

  /**
   * `peripheral.filterNotNull().flatMapLatest { p -> p.services().filterNotNull() }`:
   * nothing is yielded before the field first holds a peripheral, and no null service list
   * is ever yielded; from then on every non-null list of the followed flow is yielded,
   * also while the field is null again.
   */
  function ObserveServices<P, S(!new)>(stretches: seq<Stretch<P, S>>): (r: seq<S>)
    ensures forall v :: v in r <==>
      exists k :: 0 <= k < |stretches| && HeldBefore(stretches, k + 1) && Some(v) in stretches[k].emissions
  {
    ObserveFrom(false, stretches)
  }

  /** Before the field first holds a peripheral, the stream yields nothing. */
  lemma {:induction false} ObserveServicesQuietUntilHeld<P, S(!new)>(stretches: seq<Stretch<P, S>>)
    requires !HeldBefore(stretches, |stretches|)
    ensures ObserveServices(stretches) == []
    decreases |stretches|
  {
    if |stretches| > 0 {
      HeldBeforeShift(stretches);
      assert !HeldBefore(stretches, (|stretches| - 1) + 1);
      ObserveServicesQuietUntilHeld(stretches[1..]);
    }
  }

  lemma {:induction false} ObserveFromAppend<P, S(!new)>(following: bool, xs: seq<Stretch<P, S>>, ys: seq<Stretch<P, S>>)
    ensures ObserveFrom(following, xs + ys) == ObserveFrom(following, xs) + ObserveFrom(following || HeldBefore(xs, |xs|), ys)
    decreases |xs|
  {
    if |xs| > 0 {
      var now := following || xs[0].peripheral.Some?;
      assert (xs + ys)[0] == xs[0];
      assert (xs + ys)[1..] == xs[1..] + ys;
      ObserveFromAppend(now, xs[1..], ys);
      HeldBeforeShift(xs);
      assert HeldBefore(xs, (|xs| - 1) + 1) <==> xs[0].peripheral.Some? || HeldBefore(xs[1..], |xs| - 1);
    } else {
      assert xs + ys == ys;
      assert !HeldBefore(xs, |xs|);
    }
  }

  /**
   * The stream keeps order: a new stretch adds its non-null lists at the end, once any
   * stretch so far (this one included) held a peripheral. A null field after a non-null
   * one does not stop the lists of the peripheral held before.
   */
  lemma ObserveServicesExtend<P, S(!new)>(stretches: seq<Stretch<P, S>>, next: Stretch<P, S>)
    ensures ObserveServices(stretches + [next]) == ObserveServices(stretches)
      + (if HeldBefore(stretches + [next], |stretches| + 1) then NonNull(next.emissions) else [])
  {
    ObserveFromAppend(false, stretches, [next]);
    var held := HeldBefore(stretches, |stretches|);
    assert HeldBefore(stretches + [next], |stretches| + 1) == (held || next.peripheral.Some?) by {
      if held {
        var j :| 0 <= j < |stretches| && stretches[j].peripheral.Some?;
        assert (stretches + [next])[j] == stretches[j];
      }
      if next.peripheral.Some? {
        assert (stretches + [next])[|stretches|] == next;
      }
      if HeldBefore(stretches + [next], |stretches| + 1) && !next.peripheral.Some? {
        var j :| 0 <= j < |stretches| + 1 && (stretches + [next])[j].peripheral.Some?;
        assert j < |stretches| && stretches[j].peripheral.Some?;
      }
    }
    assert [next][1..] == [];
  }

  /** A null field does not stop the services flow of the peripheral held before it. */
  lemma NullFieldKeepsFollowing<P, S(!new)>(a: P, l: S)
    ensures ObserveServices([Stretch(Some(a), []), Stretch(None, [Some(l)])]) == [l]
  {
    var second := Stretch(None, [Some(l)]);
    var xs := [Stretch(Some(a), []), second];
    assert xs[1..] == [second];
    assert [second][1..] == [];
    assert [Some(l)][1..] == [];
    assert NonNull([Some(l)]) == [l];
    assert ObserveFrom(true, [second]) == [l];
    assert ObserveFrom(false, xs) == NonNull<S>([]) + ObserveFrom(true, [second]);
  }
}
