/**
 * The scanner screen's view model: the discovered-peripherals list, the scanning and
 * connected flags, and the registry of per-peripheral connection scopes.
 *
 * Coroutine launches are read as ordered events. A connection scope is named by a serial
 * number handed out when it is created; cancelling a scope records its number in
 * `cancelled`. The library's scan, connect and disconnect calls are outcomes passed in.
 */
module Scanner {
  import opened Common
  import opened ScanList

  /** What a tap on a peripheral launches, and in which connection scope. */
  datatype SelectAction = DisconnectIn(scope: nat) | ConnectIn(scope: nat)

  class ScannerViewModel<P(==, !new)> {
    /** The peripherals shown on screen, in discovery order. */
    var peripherals: seq<P>
    var isScanning: bool
    var connected: bool
    /** Peripheral -> live connection scope. */
    var scopes: map<P, nat>
    /** The serial number the next connection scope gets. */
    var nextScope: nat
    /** Scopes that have been cancelled. */
    var cancelled: set<nat>

    /**
     * The list never holds a peripheral twice; every live scope was created, is owned by
     * exactly one peripheral and has not been cancelled.
     */
    ghost predicate Valid()
      reads this
    {
      && |peripherals| > 0
      && NoDuplicates(peripherals)
      && (forall p :: p in scopes ==> scopes[p] < nextScope && scopes[p] !in cancelled)
      && (forall p, q :: p in scopes && q in scopes && p != q ==> scopes[p] != scopes[q])
      && (forall s :: s in cancelled ==> s < nextScope)
    }

    /** The list starts with the one preview peripheral; nothing is scanning or connected. */
    constructor (preview: P)
      ensures Valid()
      ensures peripherals == [preview] && !isScanning && !connected
      ensures scopes == map[] && cancelled == {}
    {
      peripherals := [preview];
      isScanning := false;
      connected := false;
      scopes := map[];
      nextScope := 0;
      cancelled := {};
    }

    /** `onStart` of the scan flow raises the scanning flag. */
    method OnScanStarted()
      requires Valid()
      modifies this
      ensures Valid()
      ensures isScanning
      ensures peripherals == old(peripherals) && connected == old(connected)
      ensures scopes == old(scopes) && nextScope == old(nextScope) && cancelled == old(cancelled)
    {
      isScanning := true;
    }

    /**
     * One peripheral delivered by the scan: appended at the end when the list does not
     * contain it yet, dropped otherwise.
     */
    method OnSighting(p: P) returns (added: bool)
      requires Valid()
      modifies this
      ensures Valid()
      ensures added <==> p !in old(peripherals)
      ensures peripherals == if added then old(peripherals) + [p] else old(peripherals)
      ensures isScanning == old(isScanning) && connected == old(connected)
      ensures scopes == old(scopes) && nextScope == old(nextScope) && cancelled == old(cancelled)
    {
      added := p !in peripherals;
      if added {
        peripherals := peripherals + [p];
      }
    }

    /** `onCompletion` of the scan flow (time-out, stop request or scan error) lowers the flag. */
    method OnScanCompleted()
      requires Valid()
      modifies this
      ensures Valid()
      ensures !isScanning
      ensures peripherals == old(peripherals) && connected == old(connected)
      ensures scopes == old(scopes) && nextScope == old(nextScope) && cancelled == old(cancelled)
    {
      isScanning := false;
    }

    /**
     * A whole scan: the flag goes up, every sighting runs through the dedup filter, and
     * the flag goes down on completion, whether the scan ended normally or with an error.
     */
    method RunScan(sightings: seq<P>)
      requires Valid()
      modifies this
      ensures Valid()
      ensures peripherals == Absorb(old(peripherals), sightings)
      ensures !isScanning
      ensures connected == old(connected)
      ensures scopes == old(scopes) && nextScope == old(nextScope) && cancelled == old(cancelled)
    {
      OnScanStarted();
      var i := 0;
      while i < |sightings|
        invariant 0 <= i <= |sightings|
        invariant Valid() && isScanning
        invariant Absorb(peripherals, sightings[i..]) == Absorb(old(peripherals), sightings)
        invariant connected == old(connected)
        invariant scopes == old(scopes) && nextScope == old(nextScope) && cancelled == old(cancelled)
      {
        assert sightings[i..][1..] == sightings[i + 1..];
        var _ := OnSighting(sightings[i]);
        i := i + 1;
      }
      OnScanCompleted();
    }

    /**
     * `connectionScopeMap.remove(p)?.cancel()`: drops p's scope, if it has one, and
     * cancels it. No other peripheral's scope is touched.
     */
    method RemoveScope(p: P) returns (removed: Option<nat>)
      requires Valid()
      modifies this
      ensures Valid()
      ensures removed == if p in old(scopes) then Some(old(scopes)[p]) else None
      ensures scopes == old(scopes) - {p}
      ensures cancelled == if p in old(scopes) then old(cancelled) + {old(scopes)[p]} else old(cancelled)
      ensures peripherals == old(peripherals) && isScanning == old(isScanning)
      ensures connected == old(connected) && nextScope == old(nextScope)
    {
      if p in scopes {
        removed := Some(scopes[p]);
        cancelled := cancelled + {scopes[p]};
        scopes := scopes - {p};
      } else {
        removed := None;
      }
    }

    /**
     * A tap on a peripheral toggles: with a live scope the disconnect is launched in it and
     * the registry is unchanged; without one a new scope is created, registered for p alone,
     * and the connect is launched in it.
     */
    method OnPeripheralSelected(p: P) returns (action: SelectAction)
      requires Valid()
      modifies this
      ensures Valid()
      ensures p in old(scopes) ==>
        action == DisconnectIn(old(scopes)[p]) && scopes == old(scopes) && nextScope == old(nextScope)
      ensures p !in old(scopes) ==>
        && action == ConnectIn(old(nextScope))
        && scopes == old(scopes)[p := old(nextScope)]
        && nextScope == old(nextScope) + 1
        && action.scope !in old(scopes).Values
        && action.scope !in cancelled
      ensures p in scopes && scopes[p] == action.scope
      ensures peripherals == old(peripherals) && isScanning == old(isScanning)
      ensures connected == old(connected) && cancelled == old(cancelled)
    {
      if p in scopes {
        action := DisconnectIn(scopes[p]);
      } else {
        action := ConnectIn(nextScope);
        scopes := scopes[p := nextScope];
        nextScope := nextScope + 1;
      }
    }

    /**
     * The connect launched by a tap has returned. On success the observers start inside the
     * scope and nothing here changes; on failure p's scope is removed and cancelled.
     */
    method OnConnectResult(p: P, ok: bool) returns (removed: Option<nat>)
      requires Valid()
      modifies this
      ensures Valid()
      ensures ok ==> removed == None && scopes == old(scopes) && cancelled == old(cancelled)
      ensures !ok ==> removed == (if p in old(scopes) then Some(old(scopes)[p]) else None)
      ensures !ok ==> scopes == old(scopes) - {p}
      ensures !ok && p in old(scopes) ==> cancelled == old(cancelled) + {old(scopes)[p]}
      ensures !ok && p !in old(scopes) ==> cancelled == old(cancelled)
      ensures peripherals == old(peripherals) && isScanning == old(isScanning)
      ensures connected == old(connected) && nextScope == old(nextScope)
    {
      if ok {
        removed := None;
      } else {
        removed := RemoveScope(p);
      }
    }

    /**
     * A state reported by peripheral p. `Connected` raises the connected flag and launches
     * the connection set-up in p's scope when it has one; `Disconnected` lowers the flag and
     * removes and cancels p's scope; every other state is ignored.
     */
    method OnStateChanged(p: P, s: ConnectionState) returns (setupLaunched: bool, removed: Option<nat>)
      requires Valid()
      modifies this
      ensures Valid()
      ensures s == Connected ==> connected && setupLaunched == (p in old(scopes))
      ensures s == Disconnected ==> !connected && !setupLaunched
      ensures s == Disconnected ==> removed == (if p in old(scopes) then Some(old(scopes)[p]) else None)
      ensures s == Disconnected ==> scopes == old(scopes) - {p}
      ensures s == Disconnected && p in old(scopes) ==> cancelled == old(cancelled) + {old(scopes)[p]}
      ensures s == Disconnected && p !in old(scopes) ==> cancelled == old(cancelled)
      ensures s != Connected && s != Disconnected ==> connected == old(connected) && !setupLaunched
      ensures s != Disconnected ==> removed == None && scopes == old(scopes) && cancelled == old(cancelled)
      ensures peripherals == old(peripherals) && isScanning == old(isScanning)
      ensures nextScope == old(nextScope)
    {
      setupLaunched, removed := false, None;
      match s {
        case Connected =>
          connected := true;
          setupLaunched := p in scopes;
        case Disconnected =>
          connected := false;
          removed := RemoveScope(p);
        case _ =>
      }
    }
  }
}
