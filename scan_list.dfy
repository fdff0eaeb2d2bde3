/**
 * The discovered-peripherals list of the scanner screen, as values.
 * A sighting passes through `filterNot { list.contains(it) }` and, if it survives,
 * is appended to the list; a whole scan is that step folded over its sightings.
 */
module ScanList {

  /** No peripheral appears twice in the list. */
  ghost predicate NoDuplicates<P>(s: seq<P>) {
    forall i, j :: 0 <= i < j < |s| ==> s[i] != s[j]
  }

  /** The set of peripherals held by a list or a run of sightings. */
  ghost function Elems<P>(s: seq<P>): set<P> {
    set x | x in s
  }

  /** One sighting: dropped when the list already contains it, appended otherwise. */
  function AddIfNew<P(==, !new)>(known: seq<P>, p: P): (r: seq<P>)
    ensures known <= r && |r| <= |known| + 1
    ensures p in r
    ensures forall q :: q in r <==> q in known || q == p
    ensures |r| == |known| + 1 <==> p !in known
    ensures NoDuplicates(known) ==> NoDuplicates(r)
  {
    if p in known then known else known + [p]
  }

  /** The list after a scan has delivered `sightings`, in order. */
  function Absorb<P(==, !new)>(known: seq<P>, sightings: seq<P>): seq<P>
    decreases |sightings|
  {
    if |sightings| == 0 then known
    else Absorb(AddIfNew(known, sightings[0]), sightings[1..])
  }

  /** A scan never reorders or drops an entry: the old list is a prefix of the new one. */
  lemma {:induction false} AbsorbExtends<P(!new)>(known: seq<P>, sightings: seq<P>)
    ensures known <= Absorb(known, sightings)
    decreases |sightings|
  {
    if |sightings| > 0 {
      AbsorbExtends(AddIfNew(known, sightings[0]), sightings[1..]);
    }
  }

  /** After a scan the list holds exactly the old entries and the peripherals sighted. */
  lemma {:induction false} AbsorbMembers<P(!new)>(known: seq<P>, sightings: seq<P>)
    ensures forall q :: q in Absorb(known, sightings) <==> q in known || q in sightings
    decreases |sightings|
  {
    if |sightings| > 0 {
      var rest := sightings[1..];
      AbsorbMembers(AddIfNew(known, sightings[0]), rest);
      assert forall q :: q in sightings <==> q == sightings[0] || q in rest;
    }
  }

  /** A list without duplicates stays without duplicates, however often a peripheral is sighted. */
  lemma {:induction false} AbsorbNoDuplicates<P(!new)>(known: seq<P>, sightings: seq<P>)
    requires NoDuplicates(known)
    ensures NoDuplicates(Absorb(known, sightings))
    decreases |sightings|
  {
    if |sightings| > 0 {
      AbsorbNoDuplicates(AddIfNew(known, sightings[0]), sightings[1..]);
    }
  }

  /**
   * Dedup law: a scan grows the list by exactly the number of distinct peripherals
   * it sighted that the list did not already hold, however many times each was seen.
   */
  lemma {:induction false} AbsorbCount<P(!new)>(known: seq<P>, sightings: seq<P>)
    ensures |Absorb(known, sightings)| == |known| + |Elems(sightings) - Elems(known)|
    decreases |sightings|
  {
    if |sightings| == 0 {
      assert Elems(sightings) == {};
    } else {
      var p, rest := sightings[0], sightings[1..];
      var next := AddIfNew(known, p);
      AbsorbCount(next, rest);
      assert Elems(sightings) == {p} + Elems(rest);
      if p in known {
        assert Elems(sightings) - Elems(known) == Elems(rest) - Elems(known);
      } else {
        assert Elems(next) == Elems(known) + {p};
        var unseen := Elems(rest) - Elems(next);
        assert Elems(sightings) - Elems(known) == unseen + {p};
        assert p !in unseen;
      }
    }
  }
}
