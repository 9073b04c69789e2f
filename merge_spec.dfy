/**
 * The single-threaded merge that follows the workers' join in
 * Data.download, as a function on station values: fragments are folded
 * into a map keyed by identifier; a new identifier inserts its fragment, a
 * known one gets the fragment's readings appended.
 */
module MergeSpec {
  import opened Wrappers
  import opened Stations

  /** A station identifier; None is a station without an identifier element. */
  type Id = Option<string>

  /** All lists of a list of lists, concatenated in order. */
  function Flatten<T>(ls: seq<seq<T>>): seq<T>
  {
    if ls == [] then [] else Flatten(ls[..|ls| - 1]) + ls[|ls| - 1]
  }

  /** Flattening the first i lists gives a prefix of flattening all of them. */
  lemma {:induction false} FlattenPrefix<T>(ls: seq<seq<T>>, i: nat)
    requires i <= |ls|
    ensures Flatten(ls[..i]) <= Flatten(ls)
    decreases |ls| - i
  {
    if i < |ls| {
      FlattenPrefix(ls, i + 1);
      assert ls[..i + 1][..i] == ls[..i];
    } else {
      assert ls[..i] == ls;
    }
  }

  /** Flattening one list more appends that list. */
  lemma FlattenStep<T>(ls: seq<seq<T>>, i: nat)
    requires i < |ls|
    ensures Flatten(ls[..i + 1]) == Flatten(ls[..i]) + ls[i]
  {
    assert ls[..i + 1][..i] == ls[..i];
  }

  /** Element j of list i sits at position |Flatten(ls[..i])| + j of the flattened list. */
  lemma FlattenIndex<T>(ls: seq<seq<T>>, i: nat, j: nat)
    requires i < |ls| && j < |ls[i]|
    ensures Flatten(ls[..i + 1]) == Flatten(ls[..i]) + ls[i]
    ensures |Flatten(ls[..i])| + j < |Flatten(ls)| && Flatten(ls)[|Flatten(ls[..i])| + j] == ls[i][j]
  {
    assert ls[..i + 1][..i] == ls[..i];
    FlattenPrefix(ls, i + 1);
  }

  /** One step of the merge loop. */
  function MergeStep(m: map<Id, StationValue>, s: StationValue): map<Id, StationValue>
  {
    if s.identifier in m then
      m[s.identifier := m[s.identifier].(readings := m[s.identifier].readings + s.readings)]
    else m[s.identifier := s]
  }

  /** The merge of all fragments, in order. */
  function MergeAll(frs: seq<StationValue>): map<Id, StationValue>
  {
    if frs == [] then map[] else MergeStep(MergeAll(frs[..|frs| - 1]), frs[|frs| - 1])
  }

  /** The identifiers of the fragments. */
  function Ids(frs: seq<StationValue>): set<Id>
  {
    set f | f in frs :: f.identifier
  }

  /** Fragment i is the first fragment with identifier k. */
  ghost predicate FirstWithId(frs: seq<StationValue>, k: Id, i: int)
  {
    0 <= i < |frs| && frs[i].identifier == k && forall j :: 0 <= j < i ==> frs[j].identifier != k
  }

  /** The readings of all fragments with identifier k, concatenated in fragment order. */
  function ReadingsWithId(frs: seq<StationValue>, k: Id): seq<Reading>
  {
    if frs == [] then []
    else ReadingsWithId(frs[..|frs| - 1], k) + (if frs[|frs| - 1].identifier == k then frs[|frs| - 1].readings else [])
  }

  /** The total number of readings of the fragments with identifier k. */
  function ReadingCount(frs: seq<StationValue>, k: Id): nat
  {
    if frs == [] then 0
    else ReadingCount(frs[..|frs| - 1], k) + (if frs[|frs| - 1].identifier == k then |frs[|frs| - 1].readings| else 0)
  }

  /**
   * After the merge the keys are exactly the fragment identifiers, and the
   * station under each key carries that identifier.
   */
  lemma {:induction false} MergeAllKeys(frs: seq<StationValue>)
    ensures MergeAll(frs).Keys == Ids(frs)
    ensures forall k :: k in MergeAll(frs) ==> MergeAll(frs)[k].identifier == k
  {
    if frs != [] {
      var prefix := frs[..|frs| - 1];
      var last := frs[|frs| - 1];
      MergeAllKeys(prefix);
      assert frs == prefix + [last];
      assert Ids(frs) == Ids(prefix) + {last.identifier};
    }
  }

  /** The station under key k holds the readings of all fragments with k, concatenated in order. */
  lemma {:induction false} MergeAllReadings(frs: seq<StationValue>)
    ensures forall k :: k in MergeAll(frs) ==> MergeAll(frs)[k].readings == ReadingsWithId(frs, k)
  {
    if frs != [] {
      var prefix := frs[..|frs| - 1];
      var last := frs[|frs| - 1];
      MergeAllReadings(prefix);
      if last.identifier !in MergeAll(prefix) {
        MergeAllKeys(prefix);
        ReadingsWithIdAbsent(prefix, last.identifier);
      }
    }
  }

  /** The station under key k keeps the name, identifier, province and coordinates of the FIRST fragment with k. */
  lemma {:induction false} MergeAllKeepsFirst(frs: seq<StationValue>)
    ensures forall k, i :: k in MergeAll(frs) && FirstWithId(frs, k, i) ==> SameIdentity(MergeAll(frs)[k], frs[i])
  {
    if frs != [] {
      var prefix := frs[..|frs| - 1];
      var last := frs[|frs| - 1];
      MergeAllKeepsFirst(prefix);
      MergeAllKeys(prefix);
      forall k, i | k in MergeAll(frs) && FirstWithId(frs, k, i)
        ensures SameIdentity(MergeAll(frs)[k], frs[i])
      {
        if i < |prefix| {
          assert FirstWithId(prefix, k, i);
        } else {
          assert k !in Ids(prefix) by {
            forall j | 0 <= j < |prefix| ensures prefix[j].identifier != k {
              assert prefix[j] == frs[j];
            }
          }
        }
      }
    }
  }

  /** No fragment carries identifier k: none of them contributes readings for it. */
  lemma {:induction false} ReadingsWithIdAbsent(frs: seq<StationValue>, k: Id)
    requires k !in Ids(frs)
    ensures ReadingsWithId(frs, k) == []
  {
    if frs != [] {
      var prefix := frs[..|frs| - 1];
      assert Ids(prefix) <= Ids(frs) by {
        forall f | f in prefix ensures f in frs { }
      }
      assert frs[|frs| - 1] in frs;
      ReadingsWithIdAbsent(prefix, k);
    }
  }

  /** A merged station holds as many readings as all its fragments together. */
  lemma {:induction false} ReadingsWithIdCount(frs: seq<StationValue>, k: Id)
    ensures |ReadingsWithId(frs, k)| == ReadingCount(frs, k)
  {
    if frs != [] {
      ReadingsWithIdCount(frs[..|frs| - 1], k);
    }
  }

  /**
   * `vs` lists the values of `m` in some order (HashMap.values() promises
   * none): each entry is the value under its own identifier, no identifier
   * twice, and every key is listed.
   */
  predicate Enumerates(vs: seq<StationValue>, m: map<Id, StationValue>)
  {
    Ids(vs) == m.Keys
    && (forall i :: 0 <= i < |vs| ==> vs[i].identifier in m && m[vs[i].identifier] == vs[i])
    && (forall i, j :: 0 <= i < j < |vs| ==> vs[i].identifier != vs[j].identifier)
  }

  /** Two fragments of one station: the merged station has the readings of both, first fragment first. */
  lemma MergeTwoFragments(a: StationValue, b: StationValue)
    requires a.identifier == b.identifier
    ensures MergeAll([a, b]).Keys == {a.identifier}
    ensures MergeAll([a, b])[a.identifier] == a.(readings := a.readings + b.readings)
    ensures |MergeAll([a, b])[a.identifier].readings| == |a.readings| + |b.readings|
  {
    assert [a, b][..1] == [a];
    assert [a][..0] == [];
    assert MergeAll([a]) == map[a.identifier := a];
  }
}
