/** Choosing the one renderer that may be audible (server/lib/audio-ownership.js). */
module AudioElection {
  import opened Wrappers
  import opened Text
  import Sorting

  /** uniqueIds: trimmed, non-empty, first occurrence kept. */
  function UniqueIds(values: seq<string>): (r: seq<string>)
    ensures forall x :: x in r <==> x in IdSet(values)
  {
    if values == [] then []
    else
      var n := |values| - 1;
      var init := UniqueIds(values[..n]);
      assert values == values[..n] + [values[n]];
      var last := Trim(values[n]);
      if last == "" || last in init then init else init + [last]
  }

  function IdSet(values: seq<string>): set<string> {
    set v | v in values && Trim(v) != "" :: Trim(v)
  }

  function Filter(values: seq<string>, keep: set<string>): (r: seq<string>)
    ensures forall x :: x in r <==> x in values && x in keep
  {
    if values == [] then []
    else if values[0] in keep then [values[0]] + Filter(values[1..], keep)
    else Filter(values[1..], keep)
  }

  function Candidates(targets: seq<string>, online: Option<seq<string>>): (r: seq<string>)
    ensures (set c | c in r) == Electable(targets, online)
  {
    var targetIds := UniqueIds(targets);
    if online.None? then targetIds
    else Filter(UniqueIds(online.value), set t | t in targetIds)
  }

  function Pick(candidates: seq<string>, preferred: string, ordered: seq<string>): Option<string> {
    var candidateSet := set c | c in candidates;
    if Trim(preferred) != "" && Trim(preferred) in candidateSet then Some(Trim(preferred))
    else
      var stable := Filter(UniqueIds(ordered), candidateSet);
      var unordered := Filter(candidates, candidateSet - (set s | s in stable));
      var order := stable + Sorting.Sort(unordered, Leq);
      if order == [] then None else Some(order[0])
  }

  /** resolveDeterministicAudioOwner. `online` is None when no list was given. */
  function Elect(targets: seq<string>, preferred: string, ordered: seq<string>, online: Option<seq<string>>): Option<string> {
    var candidates := Candidates(targets, online);
    if UniqueIds(targets) == [] || candidates == [] then None else Pick(candidates, preferred, ordered)
  }

  /** The devices that may be elected. */
  function Electable(targets: seq<string>, online: Option<seq<string>>): set<string> {
    if online.Some? then IdSet(targets) * IdSet(online.value) else IdSet(targets)
  }

  /** The first configured id inside `electable`. */
  ghost predicate FirstOrdered(ordered: seq<string>, electable: set<string>, r: string) {
    exists k :: 0 <= k < |ordered| && Trim(ordered[k]) == r && r in electable
      && forall j :: 0 <= j < k ==> Trim(ordered[j]) !in electable
  }

  /** What an election means: the preferred device, else the first in the configured
      order, else the least id. At most one device satisfies it. */
  ghost predicate Elected(electable: set<string>, preferred: string, ordered: seq<string>, r: string) {
    && r in electable
    && (Trim(preferred) in electable ==> r == Trim(preferred))
    && (Trim(preferred) !in electable && IdSet(ordered) * electable != {} ==> FirstOrdered(ordered, electable, r))
    && (Trim(preferred) !in electable && IdSet(ordered) * electable == {} ==> forall x :: x in electable ==> Leq(r, x))
  }

  lemma ElectedUnique(electable: set<string>, preferred: string, ordered: seq<string>, r: string, s: string)
    requires Elected(electable, preferred, ordered, r) && Elected(electable, preferred, ordered, s)
    ensures r == s
  {
    if Trim(preferred) !in electable && IdSet(ordered) * electable == {} {
      LeqAntisymmetric(r, s);
    }
  }

  lemma FirstOrderedExtends(values: seq<string>, n: nat, keep: set<string>, r: string)
    requires n <= |values| && FirstOrdered(values[..n], keep, r)
    ensures FirstOrdered(values, keep, r)
  {
    hide Trim;
  }

  lemma NothingKept(values: seq<string>, keep: set<string>)
    requires "" !in keep && Filter(UniqueIds(values), keep) == []
    ensures forall v :: v in values ==> Trim(v) !in keep
  {
    hide Trim, UniqueIds, Filter;
    forall v | v in values ensures Trim(v) !in keep {
      assert Trim(v) != "" ==> Trim(v) in UniqueIds(values);
    }
  }

  /** The first id that survives de-duplication and filtering is the first configured one. */
  lemma {:induction false} UniqueFirst(values: seq<string>, keep: set<string>)
    requires "" !in keep && Filter(UniqueIds(values), keep) != []
    ensures FirstOrdered(values, keep, Filter(UniqueIds(values), keep)[0])
  {
    var n := |values| - 1;
    var init, last := UniqueIds(values[..n]), Trim(values[n]);
    hide Filter, FirstOrdered, Trim;
    FilterAppend(init, last, keep);
    if Filter(init, keep) != [] {
      UniqueFirst(values[..n], keep);
      FirstOrderedExtends(values, n, keep, Filter(init, keep)[0]);
    } else {
      NothingKept(values[..n], keep);
      LastIsFirst(values, keep);
    }
  }

  lemma LastIsFirst(values: seq<string>, keep: set<string>)
    requires values != [] && Trim(values[|values| - 1]) in keep
    requires forall v :: v in values[..|values| - 1] ==> Trim(v) !in keep
    ensures FirstOrdered(values, keep, Trim(values[|values| - 1]))
  {
    hide Trim;
    forall j | 0 <= j < |values| - 1 ensures Trim(values[j]) !in keep {
      assert values[..|values| - 1][j] == values[j];
    }
  }

  lemma {:induction false} FilterAppend(a: seq<string>, x: string, keep: set<string>)
    ensures Filter(a + [x], keep) == Filter(a, keep) + (if x in keep then [x] else [])
  {
    if a == [] {
    } else {
      FilterAppend(a[1..], x, keep);
      assert (a + [x])[1..] == a[1..] + [x];
    }
  }

  /** The election returns null exactly when nobody is electable, else the device
      that the declarative reading names. */
  lemma ElectionMeaning(targets: seq<string>, preferred: string, ordered: seq<string>, online: Option<seq<string>>)
    ensures var electable := Electable(targets, online);
      && (Elect(targets, preferred, ordered, online).None? <==> electable == {})
      && (electable != {} ==> Elected(electable, preferred, ordered, Elect(targets, preferred, ordered, online).value))
  {
    hide Trim, UniqueIds;
    var electable := Electable(targets, online);
    var candidates := Candidates(targets, online);
    assert forall c :: c in candidates <==> c in electable;
    if candidates != [] {
      assert candidates[0] in electable;
      assert candidates[0] in UniqueIds(targets);
      if Trim(preferred) !in electable {
        UnpreferredMeaning(candidates, ordered, electable);
      }
    }
  }

  lemma UnpreferredMeaning(candidates: seq<string>, ordered: seq<string>, electable: set<string>)
    requires electable == (set c | c in candidates) && electable != {} && "" !in electable
    ensures var stable := Filter(UniqueIds(ordered), electable);
      var order := stable + Sorting.Sort(Filter(candidates, electable - (set s | s in stable)), Leq);
      && order != [] && order[0] in electable
      && (IdSet(ordered) * electable != {} ==> FirstOrdered(ordered, electable, order[0]))
      && (IdSet(ordered) * electable == {} ==> forall x :: x in electable ==> Leq(order[0], x))
  {
    var stable := Filter(UniqueIds(ordered), electable);
    var unordered := Filter(candidates, electable - (set s | s in stable));
    var sorted := Sorting.Sort(unordered, Leq);
    Sorting.SameElements(unordered, sorted);
    if stable != [] {
      UniqueFirst(ordered, electable);
      assert stable[0] in stable;
      assert stable[0] in IdSet(ordered) * electable;
    } else {
      assert forall x :: x in electable ==> x in sorted;
      assert forall x :: x in IdSet(ordered) * electable ==> x in stable;
      LeqIsTotalOrder();
      Sorting.SortSorted(unordered, Leq);
      forall x | x in electable ensures Leq(sorted[0], x) {
        Sorting.HeadIsLeast(sorted, x, Leq);
      }
      assert sorted[0] in sorted;
    }
  }

  /** Permuting or duplicating the target and online lists never changes the result. */
  lemma ElectionDependsOnSets(targets: seq<string>, targets': seq<string>, online: Option<seq<string>>, online': Option<seq<string>>,
                              preferred: string, ordered: seq<string>)
    requires IdSet(targets) == IdSet(targets')
    requires online.Some? <==> online'.Some?
    requires online.Some? ==> IdSet(online.value) == IdSet(online'.value)
    ensures Elect(targets, preferred, ordered, online) == Elect(targets', preferred, ordered, online')
  {
    ElectionMeaning(targets, preferred, ordered, online);
    ElectionMeaning(targets', preferred, ordered, online');
    var electable := Electable(targets, online);
    if electable != {} {
      ElectedUnique(electable, preferred, ordered,
        Elect(targets, preferred, ordered, online).value, Elect(targets', preferred, ordered, online').value);
    }
  }
}
