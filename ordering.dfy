/**
 * The order in which added features are handed to the provider, and the
 * renaming of temporary ids in the layer's selection once the provider has
 * assigned permanent ids.
 */
module FeatureOrder {
  import opened EditTypes
  import opened Positions

  /** The keys in descending order: the order in which mapToReversedLists
      walks a QMap, from its end back to its beginning. */
  ghost function DescendingKeys(keys: set<int>): seq<int>
    decreases keys
  {
    if keys == {} then []
    else
      LargestExists(keys);
      var k :| k in keys && forall j :: j in keys ==> j <= k;
      [k] + DescendingKeys(keys - {k})
  }

  predicate StrictlyDecreasing(s: seq<int>)
  {
    forall i, j :: 0 <= i < j < |s| ==> s[i] > s[j]
  }

  /** DescendingKeys starts with the largest key, followed by the rest. */
  lemma DescendingKeysHead(keys: set<int>) returns (k: int)
    requires keys != {}
    ensures k in keys && forall j :: j in keys ==> j <= k
    ensures DescendingKeys(keys) == [k] + DescendingKeys(keys - {k})
  {
    LargestExists(keys);
    k :| k in keys && forall j :: j in keys ==> j <= k;
  }

  /** DescendingKeys lists every key exactly once, largest first. */
  lemma {:induction false} DescendingKeysSorted(keys: set<int>)
    ensures |DescendingKeys(keys)| == |keys|
    ensures forall x :: x in DescendingKeys(keys) <==> x in keys
    ensures StrictlyDecreasing(DescendingKeys(keys))
    decreases keys
  {
    if keys != {} {
      var k := DescendingKeysHead(keys);
      var rest := keys - {k};
      DescendingKeysSorted(rest);
      var t := DescendingKeys(rest);
      var r := [k] + t;
      assert |keys| == |rest| + 1;
      forall i, j | 0 <= i < j < |r| ensures r[i] > r[j]
      {
        assert r[j] == t[j - 1] && t[j - 1] in rest;
        if i > 0 {
          assert r[i] == t[i - 1];
        }
      }
    }
  }

  /** mapToReversedLists: the keys of m from the largest to the smallest,
      and beside each key its value. */
  method MapToReversedLists<V>(m: map<FeatureId, V>) returns (ks: seq<FeatureId>, vs: seq<V>)
    ensures ks == DescendingKeys(m.Keys)
    ensures |vs| == |ks|
    ensures forall i :: 0 <= i < |ks| ==> ks[i] in m && vs[i] == m[ks[i]]
  {
    ks, vs := [], [];
    var rest := m.Keys;
    while rest != {}
      invariant rest <= m.Keys
      invariant ks + DescendingKeys(rest) == DescendingKeys(m.Keys)
      invariant |vs| == |ks|
      invariant forall i :: 0 <= i < |ks| ==> ks[i] in m && vs[i] == m[ks[i]]
      decreases rest
    {
      LargestExists(rest);
      var k :| k in rest && forall j :: j in rest ==> j <= k;
      assert DescendingKeys(rest) == [k] + DescendingKeys(rest - {k});
      ks, vs := ks + [k], vs + [m[k]];
      rest := rest - {k};
    }
  }

  /** The ids of the submitted features after the provider's addFeatures:
      position i holds the id the provider assigned, or the temporary id
      when the provider assigned none there. */
  function IdsAfterAdd(temporary: seq<FeatureId>, givenIds: seq<FeatureId>): seq<FeatureId>
  {
    seq(|temporary|, i requires 0 <= i < |temporary| => if i < |givenIds| then givenIds[i] else temporary[i])
  }

  /** One step of the renaming: a selected id that changed is replaced by its new id. */
  function RenameStep(selected: set<FeatureId>, oldId: FeatureId, newId: FeatureId): set<FeatureId>
  {
    if newId != oldId && oldId in selected then selected - {oldId} + {newId} else selected
  }

  /** The selection after the renaming steps for positions 0 .. |oldIds| - 1, in order. */
  function RenameSelection(selected: set<FeatureId>, oldIds: seq<FeatureId>, newIds: seq<FeatureId>): set<FeatureId>
    requires |oldIds| == |newIds|
    decreases |oldIds|
  {
    if oldIds == [] then selected
    else
      var n := |oldIds| - 1;
      RenameStep(RenameSelection(selected, oldIds[..n], newIds[..n]), oldIds[n], newIds[n])
  }

  /** Position i renames a selected feature. */
  ghost predicate Renamed(selected: set<FeatureId>, oldIds: seq<FeatureId>, newIds: seq<FeatureId>, i: int)
    requires |oldIds| == |newIds|
  {
    0 <= i < |oldIds| && newIds[i] != oldIds[i] && oldIds[i] in selected
  }

  /** When the temporary ids are distinct and no renamed feature gets a
      temporary id, the selection afterwards holds exactly: the selected
      ids that were not renamed, and the new id of every renamed selected
      feature. */
  lemma {:induction false} RenameSelectionMeaning(selected: set<FeatureId>, oldIds: seq<FeatureId>,
                                                  newIds: seq<FeatureId>, x: FeatureId)
    requires |oldIds| == |newIds|
    requires forall i, j :: 0 <= i < j < |oldIds| ==> oldIds[i] != oldIds[j]
    requires forall i, j :: 0 <= i < |oldIds| && 0 <= j < |oldIds| && newIds[i] != oldIds[i] ==>
               newIds[i] != oldIds[j]
    ensures x in RenameSelection(selected, oldIds, newIds) <==>
              (x in selected && forall i :: 0 <= i < |oldIds| && oldIds[i] == x ==> !Renamed(selected, oldIds, newIds, i))
              || (exists i :: Renamed(selected, oldIds, newIds, i) && newIds[i] == x)
    decreases |oldIds|
  {
    if oldIds != [] {
      var n := |oldIds| - 1;
      var o, nw := oldIds[..n], newIds[..n];
      RenameSelectionMeaning(selected, o, nw, x);
      RenameSelectionMeaning(selected, o, nw, oldIds[n]);
      var before := RenameSelection(selected, o, nw);
      assert RenameSelection(selected, oldIds, newIds) == RenameStep(before, oldIds[n], newIds[n]);
      // the last temporary id is untouched by the earlier steps
      assert oldIds[n] in before <==> oldIds[n] in selected by {
        forall i | 0 <= i < n && Renamed(selected, o, nw, i) ensures nw[i] != oldIds[n] { }
        forall i | 0 <= i < n && o[i] == oldIds[n] ensures false { }
      }
      forall i | 0 <= i < n ensures Renamed(selected, o, nw, i) <==> Renamed(selected, oldIds, newIds, i) { }
      if exists i :: Renamed(selected, oldIds, newIds, i) && newIds[i] == x {
        var i :| Renamed(selected, oldIds, newIds, i) && newIds[i] == x;
        if i < n {
          assert Renamed(selected, o, nw, i) && nw[i] == x;
        }
      }
    }
  }

  /** The renaming loop of commitChanges: for each position whose id changed,
      a selected temporary id is replaced by the new id. */
  method RenameSelectedIds(selected: set<FeatureId>, oldIds: seq<FeatureId>, newIds: seq<FeatureId>)
    returns (r: set<FeatureId>)
    requires |oldIds| == |newIds|
    ensures r == RenameSelection(selected, oldIds, newIds)
  {
    r := selected;
    var i := 0;
    while i < |oldIds|
      invariant 0 <= i <= |oldIds|
      invariant r == RenameSelection(selected, oldIds[..i], newIds[..i])
    {
      if newIds[i] != oldIds[i] {
        if oldIds[i] in r {
          r := r - {oldIds[i]};
          r := r + {newIds[i]};
        }
      }
      assert oldIds[..i + 1][..i] == oldIds[..i] && newIds[..i + 1][..i] == newIds[..i];
      i := i + 1;
    }
    assert oldIds[..i] == oldIds && newIds[..i] == newIds;
  }
}
