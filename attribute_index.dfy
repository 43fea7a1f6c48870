/**
 * Renumbering of attribute indices when a field is inserted into or removed
 * from the layer's field list: the pending value overrides of every feature
 * and the attribute lists of added features follow the field they belong to.
 */
module AttributeIndex {
  import opened EditTypes
  import opened Positions

  /** r is what updateAttributeMapIndex makes of m: every entry at or above
      index moves by offset; every entry below index stays, unless an entry
      moved onto its key (possible only for a negative offset), in which case
      the moved entry wins, because entries are inserted in ascending key
      order; and r has no other keys. */
  ghost predicate IsShifted(m: AttributeMap, index: int, offset: int, r: AttributeMap)
  {
    && (forall k :: k in m && k >= index ==> k + offset in r && r[k + offset] == m[k])
    && (forall k {:trigger k in m} :: k in m && k < index && !(k - offset in m && k - offset >= index) ==>
          k in r && r[k] == m[k])
    && (forall j {:trigger j in r} :: j in r ==>
          (j < index && j in m) || (j - offset >= index && j - offset in m))
  }

  lemma MovedEntry(m: AttributeMap, index: int, offset: int, r: AttributeMap, k: int)
    requires IsShifted(m, index, offset, r) && k in m && k >= index
    ensures k + offset in r && r[k + offset] == m[k]
  {
  }

  lemma StayingEntry(m: AttributeMap, index: int, offset: int, r: AttributeMap, k: int)
    requires IsShifted(m, index, offset, r) && k in m && k < index
    requires !(k - offset in m && k - offset >= index)
    ensures k in r && r[k] == m[k]
  {
  }

  lemma EntryOrigin(m: AttributeMap, index: int, offset: int, r: AttributeMap, j: int)
    requires IsShifted(m, index, offset, r) && j in r
    ensures (j < index && j in m) || (j - offset >= index && j - offset in m)
  {
  }

  /** The description above leaves no choice: it determines the map. */
  lemma IsShiftedUnique(m: AttributeMap, index: int, offset: int, r1: AttributeMap, r2: AttributeMap)
    requires IsShifted(m, index, offset, r1) && IsShifted(m, index, offset, r2)
    ensures r1 == r2
  {
    forall j | j in r1 ensures j in r2 && r1[j] == r2[j]
    {
      SameEntry(m, index, offset, r1, r2, j);
    }
    forall j | j in r2 ensures j in r1
    {
      SameEntry(m, index, offset, r2, r1, j);
    }
    assert r1.Keys == r2.Keys;
  }

  lemma SameEntry(m: AttributeMap, index: int, offset: int, r1: AttributeMap, r2: AttributeMap, j: int)
    requires IsShifted(m, index, offset, r1) && IsShifted(m, index, offset, r2) && j in r1
    ensures j in r2 && r1[j] == r2[j]
  {
    EntryOrigin(m, index, offset, r1, j);
    if j - offset >= index && j - offset in m {
      var k := j - offset;
      MovedEntry(m, index, offset, r1, k);
      MovedEntry(m, index, offset, r2, k);
      assert k + offset == j;
    } else {
      StayingEntry(m, index, offset, r1, j);
      StayingEntry(m, index, offset, r2, j);
    }
  }

  /** The loop state of updateAttributeMapIndex: r holds the entries of m
      whose keys are no longer in rest, placed as IsShifted says. */
  ghost predicate ShiftedSoFar(m: AttributeMap, rest: set<int>, index: int, offset: int, r: AttributeMap)
  {
    && rest <= m.Keys
    && (forall d, e :: d in m && d !in rest && e in rest ==> d < e)
    && MovedSoFar(m, rest, index, offset, r)
    && StayingSoFar(m, rest, index, offset, r)
    && OriginSoFar(m, rest, index, offset, r)
  }

  ghost predicate MovedSoFar(m: AttributeMap, rest: set<int>, index: int, offset: int, r: AttributeMap)
  {
    forall k :: k in m && k !in rest && k >= index ==> k + offset in r && r[k + offset] == m[k]
  }

  ghost predicate StayingSoFar(m: AttributeMap, rest: set<int>, index: int, offset: int, r: AttributeMap)
  {
    forall k {:trigger k in m} ::
      (k in m && k !in rest && k < index && !(k - offset in m && k - offset !in rest && k - offset >= index))
      ==> k in r && r[k] == m[k]
  }

  ghost predicate OriginSoFar(m: AttributeMap, rest: set<int>, index: int, offset: int, r: AttributeMap)
  {
    forall j {:trigger j in r} :: j in r ==>
      (j < index && j in m && j !in rest) || (j - offset >= index && j - offset in m && j - offset !in rest)
  }

  /** Inserting the smallest remaining entry under its new key keeps the loop state. */
  lemma ShiftedStep(m: AttributeMap, rest: set<int>, index: int, offset: int, r: AttributeMap, k: int)
    requires ShiftedSoFar(m, rest, index, offset, r)
    requires k in rest && forall j :: j in rest ==> k <= j
    ensures ShiftedSoFar(m, rest - {k}, index, offset, r[(if k < index then k else k + offset) := m[k]])
  {
    var rest' := rest - {k};
    var r' := r[(if k < index then k else k + offset) := m[k]];
    StepMoved(m, rest, index, offset, r, k);
    StepStaying(m, rest, index, offset, r, k);
    StepOrigin(m, rest, index, offset, r, k);
    forall d, e | d in m && d !in rest' && e in rest' ensures d < e
    {
      if d != k {
        assert d !in rest;
      }
    }
  }

  lemma StepMoved(m: AttributeMap, rest: set<int>, index: int, offset: int, r: AttributeMap, k: int)
    requires ShiftedSoFar(m, rest, index, offset, r)
    requires k in rest && forall j :: j in rest ==> k <= j
    ensures MovedSoFar(m, rest - {k}, index, offset, r[(if k < index then k else k + offset) := m[k]])
  {
    var rest' := rest - {k};
    var key := if k < index then k else k + offset;
    var r' := r[key := m[k]];
    forall k2 | k2 in m && k2 !in rest' && k2 >= index
      ensures k2 + offset in r' && r'[k2 + offset] == m[k2]
    {
      if k2 != k {
        assert k2 !in rest;
        assert k2 < k;
        assert k2 + offset in r && r[k2 + offset] == m[k2];
        assert k2 + offset != key;
      }
    }
  }

  lemma StepStaying(m: AttributeMap, rest: set<int>, index: int, offset: int, r: AttributeMap, k: int)
    requires ShiftedSoFar(m, rest, index, offset, r)
    requires k in rest && forall j :: j in rest ==> k <= j
    ensures StayingSoFar(m, rest - {k}, index, offset, r[(if k < index then k else k + offset) := m[k]])
  {
    var rest' := rest - {k};
    var key := if k < index then k else k + offset;
    var r' := r[key := m[k]];
    forall k2 | (k2 in m && k2 !in rest' && k2 < index &&
                 !(k2 - offset in m && k2 - offset !in rest' && k2 - offset >= index))
      ensures k2 in r' && r'[k2] == m[k2]
    {
      if k2 != k {
        assert k2 !in rest;
        assert k2 in r && r[k2] == m[k2];
        if k >= index && k2 == k + offset {
          assert false;
        }
      }
    }
  }

  lemma StepOrigin(m: AttributeMap, rest: set<int>, index: int, offset: int, r: AttributeMap, k: int)
    requires ShiftedSoFar(m, rest, index, offset, r)
    requires k in rest && forall j :: j in rest ==> k <= j
    ensures OriginSoFar(m, rest - {k}, index, offset, r[(if k < index then k else k + offset) := m[k]])
  {
    var rest' := rest - {k};
    var key := if k < index then k else k + offset;
    var r' := r[key := m[k]];
    forall j | j in r'
      ensures (j < index && j in m && j !in rest') || (j - offset >= index && j - offset in m && j - offset !in rest')
    {
      if j == key && k >= index {
        assert j - offset == k;
      }
    }
  }

  /** updateAttributeMapIndex: a fresh map built by inserting every entry of
      m, in ascending key order (the order of a QMap), under its new key. */
  method UpdateAttributeMapIndex(m: AttributeMap, index: int, offset: int) returns (r: AttributeMap)
    ensures IsShifted(m, index, offset, r)
  {
    r := map[];
    var rest := m.Keys;
    while rest != {}
      invariant ShiftedSoFar(m, rest, index, offset, r)
      decreases rest
    {
      SmallestExists(rest);
      var k :| k in rest && forall j :: j in rest ==> k <= j;
      ShiftedStep(m, rest, index, offset, r, k);
      r := r[(if k < index then k else k + offset) := m[k]];
      rest := rest - {k};
    }
  }

  /** handleAttributeAdded on the pending overrides: the same features, each
      override map shifted up by one from index. */
  ghost predicate OverridesRenumberedForAdd(before: map<FeatureId, AttributeMap>,
                                            after: map<FeatureId, AttributeMap>, index: int)
  {
    && after.Keys == before.Keys
    && forall fid :: fid in before ==> IsShifted(before[fid], index, 1, after[fid])
  }

  /** handleAttributeDeleted on the pending overrides: the same features, each
      override map without its entry at index and shifted down by one from index. */
  ghost predicate OverridesRenumberedForDelete(before: map<FeatureId, AttributeMap>,
                                               after: map<FeatureId, AttributeMap>, index: int)
  {
    && after.Keys == before.Keys
    && forall fid :: fid in before ==> IsShifted(before[fid] - {index}, index, -1, after[fid])
  }

  /** handleAttributeAdded on the added features: a Null slot inserted at index. */
  function FeaturesAfterFieldAdded(features: map<FeatureId, Feature>, index: nat): map<FeatureId, Feature>
    requires forall fid :: fid in features ==> index <= |features[fid].attributes|
  {
    map fid | fid in features ::
      features[fid].(attributes := InsertAt(features[fid].attributes, index, Null))
  }

  /** handleAttributeDeleted on the added features: the slot at index removed. */
  function FeaturesAfterFieldDeleted(features: map<FeatureId, Feature>, index: nat): map<FeatureId, Feature>
    requires forall fid :: fid in features ==> index < |features[fid].attributes|
  {
    map fid | fid in features ::
      features[fid].(attributes := RemoveAt(features[fid].attributes, index))
  }

  /** Shifting up by one leaves index free; taking index out and shifting
      down by one then gives back the original map, whether or not it had an
      entry at index. */
  lemma ShiftUpThenDown(m: AttributeMap, index: int, up: AttributeMap, down: AttributeMap)
    requires IsShifted(m, index, 1, up)
    requires IsShifted(up - {index}, index, -1, down)
    ensures down == m
  {
    assert index !in up;
    assert up - {index} == up;
    forall k | k in m ensures k in down && down[k] == m[k]
    {
      if k >= index {
        assert k + 1 in up && up[k + 1] == m[k];
        assert (k + 1) + -1 == k;
      } else {
        assert k in up && up[k] == m[k];
      }
    }
    forall j | j in down ensures j in m
    {
      if j - -1 >= index && j - -1 in up {
        assert j + 1 != index;
      }
    }
    assert down.Keys == m.Keys;
  }

  /** Inserting a field at index and then removing the field at index
      restores every pending override map and every added feature. */
  lemma {:induction false} FieldAddedThenDeletedRestores(
    overrides: map<FeatureId, AttributeMap>, mid: map<FeatureId, AttributeMap>,
    back: map<FeatureId, AttributeMap>, features: map<FeatureId, Feature>, index: nat)
    requires OverridesRenumberedForAdd(overrides, mid, index)
    requires OverridesRenumberedForDelete(mid, back, index)
    requires forall fid :: fid in features ==> index <= |features[fid].attributes|
    ensures back == overrides
    ensures FeaturesAfterFieldDeleted(FeaturesAfterFieldAdded(features, index), index) == features
  {
    forall fid | fid in overrides ensures back[fid] == overrides[fid]
    {
      ShiftUpThenDown(overrides[fid], index, mid[fid], back[fid]);
    }
    var added := FeaturesAfterFieldAdded(features, index);
    forall fid | fid in features
      ensures added[fid].(attributes := RemoveAt(added[fid].attributes, index)) == features[fid]
    {
      RemoveInserted(features[fid].attributes, index, Null);
    }
  }
}
