/**
 * QgsVectorLayerEditBuffer: the six collections of staged edits of one
 * vector layer, the read overlays that show them on top of the provider's
 * data, the guarded requests that push undo commands, the renumbering of
 * attribute indices when a field comes or goes, commitChanges and rollBack.
 */
module VectorLayerEditBuffer {
  import opened EditTypes
  import opened Positions
  import opened AttributeIndex
  import opened FeatureOrder
  import opened CommitPipeline
  import opened UndoHistory

  /** The parts of QgsVectorLayer the buffer reads or writes. */
  class VectorLayer {
    const provider: DataProvider
    /** Whether the layer has geometries at all. */
    const hasGeometryType: bool
    const undoStack: UndoStack
    /** The layer's field list with the buffer's schema edits applied. */
    var fields: Fields
    var selectedFeatureIds: set<FeatureId>

    constructor (provider: DataProvider, hasGeometryType: bool, fields: Fields, undoStack: UndoStack)
      ensures this.provider == provider && this.hasGeometryType == hasGeometryType
      ensures this.fields == fields && this.undoStack == undoStack && selectedFeatureIds == {}
    {
      this.provider := provider;
      this.hasGeometryType := hasGeometryType;
      this.fields := fields;
      this.undoStack := undoStack;
      selectedFeatureIds := {};
    }
  }

  /** The deletion positions are those of a valid buffer: strictly
      increasing and non-negative. */
  predicate ValidDeletions(dels: seq<int>)
  {
    StrictlyIncreasing(dels) && forall i :: 0 <= i < |dels| ==> dels[i] >= 0
  }

  /** The positions of dels removed from s, from the last list entry to the
      first, each removal skipped when its position is past the end: the
      removal loops of updateFields and updateChangedAttributes. */
  method RemovePositionsDescending<T>(s: seq<T>, dels: seq<int>) returns (r: seq<T>)
    requires ValidDeletions(dels)
    ensures r == Surviving(s, Elements(dels))
  {
    r := s;
    var i := |dels|;
    assert forall x :: x !in Elements(dels[i..]);
    assert Elements(dels[i..]) == {};
    SurvivingNone(s, {});
    while i > 0
      invariant 0 <= i <= |dels|
      invariant r == Surviving(s, Elements(dels[i..]))
    {
      i := i - 1;
      var d := dels[i];
      var later := Elements(dels[i + 1..]);
      assert dels[i..] == [d] + dels[i + 1..];
      assert Elements(dels[i..]) == later + {d};
      forall e | e in later ensures d < e
      {
        var j :| 0 <= j < |dels[i + 1..]| && dels[i + 1..][j] == e;
        assert dels[i + 1 + j] == e;
      }
      if d < |s| {
        SurvivingRemoveBelow(s, later, d);
      } else {
        SurvivingOnlyInRange(s, later + {d}, later);
      }
      if d < |r| {
        r := RemoveAt(r, d);
      }
    }
  }

  class EditBuffer {
    const layer: VectorLayer

    /** Provider attribute indices staged for deletion, ascending. */
    var deletedAttributeIds: seq<int>
    /** Fields staged for addition, in the order they were added. */
    var addedAttributes: seq<Field>
    /** Pending value overrides per feature. */
    var changedAttributeValues: map<FeatureId, AttributeMap>
    /** Pending geometry changes per feature. */
    var changedGeometries: map<FeatureId, Geometry>
    /** Features added in this session, under their temporary ids. */
    var addedFeatures: map<FeatureId, Feature>
    /** Ids of provider features staged for deletion. */
    var deletedFeatureIds: set<FeatureId>

    ghost predicate Valid()
      reads this, layer, layer.undoStack
    {
      layer.undoStack.Valid() && ValidDeletions(deletedAttributeIds)
    }

    /** The staged collections as one value. */
    function State(): Staged
      reads this
    {
      Staged(deletedAttributeIds, addedAttributes, changedAttributeValues,
             changedGeometries, addedFeatures, deletedFeatureIds)
    }

    /** A new buffer stages nothing. */
    constructor (layer: VectorLayer)
      requires layer.undoStack.Valid()
      ensures this.layer == layer && State().IsEmpty() && Valid()
    {
      this.layer := layer;
      deletedAttributeIds := [];
      addedAttributes := [];
      changedAttributeValues := map[];
      changedGeometries := map[];
      addedFeatures := map[];
      deletedFeatureIds := {};
    }

    /** isModified: the undo stack is away from its clean state. */
    predicate IsModified()
      reads layer, layer.undoStack
      ensures layer.undoStack.cleanIndex < 0 ==> IsModified()
    {
      !layer.undoStack.State().IsClean()
    }

    // -------------------------------------------------------------------
    // Read overlays
    // -------------------------------------------------------------------

    /** updateFields: the staged deletions are removed from the field list
        (positions past its end are skipped), then the staged fields are
        appended in order, each marked as an edit field whose origin index
        is its position among the added fields. */
    method UpdateFields(fields: Fields) returns (r: Fields)
      requires Valid()
      ensures var kept := Surviving(fields, Elements(deletedAttributeIds));
        && |r| == |kept| + |addedAttributes|
        && r[..|kept|] == kept
        && forall j :: 0 <= j < |addedAttributes| ==> r[|kept| + j] == FieldEntry(addedAttributes[j], OriginEdit, j)
      ensures (forall i :: 0 <= i < |deletedAttributeIds| ==> deletedAttributeIds[i] < |fields|) ==>
                |r| == |fields| - |deletedAttributeIds| + |addedAttributes|
    {
      r := RemovePositionsDescending(fields, deletedAttributeIds);
      ghost var kept := r;
      var i := 0;
      while i < |addedAttributes|
        invariant 0 <= i <= |addedAttributes|
        invariant |r| == |kept| + i && r[..|kept|] == kept
        invariant forall j :: 0 <= j < i ==> r[|kept| + j] == FieldEntry(addedAttributes[j], OriginEdit, j)
      {
        r := r + [FieldEntry(addedAttributes[i], OriginEdit, i)];
        i := i + 1;
      }
      if forall i :: 0 <= i < |deletedAttributeIds| ==> deletedAttributeIds[i] < |fields| {
        DeletionsCount(fields, deletedAttributeIds);
      }
    }

    /** updateFeatureGeometry: a staged geometry replaces the feature's own;
        nothing else of the feature changes. */
    function UpdateFeatureGeometry(f: Feature): (g: Feature)
      reads this
      ensures g.id == f.id && g.attributes == f.attributes
      ensures f.id in changedGeometries ==> g.geometry == Some(changedGeometries[f.id])
      ensures f.id !in changedGeometries ==> g == f
    {
      if f.id in changedGeometries then f.(geometry := Some(changedGeometries[f.id])) else f
    }

    /** updateChangedAttributes: the feature's attribute list after the
        staged deletions, grown by a Null slot per staged field, with the
        feature's staged overrides written over it. Every slot holds the
        override for it if there is one, else the surviving value, else Null. */
    method UpdateChangedAttributes(f: Feature) returns (g: Feature)
      requires Valid()
      requires forall i :: 0 <= i < |deletedAttributeIds| ==> deletedAttributeIds[i] < |f.attributes|
      requires f.id in changedAttributeValues ==> forall k :: k in changedAttributeValues[f.id] ==>
                 0 <= k < |f.attributes| - |deletedAttributeIds| + |addedAttributes|
      ensures g.id == f.id && g.geometry == f.geometry
      ensures |g.attributes| == |f.attributes| - |deletedAttributeIds| + |addedAttributes|
      ensures var kept := Surviving(f.attributes, Elements(deletedAttributeIds));
        forall k :: 0 <= k < |g.attributes| ==>
          g.attributes[k] == if f.id in changedAttributeValues && k in changedAttributeValues[f.id]
                             then changedAttributeValues[f.id][k]
                             else if k < |kept| then kept[k] else Null
    {
      var attrs := RemovePositionsDescending(f.attributes, deletedAttributeIds);
      DeletionsCount(f.attributes, deletedAttributeIds);
      ghost var kept := attrs;
      attrs := attrs + seq(|addedAttributes|, _ => Null);
      ghost var base := attrs;
      if f.id in changedAttributeValues {
        var m := changedAttributeValues[f.id];
        var rest := m.Keys;
        while rest != {}
          invariant rest <= m.Keys
          invariant |attrs| == |base|
          invariant forall k :: 0 <= k < |attrs| ==> attrs[k] == if k in m && k !in rest then m[k] else base[k]
          decreases rest
        {
          HasElement(rest);
          var k :| k in rest;
          attrs := attrs[k := m[k]];
          rest := rest - {k};
        }
      }
      g := f.(attributes := attrs);
    }

    // -------------------------------------------------------------------
    // Guarded requests: each either answers false and leaves the undo
    // stack as it was, or pushes exactly one command and answers true.
    // -------------------------------------------------------------------

    /** addFeature: needs the AddFeatures capability and one attribute per
        field of the layer. */
    method AddFeature(f: Feature) returns (ok: bool)
      requires Valid()
      modifies layer.undoStack
      ensures Valid()
      ensures ok <==> Capability.AddFeatures in layer.provider.capabilities && |f.attributes| == |layer.fields|
      ensures layer.undoStack.State() ==
              Pushes(old(layer.undoStack.State()), if ok then [AddFeatureCommand(f)] else [])
      ensures ok ==> IsModified()
    {
      if Capability.AddFeatures !in layer.provider.capabilities {
        return false;
      }
      if |layer.fields| != |f.attributes| {
        return false;
      }
      layer.undoStack.Push(AddFeatureCommand(f));
      return true;
    }

    /** addFeatures: with the AddFeatures capability every feature goes
        through addFeature and the answer is true, whichever features
        addFeature turned down. */
    method AddFeatures(features: seq<Feature>) returns (ok: bool)
      requires Valid()
      modifies layer.undoStack
      ensures Valid()
      ensures ok <==> Capability.AddFeatures in layer.provider.capabilities
      ensures layer.undoStack.State() ==
              Pushes(old(layer.undoStack.State()), if ok then AcceptedAdds(|layer.fields|, features) else [])
      ensures ok && AcceptedAdds(|layer.fields|, features) != [] ==> IsModified()
    {
      if Capability.AddFeatures !in layer.provider.capabilities {
        return false;
      }
      ghost var before := layer.undoStack.State();
      var i := 0;
      while i < |features|
        invariant 0 <= i <= |features|
        invariant Valid()
        invariant layer.undoStack.State() == Pushes(before, AcceptedAdds(|layer.fields|, features[..i]))
      {
        var added := AddFeature(features[i]);
        ghost var width := |layer.fields|;
        assert features[..i + 1] == features[..i] + [features[i]];
        AcceptedAddsAppend(width, features[..i], features[i]);
        PushesAppend(before, AcceptedAdds(width, features[..i]), if added then [AddFeatureCommand(features[i])] else []);
        i := i + 1;
      }
      assert features[..i] == features;
      return true;
    }

    /** deleteFeature: needs the DeleteFeatures capability; a new id must be
        one of the added features, an existing id must not be staged for
        deletion already. */
    method DeleteFeature(fid: FeatureId) returns (ok: bool)
      requires Valid()
      modifies layer.undoStack
      ensures Valid()
      ensures ok <==> DeleteFeatures in layer.provider.capabilities &&
                      (if IsNew(fid) then fid in addedFeatures else fid !in deletedFeatureIds)
      ensures layer.undoStack.State() ==
              Pushes(old(layer.undoStack.State()), if ok then [DeleteFeatureCommand(fid)] else [])
      ensures ok ==> IsModified()
    {
      if DeleteFeatures !in layer.provider.capabilities {
        return false;
      }
      if IsNew(fid) {
        if fid !in addedFeatures {
          return false;
        }
      } else {
        if fid in deletedFeatureIds {
          return false;
        }
      }
      layer.undoStack.Push(DeleteFeatureCommand(fid));
      return true;
    }

    /** changeGeometry: the layer must have geometries; a new id must be one
        of the added features, an existing id needs the ChangeGeometries
        capability. */
    method ChangeGeometry(fid: FeatureId, geom: Geometry) returns (ok: bool)
      requires Valid()
      modifies layer.undoStack
      ensures Valid()
      ensures ok <==> layer.hasGeometryType &&
                      (if IsNew(fid) then fid in addedFeatures else ChangeGeometries in layer.provider.capabilities)
      ensures layer.undoStack.State() ==
              Pushes(old(layer.undoStack.State()), if ok then [ChangeGeometryCommand(fid, geom)] else [])
      ensures ok ==> IsModified()
    {
      if !layer.hasGeometryType {
        return false;
      }
      if IsNew(fid) {
        if fid !in addedFeatures {
          return false;
        }
      } else if ChangeGeometries !in layer.provider.capabilities {
        return false;
      }
      layer.undoStack.Push(ChangeGeometryCommand(fid, geom));
      return true;
    }

    /** changeAttributeValue: a new id must be one of the added features, an
        existing id needs the ChangeAttributeValues capability; the field
        must exist and must not come from a join or an expression. */
    method ChangeAttributeValue(fid: FeatureId, field: int, newValue: Variant, oldValue: Variant)
      returns (ok: bool)
      requires Valid()
      modifies layer.undoStack
      ensures Valid()
      ensures ok <==> (if IsNew(fid) then fid in addedFeatures else ChangeAttributeValues in layer.provider.capabilities)
                      && 0 <= field < |layer.fields|
                      && layer.fields[field].origin != OriginJoin
                      && layer.fields[field].origin != OriginExpression
      ensures layer.undoStack.State() ==
              Pushes(old(layer.undoStack.State()),
                     if ok then [ChangeAttributeCommand(fid, field, newValue, oldValue)] else [])
      ensures ok ==> IsModified()
    {
      if IsNew(fid) {
        if fid !in addedFeatures {
          return false;
        }
      } else if ChangeAttributeValues !in layer.provider.capabilities {
        return false;
      }
      if field < 0 || field >= |layer.fields| ||
         layer.fields[field].origin == OriginJoin ||
         layer.fields[field].origin == OriginExpression {
        return false;
      }
      layer.undoStack.Push(ChangeAttributeCommand(fid, field, newValue, oldValue));
      return true;
    }

    /** addAttribute: needs the AddAttributes capability, a non-empty name
        that no field of the layer has, and a type the provider supports. */
    method AddAttribute(field: Field) returns (ok: bool)
      requires Valid()
      modifies layer.undoStack
      ensures Valid()
      ensures ok <==> && AddAttributes in layer.provider.capabilities
                      && field.name != []
                      && (forall i :: 0 <= i < |layer.fields| ==> layer.fields[i].field.name != field.name)
                      && layer.provider.supportedType(field)
      ensures layer.undoStack.State() ==
              Pushes(old(layer.undoStack.State()), if ok then [AddAttributeCommand(field)] else [])
      ensures ok ==> IsModified()
    {
      if AddAttributes !in layer.provider.capabilities {
        return false;
      }
      if field.name == [] {
        return false;
      }
      var updatedFields := layer.fields;
      var idx := 0;
      while idx < |updatedFields|
        invariant 0 <= idx <= |updatedFields|
        invariant forall i :: 0 <= i < idx ==> updatedFields[i].field.name != field.name
      {
        if updatedFields[idx].field.name == field.name {
          return false;
        }
        idx := idx + 1;
      }
      if !layer.provider.supportedType(field) {
        return false;
      }
      layer.undoStack.Push(AddAttributeCommand(field));
      return true;
    }

    /** deleteAttribute: needs the DeleteAttributes capability and an
        existing field that does not come from a join; a provider field
        already staged for deletion cannot be deleted again. */
    method DeleteAttribute(index: int) returns (ok: bool)
      requires Valid()
      modifies layer.undoStack
      ensures Valid()
      ensures ok <==> && DeleteAttributes in layer.provider.capabilities
                      && 0 <= index < |layer.fields|
                      && !(layer.fields[index].origin == OriginProvider &&
                           layer.fields[index].originIndex in deletedAttributeIds)
                      && layer.fields[index].origin != OriginJoin
      ensures layer.undoStack.State() ==
              Pushes(old(layer.undoStack.State()), if ok then [DeleteAttributeCommand(index)] else [])
      ensures ok ==> IsModified()
    {
      if DeleteAttributes !in layer.provider.capabilities {
        return false;
      }
      if index < 0 || index >= |layer.fields| {
        return false;
      }
      var origin := layer.fields[index].origin;
      var originIndex := layer.fields[index].originIndex;
      if origin == OriginProvider && originIndex in deletedAttributeIds {
        return false;
      }
      if origin == OriginJoin {
        return false;
      }
      layer.undoStack.Push(DeleteAttributeCommand(index));
      return true;
    }

    // -------------------------------------------------------------------
    // Renumbering when a field is inserted or removed
    // -------------------------------------------------------------------

    /** handleAttributeAdded: every override map is shifted up by one from
        index, and every added feature gets a Null slot at index. */
    method HandleAttributeAdded(index: nat)
      requires Valid()
      requires forall fid :: fid in addedFeatures ==> index <= |addedFeatures[fid].attributes|
      modifies this
      ensures Valid()
      ensures OverridesRenumberedForAdd(old(changedAttributeValues), changedAttributeValues, index)
      ensures addedFeatures == FeaturesAfterFieldAdded(old(addedFeatures), index)
      ensures deletedAttributeIds == old(deletedAttributeIds) && addedAttributes == old(addedAttributes)
      ensures changedGeometries == old(changedGeometries) && deletedFeatureIds == old(deletedFeatureIds)
    {
      changedAttributeValues := ShiftOverrides(changedAttributeValues, index, false);
      addedFeatures := InsertNullSlots(addedFeatures, index);
    }

    /** handleAttributeDeleted: every override map loses its entry at index
        and is shifted down by one from index, and every added feature loses
        its slot at index. */
    method HandleAttributeDeleted(index: nat)
      requires Valid()
      requires forall fid :: fid in addedFeatures ==> index < |addedFeatures[fid].attributes|
      modifies this
      ensures Valid()
      ensures OverridesRenumberedForDelete(old(changedAttributeValues), changedAttributeValues, index)
      ensures addedFeatures == FeaturesAfterFieldDeleted(old(addedFeatures), index)
      ensures deletedAttributeIds == old(deletedAttributeIds) && addedAttributes == old(addedAttributes)
      ensures changedGeometries == old(changedGeometries) && deletedFeatureIds == old(deletedFeatureIds)
    {
      changedAttributeValues := ShiftOverrides(changedAttributeValues, index, true);
      addedFeatures := RemoveSlots(addedFeatures, index);
    }

    // -------------------------------------------------------------------
    // Commit and rollback
    // -------------------------------------------------------------------

    /** The buffer and layer state together with the flags and the report
        of a commit in progress. */
    ghost function Snapshot(success: bool, attributesChanged: bool, attributeChangesOk: bool,
                            report: seq<ReportEntry>): Progress
      reads this, layer
    {
      Progress(State(), layer.selectedFeatureIds, layer.fields, success, attributesChanged, attributeChangesOk, report)
    }

    /** commitChanges: the staged edits go to the provider phase by phase;
        the staged collections, the layer's fields and selection, the answer
        and the report end up as the commit specification says. */
    method CommitChanges(rp: ProviderReplies) returns (success: bool, report: seq<ReportEntry>)
      requires Valid()
      modifies this, layer
      ensures Valid()
      ensures var r := CommitSpec(old(State()), old(layer.selectedFeatureIds), old(layer.fields),
                                  layer.provider.capabilities, rp);
        && State() == r.staged
        && layer.selectedFeatureIds == r.selected
        && layer.fields == r.fields
        && success == r.success
        && report == r.report
    {
      var cap := layer.provider.capabilities;
      var attributesChanged, attributeChangesOk;
      success, attributesChanged, attributeChangesOk, report := CommitSchemaChanges(rp);
      ghost var gate := Snapshot(success, attributesChanged, attributeChangesOk, report);
      ghost var p := gate;

      if attributeChangesOk {
        success, report := CommitAttributeValues(rp, success, report, p);
        p := ChangeValuesPhase(p, cap, rp);
        success, report := CommitFeatureDeletes(rp, success, report, p);
        p := DeleteFeaturesPhase(p, cap, rp);
        success, report := CommitFeatureAdds(rp, success, report, p);
        p := AddFeaturesPhase(p, cap, rp);
      } else {
        success := false;
        p := p.(success := false);
      }
      assert p == GatedPhases(gate, cap, rp);
      assert Snapshot(success, attributesChanged, attributeChangesOk, report) == p;

      success, report := CommitGeometries(rp, success, report, p);
      p := ChangeGeometriesPhase(p, cap, rp);

      // provider errors
      if !success && rp.errors != [] {
        report := report + [ProviderErrors(rp.errors)];
      }
    }

    /** The first part of commitChanges: attribute deletes, attribute adds and
        the comparison of the refetched field list with the old one. */
    method CommitSchemaChanges(rp: ProviderReplies)
      returns (success: bool, attributesChanged: bool, attributeChangesOk: bool, report: seq<ReportEntry>)
      requires Valid()
      modifies this, layer
      ensures Valid()
      ensures var cap := layer.provider.capabilities;
        var p1 := DeleteAttributesPhase(Start(old(State()), old(layer.selectedFeatureIds), old(layer.fields)), cap, rp);
        Snapshot(success, attributesChanged, attributeChangesOk, report) ==
          SchemaGatePhase(AddAttributesPhase(p1, cap, rp), rp)
    {
      var cap := layer.provider.capabilities;
      success := true;
      report := [];
      var oldFields := layer.fields;
      ghost var p := Start(State(), layer.selectedFeatureIds, layer.fields);

      // delete attributes
      attributesChanged := false;
      if |deletedAttributeIds| != 0 {
        if DeleteAttributes in cap && rp.deleteAttributesOk {
          report := report + [AttributesDeleted(|deletedAttributeIds|)];
          deletedAttributeIds := [];
          attributesChanged := true;
        } else {
          report := report + [AttributesNotDeleted(|deletedAttributeIds|)];
          success := false;
        }
      }
      p := DeleteAttributesPhase(p, cap, rp);
      assert Snapshot(success, attributesChanged, true, report) == p;

      // add attributes
      if |addedAttributes| != 0 {
        if AddAttributes in cap && rp.addAttributesOk {
          report := report + [AttributesAdded(|addedAttributes|)];
          addedAttributes := [];
          attributesChanged := true;
        } else {
          report := report + [AttributesNotAdded(|addedAttributes|)];
          success := false;
        }
      }
      p := AddAttributesPhase(p, cap, rp);
      assert Snapshot(success, attributesChanged, true, report) == p;

      // check that the schema change went as expected
      attributeChangesOk := true;
      if attributesChanged {
        layer.fields := rp.refetchedFields;
        var newFields := layer.fields;
        var entries;
        attributeChangesOk, entries := CompareFields(oldFields, newFields);
        report := report + entries;
      }
    }

    /** The value phase of commitChanges. */
    method CommitAttributeValues(rp: ProviderReplies, success0: bool, report0: seq<ReportEntry>, ghost p: Progress)
      returns (success: bool, report: seq<ReportEntry>)
      requires Valid() && Snapshot(success0, p.attributesChanged, p.attributeChangesOk, report0) == p
      modifies this
      ensures Valid()
      ensures Snapshot(success, p.attributesChanged, p.attributeChangesOk, report) ==
              ChangeValuesPhase(p, layer.provider.capabilities, rp)
    {
      var cap := layer.provider.capabilities;
      success, report := success0, report0;
      if |changedAttributeValues| != 0 {
        if ChangeAttributeValues in cap && rp.changeAttributeValuesOk {
          report := report + [AttributeValuesChanged(|changedAttributeValues|)];
          changedAttributeValues := map[];
        } else {
          report := report + [AttributeValuesNotChanged(|changedAttributeValues|)];
          success := false;
        }
      }
    }

    /** The feature-delete phase of commitChanges. */
    method CommitFeatureDeletes(rp: ProviderReplies, success0: bool, report0: seq<ReportEntry>, ghost p: Progress)
      returns (success: bool, report: seq<ReportEntry>)
      requires Valid() && Snapshot(success0, p.attributesChanged, p.attributeChangesOk, report0) == p
      modifies this
      ensures Valid()
      ensures Snapshot(success, p.attributesChanged, p.attributeChangesOk, report) ==
              DeleteFeaturesPhase(p, layer.provider.capabilities, rp)
    {
      var cap := layer.provider.capabilities;
      success, report := success0, report0;
      if success && |deletedFeatureIds| != 0 {
        if DeleteFeatures in cap && rp.deleteFeaturesOk {
          report := report + [FeaturesDeleted(|deletedFeatureIds|)];
          var values, geometries := PurgeDeleted(changedAttributeValues, changedGeometries, deletedFeatureIds);
          changedAttributeValues, changedGeometries := values, geometries;
          deletedFeatureIds := {};
        } else {
          report := report + [FeaturesNotDeleted(|deletedFeatureIds|)];
          success := false;
        }
      }
    }

    /** The feature-add phase of commitChanges: the features go out in
        descending id order, and the selection follows the ids the provider
        assigned. */
    method CommitFeatureAdds(rp: ProviderReplies, success0: bool, report0: seq<ReportEntry>, ghost p: Progress)
      returns (success: bool, report: seq<ReportEntry>)
      requires Valid() && Snapshot(success0, p.attributesChanged, p.attributeChangesOk, report0) == p
      modifies this, layer
      ensures Valid()
      ensures Snapshot(success, p.attributesChanged, p.attributeChangesOk, report) ==
              AddFeaturesPhase(p, layer.provider.capabilities, rp)
    {
      var cap := layer.provider.capabilities;
      success, report := success0, report0;
      if success && |addedFeatures| != 0 {
        if Capability.AddFeatures in cap {
          var ids, featuresToAdd := MapToReversedLists(addedFeatures);
          if rp.addFeaturesOk {
            DescendingKeysSorted(addedFeatures.Keys);
            report := report + [FeaturesAdded(|featuresToAdd|)];
            var newIds := IdsAfterAdd(ids, rp.assignedIds);
            layer.selectedFeatureIds := RenameSelectedIds(layer.selectedFeatureIds, ids, newIds);
            addedFeatures := map[];
          } else {
            report := report + [FeaturesNotAdded(|addedFeatures|)];
            success := false;
          }
        } else {
          report := report + [FeaturesAddUnsupported(|addedFeatures|)];
          success := false;
        }
      }
    }

    /** The geometry phase of commitChanges. */
    method CommitGeometries(rp: ProviderReplies, success0: bool, report0: seq<ReportEntry>, ghost p: Progress)
      returns (success: bool, report: seq<ReportEntry>)
      requires Valid() && Snapshot(success0, p.attributesChanged, p.attributeChangesOk, report0) == p
      modifies this
      ensures Valid()
      ensures Snapshot(success, p.attributesChanged, p.attributeChangesOk, report) ==
              ChangeGeometriesPhase(p, layer.provider.capabilities, rp)
    {
      var cap := layer.provider.capabilities;
      success, report := success0, report0;
      if success && |changedGeometries| != 0 {
        if ChangeGeometries in cap && rp.changeGeometriesOk {
          report := report + [GeometriesChanged(|changedGeometries|)];
          changedGeometries := map[];
        } else {
          report := report + [GeometriesNotChanged(|changedGeometries|)];
          success := false;
        }
      }
    }

    /** rollBack: when the layer has unsaved edits, the undo stack returns to
        index 0, which undoes every command and leaves nothing staged; a
        stack whose clean state was index 0 is then clean again. */
    method RollBack()
      requires Valid()
      modifies this, layer.undoStack
      ensures Valid()
      ensures old(IsModified()) ==>
                && layer.undoStack.State() == old(layer.undoStack.State()).(index := 0)
                && State().IsEmpty()
                && (old(layer.undoStack.cleanIndex) == 0 ==> !IsModified())
      ensures !old(IsModified()) ==> layer.undoStack.State() == old(layer.undoStack.State()) && State() == old(State())
    {
      if !IsModified() {
        return;
      }
      layer.undoStack.SetIndex(0);
      // the effect of undoing every command, as the undo command classes do it
      deletedAttributeIds := [];
      addedAttributes := [];
      changedAttributeValues := map[];
      changedGeometries := map[];
      addedFeatures := map[];
      deletedFeatureIds := {};
    }
  }

  /** The field comparison of commitChanges: a count mismatch closes the
      gate; otherwise the first position whose fields differ closes it and
      is the only one reported. */
  method CompareFields(oldFields: Fields, newFields: Fields) returns (ok: bool, entries: seq<ReportEntry>)
    ensures (ok, entries) == SchemaCheck(oldFields, newFields)
  {
    ok := true;
    entries := [];
    if |oldFields| != |newFields| {
      entries := entries + [FieldCountMismatch];
      ok := false;
    }
    var n := if |oldFields| < |newFields| then |oldFields| else |newFields|;
    var i: nat := 0;
    while i < n
      invariant i <= n
      invariant |oldFields| != |newFields| ==> !ok && entries == [FieldCountMismatch]
      invariant |oldFields| == |newFields| ==> (ok <==> FirstMismatch(oldFields, newFields) >= i)
      invariant |oldFields| == |newFields| && ok ==> entries == []
      invariant |oldFields| == |newFields| && !ok ==>
                  var m := FirstMismatch(oldFields, newFields);
                  m < |oldFields| && entries == [FieldMismatch(m, oldFields[m].field, newFields[m].field)]
    {
      if ok && !SameField(oldFields[i].field, newFields[i].field) {
        entries := entries + [FieldMismatch(i, oldFields[i].field, newFields[i].field)];
        ok := false;
      }
      i := i + 1;
    }
  }

  /** The purge after an accepted feature delete: every deleted id leaves
      the value overrides and the changed geometries. */
  method PurgeDeleted(values: map<FeatureId, AttributeMap>, geometries: map<FeatureId, Geometry>,
                      deleted: set<FeatureId>)
    returns (values': map<FeatureId, AttributeMap>, geometries': map<FeatureId, Geometry>)
    ensures values' == values - deleted && geometries' == geometries - deleted
  {
    values', geometries' := values, geometries;
    var rest := deleted;
    while rest != {}
      invariant rest <= deleted
      invariant values' == values - (deleted - rest) && geometries' == geometries - (deleted - rest)
      decreases rest
    {
      HasElement(rest);
      var fid :| fid in rest;
      values' := values' - {fid};
      geometries' := geometries' - {fid};
      rest := rest - {fid};
    }
    assert deleted - rest == deleted;
  }

  /** The override loop of handleAttributeAdded (removed is false: shift up
      by one from index) and of handleAttributeDeleted (removed is true: drop
      the entry at index, then shift down by one from index). */
  method ShiftOverrides(before: map<FeatureId, AttributeMap>, index: nat, removed: bool)
    returns (after: map<FeatureId, AttributeMap>)
    ensures !removed ==> OverridesRenumberedForAdd(before, after, index)
    ensures removed ==> OverridesRenumberedForDelete(before, after, index)
  {
    after := before;
    var fids := before.Keys;
    while fids != {}
      invariant fids <= after.Keys && after.Keys == before.Keys
      invariant forall fid :: fid in fids ==> after[fid] == before[fid]
      invariant forall fid :: fid in before && fid !in fids ==>
                  if removed then IsShifted(before[fid] - {index}, index, -1, after[fid])
                  else IsShifted(before[fid], index, 1, after[fid])
      decreases fids
    {
      HasElement(fids);
      var fid :| fid in fids;
      var attrMap := after[fid];
      if removed {
        if index in attrMap {
          attrMap := attrMap - {index};
        }
        assert attrMap == before[fid] - {index};
        attrMap := UpdateAttributeMapIndex(attrMap, index, -1);
      } else {
        attrMap := UpdateAttributeMapIndex(attrMap, index, 1);
      }
      after := after[fid := attrMap];
      fids := fids - {fid};
    }
  }

  /** The added-feature loop of handleAttributeAdded. */
  method InsertNullSlots(added: map<FeatureId, Feature>, index: nat) returns (features: map<FeatureId, Feature>)
    requires forall fid :: fid in added ==> index <= |added[fid].attributes|
    ensures features == FeaturesAfterFieldAdded(added, index)
  {
    features := added;
    var rest := added.Keys;
    while rest != {}
      invariant rest <= features.Keys && features.Keys == added.Keys
      invariant forall fid :: fid in rest ==> features[fid] == added[fid]
      invariant forall fid :: fid in added && fid !in rest ==>
                  features[fid] == added[fid].(attributes := InsertAt(added[fid].attributes, index, Null))
      decreases rest
    {
      HasElement(rest);
      var fid :| fid in rest;
      var attrs := features[fid].attributes;
      attrs := InsertAt(attrs, index, Null);
      features := features[fid := features[fid].(attributes := attrs)];
      rest := rest - {fid};
    }
    ghost var target := FeaturesAfterFieldAdded(added, index);
    assert features.Keys == target.Keys;
    assert forall fid :: fid in features ==> features[fid] == target[fid];
  }

  /** The added-feature loop of handleAttributeDeleted. */
  method RemoveSlots(added: map<FeatureId, Feature>, index: nat) returns (features: map<FeatureId, Feature>)
    requires forall fid :: fid in added ==> index < |added[fid].attributes|
    ensures features == FeaturesAfterFieldDeleted(added, index)
  {
    features := added;
    var rest := added.Keys;
    while rest != {}
      invariant rest <= features.Keys && features.Keys == added.Keys
      invariant forall fid :: fid in rest ==> features[fid] == added[fid]
      invariant forall fid :: fid in added && fid !in rest ==>
                  features[fid] == added[fid].(attributes := RemoveAt(added[fid].attributes, index))
      decreases rest
    {
      HasElement(rest);
      var fid :| fid in rest;
      var attrs := features[fid].attributes;
      attrs := RemoveAt(attrs, index);
      features := features[fid := features[fid].(attributes := attrs)];
      rest := rest - {fid};
    }
    ghost var target := FeaturesAfterFieldDeleted(added, index);
    assert features.Keys == target.Keys;
    assert forall fid :: fid in features ==> features[fid] == target[fid];
  }

  /** The add commands addFeatures pushes: one per feature whose attribute
      count matches the field count, in order. */
  function AcceptedAdds(width: nat, features: seq<Feature>): (r: seq<UndoCommand>)
    ensures |r| <= |features|
    ensures forall c :: c in r <==> exists i :: 0 <= i < |features| && |features[i].attributes| == width &&
                                               c == AddFeatureCommand(features[i])
    decreases |features|
  {
    if features == [] then []
    else
      var n := |features| - 1;
      var front := AcceptedAdds(width, features[..n]);
      assert forall i :: 0 <= i < n ==> features[..n][i] == features[i];
      front + (if |features[n].attributes| == width then [AddFeatureCommand(features[n])] else [])
  }

  lemma AcceptedAddsAppend(width: nat, features: seq<Feature>, f: Feature)
    ensures AcceptedAdds(width, features + [f]) ==
            AcceptedAdds(width, features) + if |f.attributes| == width then [AddFeatureCommand(f)] else []
  {
    assert (features + [f])[..|features|] == features;
  }

  /** With every deletion position inside the list, exactly that many
      entries go. */
  lemma DeletionsCount<T>(s: seq<T>, dels: seq<int>)
    requires ValidDeletions(dels)
    requires forall i :: 0 <= i < |dels| ==> dels[i] < |s|
    ensures |Surviving(s, Elements(dels))| == |s| - |dels|
  {
    IncreasingElements(dels);
    SurvivingLength(s, Elements(dels));
  }
}
