/**
 * The commit pipeline of the edit buffer as a specification: the staged
 * collections, the provider's answers to each batch call, and the phases
 * of commitChanges in their fixed order, each with its skip, success and
 * failure outcome.
 */
module CommitPipeline {
  import opened EditTypes
  import opened FeatureOrder

  /** The six staged collections of the edit buffer. */
  datatype Staged = Staged(
    deletedAttributeIds: seq<int>,
    addedAttributes: seq<Field>,
    changedAttributeValues: map<FeatureId, AttributeMap>,
    changedGeometries: map<FeatureId, Geometry>,
    addedFeatures: map<FeatureId, Feature>,
    deletedFeatureIds: set<FeatureId>)
  {
    predicate IsEmpty()
    {
      && deletedAttributeIds == []
      && addedAttributes == []
      && changedAttributeValues == map[]
      && changedGeometries == map[]
      && addedFeatures == map[]
      && deletedFeatureIds == {}
    }
  }

  /** What the provider answers during one commit: the result of each batch
      call (consulted only when the call is made), the field list the layer
      refetches after a schema change, the ids the provider writes back into
      the submitted features (by position), and its pending error messages. */
  datatype ProviderReplies = ProviderReplies(
    deleteAttributesOk: bool,
    addAttributesOk: bool,
    refetchedFields: Fields,
    changeAttributeValuesOk: bool,
    deleteFeaturesOk: bool,
    addFeaturesOk: bool,
    assignedIds: seq<FeatureId>,
    changeGeometriesOk: bool,
    errors: seq<string>)

  /** The state commitChanges threads through its phases: the staged
      collections, the layer's selection and field list, the success flag,
      whether a schema change reached the provider, the schema gate, and
      the report built so far. */
  datatype Progress = Progress(
    staged: Staged,
    selected: set<FeatureId>,
    fields: Fields,
    success: bool,
    attributesChanged: bool,
    attributeChangesOk: bool,
    report: seq<ReportEntry>)

  function Start(s: Staged, selected: set<FeatureId>, fields: Fields): Progress
  {
    Progress(s, selected, fields, true, false, true, [])
  }

  // ---------------------------------------------------------------------
  // The schema comparison after attributes were deleted or added
  // ---------------------------------------------------------------------

  /** The first position at which two field lists hold different fields, or
      the length of the shorter list when they agree on all common positions. */
  function FirstMismatch(a: Fields, b: Fields): (i: nat)
    ensures i <= |a| && i <= |b|
    ensures forall j :: 0 <= j < i ==> SameField(a[j].field, b[j].field)
    ensures i < |a| && i < |b| ==> !SameField(a[i].field, b[i].field)
  {
    if a == [] || b == [] then 0
    else if !SameField(a[0].field, b[0].field) then 0
    else
      var k := FirstMismatch(a[1..], b[1..]);
      assert forall j :: 1 <= j < 1 + k ==> a[j] == a[1..][j - 1] && b[j] == b[1..][j - 1];
      1 + k
  }

  /** The two field lists hold the same fields, position by position. */
  predicate SameFields(a: Fields, b: Fields)
  {
    |a| == |b| && forall i :: 0 <= i < |a| ==> SameField(a[i].field, b[i].field)
  }

  /** The outcome of the schema gate: whether the refetched list matches the
      list from before the commit, and the one report entry that explains a
      mismatch (a count mismatch, else the first differing position). */
  function SchemaCheck(before: Fields, after: Fields): (r: (bool, seq<ReportEntry>))
    ensures r.0 <==> SameFields(before, after)
    ensures r.0 ==> r.1 == []
    ensures |before| != |after| ==> r.1 == [FieldCountMismatch]
    ensures |before| == |after| && !r.0 ==>
              exists i :: 0 <= i < |before| && !SameField(before[i].field, after[i].field) &&
                (forall j :: 0 <= j < i ==> SameField(before[j].field, after[j].field)) &&
                r.1 == [FieldMismatch(i, before[i].field, after[i].field)]
  {
    if |before| != |after| then (false, [FieldCountMismatch])
    else
      var i := FirstMismatch(before, after);
      if i < |before| then (false, [FieldMismatch(i, before[i].field, after[i].field)])
      else (true, [])
  }

  /** A refetched field that differs only in its type name keeps the gate open. */
  lemma TypeNameDoesNotCloseGate(before: Fields, after: Fields)
    requires |before| == |after|
    requires forall i :: 0 <= i < |before| ==>
               after[i].field == before[i].field.(typeName := after[i].field.typeName)
    ensures SchemaCheck(before, after) == (true, [])
  {
  }

  // ---------------------------------------------------------------------
  // The phases
  // ---------------------------------------------------------------------

  function DeleteAttributesPhase(p: Progress, cap: set<Capability>, rp: ProviderReplies): Progress
  {
    var ids := p.staged.deletedAttributeIds;
    if |ids| == 0 then p
    else if DeleteAttributes in cap && rp.deleteAttributesOk then
      p.(staged := p.staged.(deletedAttributeIds := []), attributesChanged := true,
         report := p.report + [AttributesDeleted(|ids|)])
    else
      p.(success := false, report := p.report + [AttributesNotDeleted(|ids|)])
  }

  function AddAttributesPhase(p: Progress, cap: set<Capability>, rp: ProviderReplies): Progress
  {
    var added := p.staged.addedAttributes;
    if |added| == 0 then p
    else if AddAttributes in cap && rp.addAttributesOk then
      p.(staged := p.staged.(addedAttributes := []), attributesChanged := true,
         report := p.report + [AttributesAdded(|added|)])
    else
      p.(success := false, report := p.report + [AttributesNotAdded(|added|)])
  }

  /** After a schema change the layer refetches its fields and compares them
      with the list from before the commit. */
  function SchemaGatePhase(p: Progress, rp: ProviderReplies): Progress
  {
    if !p.attributesChanged then p
    else
      var check := SchemaCheck(p.fields, rp.refetchedFields);
      p.(fields := rp.refetchedFields, attributeChangesOk := check.0, report := p.report + check.1)
  }

  function ChangeValuesPhase(p: Progress, cap: set<Capability>, rp: ProviderReplies): Progress
  {
    var values := p.staged.changedAttributeValues;
    if |values| == 0 then p
    else if ChangeAttributeValues in cap && rp.changeAttributeValuesOk then
      p.(staged := p.staged.(changedAttributeValues := map[]),
         report := p.report + [AttributeValuesChanged(|values|)])
    else
      p.(success := false, report := p.report + [AttributeValuesNotChanged(|values|)])
  }

  /** A successful delete also drops the deleted ids from the value
      overrides and the changed geometries. */
  function DeleteFeaturesPhase(p: Progress, cap: set<Capability>, rp: ProviderReplies): Progress
  {
    var ids := p.staged.deletedFeatureIds;
    if !p.success || |ids| == 0 then p
    else if DeleteFeatures in cap && rp.deleteFeaturesOk then
      p.(staged := p.staged.(changedAttributeValues := p.staged.changedAttributeValues - ids,
                             changedGeometries := p.staged.changedGeometries - ids,
                             deletedFeatureIds := {}),
         report := p.report + [FeaturesDeleted(|ids|)])
    else
      p.(success := false, report := p.report + [FeaturesNotDeleted(|ids|)])
  }

  /** The features go to the provider in descending id order; every selected
      temporary id the provider replaced is renamed in the selection. */
  ghost function AddFeaturesPhase(p: Progress, cap: set<Capability>, rp: ProviderReplies): Progress
  {
    var added := p.staged.addedFeatures;
    if !p.success || |added| == 0 then p
    else if AddFeatures !in cap then
      p.(success := false, report := p.report + [FeaturesAddUnsupported(|added|)])
    else if !rp.addFeaturesOk then
      p.(success := false, report := p.report + [FeaturesNotAdded(|added|)])
    else
      var ids := DescendingKeys(added.Keys);
      p.(staged := p.staged.(addedFeatures := map[]),
         selected := RenameSelection(p.selected, ids, IdsAfterAdd(ids, rp.assignedIds)),
         report := p.report + [FeaturesAdded(|added|)])
  }

  /** Value changes, feature deletes and feature adds run only behind an
      open schema gate; a closed gate fails the commit. */
  ghost function GatedPhases(p: Progress, cap: set<Capability>, rp: ProviderReplies): Progress
  {
    if p.attributeChangesOk then
      AddFeaturesPhase(DeleteFeaturesPhase(ChangeValuesPhase(p, cap, rp), cap, rp), cap, rp)
    else
      p.(success := false)
  }

  function ChangeGeometriesPhase(p: Progress, cap: set<Capability>, rp: ProviderReplies): Progress
  {
    var geoms := p.staged.changedGeometries;
    if !p.success || |geoms| == 0 then p
    else if ChangeGeometries in cap && rp.changeGeometriesOk then
      p.(staged := p.staged.(changedGeometries := map[]),
         report := p.report + [GeometriesChanged(|geoms|)])
    else
      p.(success := false, report := p.report + [GeometriesNotChanged(|geoms|)])
  }

  function ProviderErrorsPhase(p: Progress, rp: ProviderReplies): Progress
  {
    if !p.success && rp.errors != [] then p.(report := p.report + [ProviderErrors(rp.errors)]) else p
  }

  /** commitChanges from start to end. */
  ghost function CommitSpec(s: Staged, selected: set<FeatureId>, fields: Fields,
                            cap: set<Capability>, rp: ProviderReplies): Progress
  {
    var p1 := DeleteAttributesPhase(Start(s, selected, fields), cap, rp);
    var p2 := AddAttributesPhase(p1, cap, rp);
    var p3 := SchemaGatePhase(p2, rp);
    var p4 := GatedPhases(p3, cap, rp);
    var p5 := ChangeGeometriesPhase(p4, cap, rp);
    ProviderErrorsPhase(p5, rp)
  }

  // ---------------------------------------------------------------------
  // Phase outcomes in terms of the inputs
  // ---------------------------------------------------------------------

  predicate AttributeDeletesAccepted(s: Staged, cap: set<Capability>, rp: ProviderReplies)
  {
    s.deletedAttributeIds != [] && DeleteAttributes in cap && rp.deleteAttributesOk
  }

  predicate AttributeDeletesRejected(s: Staged, cap: set<Capability>, rp: ProviderReplies)
  {
    s.deletedAttributeIds != [] && !(DeleteAttributes in cap && rp.deleteAttributesOk)
  }

  predicate AttributeAddsAccepted(s: Staged, cap: set<Capability>, rp: ProviderReplies)
  {
    s.addedAttributes != [] && AddAttributes in cap && rp.addAttributesOk
  }

  predicate AttributeAddsRejected(s: Staged, cap: set<Capability>, rp: ProviderReplies)
  {
    s.addedAttributes != [] && !(AddAttributes in cap && rp.addAttributesOk)
  }

  /** The schema gate is open: no schema change reached the provider, or the
      refetched field list matches the list from before the commit. */
  predicate GateOpen(s: Staged, fields: Fields, cap: set<Capability>, rp: ProviderReplies)
  {
    !(AttributeDeletesAccepted(s, cap, rp) || AttributeAddsAccepted(s, cap, rp))
    || SameFields(fields, rp.refetchedFields)
  }

  /** A report entry that records a failed phase or a closed schema gate. */
  predicate IsFailure(e: ReportEntry)
  {
    || e.AttributesNotDeleted? || e.AttributesNotAdded? || e.FieldCountMismatch? || e.FieldMismatch?
    || e.AttributeValuesNotChanged? || e.FeaturesNotDeleted? || e.FeaturesNotAdded?
    || e.FeaturesAddUnsupported? || e.GeometriesNotChanged?
  }

  predicate NoFailures(report: seq<ReportEntry>)
  {
    forall i :: 0 <= i < |report| ==> !IsFailure(report[i])
  }

  // ---------------------------------------------------------------------
  // The phases one at a time
  // ---------------------------------------------------------------------

  /** The first three phases, in terms of the inputs. */
  predicate SchemaOutcome(s: Staged, selected: set<FeatureId>, fields: Fields, cap: set<Capability>,
                          rp: ProviderReplies, q: Progress)
  {
    && q.success == !(AttributeDeletesRejected(s, cap, rp) || AttributeAddsRejected(s, cap, rp))
    && q.attributeChangesOk == GateOpen(s, fields, cap, rp)
    && q.selected == selected
    && q.fields == (if AttributeDeletesAccepted(s, cap, rp) || AttributeAddsAccepted(s, cap, rp)
                    then rp.refetchedFields else fields)
    && q.staged.deletedAttributeIds == (if AttributeDeletesAccepted(s, cap, rp) then [] else s.deletedAttributeIds)
    && q.staged.addedAttributes == (if AttributeAddsAccepted(s, cap, rp) then [] else s.addedAttributes)
    && q.staged.changedAttributeValues == s.changedAttributeValues
    && q.staged.changedGeometries == s.changedGeometries
    && q.staged.addedFeatures == s.addedFeatures
    && q.staged.deletedFeatureIds == s.deletedFeatureIds
  }

  /** q differs from p at most in the success flag, the report and the
      collections the phase is about. */
  predicate Untouched(p: Progress, q: Progress)
  {
    q.selected == p.selected && q.fields == p.fields && q.attributeChangesOk == p.attributeChangesOk
    && q.staged.deletedAttributeIds == p.staged.deletedAttributeIds
    && q.staged.addedAttributes == p.staged.addedAttributes
  }

  /** What the value phase does to the state. */
  predicate ValuesOutcome(p: Progress, cap: set<Capability>, rp: ProviderReplies, q: Progress)
  {
    var v := p.staged.changedAttributeValues;
    var accepted := ChangeAttributeValues in cap && rp.changeAttributeValuesOk;
    && Untouched(p, q)
    && q.staged.changedAttributeValues == (if v != map[] && accepted then map[] else v)
    && q.staged.changedGeometries == p.staged.changedGeometries
    && q.staged.addedFeatures == p.staged.addedFeatures
    && q.staged.deletedFeatureIds == p.staged.deletedFeatureIds
    && q.success == (p.success && (v == map[] || accepted))
  }

  /** What the feature-delete phase does to the state. */
  predicate DeletesOutcome(p: Progress, cap: set<Capability>, rp: ProviderReplies, q: Progress)
  {
    var ids := p.staged.deletedFeatureIds;
    var done := p.success && ids != {} && DeleteFeatures in cap && rp.deleteFeaturesOk;
    && Untouched(p, q)
    && q.staged.changedAttributeValues == (if done then p.staged.changedAttributeValues - ids
                                            else p.staged.changedAttributeValues)
    && q.staged.changedGeometries == (if done then p.staged.changedGeometries - ids else p.staged.changedGeometries)
    && q.staged.addedFeatures == p.staged.addedFeatures
    && q.staged.deletedFeatureIds == (if done then {} else ids)
    && q.success == (p.success && (ids == {} || (DeleteFeatures in cap && rp.deleteFeaturesOk)))
  }

  /** What the feature-add phase does to the state. */
  ghost predicate AddsOutcome(p: Progress, cap: set<Capability>, rp: ProviderReplies, q: Progress)
  {
    var added := p.staged.addedFeatures;
    var done := p.success && added != map[] && AddFeatures in cap && rp.addFeaturesOk;
    && q.fields == p.fields && q.attributeChangesOk == p.attributeChangesOk
    && q.staged.deletedAttributeIds == p.staged.deletedAttributeIds
    && q.staged.addedAttributes == p.staged.addedAttributes
    && q.staged.changedAttributeValues == p.staged.changedAttributeValues
    && q.staged.changedGeometries == p.staged.changedGeometries
    && q.staged.addedFeatures == (if done then map[] else added)
    && q.staged.deletedFeatureIds == p.staged.deletedFeatureIds
    && q.success == (p.success && (added == map[] || (AddFeatures in cap && rp.addFeaturesOk)))
  }

  /** What the geometry phase does to the state. */
  predicate GeometriesOutcome(p: Progress, cap: set<Capability>, rp: ProviderReplies, q: Progress)
  {
    var g := p.staged.changedGeometries;
    var done := p.success && g != map[] && ChangeGeometries in cap && rp.changeGeometriesOk;
    && Untouched(p, q)
    && q.staged.changedAttributeValues == p.staged.changedAttributeValues
    && q.staged.changedGeometries == (if done then map[] else g)
    && q.staged.addedFeatures == p.staged.addedFeatures
    && q.staged.deletedFeatureIds == p.staged.deletedFeatureIds
    && q.success == (p.success && (g == map[] || (ChangeGeometries in cap && rp.changeGeometriesOk)))
  }

  lemma ValuesStep(p: Progress, cap: set<Capability>, rp: ProviderReplies)
    ensures ValuesOutcome(p, cap, rp, ChangeValuesPhase(p, cap, rp))
  {
  }

  lemma DeletesStep(p: Progress, cap: set<Capability>, rp: ProviderReplies)
    ensures DeletesOutcome(p, cap, rp, DeleteFeaturesPhase(p, cap, rp))
  {
  }

  lemma AddsStep(p: Progress, cap: set<Capability>, rp: ProviderReplies)
    ensures AddsOutcome(p, cap, rp, AddFeaturesPhase(p, cap, rp))
  {
  }

  /** What the feature-add phase does to the selection. */
  lemma AddsSelection(p: Progress, cap: set<Capability>, rp: ProviderReplies)
    ensures var added := p.staged.addedFeatures;
      var ids := DescendingKeys(added.Keys);
      AddFeaturesPhase(p, cap, rp).selected ==
        if p.success && added != map[] && AddFeatures in cap && rp.addFeaturesOk
        then RenameSelection(p.selected, ids, IdsAfterAdd(ids, rp.assignedIds))
        else p.selected
  {
  }

  lemma GeometriesStep(p: Progress, cap: set<Capability>, rp: ProviderReplies)
    ensures GeometriesOutcome(p, cap, rp, ChangeGeometriesPhase(p, cap, rp))
  {
  }

  lemma SchemaStep(s: Staged, selected: set<FeatureId>, fields: Fields, cap: set<Capability>, rp: ProviderReplies)
    ensures SchemaOutcome(s, selected, fields, cap, rp,
      SchemaGatePhase(AddAttributesPhase(DeleteAttributesPhase(Start(s, selected, fields), cap, rp), cap, rp), rp))
  {
    var p1 := DeleteAttributesPhase(Start(s, selected, fields), cap, rp);
    var p2 := AddAttributesPhase(p1, cap, rp);
    assert p1.staged == s.(deletedAttributeIds := if AttributeDeletesAccepted(s, cap, rp) then [] else s.deletedAttributeIds);
    assert p1.success == !AttributeDeletesRejected(s, cap, rp);
    assert p1.attributesChanged == AttributeDeletesAccepted(s, cap, rp);
    assert p2.attributesChanged == (AttributeDeletesAccepted(s, cap, rp) || AttributeAddsAccepted(s, cap, rp));
  }

  /** commitChanges as its sequence of intermediate states, each described by
      what its phase did to the one before. */
  lemma Stages(s: Staged, selected: set<FeatureId>, fields: Fields, cap: set<Capability>, rp: ProviderReplies)
    returns (p3: Progress, a: Progress, b: Progress, c: Progress, p4: Progress, p5: Progress)
    ensures SchemaOutcome(s, selected, fields, cap, rp, p3)
    ensures ValuesOutcome(p3, cap, rp, a)
    ensures DeletesOutcome(a, cap, rp, b)
    ensures AddsOutcome(b, cap, rp, c)
    ensures p4 == (if p3.attributeChangesOk then c else p3.(success := false))
    ensures GeometriesOutcome(p4, cap, rp, p5)
    ensures CommitSpec(s, selected, fields, cap, rp) == ProviderErrorsPhase(p5, rp)
  {
    p3 := SchemaGatePhase(AddAttributesPhase(DeleteAttributesPhase(Start(s, selected, fields), cap, rp), cap, rp), rp);
    a := ChangeValuesPhase(p3, cap, rp);
    b := DeleteFeaturesPhase(a, cap, rp);
    c := AddFeaturesPhase(b, cap, rp);
    p4 := if p3.attributeChangesOk then c else p3.(success := false);
    p5 := ChangeGeometriesPhase(p4, cap, rp);
    SchemaStep(s, selected, fields, cap, rp);
    ValuesStep(p3, cap, rp);
    DeletesStep(a, cap, rp);
    AddsStep(b, cap, rp);
    GeometriesStep(p4, cap, rp);
  }

  // ---------------------------------------------------------------------
  // The report: a failure entry is written exactly when the success flag or
  // the schema gate drops; provider errors come only at the very end.
  // ---------------------------------------------------------------------

  predicate NoProviderErrors(report: seq<ReportEntry>)
  {
    forall i :: 0 <= i < |report| ==> !report[i].ProviderErrors?
  }

  /** The report so far records a failure exactly when the success flag or
      the schema gate is down, and holds no provider errors. */
  predicate Accounts(p: Progress)
  {
    && ((p.success && p.attributeChangesOk) <==> NoFailures(p.report))
    && NoProviderErrors(p.report)
  }

  lemma AppendEntry(report: seq<ReportEntry>, e: ReportEntry)
    ensures NoFailures(report + [e]) <==> NoFailures(report) && !IsFailure(e)
    ensures NoProviderErrors(report + [e]) <==> NoProviderErrors(report) && !e.ProviderErrors?
  {
    assert (report + [e])[|report|] == e;
    assert forall i :: 0 <= i < |report| ==> (report + [e])[i] == report[i];
  }

  lemma DeleteAttributesAccounts(p: Progress, cap: set<Capability>, rp: ProviderReplies)
    requires Accounts(p) && p.attributeChangesOk
    ensures var q := DeleteAttributesPhase(p, cap, rp); Accounts(q) && q.attributeChangesOk
  {
    var ids := p.staged.deletedAttributeIds;
    AppendEntry(p.report, AttributesDeleted(|ids|));
    AppendEntry(p.report, AttributesNotDeleted(|ids|));
  }

  lemma AddAttributesAccounts(p: Progress, cap: set<Capability>, rp: ProviderReplies)
    requires Accounts(p) && p.attributeChangesOk
    ensures var q := AddAttributesPhase(p, cap, rp); Accounts(q) && q.attributeChangesOk
  {
    var added := p.staged.addedAttributes;
    AppendEntry(p.report, AttributesAdded(|added|));
    AppendEntry(p.report, AttributesNotAdded(|added|));
  }

  lemma GateAccounts(p: Progress, rp: ProviderReplies)
    requires Accounts(p) && p.attributeChangesOk
    ensures Accounts(SchemaGatePhase(p, rp))
  {
    if p.attributesChanged {
      var check := SchemaCheck(p.fields, rp.refetchedFields);
      if !check.0 {
        AppendEntry(p.report, check.1[0]);
        assert check.1 == [check.1[0]];
      } else {
        assert p.report + check.1 == p.report;
      }
    }
  }

  lemma ValuesAccounts(p: Progress, cap: set<Capability>, rp: ProviderReplies)
    requires Accounts(p) && p.attributeChangesOk
    ensures var q := ChangeValuesPhase(p, cap, rp); Accounts(q) && q.attributeChangesOk
  {
    var v := p.staged.changedAttributeValues;
    AppendEntry(p.report, AttributeValuesChanged(|v|));
    AppendEntry(p.report, AttributeValuesNotChanged(|v|));
  }

  lemma DeletesAccounts(p: Progress, cap: set<Capability>, rp: ProviderReplies)
    requires Accounts(p) && p.attributeChangesOk
    ensures var q := DeleteFeaturesPhase(p, cap, rp); Accounts(q) && q.attributeChangesOk
  {
    var ids := p.staged.deletedFeatureIds;
    AppendEntry(p.report, FeaturesDeleted(|ids|));
    AppendEntry(p.report, FeaturesNotDeleted(|ids|));
  }

  lemma AddsAccounts(p: Progress, cap: set<Capability>, rp: ProviderReplies)
    requires Accounts(p) && p.attributeChangesOk
    ensures var q := AddFeaturesPhase(p, cap, rp); Accounts(q) && q.attributeChangesOk
  {
    var added := p.staged.addedFeatures;
    AppendEntry(p.report, FeaturesAdded(|added|));
    AppendEntry(p.report, FeaturesNotAdded(|added|));
    AppendEntry(p.report, FeaturesAddUnsupported(|added|));
  }

  lemma GeometriesAccounts(p: Progress, cap: set<Capability>, rp: ProviderReplies)
    requires Accounts(p) && (p.success ==> p.attributeChangesOk)
    ensures var q := ChangeGeometriesPhase(p, cap, rp); Accounts(q) && (q.success ==> q.attributeChangesOk)
  {
    var g := p.staged.changedGeometries;
    AppendEntry(p.report, GeometriesChanged(|g|));
    AppendEntry(p.report, GeometriesNotChanged(|g|));
  }

  /** The state before the provider errors are appended accounts for its report. */
  lemma FinalAccounts(s: Staged, selected: set<FeatureId>, fields: Fields, cap: set<Capability>, rp: ProviderReplies)
    returns (p5: Progress)
    ensures Accounts(p5) && (p5.success ==> p5.attributeChangesOk)
    ensures CommitSpec(s, selected, fields, cap, rp) == ProviderErrorsPhase(p5, rp)
  {
    var p0 := Start(s, selected, fields);
    var p1 := DeleteAttributesPhase(p0, cap, rp);
    var p2 := AddAttributesPhase(p1, cap, rp);
    assert Accounts(p0);
    DeleteAttributesAccounts(p0, cap, rp);
    AddAttributesAccounts(p1, cap, rp);
    GateAccounts(p2, rp);
    var p3 := SchemaGatePhase(p2, rp);
    var a := ChangeValuesPhase(p3, cap, rp);
    var b := DeleteFeaturesPhase(a, cap, rp);
    var c := AddFeaturesPhase(b, cap, rp);
    var p4 := if p3.attributeChangesOk then c else p3.(success := false);
    p5 := ChangeGeometriesPhase(p4, cap, rp);
    if p3.attributeChangesOk {
      ValuesAccounts(p3, cap, rp);
      DeletesAccounts(a, cap, rp);
      AddsAccounts(b, cap, rp);
    }
    GeometriesAccounts(p4, cap, rp);
  }

  // ---------------------------------------------------------------------
  // Properties of the pipeline
  // ---------------------------------------------------------------------

  /** With nothing staged, a commit succeeds with an empty report and changes nothing. */
  lemma CommitOfEmptyBuffer(s: Staged, selected: set<FeatureId>, fields: Fields, cap: set<Capability>, rp: ProviderReplies)
    requires s.IsEmpty()
    ensures var r := CommitSpec(s, selected, fields, cap, rp);
      r.success && r.report == [] && r.staged == s && r.selected == selected && r.fields == fields
  {
  }

  /** When a schema change reached the provider and the refetched field list
      differs from the old one, the commit fails and leaves the value
      overrides, feature deletes, feature adds, geometries and selection as
      they were; the layer takes the refetched fields. */
  lemma CommitBlockedBySchemaMismatch(s: Staged, selected: set<FeatureId>, fields: Fields,
                                      cap: set<Capability>, rp: ProviderReplies)
    requires AttributeDeletesAccepted(s, cap, rp) || AttributeAddsAccepted(s, cap, rp)
    requires !SameFields(fields, rp.refetchedFields)
    ensures var r := CommitSpec(s, selected, fields, cap, rp);
      && !r.success
      && r.fields == rp.refetchedFields
      && r.selected == selected
      && r.staged.changedAttributeValues == s.changedAttributeValues
      && r.staged.deletedFeatureIds == s.deletedFeatureIds
      && r.staged.addedFeatures == s.addedFeatures
      && r.staged.changedGeometries == s.changedGeometries
  {
    var p3, a, b, c, p4, p5 := Stages(s, selected, fields, cap, rp);
  }

  /** A failed attribute delete or add does not stop the value changes: with
      an open schema gate they still go to the provider, and the later
      phases are skipped. */
  lemma CommitChangesValuesAfterAttributeFailure(s: Staged, selected: set<FeatureId>, fields: Fields,
                                                 cap: set<Capability>, rp: ProviderReplies)
    requires AttributeDeletesRejected(s, cap, rp) || AttributeAddsRejected(s, cap, rp)
    requires GateOpen(s, fields, cap, rp)
    requires s.changedAttributeValues != map[] && ChangeAttributeValues in cap && rp.changeAttributeValuesOk
    ensures var r := CommitSpec(s, selected, fields, cap, rp);
      && !r.success
      && r.staged.changedAttributeValues == map[]
      && r.staged.deletedFeatureIds == s.deletedFeatureIds
      && r.staged.addedFeatures == s.addedFeatures
      && r.staged.changedGeometries == s.changedGeometries
      && r.selected == selected
  {
    var p3, a, b, c, p4, p5 := Stages(s, selected, fields, cap, rp);
  }

  /** Any rejected attribute delete or add fails the commit, and the feature
      deletes, feature adds, changed geometries and selection stay as they
      were, whatever happens to the value overrides and whether or not the
      schema gate opened. */
  lemma CommitSkipsFeaturePhasesAfterAttributeFailure(s: Staged, selected: set<FeatureId>, fields: Fields,
                                                      cap: set<Capability>, rp: ProviderReplies)
    requires AttributeDeletesRejected(s, cap, rp) || AttributeAddsRejected(s, cap, rp)
    ensures var r := CommitSpec(s, selected, fields, cap, rp);
      && !r.success
      && r.staged.deletedFeatureIds == s.deletedFeatureIds
      && r.staged.addedFeatures == s.addedFeatures
      && r.staged.changedGeometries == s.changedGeometries
      && r.selected == selected
  {
    var p3, a, b, c, p4, p5 := Stages(s, selected, fields, cap, rp);
  }

  /** The attribute deletions and additions are either left as they were or
      emptied, and emptied only when the provider accepted the batch. */
  lemma CommitKeepsRejectedSchemaBatches(s: Staged, selected: set<FeatureId>, fields: Fields,
                                         cap: set<Capability>, rp: ProviderReplies)
    ensures var r := CommitSpec(s, selected, fields, cap, rp).staged;
      && (if AttributeDeletesAccepted(s, cap, rp) then r.deletedAttributeIds == []
          else r.deletedAttributeIds == s.deletedAttributeIds)
      && (if AttributeAddsAccepted(s, cap, rp) then r.addedAttributes == []
          else r.addedAttributes == s.addedAttributes)
  {
    var p3, a, b, c, p4, p5 := Stages(s, selected, fields, cap, rp);
  }

  /** Each feature-level collection is either left as it was or emptied, and
      emptied only when its batch call was made and the provider accepted it;
      the changed geometries may instead lose exactly the ids of the deleted
      features, when the provider accepted the delete. */
  lemma CommitKeepsRejectedFeatureBatches(s: Staged, selected: set<FeatureId>, fields: Fields,
                                          cap: set<Capability>, rp: ProviderReplies)
    ensures var r := CommitSpec(s, selected, fields, cap, rp).staged;
      && (r.changedAttributeValues == s.changedAttributeValues ||
          (r.changedAttributeValues == map[] && ChangeAttributeValues in cap && rp.changeAttributeValuesOk))
      && (r.deletedFeatureIds == s.deletedFeatureIds ||
          (r.deletedFeatureIds == {} && DeleteFeatures in cap && rp.deleteFeaturesOk))
      && (r.addedFeatures == s.addedFeatures ||
          (r.addedFeatures == map[] && AddFeatures in cap && rp.addFeaturesOk))
      && (r.changedGeometries == s.changedGeometries ||
          (r.changedGeometries == s.changedGeometries - s.deletedFeatureIds &&
           DeleteFeatures in cap && rp.deleteFeaturesOk) ||
          (r.changedGeometries == map[] && ChangeGeometries in cap && rp.changeGeometriesOk))
  {
    var p3, a, b, c, p4, p5 := Stages(s, selected, fields, cap, rp);
    assert p3.staged.changedAttributeValues == s.changedAttributeValues;
    assert p3.staged.changedGeometries == s.changedGeometries;
    if a.success && a.staged.deletedFeatureIds != {} {
      // the value phase ran before, so nothing is left for the purge to drop
      assert a.staged.changedAttributeValues == map[];
    }
  }

  /** A successful commit leaves nothing staged behind an open schema gate. */
  lemma CommitSuccessFlushes(s: Staged, selected: set<FeatureId>, fields: Fields,
                             cap: set<Capability>, rp: ProviderReplies)
    ensures var r := CommitSpec(s, selected, fields, cap, rp);
      r.success ==> r.staged.IsEmpty() && GateOpen(s, fields, cap, rp)
  {
    SuccessFlushesSchema(s, selected, fields, cap, rp);
    SuccessFlushesFeatures(s, selected, fields, cap, rp);
  }

  lemma SuccessFlushesSchema(s: Staged, selected: set<FeatureId>, fields: Fields,
                             cap: set<Capability>, rp: ProviderReplies)
    ensures var r := CommitSpec(s, selected, fields, cap, rp);
      r.success ==> r.staged.deletedAttributeIds == [] && r.staged.addedAttributes == [] && GateOpen(s, fields, cap, rp)
  {
    var p3, a, b, c, p4, p5 := Stages(s, selected, fields, cap, rp);
    if p5.success {
      assert p4.success && p3.attributeChangesOk && p3.success;
    }
  }

  lemma SuccessFlushesFeatures(s: Staged, selected: set<FeatureId>, fields: Fields,
                               cap: set<Capability>, rp: ProviderReplies)
    ensures var r := CommitSpec(s, selected, fields, cap, rp).staged;
      CommitSpec(s, selected, fields, cap, rp).success ==>
        && r.changedAttributeValues == map[] && r.deletedFeatureIds == {}
        && r.addedFeatures == map[] && r.changedGeometries == map[]
  {
    var p3, a, b, c, p4, p5 := Stages(s, selected, fields, cap, rp);
    if p5.success {
      assert p4.success && p3.attributeChangesOk;
      assert p4 == c && c.success && b.success && a.success;
      assert a.staged.changedAttributeValues == map[];
      assert b.staged.changedAttributeValues == map[] && b.staged.deletedFeatureIds == {};
      assert c.staged.addedFeatures == map[];
    }
  }

  /** A failed commit leaves something staged, or closed the schema gate. */
  lemma CommitFailureLeavesWork(s: Staged, selected: set<FeatureId>, fields: Fields,
                                cap: set<Capability>, rp: ProviderReplies)
    ensures var r := CommitSpec(s, selected, fields, cap, rp);
      !r.success ==> !r.staged.IsEmpty() || !GateOpen(s, fields, cap, rp)
  {
    var p3, a, b, c, p4, p5 := Stages(s, selected, fields, cap, rp);
    if !p5.success && p3.attributeChangesOk {
      if !p3.success {
        assert p5.staged.deletedAttributeIds != [] || p5.staged.addedAttributes != [];
      } else if !a.success {
        assert p5.staged.changedAttributeValues != map[];
      } else if !b.success {
        assert p5.staged.deletedFeatureIds != {};
      } else if !c.success {
        assert p5.staged.addedFeatures != map[];
      } else {
        assert p5.staged.changedGeometries != map[];
      }
    }
  }

  /** A commit succeeds exactly when it leaves nothing staged and the schema
      gate stayed open. */
  lemma CommitSucceedsIffFlushed(s: Staged, selected: set<FeatureId>, fields: Fields,
                                 cap: set<Capability>, rp: ProviderReplies)
    ensures var r := CommitSpec(s, selected, fields, cap, rp);
      r.success <==> r.staged.IsEmpty() && GateOpen(s, fields, cap, rp)
  {
    CommitSuccessFlushes(s, selected, fields, cap, rp);
    CommitFailureLeavesWork(s, selected, fields, cap, rp);
  }

  /** When every capability is present, every batch is accepted and the
      schema gate is open, the commit succeeds and nothing stays staged. */
  lemma CommitOfAcceptedBatches(s: Staged, selected: set<FeatureId>, fields: Fields,
                                cap: set<Capability>, rp: ProviderReplies)
    requires {DeleteAttributes, AddAttributes, ChangeAttributeValues, DeleteFeatures, AddFeatures, ChangeGeometries} <= cap
    requires rp.deleteAttributesOk && rp.addAttributesOk && rp.changeAttributeValuesOk
    requires rp.deleteFeaturesOk && rp.addFeaturesOk && rp.changeGeometriesOk
    requires GateOpen(s, fields, cap, rp)
    ensures var r := CommitSpec(s, selected, fields, cap, rp);
      r.success && r.staged.IsEmpty()
  {
    var p3, a, b, c, p4, p5 := Stages(s, selected, fields, cap, rp);
    assert p3.success && a.success && b.success && c.success;
    CommitSuccessFlushes(s, selected, fields, cap, rp);
  }

  /** A feature delete the provider accepted drops the deleted ids from the
      changed geometries; by then the value overrides are already empty, as
      the value phase ran first and the delete runs only while the commit
      is still succeeding. */
  lemma CommitPurgesDeletedFeatures(s: Staged, selected: set<FeatureId>, fields: Fields,
                                    cap: set<Capability>, rp: ProviderReplies, fid: FeatureId)
    requires fid in s.deletedFeatureIds
    ensures var r := CommitSpec(s, selected, fields, cap, rp).staged;
      r.deletedFeatureIds == {} ==>
        fid !in r.changedGeometries && r.changedAttributeValues == map[]
  {
    var p3, a, b, c, p4, p5 := Stages(s, selected, fields, cap, rp);
    if p5.staged.deletedFeatureIds == {} {
      assert p3.attributeChangesOk && a.success;
      assert a.staged.changedAttributeValues == map[];
      assert fid !in b.staged.changedGeometries;
    }
  }

  /** The selection changes only when the provider accepted the added
      features: the features go out in descending id order, and each
      selected temporary id the provider replaced is renamed. */
  lemma CommitRenamesSelection(s: Staged, selected: set<FeatureId>, fields: Fields,
                               cap: set<Capability>, rp: ProviderReplies)
    ensures var r := CommitSpec(s, selected, fields, cap, rp);
      var ids := DescendingKeys(s.addedFeatures.Keys);
      r.selected == if s.addedFeatures != map[] && r.staged.addedFeatures == map[]
                    then RenameSelection(selected, ids, IdsAfterAdd(ids, rp.assignedIds))
                    else selected
  {
    var p3 := SchemaGatePhase(AddAttributesPhase(DeleteAttributesPhase(Start(s, selected, fields), cap, rp), cap, rp), rp);
    SchemaStep(s, selected, fields, cap, rp);
    var a := ChangeValuesPhase(p3, cap, rp);
    ValuesStep(p3, cap, rp);
    var b := DeleteFeaturesPhase(a, cap, rp);
    DeletesStep(a, cap, rp);
    var c := AddFeaturesPhase(b, cap, rp);
    AddsStep(b, cap, rp);
    AddsSelection(b, cap, rp);
    var p4 := if p3.attributeChangesOk then c else p3.(success := false);
    var p5 := ChangeGeometriesPhase(p4, cap, rp);
    GeometriesStep(p4, cap, rp);
    assert b.staged.addedFeatures == s.addedFeatures && b.selected == selected;
    var r := CommitSpec(s, selected, fields, cap, rp);
    assert r.selected == p5.selected == p4.selected;
    assert r.staged.addedFeatures == p5.staged.addedFeatures == p4.staged.addedFeatures;
    var ids := DescendingKeys(s.addedFeatures.Keys);
    var renamed := RenameSelection(selected, ids, IdsAfterAdd(ids, rp.assignedIds));
    if p3.attributeChangesOk && b.success && s.addedFeatures != map[] && AddFeatures in cap && rp.addFeaturesOk {
      assert p4 == c;
      assert c.selected == renamed && c.staged.addedFeatures == map[];
    } else if p3.attributeChangesOk {
      assert p4 == c;
      assert c.selected == selected && c.staged.addedFeatures == s.addedFeatures;
    } else {
      assert p4.selected == selected && p4.staged.addedFeatures == s.addedFeatures;
    }
  }

  /** With temporary (negative) ids for the added features and permanent
      (non-negative) ids from the provider, the selection after a commit
      that flushed the added features holds exactly the selected ids that
      were not renamed, and the assigned id of every selected feature that
      was renamed. */
  lemma CommitSelectionAfterAdd(s: Staged, selected: set<FeatureId>, fields: Fields,
                                cap: set<Capability>, rp: ProviderReplies, x: FeatureId)
    requires forall fid :: fid in s.addedFeatures ==> IsNew(fid)
    requires forall i :: 0 <= i < |rp.assignedIds| ==> !IsNew(rp.assignedIds[i])
    ensures var r := CommitSpec(s, selected, fields, cap, rp);
      var ids := DescendingKeys(s.addedFeatures.Keys);
      var newIds := IdsAfterAdd(ids, rp.assignedIds);
      s.addedFeatures != map[] && r.staged.addedFeatures == map[] ==>
        (x in r.selected <==>
           (x in selected && forall i :: 0 <= i < |ids| && ids[i] == x ==> !Renamed(selected, ids, newIds, i))
           || (exists i :: Renamed(selected, ids, newIds, i) && newIds[i] == x))
  {
    CommitRenamesSelection(s, selected, fields, cap, rp);
    var ids := DescendingKeys(s.addedFeatures.Keys);
    var newIds := IdsAfterAdd(ids, rp.assignedIds);
    DescendingKeysSorted(s.addedFeatures.Keys);
    forall i, j | 0 <= i < j < |ids| ensures ids[i] != ids[j]
    {
      assert ids[i] > ids[j];
    }
    forall i, j | 0 <= i < |ids| && 0 <= j < |ids| && newIds[i] != ids[i] ensures newIds[i] != ids[j]
    {
      assert ids[j] in s.addedFeatures.Keys;
    }
    RenameSelectionMeaning(selected, ids, newIds, x);
  }

  /** A commit succeeds exactly when its report records no failed phase and
      no schema mismatch. */
  lemma CommitReportsEveryFailure(s: Staged, selected: set<FeatureId>, fields: Fields,
                                  cap: set<Capability>, rp: ProviderReplies)
    ensures var r := CommitSpec(s, selected, fields, cap, rp);
      r.success <==> NoFailures(r.report)
  {
    var p5 := FinalAccounts(s, selected, fields, cap, rp);
    AppendEntry(p5.report, ProviderErrors(rp.errors));
  }

  /** The provider's error messages are appended, as the last entry, exactly
      when the commit failed and the provider has errors to report. */
  lemma ProviderErrorsOnlyOnFailure(s: Staged, selected: set<FeatureId>, fields: Fields,
                                    cap: set<Capability>, rp: ProviderReplies)
    ensures var r := CommitSpec(s, selected, fields, cap, rp);
      && (!r.success && rp.errors != [] ==> r.report != [] && r.report[|r.report| - 1] == ProviderErrors(rp.errors))
      && (r.success || rp.errors == [] ==> NoProviderErrors(r.report))
  {
    var p5 := FinalAccounts(s, selected, fields, cap, rp);
  }
}
