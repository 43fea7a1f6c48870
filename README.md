# QGIS vector layer edit buffer

A vector layer in QGIS that is being edited keeps its pending edits in a
`QgsVectorLayerEditBuffer`. The buffer holds six staged collections:
- provider attribute indices staged for deletion;
- fields staged for addition;
- per-feature attribute value overrides;
- changed geometries;
- features added under temporary (negative) ids;
- ids of provider features staged for deletion.

The buffer has four jobs:
- **Read overlays.** It shows the staged edits on top of the provider's data.
- **Guarded requests.** Each checks the provider's capabilities and the
  layer's fields. It then either refuses or pushes one command onto the
  layer's undo stack.
- **Renumbering.** When a field is inserted into or removed from the
  layer's field list, it renumbers attribute indices.
- **Commit and rollback.** `commitChanges` sends everything to the data
  provider phase by phase. `rollBack` undoes the whole session.

The project models these parts:
- **The buffer and the layer parts it touches** are classes that are
  updated in place:
  - `VectorLayerEditBuffer.EditBuffer` holds the six collections;
  - `VectorLayerEditBuffer.VectorLayer` holds the fields, the selection,
    the provider and the undo stack;
  - `UndoHistory.UndoStack` keeps the bookkeeping of a `QUndoStack`:
    the pushed commands, the current index and the clean index.
- **The read overlays, guards and handlers** are methods of the buffer.
  - `UpdateFeatureGeometry` has no loop and is a function.
  - These methods contain loops: `UpdateFields`, `UpdateChangedAttributes`,
    `AddFeatures` and `AddAttribute`.
  - The attribute handlers call module-level loop methods:
    `ShiftOverrides`, `InsertNullSlots` and `RemoveSlots`.
  - The remaining guards are straight-line.
  - Each guard states exactly when it answers true.
  - Each guard also states the undo stack it leaves: one more command
    pushed, or none.
- **`commitChanges`** is a method that calls five phase methods:
  - `CommitSchemaChanges` covers the attribute deletes, the attribute adds
    and the schema gate;
  - `CommitAttributeValues`, `CommitFeatureDeletes`, `CommitFeatureAdds`
    and `CommitGeometries` cover one phase each;
  - the provider errors are appended inline.

  Its result
  is tied to `CommitPipeline.CommitSpec`, a pure specification of the
  phases in their fixed order. The properties of a commit are lemmas
  about that specification:
  - what succeeds and what stays staged;
  - the schema gate;
  - the selection renaming;
  - the report.
- **The orderings are proved.**
  - Added features are handed to the provider in descending id order.
  - Override maps are rebuilt in ascending key order.

## Model

| member | source | states |
|---|---|---|
| `Positions.RemoveInserted` | src/core/qgsvectorlayereditbuffer.cpp:581-587 | inserting a value at a position and then removing that position gives back the original attribute list |
| `Positions.SurvivingLength` | src/core/qgsvectorlayereditbuffer.cpp:63-68 | removing a set of distinct in-range positions shortens a list by exactly their number |
| `VectorLayerEditBuffer.RemovePositionsDescending` | src/core/qgsvectorlayereditbuffer.cpp:63-68 | removing the staged deletion positions from the last to the first, skipping any past the end, leaves exactly the entries at positions that were not deleted, in order |
| `VectorLayerEditBuffer.DeletionsCount` | src/core/qgsvectorlayereditbuffer.cpp:87-93 | with every deletion position inside the list, exactly that many entries are removed |
| `VectorLayerEditBuffer.EditBuffer.constructor` | src/core/qgsvectorlayereditbuffer.cpp:38-42 | a new buffer belongs to its layer and stages nothing |
| `VectorLayerEditBuffer.EditBuffer.UpdateFields` | src/core/qgsvectorlayereditbuffer.cpp:63-75 | the field list is the surviving provider fields in order, followed by each staged field as an edit field whose origin index is its position among the staged fields; when every deletion position lies inside the list, its length is old length minus deletions plus additions |
| `VectorLayerEditBuffer.EditBuffer.UpdateFeatureGeometry` | src/core/qgsvectorlayereditbuffer.cpp:78-82 | a staged geometry replaces the feature's geometry; id and attributes are kept; a feature without a staged geometry is returned unchanged |
| `VectorLayerEditBuffer.EditBuffer.UpdateChangedAttributes` | src/core/qgsvectorlayereditbuffer.cpp:85-107 | id and geometry are kept; the attribute list has one slot per field after the schema edits, and each slot holds the staged override for it, else the surviving provider value, else Null |
| `VectorLayerEditBuffer.EditBuffer.AddFeature` | src/core/qgsvectorlayereditbuffer.cpp:112-125 | answers true exactly when the provider can add features and the feature has one attribute per field; pushes one add command exactly then, else leaves the undo stack alone; on true the layer counts as modified |
| `VectorLayerEditBuffer.EditBuffer.AddFeatures` | src/core/qgsvectorlayereditbuffer.cpp:128-140 | answers true exactly when the provider can add features; then pushes, in order, an add command for every feature whose attribute count matches the fields, and nothing otherwise |
| `VectorLayerEditBuffer.AcceptedAdds` | src/core/qgsvectorlayereditbuffer.cpp:128-140 | there are never more commands than features, and a feature's add command is among them exactly when the feature has the right width |
| `VectorLayerEditBuffer.AcceptedAddsAppend` | src/core/qgsvectorlayereditbuffer.cpp:133-137 | one more feature appends its command, if it has the right width, after those of the earlier features, so the commands follow the features' order |
| `VectorLayerEditBuffer.EditBuffer.DeleteFeature` | src/core/qgsvectorlayereditbuffer.cpp:144-162 | answers true exactly when the provider can delete features and the id is an added feature (new id) or not yet deleted (existing id); pushes one delete command exactly then; on true the layer counts as modified |
| `VectorLayerEditBuffer.EditBuffer.ChangeGeometry` | src/core/qgsvectorlayereditbuffer.cpp:165-184 | answers true exactly when the layer has geometries and the id is an added feature (new id), or the provider can change geometries (existing id); pushes one command exactly then; on true the layer counts as modified |
| `VectorLayerEditBuffer.EditBuffer.ChangeAttributeValue` | src/core/qgsvectorlayereditbuffer.cpp:187-206 | answers true exactly when the id is an added feature or the provider can change values, the field index is in range, and the field is neither a join nor an expression field; pushes one command exactly then; on true the layer counts as modified |
| `VectorLayerEditBuffer.EditBuffer.AddAttribute` | src/core/qgsvectorlayereditbuffer.cpp:209-229 | answers true exactly when the provider can add attributes, the name is non-empty, no field of the layer has that name, and the provider supports the type; pushes one command exactly then; on true the layer counts as modified |
| `VectorLayerEditBuffer.EditBuffer.DeleteAttribute` | src/core/qgsvectorlayereditbuffer.cpp:232-252 | answers true exactly when the provider can delete attributes, the index is in range, the field is not a provider field already staged for deletion, and it is not a join field; pushes one command exactly then; on true the layer counts as modified |
| `AttributeIndex.UpdateAttributeMapIndex` | src/core/qgsvectorlayereditbuffer.cpp:616-625 | the rebuilt map moves every entry at or above index by offset, keeps the entries below it unless a moved entry lands on the same key (the moved entry wins, as keys are visited in ascending order), and has no other keys |
| `AttributeIndex.IsShiftedUnique` | src/core/qgsvectorlayereditbuffer.cpp:616-625 | that description determines the rebuilt map uniquely |
| `VectorLayerEditBuffer.ShiftOverrides` | src/core/qgsvectorlayereditbuffer.cpp:574-603 | every feature keeps an override map; for an inserted field it is shifted up by one from the index, for a removed field it loses its entry at the index and is shifted down by one from it |
| `VectorLayerEditBuffer.InsertNullSlots` | src/core/qgsvectorlayereditbuffer.cpp:581-587 | every added feature gets a Null attribute inserted at the index; nothing else changes |
| `VectorLayerEditBuffer.RemoveSlots` | src/core/qgsvectorlayereditbuffer.cpp:605-611 | every added feature loses the attribute at the index; nothing else changes |
| `VectorLayerEditBuffer.EditBuffer.HandleAttributeAdded` | src/core/qgsvectorlayereditbuffer.cpp:572-588 | the override maps are shifted up from the index and the added features get a Null slot there; the other four collections are unchanged |
| `VectorLayerEditBuffer.EditBuffer.HandleAttributeDeleted` | src/core/qgsvectorlayereditbuffer.cpp:590-612 | the override maps lose their entry at the index and are shifted down from it, and the added features lose that slot; the other four collections are unchanged |
| `AttributeIndex.ShiftUpThenDown` | src/core/qgsvectorlayereditbuffer.cpp:592-603 | shifting an override map up at an index and then dropping that index and shifting down restores the map |
| `AttributeIndex.FieldAddedThenDeletedRestores` | src/core/qgsvectorlayereditbuffer.cpp:572-612 | handling an added field and then a deleted field at the same index restores every override map and every added feature |
| `FeatureOrder.DescendingKeysSorted` | src/core/qgsvectorlayereditbuffer.cpp:24-35 | the reversed key order lists every key exactly once, strictly decreasing |
| `FeatureOrder.MapToReversedLists` | src/core/qgsvectorlayereditbuffer.cpp:24-35 | the keys come out from the largest to the smallest, each beside its own value |
| `FeatureOrder.RenameSelectedIds` | src/core/qgsvectorlayereditbuffer.cpp:457-470 | the renaming loop computes the selection after the renaming steps for every position in order |
| `FeatureOrder.RenameSelectionMeaning` | src/core/qgsvectorlayereditbuffer.cpp:457-470 | with distinct temporary ids that no renamed feature receives, the new selection is exactly the selected ids that were not renamed plus the new id of every renamed selected feature |
| `CommitPipeline.FirstMismatch` | src/core/qgsvectorlayereditbuffer.cpp:339-365 | the first position where two field lists hold different fields: every earlier position agrees, and it differs when it is inside both lists |
| `CommitPipeline.SchemaCheck` | src/core/qgsvectorlayereditbuffer.cpp:327-366 | the schema gate opens exactly when the refetched field list matches the old one position by position in name, type, length and precision; a count mismatch is reported, otherwise only the first differing field is |
| `CommitPipeline.TypeNameDoesNotCloseGate` | src/core/qgsvectorlayereditbuffer.cpp:339-365 | refetched fields that differ from the old ones only in their type names keep the gate open and add nothing to the report |
| `VectorLayerEditBuffer.CompareFields` | src/core/qgsvectorlayereditbuffer.cpp:327-366 | the comparison loop reaches the gate verdict and the report entries of the schema check |
| `VectorLayerEditBuffer.PurgeDeleted` | src/core/qgsvectorlayereditbuffer.cpp:412-416 | every deleted id leaves the value overrides and the changed geometries, and nothing else does |
| `VectorLayerEditBuffer.EditBuffer.CommitChanges` | src/core/qgsvectorlayereditbuffer.cpp:255-536 | the staged collections, the layer's selection and fields, the answer and the report after a commit are those of the commit specification |
| `VectorLayerEditBuffer.EditBuffer.CommitSchemaChanges` | src/core/qgsvectorlayereditbuffer.cpp:269-366 | attribute deletes, attribute adds and the schema comparison leave the state the first three specification phases describe |
| `VectorLayerEditBuffer.EditBuffer.CommitAttributeValues` | src/core/qgsvectorlayereditbuffer.cpp:373-401 | the value phase leaves the state the value phase of the specification describes |
| `VectorLayerEditBuffer.EditBuffer.CommitFeatureDeletes` | src/core/qgsvectorlayereditbuffer.cpp:406-435 | the delete phase leaves the state the delete phase of the specification describes |
| `VectorLayerEditBuffer.EditBuffer.CommitFeatureAdds` | src/core/qgsvectorlayereditbuffer.cpp:440-498 | the add phase, including the descending submission order and the selection renaming, leaves the state the add phase of the specification describes |
| `VectorLayerEditBuffer.EditBuffer.CommitGeometries` | src/core/qgsvectorlayereditbuffer.cpp:508-523 | the geometry phase leaves the state the geometry phase of the specification describes |
| `CommitPipeline.CommitOfEmptyBuffer` | src/core/qgsvectorlayereditbuffer.cpp:255-536 | committing an empty buffer succeeds with an empty report and changes nothing |
| `CommitPipeline.CommitBlockedBySchemaMismatch` | src/core/qgsvectorlayereditbuffer.cpp:327-368 | after an accepted schema change whose refetched fields differ, the commit fails, the layer takes the refetched fields, and values, feature deletes, feature adds, geometries and selection stay as they were |
| `CommitPipeline.CommitChangesValuesAfterAttributeFailure` | src/core/qgsvectorlayereditbuffer.cpp:269-401 | a failed attribute delete or add does not stop the value changes behind an open gate, but the commit fails and the later phases keep their collections |
| `CommitPipeline.CommitSkipsFeaturePhasesAfterAttributeFailure` | src/core/qgsvectorlayereditbuffer.cpp:269-523 | any rejected attribute delete or add fails the commit and leaves the feature deletes, feature adds, geometries and selection as they were, whatever the value overrides hold and whether or not the gate opened |
| `CommitPipeline.CommitKeepsRejectedSchemaBatches` | src/core/qgsvectorlayereditbuffer.cpp:269-322 | the attribute deletions and additions are emptied exactly when the provider accepted them, and otherwise kept |
| `CommitPipeline.CommitKeepsRejectedFeatureBatches` | src/core/qgsvectorlayereditbuffer.cpp:373-523 | each feature-level collection is kept or emptied, and emptied only when the provider has the capability and accepted the batch; the geometries may instead lose exactly the deleted ids |
| `CommitPipeline.CommitSuccessFlushes` | src/core/qgsvectorlayereditbuffer.cpp:255-536 | a successful commit leaves nothing staged and passed the schema gate |
| `CommitPipeline.CommitFailureLeavesWork` | src/core/qgsvectorlayereditbuffer.cpp:255-536 | a failed commit leaves something staged or closed the schema gate |
| `CommitPipeline.CommitSucceedsIffFlushed` | src/core/qgsvectorlayereditbuffer.cpp:255-536 | a commit succeeds exactly when nothing stays staged and the schema gate stayed open |
| `CommitPipeline.CommitOfAcceptedBatches` | src/core/qgsvectorlayereditbuffer.cpp:255-536 | with every capability, every batch accepted and an open gate, the commit succeeds and empties the buffer |
| `CommitPipeline.CommitPurgesDeletedFeatures` | src/core/qgsvectorlayereditbuffer.cpp:406-435 | once the delete went through, no deleted id has a changed geometry left, and the value overrides are already empty |
| `CommitPipeline.CommitRenamesSelection` | src/core/qgsvectorlayereditbuffer.cpp:440-498 | the selection changes only when the added features were accepted, and then by renaming the temporary ids in descending order to the ids the provider assigned |
| `CommitPipeline.CommitSelectionAfterAdd` | src/core/qgsvectorlayereditbuffer.cpp:446-470 | with negative temporary ids and non-negative assigned ids, after a commit that flushed the added features a feature id is selected exactly when it was selected and not renamed, or it is the assigned id of a renamed selected feature |
| `CommitPipeline.CommitReportsEveryFailure` | src/core/qgsvectorlayereditbuffer.cpp:255-536 | a commit succeeds exactly when its report holds no failure entry and no schema mismatch |
| `CommitPipeline.ProviderErrorsOnlyOnFailure` | src/core/qgsvectorlayereditbuffer.cpp:525-533 | the provider's errors are the last report entry exactly when the commit failed and the provider had errors; otherwise they do not appear |
| `VectorLayerEditBuffer.EditBuffer.IsModified` | src/core/qgsvectorlayereditbuffer.cpp:49-52 | the layer is modified when its undo stack is away from its clean index; once the clean state was pushed away, it stays modified |
| `UndoHistory.UndoStack.constructor` | src/core/qgsvectorlayereditbuffer.cpp:49-52 | a new undo stack is empty and clean, so the layer is unmodified |
| `UndoHistory.UndoStack.Push` | src/core/qgsvectorlayereditbuffer.cpp:123 | a push drops the redo tail and appends the command as the top done command |
| `UndoHistory.UndoStack.SetIndex` | src/core/qgsvectorlayereditbuffer.cpp:546 | moving the index changes nothing else on the stack |
| `UndoHistory.PushesAppend` | src/core/qgsvectorlayereditbuffer.cpp:128-140 | pushing one batch of commands and then another is the same as pushing both together |
| `UndoHistory.PushesRecord` | src/core/qgsvectorlayereditbuffer.cpp:49-52 | after any push the stack ends with the pushed commands, has nothing to redo, and is not clean, so the layer counts as modified |
| `UndoHistory.PushesFromCleanStart` | src/core/qgsvectorlayereditbuffer.cpp:539-553 | a stack that was clean at index 0 stays so through pushes, so returning to index 0 makes it clean again |
| `VectorLayerEditBuffer.EditBuffer.RollBack` | src/core/qgsvectorlayereditbuffer.cpp:539-553 | with unsaved edits the undo stack returns to index 0 and nothing stays staged, and a session that started clean is no longer modified; without unsaved edits nothing changes |

## Left out

- Qt signals are not modelled: the feature and attribute notifications, the commit signals, and the `undoIndexChanged` slot.
- Report messages are tagged entries (`ReportEntry`) that carry the counts and fields, not translated strings. The provider and storage type names in a field mismatch entry are not modelled.
- The provider is an input (`ProviderReplies`):
  - its answer to each batch call;
  - the field list the layer refetches after a schema change;
  - the ids it writes back into the submitted features, by position;
  - its pending error messages.
  How the provider formats its errors, and the clearing of its errors, are not modelled.
- `updateExtents` and any canvas redraw are not modelled.
- Geometries and attribute values are opaque. No geometry operation is modelled, and no value conversion.
- The undo commands and their effects are not modelled: the undo command classes are not part of this model.
  - The guards show only what they push.
  - `RollBack` sets the six collections empty directly. That is what undoing every command of the session leaves. The source asserts it for five of the collections; the model also empties the staged feature deletions.
- The merging, macro and limit features of `QUndoStack` are not modelled.
- `QgsFields` is not part of this model.
  - Removing a field position past the end of the list is modelled as a no-op.
  - Appending a staged field always succeeds, even when its name duplicates an existing field.
- The field list the layer rebuilds after a schema change is taken from the provider's answer. The layer's own update is not modelled.
- The `#if 0` debugging block, which dumps the buffer, is left out.
- `VectorLayerEditBuffer.EditBuffer.UpdateChangedAttributes`: has two requires, because the source would fail a `QVector` assertion otherwise.
  - Every deletion position lies inside the feature's attribute list.
  - Every override key lies inside the resized list: its length minus the deletions plus the added fields.
- `VectorLayerEditBuffer.EditBuffer.Valid`: assumes the staged attribute deletions are non-negative and strictly increasing. `UpdateFields` and `UpdateChangedAttributes` rely on this.
  - In the source, the delete-attribute undo command keeps that list sorted, and the guard at line 244 refuses a second deletion of the same provider field.
  - The undo command is not part of this model, so the order is assumed, not proved.
- The gate compares fields with `SameField`: name, value type, length and precision, the identity the schema check is meant to compare. The field class is not part of this model. If its comparison also looked at the type name, a refetched field differing only in its type name would close the gate there but not here.
- `VectorLayerEditBuffer.EditBuffer.HandleAttributeAdded`: takes the index as a natural number inside every added feature's list (`HandleAttributeDeleted` likewise). The source inserts or removes through `QVector`, which asserts the same.
