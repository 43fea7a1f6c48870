/**
 * Value types shared by the vector-layer edit buffer model: feature ids,
 * attribute values, fields, features, provider capabilities, undo commands
 * and the entries of a commit report.
 */
module EditTypes {

  datatype Option<+T> = None | Some(value: T)

  /** A feature id. Negative ids are the temporary ids of features added in
      the current edit session and not yet written to the provider. */
  type FeatureId = int

  /** FID_IS_NEW: the id belongs to a feature that exists only in the buffer. */
  predicate IsNew(fid: FeatureId)
  {
    fid < 0
  }

  /** An attribute value (QVariant). Its contents are opaque; Null is the
      default-constructed value that fills new attribute slots. */
  datatype Variant = Null | Value(payload: int)

  /** A geometry; its contents are opaque to the edit buffer. */
  datatype Geometry = Geometry(shape: int)

  /** A field definition. */
  datatype Field = Field(name: string, valueType: int, typeName: string, length: int, precision: int)

  /** The identity the schema gate compares: name, value type, length and
      precision. The type name is carried along for reporting only. */
  predicate SameField(a: Field, b: Field)
  {
    a.name == b.name && a.valueType == b.valueType && a.length == b.length && a.precision == b.precision
  }

  /** Where a field of a layer's field list comes from. */
  datatype FieldOrigin = OriginUnknown | OriginProvider | OriginJoin | OriginEdit | OriginExpression

  /** One position of a field list: the field, its origin and its index
      within that origin. */
  datatype FieldEntry = FieldEntry(field: Field, origin: FieldOrigin, originIndex: int)

  type Fields = seq<FieldEntry>

  type Attributes = seq<Variant>

  /** Pending value overrides of one feature: attribute index -> new value. */
  type AttributeMap = map<int, Variant>

  datatype Feature = Feature(id: FeatureId, attributes: Attributes, geometry: Option<Geometry>)

  /** The provider capabilities the edit buffer consults. */
  datatype Capability =
    | AddFeatures
    | DeleteFeatures
    | ChangeAttributeValues
    | ChangeGeometries
    | AddAttributes
    | DeleteAttributes

  /** What the data provider answers to the buffer's questions: its
      capability set and whether it supports a field's type. */
  datatype DataProvider = DataProvider(capabilities: set<Capability>, supportedType: Field -> bool)

  /** The undo commands the buffer pushes; each carries the arguments of the
      request that created it. */
  datatype UndoCommand =
    | AddFeatureCommand(feature: Feature)
    | DeleteFeatureCommand(fid: FeatureId)
    | ChangeGeometryCommand(fid: FeatureId, geometry: Geometry)
    | ChangeAttributeCommand(fid: FeatureId, field: int, newValue: Variant, oldValue: Variant)
    | AddAttributeCommand(newField: Field)
    | DeleteAttributeCommand(index: int)

  /** One line of the commit report, as an abstract tagged entry. */
  datatype ReportEntry =
    | AttributesDeleted(count: nat)
    | AttributesNotDeleted(count: nat)
    | AttributesAdded(count: nat)
    | AttributesNotAdded(count: nat)
    | FieldCountMismatch
    | FieldMismatch(index: nat, expected: Field, retrieved: Field)
    | AttributeValuesChanged(count: nat)
    | AttributeValuesNotChanged(count: nat)
    | FeaturesDeleted(count: nat)
    | FeaturesNotDeleted(count: nat)
    | FeaturesAdded(count: nat)
    | FeaturesNotAdded(count: nat)
    | FeaturesAddUnsupported(count: nat)
    | GeometriesChanged(count: nat)
    | GeometriesNotChanged(count: nat)
    | ProviderErrors(messages: seq<string>)
}
