/** The field model that the analysis fills in: the `FieldDefinition` record
    and the two enumerations it uses, `VectorType` and `SetterKind`. */
module FieldDefinitions {
  import opened Wrappers
  import opened EnumNames

  /** How a vector field is represented in the generated code. `None` marks a
      non-vector; it is the enumeration's zero value, which is what
      `Enum.TryParse` leaves in its out-parameter when parsing fails. */
  datatype VectorType = None | IList | IReadOnlyList | Memory | ReadOnlyMemory | Array | IIndexedVector

  function VectorTypeName(v: VectorType): string
  {
    match v
    case None => "None"
    case IList => "IList"
    case IReadOnlyList => "IReadOnlyList"
    case Memory => "Memory"
    case ReadOnlyMemory => "ReadOnlyMemory"
    case Array => "Array"
    case IIndexedVector => "IIndexedVector"
  }

  /** The members in declaration order. */
  const VectorTypes: seq<VectorType> :=
    [VectorType.None, IList, IReadOnlyList, Memory, ReadOnlyMemory, Array, IIndexedVector]

  /** The zero value of the enumeration. */
  const DefaultVectorType: VectorType := VectorType.None

  /** Visibility of a generated property's setter. `Public` is the zero value. */
  datatype SetterKind = Public | Protected | ProtectedInternal | Private | None

  function SetterKindName(k: SetterKind): string
  {
    match k
    case Public => "Public"
    case Protected => "Protected"
    case ProtectedInternal => "ProtectedInternal"
    case Private => "Private"
    case None => "None"
  }

  const SetterKinds: seq<SetterKind> := [Public, Protected, ProtectedInternal, Private, SetterKind.None]

  lemma VectorTypesComplete(v: VectorType)
    ensures v in VectorTypes
  {
  }

  lemma SetterKindsComplete(k: SetterKind)
    ensures k in SetterKinds
  {
  }

  /** Every `VectorType` name differs from every other up to case, so a
      case-insensitive lookup is unambiguous. */
  lemma VectorTypeNamesUnique()
    ensures UniqueIgnoringCase(VectorTypes, VectorTypeName)
  {
    forall x, y | x in VectorTypes && y in VectorTypes && x != y
      ensures !SameIgnoringCase(VectorTypeName(x), VectorTypeName(y))
    {
      DifferentIgnoringCase(VectorTypeName(x), VectorTypeName(y));
    }
  }

  lemma SetterKindNamesUnique()
    ensures UniqueIgnoringCase(SetterKinds, SetterKindName)
  {
    forall x, y | x in SetterKinds && y in SetterKinds && x != y
      ensures !SameIgnoringCase(SetterKindName(x), SetterKindName(y))
    {
      DifferentIgnoringCase(SetterKindName(x), SetterKindName(y));
    }
  }

  /** The value of a `FieldDefinition` at one moment. */
  datatype Field = Field(
    Name: string,
    FbsFieldType: string,
    VectorType: VectorType,
    IsOptionalScalar: bool,
    DefaultValue: Option<string>,
    Deprecated: bool,
    IsKey: bool,
    NonVirtual: Option<bool>,
    SortedVector: bool,
    SharedString: bool,
    Index: Option<int>,
    IsIndexSetManually: bool,
    SetterKind: SetterKind)

  /** A freshly constructed definition: every property at its C# default
      (the `null` strings of `Name` and `FbsFieldType` are written as empty). */
  const InitialField: Field :=
    Field("", "", DefaultVectorType, false, Option.None, false, false, Option.None,
          false, false, Option.None, false, Public)

  /** The record the analysis mutates, one property per field. */
  class FieldDefinition {
    var Name: string
    var FbsFieldType: string
    var VectorType: VectorType
    var IsOptionalScalar: bool
    var DefaultValue: Option<string>
    var Deprecated: bool
    var IsKey: bool
    var NonVirtual: Option<bool>
    var SortedVector: bool
    var SharedString: bool
    var Index: Option<int>
    var IsIndexSetManually: bool
    var SetterKind: SetterKind

    function Value(): Field
      reads this
    {
      Field(Name, FbsFieldType, VectorType, IsOptionalScalar, DefaultValue, Deprecated, IsKey,
            NonVirtual, SortedVector, SharedString, Index, IsIndexSetManually, SetterKind)
    }

    constructor ()
      ensures Value() == InitialField
    {
      Name, FbsFieldType := "", "";
      VectorType := InitialField.VectorType;
      IsOptionalScalar, DefaultValue := false, Option.None;
      Deprecated, IsKey, NonVirtual := false, false, Option.None;
      SortedVector, SharedString := false, false;
      Index, IsIndexSetManually := Option.None, false;
      SetterKind := InitialField.SetterKind;
    }
  }
}
