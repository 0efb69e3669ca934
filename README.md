# FlatSharp field-declaration analysis in Dafny

This project models the part of the FlatSharp schema compiler that analyses one
field declaration of an FBS schema: `FieldVisitor.VisitField_decl` with its
helpers `SetFbsFieldType` (and its local `GetVectorBaseType`),
`ParseIdMetadata` and `ParseSetterKind`. The analysis gets a field identifier,
the declared type text, an optional default-value text and the attribute map
built from the field's metadata. It fills in one `FieldDefinition` step by step
and registers every problem it finds in the error context, under a scope named
after the field. It never stops early: each step runs whatever the earlier
ones reported.

The model follows the code's imperative shape:

- `FieldDefinitions.FieldDefinition` is a class whose fields the visitor
  assigns one after another. `Value()` is a snapshot of those fields as a
  `Field` record.
- `Errors.ErrorContext` is a class with the registered errors and the stack of
  scope names. Its methods push a scope, pop a scope and register errors.
- `FieldVisitors.FieldVisitor` owns one definition and has the methods of the
  source class. The body of the `WithScope` lambda (lines 38-77) is split
  into methods: `SetDefaultValue`, `ParseFlags`, `ParseSetter` and
  `ReportUnsupportedAttributes`. `VisitField_decl` calls them in the source's
  order between `PushScope` and `PopScope`.
- Each method is proved against a pure step function: `TypeStep`,
  `DefaultStep`, `FlagsStep`, `IdStep`, `SetterStep` or
  `UnsupportedDiagnostics`. `VisitField_decl` is proved against `Analyze`,
  which chains those functions. The method's new definition is
  `Analyze(old definition, decl).field`. The errors it appends are
  `Analyze(...).diags`, each wrapped with the scope `old scopes + [identifier]`.
  The scope stack ends up as it was.
- What the source promises is proved as lemmas about `Analyze`. The lemmas
  are grouped by rule: element type and vector representation, default value,
  flags, `id`, `setter`, and unsupported attributes. There is also an
  if-and-only-if that says when a declaration produces no errors, plus
  concrete scenarios.

A problem is recorded as a tag (`Errors.Diagnostic`) that carries the values
its message would interpolate, not the message text. `FieldVisitorProperties`
sorts the tags by the step that reports them (`Origin`, `FromStep`). That lets
a lemma speak of "the errors of the `id` step" inside the whole list.

The analysis starts from the definition's current value `prior`, not from a
fresh one. Branches that assign nothing keep what an earlier call left.
`DefaultValueProperties.ReusedDefinitionKeepsDefault` shows what that means
for a visitor used twice.

Three places where the code's behaviour is easy to misread:

- When `id` is present but not an integer, `ParseIdMetadata` returns without
  touching `Index` or `IsIndexSetManually` (lines 85-93). They keep their
  earlier values, which equal "unset" and `false` only on a fresh definition.
- An absent or empty default text assigns nothing (lines 41-49), so the
  earlier value stays. It is the zero value only on a fresh definition.
- An unparsable `vectortype` assigns whatever `Enum.TryParse` leaves in its
  out-parameter (lines 124-130). That is the enumeration's zero member
  `VectorType.None`, not `IList`.

## Model

| member | source | states |
|---|---|---|
| `FieldVisitors.FieldVisitor.constructor` | src/FlatSharp.Compiler/Visitors/FieldVisitor.cs:27-30 | a new visitor owns a new definition with every property at its zero value |
| `FieldVisitors.FieldVisitor.VisitField_decl` | src/FlatSharp.Compiler/Visitors/FieldVisitor.cs:32-81 | returns its own definition; the definition becomes `Analyze(old value, decl).field`; the error list only grows, by the analysis's errors in step order, all under the scope `old scopes + [identifier]`; the scope stack is restored |
| `FieldVisitors.FieldVisitor.SetFbsFieldType` | src/FlatSharp.Compiler/Visitors/FieldVisitor.cs:105-143 | assigns element type and representation as `TypeStep` says and registers its errors under the current scope; nothing else changes |
| `FieldVisitors.FieldVisitor.SetDefaultValue` | src/FlatSharp.Compiler/Visitors/FieldVisitor.cs:41-49 | the definition after the default-value branch is `DefaultStep` of the one before |
| `FieldVisitors.FieldVisitor.ParseFlags` | src/FlatSharp.Compiler/Visitors/FieldVisitor.cs:51-55 | the five flags as `FlagsStep` reads them, with their errors in the order the keys are read |
| `FieldVisitors.FieldVisitor.ParseIdMetadata` | src/FlatSharp.Compiler/Visitors/FieldVisitor.cs:83-103 | the definition and errors after reading `id` are those of `IdStep` |
| `FieldVisitors.FieldVisitor.ParseSetter` | src/FlatSharp.Compiler/Visitors/FieldVisitor.cs:59-63 | the setter kind and its error are those of `SetterStep` |
| `FieldVisitors.FieldVisitor.ReportUnsupportedAttributes` | src/FlatSharp.Compiler/Visitors/FieldVisitor.cs:65-77 | the loop appends exactly `UnsupportedDiagnostics` over the six keys, under the current scope, and does not touch the definition |
| `FieldVisitors.FieldVisitor.GetVectorBaseType` | src/FlatSharp.Compiler/Visitors/FieldVisitor.cs:139-142 | first character, then the result, then last character give back the type text |
| `FieldVisitors.FieldVisitor.ParseSetterKind` | src/FlatSharp.Compiler/Visitors/FieldVisitor.cs:145-148 | yields `k` exactly when the text equals `k`'s name up to case |
| `FieldVisitors.TryParseVectorType` | src/FlatSharp.Compiler/Visitors/FieldVisitor.cs:124 | yields `v` exactly when the text equals `v`'s name up to case |
| `EnumNames.TryParseEnum` | src/FlatSharp.Compiler/Visitors/FieldVisitor.cs:147 | a found member is one of the members and matches the text up to case; nothing is found exactly when no member matches |
| `EnumNames.TryParseEnumFinds` | src/FlatSharp.Compiler/Visitors/FieldVisitor.cs:147 | with names unique up to case, a text naming a member finds exactly that member |
| `EnumNames.TryParseEnumIgnoresCase` | src/FlatSharp.Compiler/Visitors/FieldVisitor.cs:124 | texts equal up to case give the same lookup result |
| `FieldDefinitions.VectorTypeNamesUnique` | src/FlatSharp.Compiler/Visitors/FieldVisitor.cs:124 | no two vector representations have names equal up to case |
| `FieldDefinitions.SetterKindNamesUnique` | src/FlatSharp.Compiler/Visitors/FieldVisitor.cs:147 | no two setter kinds have names equal up to case |
| `Errors.RegisteredInOrder` | src/FlatSharp.Compiler/Visitors/FieldVisitor.cs:36-78 | registering two batches under one scope one after the other is registering their concatenation |
| `Errors.ErrorContext.PushScope` | src/FlatSharp.Compiler/Visitors/FieldVisitor.cs:36 | entering the scope pushes the field's name and registers nothing |
| `Errors.ErrorContext.PopScope` | src/FlatSharp.Compiler/Visitors/FieldVisitor.cs:78 | leaving the scope pops the innermost name and registers nothing |
| `Errors.ErrorContext.RegisterError` | src/FlatSharp.Compiler/Visitors/FieldVisitor.cs:75 | appends one entry under the current scope, leaving earlier entries and the scopes alone |
| `Errors.ErrorContext.RegisterErrors` | src/FlatSharp.Compiler/Visitors/FieldVisitor.cs:51-63 | a helper's errors are appended in order under the current scope |
| `Metadata.ParseMetadata` | src/FlatSharp.Compiler/Visitors/FieldVisitor.cs:59-63 | absent key gives the absent default; key without value gives the present default; a value goes through the parser; a rejected value gives one error naming key and text and the absent default |
| `Metadata.ParseBool` | src/FlatSharp.Compiler/Visitors/FieldVisitor.cs:51 | true exactly for `true` up to case, false exactly for `false` up to case |
| `Metadata.ParseBooleanMetadata` | src/FlatSharp.Compiler/Visitors/FieldVisitor.cs:51-55 | set exactly when present without a value or with `true` up to case; one error exactly when the value is neither `true` nor `false` |
| `Metadata.ParseNullableBooleanMetadata` | src/FlatSharp.Compiler/Visitors/FieldVisitor.cs:53 | unset exactly when absent or unreadable; true exactly when present without a value or `true`; false exactly for `false`; errors as for a flag |
| `Metadata.ParseInt32` | src/FlatSharp.Compiler/Visitors/FieldVisitor.cs:85 | a parsed value lies in the 32-bit range |
| `Metadata.ParseInt32RoundTrip` | src/FlatSharp.Compiler/Visitors/FieldVisitor.cs:85 | parsing the decimal spelling of any 32-bit integer gives it back |
| `Metadata.TryParseIntegerMetadata` | src/FlatSharp.Compiler/Visitors/FieldVisitor.cs:85-93 | absent exactly when the key is missing; a value exactly when the key has an integer text, and then that integer |
| `FieldVisitorProperties.AnalyzeFields` | src/FlatSharp.Compiler/Visitors/FieldVisitor.cs:32-81 | every property of the result comes from the one step that assigns it, applied to the prior definition; the name is the identifier |
| `FieldVisitorProperties.SingleOrigin` | src/FlatSharp.Compiler/Visitors/FieldVisitor.cs:36-78 | an error list to which only one step contributes is exactly that step's part of it |
| `FieldVisitorProperties.AnalyzeDiagnostics` | src/FlatSharp.Compiler/Visitors/FieldVisitor.cs:36-78 | the errors of each kind are exactly that step's errors, in order: an error in one step suppresses nothing in another |
| `TypeResolutionProperties.VectorWithoutVectorType` | src/FlatSharp.Compiler/Visitors/FieldVisitor.cs:111-122 | a vector without `vectortype`: element type is the text without its outer characters, representation `IList`, no type error |
| `TypeResolutionProperties.BracketedElementType` | src/FlatSharp.Compiler/Visitors/FieldVisitor.cs:139-142 | `[T]` has element type `T` |
| `TypeResolutionProperties.ElementType` | src/FlatSharp.Compiler/Visitors/FieldVisitor.cs:115-137 | for any vector, whatever `vectortype` says, the element type is the stripped text |
| `TypeResolutionProperties.ScalarField` | src/FlatSharp.Compiler/Visitors/FieldVisitor.cs:132-137 | a non-vector keeps its type text and representation `None`; `vectortype` on it gives exactly one error naming the field |
| `TypeResolutionProperties.VectorWithVectorType` | src/FlatSharp.Compiler/Visitors/FieldVisitor.cs:124-130 | a value naming a representation up to case selects it without error; anything else gives one error carrying the value and representation `None`; element type stripped either way |
| `TypeResolutionProperties.NoneRepresentation` | src/FlatSharp.Compiler/Visitors/FieldVisitor.cs:109-130 | representation `None` exactly for non-vectors, rejected `vectortype` values, and a `vectortype` naming `None` |
| `DefaultValueProperties.DefaultResolution` | src/FlatSharp.Compiler/Visitors/FieldVisitor.cs:41-49 | `null` marks an optional scalar; other non-empty text becomes the default verbatim; absent or empty assigns neither; the unassigned one keeps its earlier value |
| `DefaultValueProperties.FreshDefaultResolution` | src/FlatSharp.Compiler/Visitors/FieldVisitor.cs:41-49 | on a fresh definition: optional scalar exactly for `null`, a default exactly for other non-empty text, never both |
| `DefaultValueProperties.ReusedDefinitionKeepsDefault` | src/FlatSharp.Compiler/Visitors/FieldVisitor.cs:25-49 | a visitor reused for `= 7` and then `= null` ends with both properties set |
| `FlagProperties.FlagResolution` | src/FlatSharp.Compiler/Visitors/FieldVisitor.cs:51-55 | each flag is set exactly as its attribute says; `nonVirtual` true, false or unset accordingly; the flag errors are one per unreadable value, in reading order |
| `IdProperties.IdResolution` | src/FlatSharp.Compiler/Visitors/FieldVisitor.cs:83-103 | absent: nothing changes, no error; present without an integer: nothing changes, one error; integer `n`: index `n`, set manually, plus one error naming the field when `n < 0` |
| `IdProperties.FreshIdResolution` | src/FlatSharp.Compiler/Visitors/FieldVisitor.cs:83-103 | on a fresh definition an index is present, and set manually, exactly when `id` holds an integer |
| `IdProperties.IdRoundTrip` | src/FlatSharp.Compiler/Visitors/FieldVisitor.cs:85-102 | an `id` written as any 32-bit integer is committed as exactly that integer |
| `IdProperties.NegativeIdCommitted` | src/FlatSharp.Compiler/Visitors/FieldVisitor.cs:95-102 | `id: "-3"` commits -3, marks the index as set manually, and reports exactly one negative-id error naming the field |
| `SetterProperties.SetterResolution` | src/FlatSharp.Compiler/Visitors/FieldVisitor.cs:59-63 | absent or valueless gives `Public`; a value naming a kind up to case gives it; any other value gives `Public` and one error |
| `SetterProperties.LowerCaseSetter` | src/FlatSharp.Compiler/Visitors/FieldVisitor.cs:145-148 | `setter: "private"` selects `Private` without error |
| `UnsupportedAttributeProperties.UnsupportedCount` | src/FlatSharp.Compiler/Visitors/FieldVisitor.cs:71-77 | over distinct keys, each key present gets exactly one error and each absent one none |
| `UnsupportedAttributeProperties.UnsupportedOrder` | src/FlatSharp.Compiler/Visitors/FieldVisitor.cs:71-77 | over distinct keys, the errors are in the order of the keys |
| `UnsupportedAttributeProperties.UnsupportedAttributesRejected` | src/FlatSharp.Compiler/Visitors/FieldVisitor.cs:65-77 | for the six keys: one error per key present, none otherwise, in the array's order |
| `UnsupportedAttributeProperties.UnsupportedSingle` | src/FlatSharp.Compiler/Visitors/FieldVisitor.cs:71-77 | when one key alone is present, its error is the only one |
| `UnsupportedAttributeProperties.UnsupportedAttributeLeavesDefinition` | src/FlatSharp.Compiler/Visitors/FieldVisitor.cs:65-77 | adding an unsupported attribute leaves the resulting definition unchanged |
| `UnsupportedAttributeProperties.UnrelatedAttributeIgnored` | src/FlatSharp.Compiler/Visitors/FieldVisitor.cs:38-77 | an attribute neither read nor rejected changes neither the definition nor the errors |
| `WellFormedProperties.NoDiagnosticsIffWellFormed` | src/FlatSharp.Compiler/Visitors/FieldVisitor.cs:36-78 | the analysis registers no error exactly when every rule accepts the declaration |
| `WellFormedProperties.OnlyTypeDiagnostics` | src/FlatSharp.Compiler/Visitors/FieldVisitor.cs:36-78 | when `vectortype` is the only attribute, the whole error list is what type resolution reports |
| `WellFormedProperties.OnlyIdDiagnostics` | src/FlatSharp.Compiler/Visitors/FieldVisitor.cs:36-78 | when `id` is the only attribute, the whole error list is what the `id` step reports |
| `FieldScenarios.AnalyzeDeclaration` | src/FlatSharp.Compiler/Visitors/FieldVisitor.cs:27-36 | with a fresh visitor and context: the definition is `Analyze` on a fresh one, named after the identifier, every error scoped to it, no scope left open |
| `FieldScenarios.IdFive` | src/FlatSharp.Compiler/Visitors/FieldVisitor.cs:85-102 | `id: "5"` gives index 5, set manually, no id error |
| `FieldScenarios.IdNotANumber` | src/FlatSharp.Compiler/Visitors/FieldVisitor.cs:85-93 | `id: "abc"` on a fresh definition gives no index, not set manually, and the whole error list is one missing-id error |
| `FieldScenarios.IntVector` | src/FlatSharp.Compiler/Visitors/FieldVisitor.cs:111-122 | `[int]` alone is an `IList` of `int` with no error at all |
| `FieldScenarios.IntVectorWithBadVectorType` | src/FlatSharp.Compiler/Visitors/FieldVisitor.cs:124-130 | `[int]` with `vectortype: "badvalue"` gives representation `None`, element `int`, and the whole error list is one invalid-vector-type error carrying the value |
| `FieldScenarios.ScalarWithVectorType` | src/FlatSharp.Compiler/Visitors/FieldVisitor.cs:132-137 | `int` with a `vectortype` gives type `int`, representation `None`, and the whole error list is one error naming the field |
| `FieldScenarios.NullAndSevenDefaults` | src/FlatSharp.Compiler/Visitors/FieldVisitor.cs:41-49 | `= null` gives an optional scalar with no default; `= 7` gives default `7`, not optional |
| `FieldScenarios.RequiredNextToKey` | src/FlatSharp.Compiler/Visitors/FieldVisitor.cs:65-77 | `required` beside `key` gives exactly one unsupported-attribute error; the definition is as without it, with `key` set |

## Left out

- Parse-tree plumbing is not modelled: the visitor base class, `Field_declContext` and `GetText()` (lines 23, 32, 34, 39, 41). The identifier, type text, default text and attribute map are inputs (`FieldDecl`).
- `MetadataVisitor` is not part of this model (line 38). The attribute map is an input, with `Flag` for a key written without a value.
- `MetadataHelpers` is not part of this model. Its contracts are assumed:
  - the generic absent / present-without-value / parse-or-error pattern (`ParseMetadata`);
  - `bool.TryParse` as `true`/`false` up to ASCII case;
  - `nonVirtual` without a value reads as true.
- `TryParseIntegerMetadata` stands for the helper together with the sentinel comparison at line 87. Its three-way result is Absent, Invalid or Value. A key without a value and a value that is not an integer both count as Invalid, and each gives one error.
- `Metadata.ParseInt32` accepts an optional sign and decimal digits in the 32-bit range. It does not model the whitespace, culture or thousands-separator handling of `int.TryParse`.
- `EnumNames.TryParseEnum` folds ASCII case only. It does not model what `Enum.TryParse` also accepts: numeric strings, surrounding whitespace, comma-separated combinations.
- The `VectorType` and `SetterKind` definitions are not part of this model. Their member lists are assumed:
  - `None, IList, IReadOnlyList, Memory, ReadOnlyMemory, Array, IIndexedVector`, where `None` is the zero value;
  - `Public, Protected, ProtectedInternal, Private, None`.
- `FieldDefinition` is not part of this model beyond the properties this analysis assigns.
- Parts of the error context are not modelled: it is a process-wide singleton; `?.` drops errors when there is no current context (lines 75, 89, 97, 126, 134); `WithScope` runs a lambda. Here an explicit context is passed, the scope is pushed before and popped after the work, and no exceptions exist in the model.
- Message text is not modelled (lines 75, 89, 98, 127, 134). A diagnostic is a tag carrying the values the message interpolates. The list of valid choices at line 127 is left out.
- A type text that is exactly `[` makes `Substring` throw (line 141). Here it is excluded by the precondition `Analyzable`.
