/** The field-declaration analyser: `FieldVisitor.VisitField_decl` and its
    helpers, with one pure step function per helper that says what the
    helper does to the definition and which errors it registers. */
module FieldVisitors {
  import opened Wrappers
  import opened EnumNames
  import opened Errors
  import opened Metadata
  import opened FieldDefinitions

  /** One parsed field declaration: identifier, declared type text, the
      default-value text if any, and the attribute map built from its metadata. */
  datatype FieldDecl = FieldDecl(Ident: string, TypeText: string, DefaultText: Option<string>, Attributes: Attributes)

  /** What one step leaves in the definition and the errors it registers, in order. */
  datatype Step = Step(field: Field, diags: seq<Diagnostic>)

  /** The declared type uses bracketed vector syntax. */
  predicate IsVectorSyntax(typeText: string)
  {
    |typeText| > 0 && typeText[0] == '['
  }

  /** Stripping one character from each end fails only on a lone `[`. */
  predicate Analyzable(typeText: string)
  {
    typeText != "["
  }

  /** The attributes the unsupported-attribute loop rejects, in its order. */
  const UnsupportedAttributes: seq<string> :=
    ["required", "force_align", "bit_flags", "flexbuffer", "hash", "original_order"]

  /** `Enum.TryParse<VectorType>` with case ignored: the member named by `text`. */
  function TryParseVectorType(text: string): (r: Option<VectorType>)
    ensures forall v :: r == Some(v) <==> SameIgnoringCase(text, VectorTypeName(v))
  {
    VectorTypeNamesUnique();
    var r := TryParseEnum(text, VectorTypes, VectorTypeName);
    assert forall v :: SameIgnoringCase(text, VectorTypeName(v)) ==> r == Some(v) by {
      forall v | SameIgnoringCase(text, VectorTypeName(v)) ensures r == Some(v) {
        VectorTypesComplete(v);
        TryParseEnumFinds(text, VectorTypes, VectorTypeName, v);
      }
    }
    r
  }

  /** `SetFbsFieldType`: element type and vector representation. */
  function TypeStep(f: Field, typeText: string, md: Attributes): Step
    requires Analyzable(typeText)
  {
    if IsVectorSyntax(typeText) then
      var element := FieldVisitor.GetVectorBaseType(typeText);
      if "vectortype" !in md then
        Step(f.(VectorType := IList, FbsFieldType := element), [])
      else
        var text := if md["vectortype"].Valued? then Some(md["vectortype"].text) else Option.None;
        var parsed := if text.Some? then TryParseVectorType(text.value) else Option.None;
        match parsed
        case Some(v) => Step(f.(VectorType := v, FbsFieldType := element), [])
        case None => Step(f.(VectorType := DefaultVectorType, FbsFieldType := element), [InvalidVectorType(text)])
    else
      Step(f.(VectorType := VectorType.None, FbsFieldType := typeText),
           if "vectortype" in md then [VectorTypeOnNonVector(f.Name)] else [])
  }

  /** The default-value text: `null` marks an optional scalar, any other
      non-empty text is the default; otherwise nothing is assigned. */
  function DefaultStep(f: Field, defaultText: Option<string>): Field
  {
    if defaultText == Some("null") then f.(IsOptionalScalar := true)
    else if defaultText.Some? && defaultText.value != "" then f.(DefaultValue := defaultText)
    else f
  }

  /** The five flag attributes, in the order they are read. */
  function FlagsStep(f: Field, md: Attributes): Step
  {
    var deprecated := ParseBooleanMetadata(md, "deprecated");
    var isKey := ParseBooleanMetadata(md, "key");
    var nonVirtual := ParseNullableBooleanMetadata(md, "nonVirtual");
    var sortedVector := ParseBooleanMetadata(md, "sortedvector");
    var sharedString := ParseBooleanMetadata(md, "sharedstring");
    Step(f.(Deprecated := deprecated.value, IsKey := isKey.value, NonVirtual := nonVirtual.value,
            SortedVector := sortedVector.value, SharedString := sharedString.value),
         deprecated.diags + isKey.diags + nonVirtual.diags + sortedVector.diags + sharedString.diags)
  }

  /** `ParseIdMetadata`. */
  function IdStep(f: Field, md: Attributes): Step
  {
    match TryParseIntegerMetadata(md, "id")
    case Absent => Step(f, [])
    case Invalid => Step(f, [IdValueMissing])
    case Value(n) =>
      Step(f.(Index := Some(n), IsIndexSetManually := true), if n < 0 then [NegativeId(n, f.Name)] else [])
  }

  /** The `setter` attribute, `Public` both when absent and when present without a value. */
  function SetterStep(f: Field, md: Attributes): Step
  {
    var setter := ParseMetadata(md, "setter", FieldVisitor.ParseSetterKind, Public, Public);
    Step(f.(SetterKind := setter.value), setter.diags)
  }

  /** One error per unsupported attribute of `keys` present in the map, in the order of `keys`. */
  function UnsupportedDiagnostics(md: Attributes, keys: seq<string>): seq<Diagnostic>
  {
    if keys == [] then []
    else
      UnsupportedDiagnostics(md, keys[..|keys| - 1])
        + (if keys[|keys| - 1] in md then [UnsupportedAttribute(keys[|keys| - 1])] else [])
  }

  /** The whole of `VisitField_decl`, starting from the definition's current value `prior`. */
  function Analyze(prior: Field, decl: FieldDecl): Step
    requires Analyzable(decl.TypeText)
  {
    var md := decl.Attributes;
    var named := prior.(Name := decl.Ident);
    var typed := TypeStep(named, decl.TypeText, md);
    var defaulted := DefaultStep(typed.field, decl.DefaultText);
    var flags := FlagsStep(defaulted, md);
    var id := IdStep(flags.field, md);
    var setter := SetterStep(id.field, md);
    Step(setter.field,
         typed.diags + flags.diags + id.diags + setter.diags + UnsupportedDiagnostics(md, UnsupportedAttributes))
  }

  lemma FlagsStepUnfold(f: Field, md: Attributes, deprecated: Parsed<bool>, isKey: Parsed<bool>,
                        nonVirtual: Parsed<Option<bool>>, sortedVector: Parsed<bool>, sharedString: Parsed<bool>)
    requires deprecated == ParseBooleanMetadata(md, "deprecated")
    requires isKey == ParseBooleanMetadata(md, "key")
    requires nonVirtual == ParseNullableBooleanMetadata(md, "nonVirtual")
    requires sortedVector == ParseBooleanMetadata(md, "sortedvector")
    requires sharedString == ParseBooleanMetadata(md, "sharedstring")
    ensures FlagsStep(f, md) ==
      Step(f.(Deprecated := deprecated.value, IsKey := isKey.value, NonVirtual := nonVirtual.value,
              SortedVector := sortedVector.value, SharedString := sharedString.value),
           deprecated.diags + isKey.diags + nonVirtual.diags + sortedVector.diags + sharedString.diags)
  {
  }

  lemma AnalyzeUnfold(prior: Field, decl: FieldDecl, typed: Step, flags: Step, id: Step, setter: Step)
    requires Analyzable(decl.TypeText)
    requires typed == TypeStep(prior.(Name := decl.Ident), decl.TypeText, decl.Attributes)
    requires flags == FlagsStep(DefaultStep(typed.field, decl.DefaultText), decl.Attributes)
    requires id == IdStep(flags.field, decl.Attributes)
    requires setter == SetterStep(id.field, decl.Attributes)
    ensures Analyze(prior, decl) ==
      Step(setter.field, typed.diags + flags.diags + id.diags + setter.diags
                         + UnsupportedDiagnostics(decl.Attributes, UnsupportedAttributes))
  {
  }

  /** Analyses one field declaration. A visitor owns one definition and is
      meant for one declaration: properties a step does not assign keep
      whatever an earlier call left in them. */
  class FieldVisitor {
    const definition: FieldDefinition

    constructor ()
      ensures fresh(definition)
      ensures definition.Value() == InitialField
    {
      definition := new FieldDefinition();
    }

    /** Fills in the definition and registers every error under a scope named
        after the field; the scope stack is restored afterwards. */
    method VisitField_decl(decl: FieldDecl, ctx: ErrorContext) returns (result: FieldDefinition)
      requires Analyzable(decl.TypeText)
      modifies definition, ctx
      ensures result == definition
      ensures definition.Value() == Analyze(old(definition.Value()), decl).field
      ensures ctx.errors == old(ctx.errors) + InScope(old(ctx.scopes) + [decl.Ident], Analyze(old(definition.Value()), decl).diags)
      ensures ctx.scopes == old(ctx.scopes)
    {
      ghost var prior := definition.Value();

      definition.Name := decl.Ident;
      ctx.PushScope(definition.Name);
      ghost var scope := ctx.scopes;
      ghost var log := ctx.errors;
      ghost var named := definition.Value();

      var metadata := decl.Attributes;
      SetFbsFieldType(decl.TypeText, metadata, ctx);
      ghost var typed := TypeStep(named, decl.TypeText, metadata);

      SetDefaultValue(decl.DefaultText);

      ParseFlags(metadata, ctx);
      ghost var flags := FlagsStep(DefaultStep(typed.field, decl.DefaultText), metadata);
      RegisteredInOrder(log, scope, typed.diags, flags.diags);

      ParseIdMetadata(metadata, ctx);
      ghost var id := IdStep(flags.field, metadata);
      RegisteredInOrder(log, scope, typed.diags + flags.diags, id.diags);

      ParseSetter(metadata, ctx);
      ghost var setter := SetterStep(id.field, metadata);
      RegisteredInOrder(log, scope, typed.diags + flags.diags + id.diags, setter.diags);

      ReportUnsupportedAttributes(metadata, ctx);
      RegisteredInOrder(log, scope, typed.diags + flags.diags + id.diags + setter.diags,
                        UnsupportedDiagnostics(metadata, UnsupportedAttributes));

      ctx.PopScope();
      AnalyzeUnfold(prior, decl, typed, flags, id, setter);
      result := definition;
    }

    /** The default-value text: `null` marks an optional scalar, other
        non-empty text becomes the default value. */
    method SetDefaultValue(defaultValue: Option<string>)
      modifies definition
      ensures definition.Value() == DefaultStep(old(definition.Value()), defaultValue)
    {
      if defaultValue == Some("null") {
        definition.IsOptionalScalar := true;
      } else if defaultValue.Some? && defaultValue.value != "" {
        definition.DefaultValue := defaultValue;
      }
    }

    /** The flag attributes `deprecated`, `key`, `nonVirtual`, `sortedvector`
        and `sharedstring`, read in that order. */
    method ParseFlags(metadata: Attributes, ctx: ErrorContext)
      modifies definition, ctx
      ensures definition.Value() == FlagsStep(old(definition.Value()), metadata).field
      ensures ctx.errors == old(ctx.errors) + InScope(ctx.scopes, FlagsStep(old(definition.Value()), metadata).diags)
      ensures ctx.scopes == old(ctx.scopes)
    {
      ghost var start := definition.Value();
      ghost var scope := ctx.scopes;
      ghost var log := ctx.errors;

      var deprecated := ParseBooleanMetadata(metadata, "deprecated");
      ctx.RegisterErrors(deprecated.diags);
      definition.Deprecated := deprecated.value;
      ghost var acc := deprecated.diags;

      var isKey := ParseBooleanMetadata(metadata, "key");
      ctx.RegisterErrors(isKey.diags);
      definition.IsKey := isKey.value;
      RegisteredInOrder(log, scope, acc, isKey.diags);
      acc := acc + isKey.diags;

      var nonVirtual := ParseNullableBooleanMetadata(metadata, "nonVirtual");
      ctx.RegisterErrors(nonVirtual.diags);
      definition.NonVirtual := nonVirtual.value;
      RegisteredInOrder(log, scope, acc, nonVirtual.diags);
      acc := acc + nonVirtual.diags;

      var sortedVector := ParseBooleanMetadata(metadata, "sortedvector");
      ctx.RegisterErrors(sortedVector.diags);
      definition.SortedVector := sortedVector.value;
      RegisteredInOrder(log, scope, acc, sortedVector.diags);
      acc := acc + sortedVector.diags;

      var sharedString := ParseBooleanMetadata(metadata, "sharedstring");
      ctx.RegisterErrors(sharedString.diags);
      definition.SharedString := sharedString.value;
      RegisteredInOrder(log, scope, acc, sharedString.diags);

      FlagsStepUnfold(start, metadata, deprecated, isKey, nonVirtual, sortedVector, sharedString);
    }

    /** The `setter` attribute. */
    method ParseSetter(metadata: Attributes, ctx: ErrorContext)
      modifies definition, ctx
      ensures definition.Value() == SetterStep(old(definition.Value()), metadata).field
      ensures ctx.errors == old(ctx.errors) + InScope(ctx.scopes, SetterStep(old(definition.Value()), metadata).diags)
      ensures ctx.scopes == old(ctx.scopes)
    {
      var setterKind := ParseMetadata(metadata, "setter", FieldVisitor.ParseSetterKind, Public, Public);
      ctx.RegisterErrors(setterKind.diags);
      definition.SetterKind := setterKind.value;
    }

    /** One error for each attribute of `UnsupportedAttributes` that is
        present, in that array's order; the definition is not touched. */
    method ReportUnsupportedAttributes(metadata: Attributes, ctx: ErrorContext)
      modifies ctx
      ensures ctx.errors == old(ctx.errors) + InScope(ctx.scopes, UnsupportedDiagnostics(metadata, UnsupportedAttributes))
      ensures ctx.scopes == old(ctx.scopes)
    {
      ghost var scope := ctx.scopes;
      ghost var log := ctx.errors;
      for i := 0 to |UnsupportedAttributes|
        invariant ctx.scopes == scope
        invariant ctx.errors == log + InScope(scope, UnsupportedDiagnostics(metadata, UnsupportedAttributes[..i]))
      {
        var unsupportedAttribute := UnsupportedAttributes[i];
        ghost var done := UnsupportedDiagnostics(metadata, UnsupportedAttributes[..i]);
        if unsupportedAttribute in metadata {
          ctx.RegisterError(UnsupportedAttribute(unsupportedAttribute));
          RegisteredInOrder(log, scope, done, [UnsupportedAttribute(unsupportedAttribute)]);
        }
        assert UnsupportedAttributes[..i + 1][..i] == UnsupportedAttributes[..i];
      }
      assert UnsupportedAttributes[..|UnsupportedAttributes|] == UnsupportedAttributes;
    }

    /** Reads `id`: nothing when absent, one error when it has no integer
        value, otherwise commits the index (with an error when negative). */
    method ParseIdMetadata(md: Attributes, ctx: ErrorContext)
      modifies definition, ctx
      ensures definition.Value() == IdStep(old(definition.Value()), md).field
      ensures ctx.errors == old(ctx.errors) + InScope(ctx.scopes, IdStep(old(definition.Value()), md).diags)
      ensures ctx.scopes == old(ctx.scopes)
    {
      var index := TryParseIntegerMetadata(md, "id");
      match index {
        case Absent =>
          return;
        case Invalid =>
          ctx.RegisterError(IdValueMissing);
          return;
        case Value(n) =>
          if n < 0 {
            ctx.RegisterError(NegativeId(n, definition.Name));
          }
          definition.Index := Some(n);
          definition.IsIndexSetManually := true;
      }
    }

    /** Resolves the element type and the vector representation. */
    method SetFbsFieldType(typeText: string, md: Attributes, ctx: ErrorContext)
      requires Analyzable(typeText)
      modifies definition, ctx
      ensures definition.Value() == TypeStep(old(definition.Value()), typeText, md).field
      ensures ctx.errors == old(ctx.errors) + InScope(ctx.scopes, TypeStep(old(definition.Value()), typeText, md).diags)
      ensures ctx.scopes == old(ctx.scopes)
    {
      var fbsFieldType := typeText;

      definition.VectorType := VectorType.None;

      var isVectorType := |fbsFieldType| > 0 && fbsFieldType[0] == '[';
      if isVectorType {
        fbsFieldType := GetVectorBaseType(fbsFieldType);

        definition.VectorType := IList;
        if "vectortype" !in md {
          definition.FbsFieldType := fbsFieldType;
          return;
        }
        var vectorTypeString := if md["vectortype"].Valued? then Some(md["vectortype"].text) else Option.None;

        var parsed := if vectorTypeString.Some? then TryParseVectorType(vectorTypeString.value) else Option.None;
        var vectorType := DefaultVectorType;
        if parsed.None? {
          ctx.RegisterError(InvalidVectorType(vectorTypeString));
        } else {
          vectorType := parsed.value;
        }

        definition.VectorType := vectorType;
      } else if "vectortype" in md {
        ctx.RegisterError(VectorTypeOnNonVector(definition.Name));
      }

      definition.FbsFieldType := fbsFieldType;
    }

    /** The element type of a bracketed vector type: the text without its first
        and last characters. */
    static function GetVectorBaseType(fbsFieldType: string): (r: string)
      requires |fbsFieldType| >= 2
      ensures [fbsFieldType[0]] + r + [fbsFieldType[|fbsFieldType| - 1]] == fbsFieldType
    {
      fbsFieldType[1..|fbsFieldType| - 1]
    }

    /** The `SetterKind` member named by `value` up to case. */
    static function ParseSetterKind(value: string): (r: Option<SetterKind>)
      ensures forall k :: r == Some(k) <==> SameIgnoringCase(value, SetterKindName(k))
    {
      SetterKindNamesUnique();
      var r := TryParseEnum(value, SetterKinds, SetterKindName);
      assert forall k :: SameIgnoringCase(value, SetterKindName(k)) ==> r == Some(k) by {
        forall k | SameIgnoringCase(value, SetterKindName(k)) ensures r == Some(k) {
          SetterKindsComplete(k);
          TryParseEnumFinds(value, SetterKinds, SetterKindName, k);
        }
      }
      r
    }
  }
}
