/** Single declarations analysed by a fresh visitor, as the table and struct
    visitors use it: one visitor per field. */
module FieldScenarios {
  import opened Wrappers
  import opened EnumNames
  import opened Errors
  import opened Metadata
  import opened FieldDefinitions
  import opened FieldVisitors
  import opened FieldVisitorProperties
  import opened TypeResolutionProperties
  import opened DefaultValueProperties
  import opened FlagProperties
  import opened IdProperties
  import opened UnsupportedAttributeProperties
  import opened WellFormedProperties

  /** Analyses one declaration with a new visitor and a new error context:
      the definition and the errors are those of `Analyze` on a fresh
      definition, every error is scoped to the field's name, and no scope
      is left open. */
  method AnalyzeDeclaration(decl: FieldDecl) returns (field: Field, errors: seq<ErrorEntry>, scopes: seq<string>)
    requires Analyzable(decl.TypeText)
    ensures field == Analyze(InitialField, decl).field
    ensures field.Name == decl.Ident
    ensures errors == InScope([decl.Ident], Analyze(InitialField, decl).diags)
    ensures scopes == []
  {
    ghost var a := Analyze(InitialField, decl);
    var visitor := new FieldVisitor();
    var ctx := new ErrorContext();
    var definition := visitor.VisitField_decl(decl, ctx);
    field := definition.Value();
    errors := ctx.errors;
    scopes := ctx.scopes;
    assert errors == [] + InScope([] + [decl.Ident], a.diags);
    assert [] + [decl.Ident] == [decl.Ident];
    assert [] + InScope([decl.Ident], a.diags) == InScope([decl.Ident], a.diags);
    AnalyzedName(InitialField, decl);
  }

  lemma AnalyzedName(prior: Field, decl: FieldDecl)
    requires Analyzable(decl.TypeText)
    ensures Analyze(prior, decl).field.Name == decl.Ident
  {
    AnalyzeFields(prior, decl);
  }

  function Decl(typeText: string, defaultText: Option<string>, md: Attributes): FieldDecl
  {
    FieldDecl("f", typeText, defaultText, md)
  }

  /** `id: "5"` on a fresh definition. */
  lemma IdFive()
    ensures var a := Analyze(InitialField, Decl("int", Option.None, map["id" := Valued("5")]));
            a.field.Index == Some(5) && a.field.IsIndexSetManually && FromStep(a.diags, IdAttribute) == []
  {
    assert Int32Text(5) == "5";
    IdRoundTrip(InitialField, Decl("int", Option.None, map["id" := Valued("5")]), 5);
    IdResolution(InitialField, Decl("int", Option.None, map["id" := Valued("5")]));
  }

  /** `id: "abc"` on a fresh definition: no index and one error. */
  lemma IdNotANumber()
    ensures var a := Analyze(InitialField, Decl("int", Option.None, map["id" := Valued("abc")]));
            a.field.Index == Option.None && !a.field.IsIndexSetManually
            && a.diags == [IdValueMissing]
  {
    var decl := Decl("int", Option.None, map["id" := Valued("abc")]);
    assert !IsDigit('a');
    assert ParseInt32("abc") == Option.None;
    IdResolution(InitialField, decl);
    OnlyIdDiagnostics(InitialField, decl);
  }

  /** `[int]` without `vectortype`: a list of `int`. */
  lemma IntVector()
    ensures var a := Analyze(InitialField, Decl("[int]", Option.None, map[]));
            a.field.FbsFieldType == "int" && a.field.VectorType == IList && a.diags == []
  {
    var decl := Decl("[int]", Option.None, map[]);
    BracketedElementType(InitialField, decl, "int");
    VectorWithoutVectorType(InitialField, decl);
    NoDiagnosticsIffWellFormed(InitialField, decl);
  }

  /** `[int]` with `vectortype: "badvalue"`: one error naming the value, the
      representation `None`, the element type still `int`. */
  lemma IntVectorWithBadVectorType()
    ensures var a := Analyze(InitialField, Decl("[int]", Option.None, map["vectortype" := Valued("badvalue")]));
            && a.field.FbsFieldType == "int" && a.field.VectorType == VectorType.None
            && a.diags == [InvalidVectorType(Some("badvalue"))]
  {
    forall v ensures !SameIgnoringCase("badvalue", VectorTypeName(v)) {
      DifferentIgnoringCase("badvalue", VectorTypeName(v));
    }
    var decl := Decl("[int]", Option.None, map["vectortype" := Valued("badvalue")]);
    var a := Analyze(InitialField, decl);
    assert a.field.FbsFieldType == "int" by {
      BracketedElementType(InitialField, decl, "int");
    }
    assert a.field.VectorType == VectorType.None
           && FromStep(a.diags, TypeResolution) == [InvalidVectorType(Some("badvalue"))] by {
      VectorWithVectorType(InitialField, decl);
    }
    assert a.diags == FromStep(a.diags, TypeResolution) by {
      OnlyTypeDiagnostics(InitialField, decl);
    }
  }

  /** `int` with a `vectortype`: one error, the type kept, no representation. */
  lemma ScalarWithVectorType()
    ensures var a := Analyze(InitialField, Decl("int", Option.None, map["vectortype" := Valued("anything")]));
            && a.field.FbsFieldType == "int" && a.field.VectorType == VectorType.None
            && a.diags == [VectorTypeOnNonVector("f")]
  {
    var decl := Decl("int", Option.None, map["vectortype" := Valued("anything")]);
    ScalarField(InitialField, decl);
    OnlyTypeDiagnostics(InitialField, decl);
  }

  /** Default `null` and default `7` on fresh definitions. */
  lemma NullAndSevenDefaults()
    ensures var a := Analyze(InitialField, Decl("int", Some("null"), map[])).field;
            a.IsOptionalScalar && a.DefaultValue == Option.None
    ensures var a := Analyze(InitialField, Decl("int", Some("7"), map[])).field;
            !a.IsOptionalScalar && a.DefaultValue == Some("7")
  {
    FreshDefaultResolution(Decl("int", Some("null"), map[]));
    FreshDefaultResolution(Decl("int", Some("7"), map[]));
  }

  /** `required` next to `key`: exactly one unsupported-attribute error,
      and the definition as without it, with the key flag set. */
  lemma RequiredNextToKey()
    ensures var a := Analyze(InitialField, Decl("int", Option.None, map["key" := Flag, "required" := Flag]));
            && FromStep(a.diags, UnsupportedCheck) == [UnsupportedAttribute("required")]
            && a.field == Analyze(InitialField, Decl("int", Option.None, map["key" := Flag])).field
            && a.field.IsKey
  {
    var md: Attributes := map["key" := Flag];
    var decl := Decl("int", Option.None, md);
    var md' := md["required" := Flag];
    assert md' == map["key" := Flag, "required" := Flag];
    RequiredReported(md');
    UnsupportedAttributeLeavesDefinition(InitialField, decl, "required", Flag);
    FlagResolution(InitialField, decl);
  }

  lemma RequiredReported(md: Attributes)
    requires md == map["key" := Flag, "required" := Flag]
    ensures FromStep(Analyze(InitialField, Decl("int", Option.None, md)).diags, UnsupportedCheck) ==
              [UnsupportedAttribute("required")]
  {
    AnalyzeDiagnostics(InitialField, Decl("int", Option.None, md));
    UnsupportedSingle(md, UnsupportedAttributes, "required");
  }
}
