/** When the analysis of a declaration reports nothing. */
module WellFormedProperties {
  import opened Wrappers
  import opened EnumNames
  import opened Errors
  import opened Metadata
  import opened FieldDefinitions
  import opened FieldVisitors
  import opened FieldVisitorProperties
  import opened TypeResolutionProperties
  import opened FlagProperties
  import opened IdProperties
  import opened SetterProperties
  import opened UnsupportedAttributeProperties

  /** A declaration every rule accepts: `vectortype` only on a vector and
      naming a member, readable flags, a non-negative integer `id` if any, a
      `setter` value naming a member, and none of the unsupported attributes. */
  predicate WellFormed(decl: FieldDecl)
  {
    var md := decl.Attributes;
    && (if IsVectorSyntax(decl.TypeText)
        then "vectortype" in md ==>
               md["vectortype"].Valued? && exists v :: SameIgnoringCase(md["vectortype"].text, VectorTypeName(v))
        else "vectortype" !in md)
    && FlagError(md, "deprecated") == [] && FlagError(md, "key") == [] && FlagError(md, "nonVirtual") == []
    && FlagError(md, "sortedvector") == [] && FlagError(md, "sharedstring") == []
    && ("id" in md ==> IdParses(md) && ParseInt32(md["id"].text).value >= 0)
    && ("setter" in md && md["setter"].Valued? ==> exists k :: SameIgnoringCase(md["setter"].text, SetterKindName(k)))
    && (forall k :: k in UnsupportedAttributes ==> k !in md)
  }

  lemma FromStepEmpty(ds: seq<Diagnostic>)
    ensures ds == [] <==> forall o :: FromStep(ds, o) == []
  {
    if ds != [] {
      assert FromStep(ds, OriginOf(ds[0])) != [];
    }
  }

  /** The analysis reports no error exactly for a well-formed declaration. */
  lemma NoDiagnosticsIffWellFormed(prior: Field, decl: FieldDecl)
    requires Analyzable(decl.TypeText)
    ensures Analyze(prior, decl).diags == [] <==> WellFormed(decl)
  {
    var a := Analyze(prior, decl);
    var md := decl.Attributes;
    FromStepEmpty(a.diags);
    assert (forall o :: FromStep(a.diags, o) == []) <==>
             && FromStep(a.diags, TypeResolution) == [] && FromStep(a.diags, FlagAttribute) == []
             && FromStep(a.diags, IdAttribute) == [] && FromStep(a.diags, SetterAttribute) == []
             && FromStep(a.diags, UnsupportedCheck) == [];
    TypeWellFormed(prior, decl);
    FlagResolution(prior, decl);
    IdResolution(prior, decl);
    SetterWellFormed(prior, decl);
    UnsupportedWellFormed(prior, decl);
  }

  lemma TypeWellFormed(prior: Field, decl: FieldDecl)
    requires Analyzable(decl.TypeText)
    ensures var md := decl.Attributes;
            FromStep(Analyze(prior, decl).diags, TypeResolution) == [] <==>
              if IsVectorSyntax(decl.TypeText)
              then "vectortype" in md ==>
                     md["vectortype"].Valued? && exists v :: SameIgnoringCase(md["vectortype"].text, VectorTypeName(v))
              else "vectortype" !in md
  {
    var md := decl.Attributes;
    if !IsVectorSyntax(decl.TypeText) {
      ScalarField(prior, decl);
    } else if "vectortype" !in md {
      VectorWithoutVectorType(prior, decl);
    } else {
      VectorWithVectorType(prior, decl);
    }
  }

  lemma SetterWellFormed(prior: Field, decl: FieldDecl)
    requires Analyzable(decl.TypeText)
    ensures var md := decl.Attributes;
            FromStep(Analyze(prior, decl).diags, SetterAttribute) == [] <==>
              ("setter" in md && md["setter"].Valued? ==> exists k :: SameIgnoringCase(md["setter"].text, SetterKindName(k)))
  {
    SetterResolution(prior, decl);
  }

  lemma UnsupportedWellFormed(prior: Field, decl: FieldDecl)
    requires Analyzable(decl.TypeText)
    ensures FromStep(Analyze(prior, decl).diags, UnsupportedCheck) == [] <==>
              forall k :: k in UnsupportedAttributes ==> k !in decl.Attributes
  {
    var ds := FromStep(Analyze(prior, decl).diags, UnsupportedCheck);
    UnsupportedAttributesRejected(prior, decl);
    if ds == [] {
      forall k | k in UnsupportedAttributes ensures k !in decl.Attributes {
        assert multiset(ds)[UnsupportedAttribute(k)] == 0;
      }
    } else {
      assert ds[0] in multiset(ds);
      assert multiset(ds)[UnsupportedAttribute(ds[0].attribute)] > 0;
    }
  }

  /** A declaration whose only attribute is `vectortype` is reported only by type resolution. */
  lemma OnlyTypeDiagnostics(prior: Field, decl: FieldDecl)
    requires Analyzable(decl.TypeText)
    requires forall k :: k in decl.Attributes ==> k == "vectortype"
    ensures Analyze(prior, decl).diags == TypeStep(prior.(Name := decl.Ident), decl.TypeText, decl.Attributes).diags
    ensures Analyze(prior, decl).diags == FromStep(Analyze(prior, decl).diags, TypeResolution)
  {
    var md := decl.Attributes;
    assert UnsupportedDiagnostics(md, UnsupportedAttributes) == [] by {
      UnsupportedAbsent(md, UnsupportedAttributes);
    }
    assert "id" !in md;
    assert FlagsStep(prior, md).diags == [];
    assert SetterStep(prior, md).diags == [];
    AnalyzeDiagnostics(prior, decl);
    var a := Analyze(prior, decl).diags;
    assert forall p :: p != TypeResolution ==> FromStep(a, p) == [];
    SingleOrigin(a, TypeResolution);
  }

  /** A declaration whose only attribute is `id` is reported only by the `id` step. */
  lemma OnlyIdDiagnostics(prior: Field, decl: FieldDecl)
    requires Analyzable(decl.TypeText)
    requires forall k :: k in decl.Attributes ==> k == "id"
    ensures Analyze(prior, decl).diags == IdStep(prior.(Name := decl.Ident), decl.Attributes).diags
    ensures Analyze(prior, decl).diags == FromStep(Analyze(prior, decl).diags, IdAttribute)
  {
    var md := decl.Attributes;
    assert UnsupportedDiagnostics(md, UnsupportedAttributes) == [] by {
      UnsupportedAbsent(md, UnsupportedAttributes);
    }
    assert "vectortype" !in md;
    assert TypeStep(prior.(Name := decl.Ident), decl.TypeText, md).diags == [];
    assert FlagsStep(prior, md).diags == [];
    assert SetterStep(prior, md).diags == [];
    AnalyzeDiagnostics(prior, decl);
    var a := Analyze(prior, decl).diags;
    assert forall p :: p != IdAttribute ==> FromStep(a, p) == [];
    SingleOrigin(a, IdAttribute);
  }
}
