/** Element type and vector representation after the analysis. */
module TypeResolutionProperties {
  import opened Wrappers
  import opened EnumNames
  import opened Errors
  import opened Metadata
  import opened FieldDefinitions
  import opened FieldVisitors
  import opened FieldVisitorProperties

  /** A vector without `vectortype`: the element type is the declared text
      with its outer characters removed, the representation is `IList`, and
      type resolution reports nothing. */
  lemma VectorWithoutVectorType(prior: Field, decl: FieldDecl)
    requires Analyzable(decl.TypeText) && IsVectorSyntax(decl.TypeText)
    requires "vectortype" !in decl.Attributes
    ensures var a := Analyze(prior, decl); var t := decl.TypeText;
            && [t[0]] + a.field.FbsFieldType + [t[|t| - 1]] == t
            && a.field.VectorType == IList
            && FromStep(a.diags, TypeResolution) == []
  {
    AnalyzeFields(prior, decl);
    AnalyzeDiagnostics(prior, decl);
  }

  /** `[T]` declares a vector of `T`. */
  lemma BracketedElementType(prior: Field, decl: FieldDecl, element: string)
    requires decl.TypeText == "[" + element + "]"
    ensures Analyze(prior, decl).field.FbsFieldType == element
  {
    var t := decl.TypeText;
    assert t[1..|t| - 1] == element;
    assert IsVectorSyntax(t);
    ElementType(prior, decl);
  }

  /** For a vector, the element type is the declared text without its first
      and last characters, whatever `vectortype` says. */
  lemma ElementType(prior: Field, decl: FieldDecl)
    requires Analyzable(decl.TypeText) && IsVectorSyntax(decl.TypeText)
    ensures Analyze(prior, decl).field.FbsFieldType == decl.TypeText[1..|decl.TypeText| - 1]
  {
    AnalyzeFields(prior, decl);
    TypeStepElement(prior, decl.TypeText, decl.Attributes);
  }

  lemma TypeStepElement(f: Field, typeText: string, md: Attributes)
    requires Analyzable(typeText) && IsVectorSyntax(typeText)
    ensures TypeStep(f, typeText, md).field.FbsFieldType == typeText[1..|typeText| - 1]
  {
    if "vectortype" in md && md["vectortype"].Valued? {
      var parsed := TryParseVectorType(md["vectortype"].text);
    }
  }

  /** A non-vector keeps its declared type and the `None` representation; a
      `vectortype` attribute on it gives exactly one error, naming the field. */
  lemma ScalarField(prior: Field, decl: FieldDecl)
    requires Analyzable(decl.TypeText) && !IsVectorSyntax(decl.TypeText)
    ensures var a := Analyze(prior, decl);
            && a.field.FbsFieldType == decl.TypeText
            && a.field.VectorType == VectorType.None
            && FromStep(a.diags, TypeResolution) ==
                 if "vectortype" in decl.Attributes then [VectorTypeOnNonVector(decl.Ident)] else []
  {
    AnalyzeFields(prior, decl);
    AnalyzeDiagnostics(prior, decl);
  }

  /** A vector with a `vectortype` attribute: a value naming a member up to
      case selects it without error; any other value, or none, gives one error
      and leaves the zero member `None`. The element type is stripped either way. */
  lemma VectorWithVectorType(prior: Field, decl: FieldDecl)
    requires Analyzable(decl.TypeText) && IsVectorSyntax(decl.TypeText)
    requires "vectortype" in decl.Attributes
    ensures var a := Analyze(prior, decl); var t := decl.TypeText; var attr := decl.Attributes["vectortype"];
            && [t[0]] + a.field.FbsFieldType + [t[|t| - 1]] == t
            && (forall v :: attr.Valued? && SameIgnoringCase(attr.text, VectorTypeName(v)) ==>
                  a.field.VectorType == v && FromStep(a.diags, TypeResolution) == [])
            && (attr.Flag? ==>
                  a.field.VectorType == VectorType.None
                  && FromStep(a.diags, TypeResolution) == [InvalidVectorType(Option.None)])
            && (attr.Valued? && (forall v :: !SameIgnoringCase(attr.text, VectorTypeName(v))) ==>
                  a.field.VectorType == VectorType.None
                  && FromStep(a.diags, TypeResolution) == [InvalidVectorType(Some(attr.text))])
  {
    AnalyzeFields(prior, decl);
    AnalyzeDiagnostics(prior, decl);
    var attr := decl.Attributes["vectortype"];
    if attr.Valued? {
      var r := TryParseVectorType(attr.text);
      assert r.Some? ==> SameIgnoringCase(attr.text, VectorTypeName(r.value));
    }
  }

  /** The code's form of "the representation is not `None` exactly for
      vectors": `None` results for a non-vector, for a vector whose
      `vectortype` is rejected, and for a vector whose `vectortype` names
      `None`; in no other case. */
  lemma NoneRepresentation(prior: Field, decl: FieldDecl)
    requires Analyzable(decl.TypeText)
    ensures var a := Analyze(prior, decl); var md := decl.Attributes;
            a.field.VectorType == VectorType.None <==>
              || !IsVectorSyntax(decl.TypeText)
              || FromStep(a.diags, TypeResolution) != []
              || ("vectortype" in md && md["vectortype"].Valued? && SameIgnoringCase(md["vectortype"].text, "None"))
  {
    var md := decl.Attributes;
    if !IsVectorSyntax(decl.TypeText) {
      ScalarField(prior, decl);
    } else if "vectortype" !in md {
      VectorWithoutVectorType(prior, decl);
    } else {
      VectorWithVectorType(prior, decl);
      if md["vectortype"].Valued? {
        var r := TryParseVectorType(md["vectortype"].text);
        if r.Some? {
          assert SameIgnoringCase(md["vectortype"].text, VectorTypeName(r.value));
        }
      }
    }
  }
}
