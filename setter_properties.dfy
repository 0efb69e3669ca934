/** The `setter` attribute after the analysis. */
module SetterProperties {
  import opened Wrappers
  import opened EnumNames
  import opened Errors
  import opened Metadata
  import opened FieldDefinitions
  import opened FieldVisitors
  import opened FieldVisitorProperties

  /** Absent or present without a value gives `Public`; a value naming a
      member up to case gives that member; any other value gives `Public`
      and one error. */
  lemma SetterResolution(prior: Field, decl: FieldDecl)
    requires Analyzable(decl.TypeText)
    ensures var a := Analyze(prior, decl); var md := decl.Attributes;
            && ("setter" !in md || md["setter"].Flag? ==>
                  a.field.SetterKind == Public && FromStep(a.diags, SetterAttribute) == [])
            && (forall k :: "setter" in md && md["setter"].Valued? && SameIgnoringCase(md["setter"].text, SetterKindName(k)) ==>
                  a.field.SetterKind == k && FromStep(a.diags, SetterAttribute) == [])
            && ("setter" in md && md["setter"].Valued? && (forall k :: !SameIgnoringCase(md["setter"].text, SetterKindName(k))) ==>
                  a.field.SetterKind == Public
                  && FromStep(a.diags, SetterAttribute) == [InvalidMetadataValue("setter", md["setter"].text)])
  {
    AnalyzeFields(prior, decl);
    AnalyzeDiagnostics(prior, decl);
    var md := decl.Attributes;
    if "setter" in md && md["setter"].Valued? {
      var r := FieldVisitor.ParseSetterKind(md["setter"].text);
      assert r.Some? ==> SameIgnoringCase(md["setter"].text, SetterKindName(r.value));
    }
  }

  /** `setter: "private"` selects `Private` without error. */
  lemma LowerCaseSetter(prior: Field, decl: FieldDecl)
    requires Analyzable(decl.TypeText)
    requires "setter" in decl.Attributes && decl.Attributes["setter"] == Valued("private")
    ensures Analyze(prior, decl).field.SetterKind == Private
    ensures FromStep(Analyze(prior, decl).diags, SetterAttribute) == []
  {
    assert Lower("private") == Lower("Private");
    SetterResolution(prior, decl);
  }
}
