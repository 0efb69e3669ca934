/** Default value and optional-scalar marking after the analysis. */
module DefaultValueProperties {
  import opened Wrappers
  import opened FieldDefinitions
  import opened FieldVisitors
  import opened FieldVisitorProperties

  /** `null` marks an optional scalar, other non-empty text becomes the
      default verbatim, and absent or empty text assigns neither; whatever is
      not assigned keeps its earlier value. */
  lemma DefaultResolution(prior: Field, decl: FieldDecl)
    requires Analyzable(decl.TypeText)
    ensures var a := Analyze(prior, decl).field; var d := decl.DefaultText;
            && (d == Some("null") ==> a.IsOptionalScalar && a.DefaultValue == prior.DefaultValue)
            && (d.Some? && d.value != "null" && d.value != "" ==>
                  a.DefaultValue == d && a.IsOptionalScalar == prior.IsOptionalScalar)
            && (d == Option.None || d == Some("") ==>
                  a.IsOptionalScalar == prior.IsOptionalScalar && a.DefaultValue == prior.DefaultValue)
  {
    AnalyzeFields(prior, decl);
  }

  /** On a fresh definition the two are exclusive: a field is an optional
      scalar exactly when its default is `null`, and has a default exactly
      when its default text is anything else that is not empty. */
  lemma FreshDefaultResolution(decl: FieldDecl)
    requires Analyzable(decl.TypeText)
    ensures var a := Analyze(InitialField, decl).field; var d := decl.DefaultText;
            && (a.IsOptionalScalar <==> d == Some("null"))
            && (a.DefaultValue.Some? <==> d.Some? && d.value != "null" && d.value != "")
            && (a.DefaultValue.Some? ==> a.DefaultValue == d)
            && !(a.IsOptionalScalar && a.DefaultValue.Some?)
  {
    DefaultResolution(InitialField, decl);
  }

  /** The exclusivity is not a property of the definition: a visitor that
      analyses a second declaration keeps the default of the first, so a
      `7` followed by a `null` leaves both set. */
  lemma ReusedDefinitionKeepsDefault(first: FieldDecl, second: FieldDecl)
    requires Analyzable(first.TypeText) && Analyzable(second.TypeText)
    requires first.DefaultText == Some("7") && second.DefaultText == Some("null")
    ensures var a := Analyze(Analyze(InitialField, first).field, second).field;
            a.IsOptionalScalar && a.DefaultValue == Some("7")
  {
    FreshDefaultResolution(first);
    DefaultResolution(Analyze(InitialField, first).field, second);
  }
}
