/** The boolean flag attributes after the analysis. */
module FlagProperties {
  import opened Wrappers
  import opened EnumNames
  import opened Errors
  import opened Metadata
  import opened FieldDefinitions
  import opened FieldVisitors
  import opened FieldVisitorProperties

  /** A flag attribute is set when present without a value or with `true`
      in any case. */
  predicate FlagSet(md: Attributes, key: string)
  {
    key in md && (md[key].Flag? || SameIgnoringCase(md[key].text, "true"))
  }

  /** The error a flag attribute produces: one when its value is neither
      `true` nor `false`. */
  function FlagError(md: Attributes, key: string): seq<Diagnostic>
  {
    if key in md && md[key].Valued? && !SameIgnoringCase(md[key].text, "true") && !SameIgnoringCase(md[key].text, "false")
    then [InvalidMetadataValue(key, md[key].text)]
    else []
  }

  /** The five flags as the attributes give them, and their errors in the
      order the attributes are read; `nonVirtual` stays unset when absent
      or unreadable. */
  lemma FlagResolution(prior: Field, decl: FieldDecl)
    requires Analyzable(decl.TypeText)
    ensures var a := Analyze(prior, decl); var md := decl.Attributes;
            && (a.field.Deprecated <==> FlagSet(md, "deprecated"))
            && (a.field.IsKey <==> FlagSet(md, "key"))
            && (a.field.SortedVector <==> FlagSet(md, "sortedvector"))
            && (a.field.SharedString <==> FlagSet(md, "sharedstring"))
            && (a.field.NonVirtual == Some(true) <==> FlagSet(md, "nonVirtual"))
            && (a.field.NonVirtual == Some(false) <==>
                  "nonVirtual" in md && md["nonVirtual"].Valued? && SameIgnoringCase(md["nonVirtual"].text, "false"))
            && FromStep(a.diags, FlagAttribute) ==
                 FlagError(md, "deprecated") + FlagError(md, "key") + FlagError(md, "nonVirtual")
                 + FlagError(md, "sortedvector") + FlagError(md, "sharedstring")
  {
    AnalyzeFields(prior, decl);
    AnalyzeDiagnostics(prior, decl);
    var md := decl.Attributes;
    FlagErrorOfParse(md, "deprecated");
    FlagErrorOfParse(md, "key");
    FlagErrorOfParse(md, "sortedvector");
    FlagErrorOfParse(md, "sharedstring");
    var nonVirtual := ParseNullableBooleanMetadata(md, "nonVirtual");
    if nonVirtual.diags != [] {
      assert ParseBool(md["nonVirtual"].text).None?;
    }
  }

  lemma FlagErrorOfParse(md: Attributes, key: string)
    ensures ParseBooleanMetadata(md, key).diags == FlagError(md, key)
  {
    if key in md && md[key].Valued? {
      var b := ParseBool(md[key].text);
    }
  }
}
