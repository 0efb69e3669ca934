/** The `id` attribute after the analysis. */
module IdProperties {
  import opened Wrappers
  import opened Errors
  import opened Metadata
  import opened FieldDefinitions
  import opened FieldVisitors
  import opened FieldVisitorProperties

  /** The attribute carries a 32-bit integer value. */
  predicate IdParses(md: Attributes)
  {
    "id" in md && md["id"].Valued? && ParseInt32(md["id"].text).Some?
  }

  /** The three outcomes: absent changes nothing and reports nothing; present
      without an integer reports one error and changes nothing; an integer is
      committed as the index, set manually, and a negative one is reported
      once but committed all the same. */
  lemma IdResolution(prior: Field, decl: FieldDecl)
    requires Analyzable(decl.TypeText)
    ensures var a := Analyze(prior, decl); var md := decl.Attributes;
            && ("id" !in md ==>
                  a.field.Index == prior.Index && a.field.IsIndexSetManually == prior.IsIndexSetManually
                  && FromStep(a.diags, IdAttribute) == [])
            && ("id" in md && !IdParses(md) ==>
                  a.field.Index == prior.Index && a.field.IsIndexSetManually == prior.IsIndexSetManually
                  && FromStep(a.diags, IdAttribute) == [IdValueMissing])
            && (IdParses(md) ==>
                  var n := ParseInt32(md["id"].text).value;
                  a.field.Index == Some(n) && a.field.IsIndexSetManually
                  && FromStep(a.diags, IdAttribute) == if n < 0 then [NegativeId(n, decl.Ident)] else [])
  {
    AnalyzeFields(prior, decl);
    AnalyzeDiagnostics(prior, decl);
  }

  /** On a fresh definition an index is present, and marked as set manually,
      exactly when the attribute carries an integer. */
  lemma FreshIdResolution(decl: FieldDecl)
    requires Analyzable(decl.TypeText)
    ensures var a := Analyze(InitialField, decl).field;
            && (a.IsIndexSetManually <==> IdParses(decl.Attributes))
            && (a.Index.Some? <==> IdParses(decl.Attributes))
  {
    IdResolution(InitialField, decl);
  }

  /** The index written as `int.ToString()` writes it is read back exactly. */
  lemma IdRoundTrip(prior: Field, decl: FieldDecl, n: int)
    requires Analyzable(decl.TypeText)
    requires Int32Min <= n <= Int32Max
    requires "id" in decl.Attributes && decl.Attributes["id"] == Valued(Int32Text(n))
    ensures Analyze(prior, decl).field.Index == Some(n)
    ensures Analyze(prior, decl).field.IsIndexSetManually
  {
    ParseInt32RoundTrip(n);
    IdResolution(prior, decl);
  }

  /** `id: "-3"` commits the index -3 and reports it once, naming the field. */
  lemma NegativeIdCommitted(prior: Field, decl: FieldDecl)
    requires Analyzable(decl.TypeText)
    requires "id" in decl.Attributes && decl.Attributes["id"] == Valued("-3")
    ensures Analyze(prior, decl).field.Index == Some(-3)
    ensures Analyze(prior, decl).field.IsIndexSetManually
    ensures FromStep(Analyze(prior, decl).diags, IdAttribute) == [NegativeId(-3, decl.Ident)]
  {
    assert Int32Text(-3) == "-3";
    ParseInt32RoundTrip(-3);
    IdResolution(prior, decl);
  }
}
