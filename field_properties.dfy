/** What the field analysis guarantees, stated about `Analyze`, the function
    that `FieldVisitor.VisitField_decl` is proved to compute. */
module FieldVisitorProperties {
  import opened Wrappers
  import opened EnumNames
  import opened Errors
  import opened Metadata
  import opened FieldDefinitions
  import opened FieldVisitors

  /** The step of the analysis that registers a diagnostic. */
  datatype Origin = TypeResolution | FlagAttribute | IdAttribute | SetterAttribute | UnsupportedCheck

  function OriginOf(d: Diagnostic): Origin
  {
    match d
    case InvalidVectorType(_) => TypeResolution
    case VectorTypeOnNonVector(_) => TypeResolution
    case InvalidMetadataValue(key, _) => if key == "setter" then SetterAttribute else FlagAttribute
    case IdValueMissing => IdAttribute
    case NegativeId(_, _) => IdAttribute
    case UnsupportedAttribute(_) => UnsupportedCheck
  }

  /** The diagnostics of `ds` that step `o` registers, in order. */
  function FromStep(ds: seq<Diagnostic>, o: Origin): seq<Diagnostic>
  {
    if ds == [] then [] else (if OriginOf(ds[0]) == o then [ds[0]] else []) + FromStep(ds[1..], o)
  }

  lemma {:induction false} FromStepAppend(a: seq<Diagnostic>, b: seq<Diagnostic>, o: Origin)
    ensures FromStep(a + b, o) == FromStep(a, o) + FromStep(b, o)
  {
    if a == [] {
      assert a + b == b;
    } else {
      assert (a + b)[0] == a[0];
      assert (a + b)[1..] == a[1..] + b;
      FromStepAppend(a[1..], b, o);
    }
  }

  lemma {:induction false} FromStepOnly(ds: seq<Diagnostic>, o: Origin, p: Origin)
    requires AllFrom(ds, o)
    ensures FromStep(ds, p) == if o == p then ds else []
  {
    if ds != [] {
      FromStepOnly(ds[1..], o, p);
    }
  }

  /** The keys the analysis reads other than the unsupported ones. */
  const RecognizedKeys: seq<string> :=
    ["vectortype", "deprecated", "key", "nonVirtual", "sortedvector", "sharedstring", "id", "setter"]

  /** Every diagnostic of `ds` is of kind `o`. */
  /** A list that no origin but `o` contributes to is its own projection on `o`. */
  lemma {:induction false} SingleOrigin(ds: seq<Diagnostic>, o: Origin)
    requires forall p :: p != o ==> FromStep(ds, p) == []
    ensures FromStep(ds, o) == ds
  {
    if ds != [] {
      assert FromStep(ds, OriginOf(ds[0]))[0] == ds[0];
      assert OriginOf(ds[0]) == o;
      forall p | p != o
        ensures FromStep(ds[1..], p) == []
      {
        assert FromStep(ds, p) == FromStep(ds[1..], p);
      }
      SingleOrigin(ds[1..], o);
    }
  }

  predicate AllFrom(ds: seq<Diagnostic>, o: Origin)
  {
    forall i :: 0 <= i < |ds| ==> OriginOf(ds[i]) == o
  }

  lemma AllFromAppend(a: seq<Diagnostic>, b: seq<Diagnostic>, o: Origin)
    requires AllFrom(a, o) && AllFrom(b, o)
    ensures AllFrom(a + b, o)
  {
  }

  lemma TypeStepOrigin(f: Field, typeText: string, md: Attributes)
    requires Analyzable(typeText)
    ensures AllFrom(TypeStep(f, typeText, md).diags, TypeResolution)
  {
  }

  lemma FlagsStepOrigin(f: Field, md: Attributes)
    ensures AllFrom(FlagsStep(f, md).diags, FlagAttribute)
  {
    var d1 := ParseBooleanMetadata(md, "deprecated").diags;
    var d2 := ParseBooleanMetadata(md, "key").diags;
    var d3 := ParseNullableBooleanMetadata(md, "nonVirtual").diags;
    var d4 := ParseBooleanMetadata(md, "sortedvector").diags;
    var d5 := ParseBooleanMetadata(md, "sharedstring").diags;
    assert AllFrom(d1, FlagAttribute) && AllFrom(d2, FlagAttribute) && AllFrom(d3, FlagAttribute);
    assert AllFrom(d4, FlagAttribute) && AllFrom(d5, FlagAttribute);
    AllFromAppend(d1, d2, FlagAttribute);
    AllFromAppend(d1 + d2, d3, FlagAttribute);
    AllFromAppend(d1 + d2 + d3, d4, FlagAttribute);
    AllFromAppend(d1 + d2 + d3 + d4, d5, FlagAttribute);
  }

  lemma IdStepOrigin(f: Field, md: Attributes)
    ensures AllFrom(IdStep(f, md).diags, IdAttribute)
  {
  }

  lemma SetterStepOrigin(f: Field, md: Attributes)
    ensures AllFrom(SetterStep(f, md).diags, SetterAttribute)
  {
  }

  /** The errors of the whole analysis that are of kind `o`. */
  lemma AnalyzeFromStep(prior: Field, decl: FieldDecl, o: Origin)
    requires Analyzable(decl.TypeText)
    ensures var md := decl.Attributes;
            var typed := TypeStep(prior.(Name := decl.Ident), decl.TypeText, md);
            var flags := FlagsStep(DefaultStep(typed.field, decl.DefaultText), md);
            var id := IdStep(flags.field, md);
            var setter := SetterStep(id.field, md);
            var unsupported := UnsupportedDiagnostics(md, UnsupportedAttributes);
            FromStep(Analyze(prior, decl).diags, o) ==
              (if o == TypeResolution then typed.diags else [])
              + (if o == FlagAttribute then flags.diags else [])
              + (if o == IdAttribute then id.diags else [])
              + (if o == SetterAttribute then setter.diags else [])
              + (if o == UnsupportedCheck then unsupported else [])
  {
    var md := decl.Attributes;
    var typed := TypeStep(prior.(Name := decl.Ident), decl.TypeText, md);
    var flags := FlagsStep(DefaultStep(typed.field, decl.DefaultText), md);
    var id := IdStep(flags.field, md);
    var setter := SetterStep(id.field, md);
    var unsupported := UnsupportedDiagnostics(md, UnsupportedAttributes);
    TypeStepOrigin(prior.(Name := decl.Ident), decl.TypeText, md);
    FlagsStepOrigin(DefaultStep(typed.field, decl.DefaultText), md);
    IdStepOrigin(flags.field, md);
    SetterStepOrigin(id.field, md);
    UnsupportedOnly(md, UnsupportedAttributes);
    AnalyzeUnfold(prior, decl, typed, flags, id, setter);
    FromStepOfSteps(typed.diags, flags.diags, id.diags, setter.diags, unsupported, o);
  }

  lemma FromStepOfSteps(t: seq<Diagnostic>, f: seq<Diagnostic>, i: seq<Diagnostic>, s: seq<Diagnostic>,
                        u: seq<Diagnostic>, o: Origin)
    requires AllFrom(t, TypeResolution) && AllFrom(f, FlagAttribute) && AllFrom(i, IdAttribute)
    requires AllFrom(s, SetterAttribute) && AllFrom(u, UnsupportedCheck)
    ensures FromStep(t + f + i + s + u, o) ==
              (if o == TypeResolution then t else []) + (if o == FlagAttribute then f else [])
              + (if o == IdAttribute then i else []) + (if o == SetterAttribute then s else [])
              + (if o == UnsupportedCheck then u else [])
  {
    FromStepAppend(t, f, o);
    FromStepAppend(t + f, i, o);
    FromStepAppend(t + f + i, s, o);
    FromStepAppend(t + f + i + s, u, o);
    FromStepOnly(t, TypeResolution, o);
    FromStepOnly(f, FlagAttribute, o);
    FromStepOnly(i, IdAttribute, o);
    FromStepOnly(s, SetterAttribute, o);
    FromStepOnly(u, UnsupportedCheck, o);
  }

  /** Each step assigns only its own properties of the definition; what it
      assigns and reports does not depend on the others (the `id` and type
      errors name the field, so they depend on `Name`). */
  lemma TypeStepFrame(f: Field, g: Field, typeText: string, md: Attributes)
    requires Analyzable(typeText)
    ensures var b := TypeStep(g, typeText, md).field;
            TypeStep(f, typeText, md).field == f.(VectorType := b.VectorType, FbsFieldType := b.FbsFieldType)
    ensures f.Name == g.Name ==> TypeStep(f, typeText, md).diags == TypeStep(g, typeText, md).diags
  {
    if IsVectorSyntax(typeText) && "vectortype" in md && md["vectortype"].Valued? {
      var parsed := TryParseVectorType(md["vectortype"].text);
      if parsed.Some? {
        assert TypeStep(f, typeText, md).field.VectorType == parsed.value;
      }
    }
  }

  lemma DefaultStepFrame(f: Field, g: Field, defaultText: Option<string>)
    ensures var b := DefaultStep(g, defaultText);
            DefaultStep(f, defaultText) ==
              f.(IsOptionalScalar := if defaultText == Some("null") then true else f.IsOptionalScalar,
                 DefaultValue := if defaultText != Some("null") && defaultText.Some? && defaultText.value != ""
                                 then defaultText else f.DefaultValue)
  {
  }

  lemma FlagsStepFrame(f: Field, g: Field, md: Attributes)
    ensures var b := FlagsStep(g, md).field;
            FlagsStep(f, md).field == f.(Deprecated := b.Deprecated, IsKey := b.IsKey, NonVirtual := b.NonVirtual,
                                         SortedVector := b.SortedVector, SharedString := b.SharedString)
    ensures FlagsStep(f, md).diags == FlagsStep(g, md).diags
  {
  }

  lemma IdStepFrame(f: Field, g: Field, md: Attributes)
    ensures var r := TryParseIntegerMetadata(md, "id");
            IdStep(f, md).field == if r.Value? then f.(Index := Some(r.n), IsIndexSetManually := true) else f
    ensures f.Name == g.Name ==> IdStep(f, md).diags == IdStep(g, md).diags
  {
  }

  lemma SetterStepFrame(f: Field, g: Field, md: Attributes)
    ensures SetterStep(f, md).field == f.(SetterKind := SetterStep(g, md).field.SetterKind)
    ensures SetterStep(f, md).diags == SetterStep(g, md).diags
  {
  }

  /** The definition after the analysis, property by property: each comes
      from the one step that assigns it, applied to the prior definition. */
  lemma AnalyzeFields(prior: Field, decl: FieldDecl)
    requires Analyzable(decl.TypeText)
    ensures var md := decl.Attributes; var a := Analyze(prior, decl).field;
            var t := TypeStep(prior, decl.TypeText, md).field;
            var d := DefaultStep(prior, decl.DefaultText);
            var fl := FlagsStep(prior, md).field;
            var i := IdStep(prior, md).field;
            var s := SetterStep(prior, md).field;
            a == Field(decl.Ident, t.FbsFieldType, t.VectorType, d.IsOptionalScalar, d.DefaultValue,
                       fl.Deprecated, fl.IsKey, fl.NonVirtual, fl.SortedVector, fl.SharedString,
                       i.Index, i.IsIndexSetManually, s.SetterKind)
  {
    var md := decl.Attributes;
    var named := prior.(Name := decl.Ident);
    var typed := TypeStep(named, decl.TypeText, md);
    var defaulted := DefaultStep(typed.field, decl.DefaultText);
    var flags := FlagsStep(defaulted, md);
    var id := IdStep(flags.field, md);
    var setter := SetterStep(id.field, md);
    AnalyzeUnfold(prior, decl, typed, flags, id, setter);
    TypeStepFrame(named, prior, decl.TypeText, md);
    TypeStepFrame(prior, prior, decl.TypeText, md);
    DefaultStepFrame(typed.field, prior, decl.DefaultText);
    DefaultStepFrame(prior, prior, decl.DefaultText);
    FlagsStepFrame(defaulted, prior, md);
    FlagsStepFrame(prior, prior, md);
    IdStepFrame(flags.field, prior, md);
    IdStepFrame(prior, prior, md);
    SetterStepFrame(id.field, prior, md);
    SetterStepFrame(prior, prior, md);
  }

  lemma DiagnosticsByStep(prior: Field, decl: FieldDecl)
    requires Analyzable(decl.TypeText)
    ensures var md := decl.Attributes;
            var typed := TypeStep(prior.(Name := decl.Ident), decl.TypeText, md);
            var flags := FlagsStep(DefaultStep(typed.field, decl.DefaultText), md);
            var id := IdStep(flags.field, md);
            var setter := SetterStep(id.field, md);
            var a := Analyze(prior, decl);
            && FromStep(a.diags, TypeResolution) == typed.diags
            && FromStep(a.diags, FlagAttribute) == flags.diags
            && FromStep(a.diags, IdAttribute) == id.diags
            && FromStep(a.diags, SetterAttribute) == setter.diags
            && FromStep(a.diags, UnsupportedCheck) == UnsupportedDiagnostics(md, UnsupportedAttributes)
  {
    AnalyzeFromStep(prior, decl, TypeResolution);
    AnalyzeFromStep(prior, decl, FlagAttribute);
    AnalyzeFromStep(prior, decl, IdAttribute);
    AnalyzeFromStep(prior, decl, SetterAttribute);
    AnalyzeFromStep(prior, decl, UnsupportedCheck);
  }

  /** The errors of the analysis, step by step: those of each kind are
      exactly what that step reports, in the same order. */
  lemma AnalyzeDiagnostics(prior: Field, decl: FieldDecl)
    requires Analyzable(decl.TypeText)
    ensures var md := decl.Attributes; var a := Analyze(prior, decl).diags;
            var named := prior.(Name := decl.Ident);
            && FromStep(a, TypeResolution) == TypeStep(named, decl.TypeText, md).diags
            && FromStep(a, FlagAttribute) == FlagsStep(prior, md).diags
            && FromStep(a, IdAttribute) == IdStep(named, md).diags
            && FromStep(a, SetterAttribute) == SetterStep(prior, md).diags
            && FromStep(a, UnsupportedCheck) == UnsupportedDiagnostics(md, UnsupportedAttributes)
  {
    var md := decl.Attributes;
    var named := prior.(Name := decl.Ident);
    var typed := TypeStep(named, decl.TypeText, md);
    var defaulted := DefaultStep(typed.field, decl.DefaultText);
    var flags := FlagsStep(defaulted, md);
    var id := IdStep(flags.field, md);
    DiagnosticsByStep(prior, decl);
    TypeStepFrame(named, named, decl.TypeText, md);
    DefaultStepFrame(typed.field, prior, decl.DefaultText);
    FlagsStepFrame(defaulted, prior, md);
    IdStepFrame(flags.field, named, md);
    SetterStepFrame(id.field, prior, md);
  }

  lemma {:induction false} UnsupportedOnly(md: Attributes, keys: seq<string>)
    ensures forall i :: 0 <= i < |UnsupportedDiagnostics(md, keys)| ==>
      UnsupportedDiagnostics(md, keys)[i].UnsupportedAttribute?
      && UnsupportedDiagnostics(md, keys)[i].attribute in keys
      && UnsupportedDiagnostics(md, keys)[i].attribute in md
  {
    if keys != [] {
      UnsupportedOnly(md, keys[..|keys| - 1]);
    }
  }
}
