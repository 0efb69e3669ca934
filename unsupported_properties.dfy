/** Rejection of the FlatBuffers attributes FlatSharp does not support, and
    which attributes the analysis reads at all. */
module UnsupportedAttributeProperties {
  import opened Wrappers
  import opened Errors
  import opened Metadata
  import opened FieldDefinitions
  import opened FieldVisitors
  import opened FieldVisitorProperties

  /** Position of `k` in `keys`. */
  function IndexOf(keys: seq<string>, k: string): (r: nat)
    requires k in keys
    ensures r < |keys| && keys[r] == k
    ensures forall j :: 0 <= j < r ==> keys[j] != k
  {
    if keys[0] == k then 0 else 1 + IndexOf(keys[1..], k)
  }

  predicate Distinct(keys: seq<string>)
  {
    forall i, j :: 0 <= i < j < |keys| ==> keys[i] != keys[j]
  }

  /** Over distinct keys: one error for each key present in the map, none
      for the others. */
  lemma {:induction false} UnsupportedCount(md: Attributes, keys: seq<string>, k: string)
    requires Distinct(keys)
    ensures multiset(UnsupportedDiagnostics(md, keys))[UnsupportedAttribute(k)] == if k in keys && k in md then 1 else 0
  {
    if keys != [] {
      var init := keys[..|keys| - 1];
      var last := keys[|keys| - 1];
      UnsupportedCount(md, init, k);
      assert last !in init;
      assert k in keys <==> k in init || k == last;
    }
  }

  /** The errors name keys of `keys`, in the order of `keys`. */
  predicate InKeyOrder(ds: seq<Diagnostic>, keys: seq<string>)
  {
    && (forall i :: 0 <= i < |ds| ==> ds[i].UnsupportedAttribute? && ds[i].attribute in keys)
    && (forall i, j :: 0 <= i < j < |ds| ==> IndexOf(keys, ds[i].attribute) < IndexOf(keys, ds[j].attribute))
  }

  /** Over distinct keys: the errors follow the order of the keys. */
  lemma {:induction false} UnsupportedOrder(md: Attributes, keys: seq<string>)
    requires Distinct(keys)
    ensures InKeyOrder(UnsupportedDiagnostics(md, keys), keys)
  {
    var ds := UnsupportedDiagnostics(md, keys);
    UnsupportedOnly(md, keys);
    if keys != [] {
      var init := keys[..|keys| - 1];
      var last := keys[|keys| - 1];
      var rest := UnsupportedDiagnostics(md, init);
      UnsupportedOrder(md, init);
      UnsupportedOnly(md, init);
      assert last !in init;
      assert init + [last] == keys;
      assert ds == rest + (if last in md then [UnsupportedAttribute(last)] else []);
      forall i, j | 0 <= i < j < |ds|
        ensures IndexOf(keys, ds[i].attribute) < IndexOf(keys, ds[j].attribute)
      {
        assert ds[i] == rest[i] && ds[i].attribute in init;
        IndexOfPrefix(init, last, ds[i].attribute);
        if j < |rest| {
          assert ds[j] == rest[j];
          IndexOfPrefix(init, last, ds[j].attribute);
        } else {
          assert ds[j] == UnsupportedAttribute(last);
          LastIndex(init, last, ds[i].attribute);
        }
      }
    }
  }

  lemma IndexOfPrefix(init: seq<string>, last: string, k: string)
    requires k in init
    ensures IndexOf(init + [last], k) == IndexOf(init, k)
  {
    var keys := init + [last];
    var i := IndexOf(init, k);
    assert keys[i] == k;
    assert forall t :: 0 <= t < |init| ==> keys[t] == init[t];
  }

  lemma LastIndex(init: seq<string>, last: string, k: string)
    requires k in init && last !in init
    ensures IndexOf(init + [last], k) < IndexOf(init + [last], last)
  {
    var keys := init + [last];
    IndexOfPrefix(init, last, k);
    assert keys[|init|] == last;
    assert forall t :: 0 <= t < |init| ==> keys[t] == init[t];
  }

  /** The six rejected attributes: each one present gives exactly one error,
      naming it; the errors follow the fixed order `required`, `force_align`,
      `bit_flags`, `flexbuffer`, `hash`, `original_order`. */
  lemma UnsupportedAttributesRejected(prior: Field, decl: FieldDecl)
    requires Analyzable(decl.TypeText)
    ensures var ds := FromStep(Analyze(prior, decl).diags, UnsupportedCheck); var md := decl.Attributes;
            && (forall k :: multiset(ds)[UnsupportedAttribute(k)] == if k in UnsupportedAttributes && k in md then 1 else 0)
            && (forall i :: 0 <= i < |ds| ==> ds[i].UnsupportedAttribute? && ds[i].attribute in UnsupportedAttributes)
            && (forall i, j :: 0 <= i < j < |ds| ==>
                  IndexOf(UnsupportedAttributes, ds[i].attribute) < IndexOf(UnsupportedAttributes, ds[j].attribute))
  {
    AnalyzeDiagnostics(prior, decl);
    UnsupportedOnly(decl.Attributes, UnsupportedAttributes);
    UnsupportedOrder(decl.Attributes, UnsupportedAttributes);
    forall k ensures multiset(FromStep(Analyze(prior, decl).diags, UnsupportedCheck))[UnsupportedAttribute(k)] ==
                     if k in UnsupportedAttributes && k in decl.Attributes then 1 else 0 {
      UnsupportedCount(decl.Attributes, UnsupportedAttributes, k);
    }
  }

  /** When `k` is the only one of the distinct keys in the map, its error is the only one. */
  lemma {:induction false} UnsupportedSingle(md: Attributes, keys: seq<string>, k: string)
    requires Distinct(keys) && k in keys && k in md
    requires forall j :: 0 <= j < |keys| && keys[j] in md ==> keys[j] == k
    ensures UnsupportedDiagnostics(md, keys) == [UnsupportedAttribute(k)]
  {
    var init := keys[..|keys| - 1];
    var last := keys[|keys| - 1];
    if last == k {
      assert k !in init;
      UnsupportedAbsent(md, init);
    } else {
      assert k in init;
      UnsupportedSingle(md, init, k);
    }
  }

  /** Keys none of which is in the map give no error. */
  lemma {:induction false} UnsupportedAbsent(md: Attributes, keys: seq<string>)
    requires forall j :: 0 <= j < |keys| ==> keys[j] !in md
    ensures UnsupportedDiagnostics(md, keys) == []
  {
    if keys != [] {
      UnsupportedAbsent(md, keys[..|keys| - 1]);
    }
  }

  /** A key the analysis does not recognise changes nothing any step computes. */
  lemma StepsIgnoreKey(f: Field, typeText: string, md: Attributes, k: string, v: AttrValue)
    requires Analyzable(typeText)
    requires k !in RecognizedKeys
    ensures TypeStep(f, typeText, md[k := v]) == TypeStep(f, typeText, md)
    ensures FlagsStep(f, md[k := v]) == FlagsStep(f, md)
    ensures IdStep(f, md[k := v]) == IdStep(f, md)
    ensures SetterStep(f, md[k := v]) == SetterStep(f, md)
  {
    var md' := md[k := v];
    assert forall key :: key in RecognizedKeys ==> (key in md' <==> key in md) && (key in md ==> md'[key] == md[key]);
    assert ParseBooleanMetadata(md', "deprecated") == ParseBooleanMetadata(md, "deprecated");
    assert ParseBooleanMetadata(md', "key") == ParseBooleanMetadata(md, "key");
    assert ParseNullableBooleanMetadata(md', "nonVirtual") == ParseNullableBooleanMetadata(md, "nonVirtual");
    assert ParseBooleanMetadata(md', "sortedvector") == ParseBooleanMetadata(md, "sortedvector");
    assert ParseBooleanMetadata(md', "sharedstring") == ParseBooleanMetadata(md, "sharedstring");
    assert TryParseIntegerMetadata(md', "id") == TryParseIntegerMetadata(md, "id");
  }

  /** An unsupported attribute leaves the definition exactly as it would be
      without it: it is only reported. */
  lemma UnsupportedAttributeLeavesDefinition(prior: Field, decl: FieldDecl, k: string, v: AttrValue)
    requires Analyzable(decl.TypeText)
    requires k in UnsupportedAttributes
    ensures Analyze(prior, decl.(Attributes := decl.Attributes[k := v])).field == Analyze(prior, decl).field
  {
    var decl' := decl.(Attributes := decl.Attributes[k := v]);
    StepsIgnoreKey(prior, decl.TypeText, decl.Attributes, k, v);
    AnalyzeFields(prior, decl);
    AnalyzeFields(prior, decl');
  }

  lemma {:induction false} UnsupportedIgnoresKey(md: Attributes, keys: seq<string>, k: string, v: AttrValue)
    requires k !in keys
    ensures UnsupportedDiagnostics(md[k := v], keys) == UnsupportedDiagnostics(md, keys)
  {
    if keys != [] {
      UnsupportedIgnoresKey(md, keys[..|keys| - 1], k, v);
    }
  }

  /** An attribute that is neither read nor rejected changes nothing at all:
      neither the definition nor the errors. */
  lemma UnrelatedAttributeIgnored(prior: Field, decl: FieldDecl, k: string, v: AttrValue)
    requires Analyzable(decl.TypeText)
    requires k !in RecognizedKeys && k !in UnsupportedAttributes
    ensures Analyze(prior, decl.(Attributes := decl.Attributes[k := v])) == Analyze(prior, decl)
  {
    var md := decl.Attributes;
    var decl' := decl.(Attributes := md[k := v]);
    var named := prior.(Name := decl.Ident);
    var typed := TypeStep(named, decl.TypeText, md);
    var flags := FlagsStep(DefaultStep(typed.field, decl.DefaultText), md);
    var id := IdStep(flags.field, md);
    var setter := SetterStep(id.field, md);
    StepsIgnoreKey(named, decl.TypeText, md, k, v);
    StepsIgnoreKey(DefaultStep(typed.field, decl.DefaultText), decl.TypeText, md, k, v);
    StepsIgnoreKey(flags.field, decl.TypeText, md, k, v);
    StepsIgnoreKey(id.field, decl.TypeText, md, k, v);
    UnsupportedIgnoresKey(md, UnsupportedAttributes, k, v);
    AnalyzeUnfold(prior, decl, typed, flags, id, setter);
    AnalyzeUnfold(prior, decl', typed, flags, id, setter);
  }
}
