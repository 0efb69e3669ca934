/** The error sink: an append-only list of diagnostics, each tagged with the
    scope path that was active when it was registered, and the stack of
    scope names. Diagnostics are kinds with their data, not message text. */
module Errors {
  import opened Wrappers

  datatype Diagnostic =
    /** A `vectortype` value that names no `VectorType` member (`None` when the
        attribute had no value). */
    | InvalidVectorType(vectorType: Option<string>)
    /** A `vectortype` attribute on a field that is not a vector. */
    | VectorTypeOnNonVector(field: string)
    /** A metadata value that the key's parser rejected. */
    | InvalidMetadataValue(key: string, text: string)
    /** An `id` attribute without a usable integer value. */
    | IdValueMissing
    /** An `id` attribute whose value is negative. */
    | NegativeId(index: int, field: string)
    /** An attribute that the compiler does not support. */
    | UnsupportedAttribute(attribute: string)

  datatype ErrorEntry = ErrorEntry(scope: seq<string>, diagnostic: Diagnostic)

  /** The entries that registering `ds` in order under `scope` appends. */
  function InScope(scope: seq<string>, ds: seq<Diagnostic>): seq<ErrorEntry>
  {
    seq(|ds|, i requires 0 <= i < |ds| => ErrorEntry(scope, ds[i]))
  }

  lemma InScopeAppend(scope: seq<string>, a: seq<Diagnostic>, b: seq<Diagnostic>)
    ensures InScope(scope, a + b) == InScope(scope, a) + InScope(scope, b)
  {
  }

  /** Registering `b` after `a` appends what registering `a + b` would. */
  lemma RegisteredInOrder(log: seq<ErrorEntry>, scope: seq<string>, a: seq<Diagnostic>, b: seq<Diagnostic>)
    ensures log + InScope(scope, a) + InScope(scope, b) == log + InScope(scope, a + b)
  {
    InScopeAppend(scope, a, b);
  }

  class ErrorContext {
    /** Every error registered so far, oldest first. */
    var errors: seq<ErrorEntry>
    /** The active scope names, outermost first. */
    var scopes: seq<string>

    constructor ()
      ensures errors == [] && scopes == []
    {
      errors, scopes := [], [];
    }

    /** Entering `WithScope(name, ...)`. */
    method PushScope(name: string)
      modifies this
      ensures scopes == old(scopes) + [name]
      ensures errors == old(errors)
    {
      scopes := scopes + [name];
    }

    /** Leaving `WithScope`, on every exit path. */
    method PopScope()
      requires scopes != []
      modifies this
      ensures scopes == old(scopes[..|scopes| - 1])
      ensures errors == old(errors)
    {
      scopes := scopes[..|scopes| - 1];
    }

    method RegisterError(d: Diagnostic)
      modifies this
      ensures errors == old(errors) + [ErrorEntry(scopes, d)]
      ensures scopes == old(scopes)
    {
      errors := errors + [ErrorEntry(scopes, d)];
    }

    /** Registers each of `ds` in order, as the metadata helpers do for the
        values they reject. */
    method RegisterErrors(ds: seq<Diagnostic>)
      modifies this
      ensures errors == old(errors) + InScope(scopes, ds)
      ensures scopes == old(scopes)
    {
      for i := 0 to |ds|
        invariant scopes == old(scopes)
        invariant errors == old(errors) + InScope(scopes, ds[..i])
      {
        RegisterError(ds[i]);
        assert ds[..i + 1] == ds[..i] + [ds[i]];
        InScopeAppend(scopes, ds[..i], [ds[i]]);
      }
      assert ds[..|ds|] == ds;
    }
  }
}
