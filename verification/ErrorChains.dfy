/** Converting arbitrary error chains to `PagodaError` and classifying them (lib/runtime/src/error.rs). */
module ErrorChains {
  import opened Wrappers

  datatype BackendError =
    BUnknown | BInvalidArgument | BCannotConnect | BDisconnected | BConnectionTimeout | BResponseTimeout
    | BCancelled | BEngineShutdown | BStreamIncomplete

  datatype ErrorType =
    Unknown | InvalidArgument | CannotConnect | Disconnected | ConnectionTimeout | ResponseTimeout
    | Cancelled | ResourceExhausted | Backend(sub: BackendError)

  datatype PagodaError = PagodaError(errorType: ErrorType, message: string, causedBy: Option<PagodaError>)

  /** Any `dyn Error`: one of ours, whose sources are ours too, or a foreign one with its display text. */
  datatype AnyError = Ours(err: PagodaError) | Foreign(text: string, source: Option<AnyError>)

  function Source(e: AnyError): Option<AnyError> {
    match e
    case Ours(p) => (match p.causedBy case None => None case Some(c) => Some(Ours(c)))
    case Foreign(_, source) => source
  }

  /** `PagodaError::from`: ours is kept as it is, a foreign error is wrapped and its sources converted. */
  function Converted(e: AnyError): PagodaError {
    match e
    case Ours(p) => p
    case Foreign(text, source) =>
      PagodaError(Unknown, text, match source case None => None case Some(s) => Some(Converted(s)))
  }

  // ----- chains as lists

  function OursChain(p: PagodaError): (r: seq<AnyError>)
    ensures r != []
  {
    [Ours(p)] + (match p.causedBy case None => [] case Some(c) => OursChain(c))
  }

  /** The errors met when following `source()`, from the outermost on. */
  function Chain(e: AnyError): (r: seq<AnyError>)
    ensures r != []
  {
    match e
    case Ours(p) => OursChain(p)
    case Foreign(_, source) => [e] + (match source case None => [] case Some(s) => Chain(s))
  }

  /** The chain is what following sources one by one gives. */
  lemma ChainUnfolds(e: AnyError)
    ensures Chain(e) == [e] + (if Source(e).None? then [] else Chain(Source(e).value))
  {
  }

  /** The error that wraps `errors[1..]`, outermost first. */
  function Nested(errors: seq<(ErrorType, string)>): PagodaError
    requires errors != []
  {
    PagodaError(errors[0].0, errors[0].1, if |errors| == 1 then None else Some(Nested(errors[1..])))
  }

  /** Foreign errors around `inner`, outermost first. */
  function Wrapped(texts: seq<string>, inner: AnyError): AnyError {
    if texts == [] then inner else Foreign(texts[0], Some(Wrapped(texts[1..], inner)))
  }

  lemma {:induction false} ChainOfNested(errors: seq<(ErrorType, string)>)
    requires errors != []
    ensures var x := Chain(Ours(Nested(errors)));
            && |x| == |errors|
            && (forall i :: 0 <= i < |x| ==> x[i].Ours? && (x[i].err.errorType, x[i].err.message) == errors[i])
  {
    if |errors| > 1 {
      ChainOfNested(errors[1..]);
    }
  }

  /** Every error of a chain is met, from the outermost in, with its own type and text. */
  lemma {:induction false} ChainOfWrapped(texts: seq<string>, errors: seq<(ErrorType, string)>)
    requires errors != []
    ensures var x, k := Chain(Wrapped(texts, Ours(Nested(errors)))), |texts|;
            && |x| == k + |errors|
            && (forall i :: 0 <= i < k ==> x[i].Foreign? && x[i].text == texts[i])
            && (forall i :: k <= i < |x| ==> x[i].Ours? && (x[i].err.errorType, x[i].err.message) == errors[i - k])
  {
    hide Chain, Nested;
    if texts == [] {
      ChainOfNested(errors);
    } else {
      ChainOfWrapped(texts[1..], errors);
      var e, inner := Wrapped(texts, Ours(Nested(errors))), Wrapped(texts[1..], Ours(Nested(errors)));
      ChainUnfolds(e);
      assert Chain(e) == [e] + Chain(inner);
    }
  }

  function TypeOf(e: AnyError): Option<ErrorType> {
    match e case Ours(p) => Some(p.errorType) case Foreign(_, _) => None
  }

  /** Conversion keeps the length of the chain, every message and every type, and gives foreign
      errors the type `Unknown`. */
  lemma {:induction false} ConversionKeepsChain(e: AnyError)
    ensures var x, y := Chain(e), Chain(Ours(Converted(e)));
            && |y| == |x|
            && (forall i :: 0 <= i < |x| ==>
                  && y[i].Ours?
                  && y[i].err.errorType == (if x[i].Ours? then x[i].err.errorType else Unknown)
                  && y[i].err.message == (if x[i].Ours? then x[i].err.message else x[i].text))
  {
    match e
    case Ours(p) => OursChainTyped(p);
    case Foreign(_, None) =>
    case Foreign(_, Some(s)) => ConversionKeepsChain(s);
  }

  lemma {:induction false} OursChainTyped(p: PagodaError)
    ensures forall i :: 0 <= i < |OursChain(p)| ==> OursChain(p)[i].Ours?
  {
    if p.causedBy.Some? {
      OursChainTyped(p.causedBy.value);
    }
  }

  // ----- matching

  /** Some error of ours in the chain has one of the types. */
  ghost predicate Contains(chain: seq<AnyError>, types: seq<ErrorType>) {
    exists i :: 0 <= i < |chain| && chain[i].Ours? && chain[i].err.errorType in types
  }

  /** What the classification means: no error of the chain is excluded, and some error matches. */
  ghost predicate Matches(chain: seq<AnyError>, matchSet: seq<ErrorType>, excludeSet: seq<ErrorType>) {
    !Contains(chain, excludeSet) && Contains(chain, matchSet)
  }

  /** The loop follows the sources and stops at the first excluded error. */
  method MatchErrorChain(err: AnyError, matchSet: seq<ErrorType>, excludeSet: seq<ErrorType>) returns (hit: bool)
    ensures hit <==> Matches(Chain(err), matchSet, excludeSet)
  {
    hide Chain, Contains;
    hit := false;
    var current := Some(err);
    ghost var done: seq<AnyError> := [];
    NothingContained(matchSet);
    NothingContained(excludeSet);
    assert done + Chain(err) == Chain(err);
    while current.Some?
      invariant done + (if current.None? then [] else Chain(current.value)) == Chain(err)
      invariant !Contains(done, excludeSet)
      invariant hit <==> Contains(done, matchSet)
      decreases if current.None? then 0 else |Chain(current.value)|
    {
      var node := current.value;
      ChainUnfolds(node);
      ghost var rest := if Source(node).None? then [] else Chain(Source(node).value);
      assert done + ([node] + rest) == (done + [node]) + rest;
      SomeSnoc(done, node, excludeSet);
      SomeSnoc(done, node, matchSet);
      current := Source(node);
      var ty := TypeOf(node);
      if ty.Some? {
        if ty.value in excludeSet {
          SomePrefix(done + [node], rest, excludeSet);
          return false;
        }
        if !hit && ty.value in matchSet {
          hit := true;
        }
      }
      done := done + [node];
    }
    assert done + [] == done;
  }

  lemma NothingContained(types: seq<ErrorType>)
    ensures !Contains([], types)
  {
  }

  lemma SomeSnoc(chain: seq<AnyError>, e: AnyError, types: seq<ErrorType>)
    ensures Contains(chain + [e], types) <==> Contains(chain, types) || (e.Ours? && e.err.errorType in types)
  {
    var longer := chain + [e];
    assert forall i :: 0 <= i < |chain| ==> longer[i] == chain[i];
    assert longer[|chain|] == e;
  }

  lemma SomePrefix(x: seq<AnyError>, y: seq<AnyError>, types: seq<ErrorType>)
    requires Contains(x, types)
    ensures Contains(x + y, types)
  {
    var i :| 0 <= i < |x| && x[i].Ours? && x[i].err.errorType in types;
    assert (x + y)[i] == x[i];
  }

  ghost predicate HasForeign(chain: seq<AnyError>) {
    exists i :: 0 <= i < |chain| && chain[i].Foreign?
  }

  lemma SomeAfterConversion(e: AnyError, types: seq<ErrorType>)
    ensures Contains(Chain(Ours(Converted(e))), types) <==>
            Contains(Chain(e), types) || (Unknown in types && HasForeign(Chain(e)))
  {
    ConversionKeepsChain(e);
    var x, y := Chain(e), Chain(Ours(Converted(e)));
    if Contains(x, types) {
      var i :| 0 <= i < |x| && x[i].Ours? && x[i].err.errorType in types;
      assert y[i].err.errorType == x[i].err.errorType;
    }
    if HasForeign(x) && Unknown in types {
      var i :| 0 <= i < |x| && x[i].Foreign?;
      assert y[i].err.errorType == Unknown;
    }
  }

  /** Exactly how conversion changes a classification: each foreign error then counts as `Unknown`.
      Hence nothing changes for chains of our own errors, and for sets that do not name `Unknown`. */
  lemma MatchAfterConversion(e: AnyError, matchSet: seq<ErrorType>, excludeSet: seq<ErrorType>)
    ensures Matches(Chain(Ours(Converted(e))), matchSet, excludeSet) <==>
            && !Contains(Chain(e), excludeSet) && !(Unknown in excludeSet && HasForeign(Chain(e)))
            && (Contains(Chain(e), matchSet) || (Unknown in matchSet && HasForeign(Chain(e))))
    ensures !HasForeign(Chain(e)) || (Unknown !in matchSet && Unknown !in excludeSet) ==>
              (Matches(Chain(Ours(Converted(e))), matchSet, excludeSet) <==> Matches(Chain(e), matchSet, excludeSet))
  {
    SomeAfterConversion(e, matchSet);
    SomeAfterConversion(e, excludeSet);
  }
}
