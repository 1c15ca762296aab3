/** The event-data expression filter: per-field value predicates, set once,
    consulted for every key of a document, and reset at each document
    boundary. Each per-field predicate is a state machine over an abstract
    state `S`: `apply` decides and advances its state, `peek` decides the same
    way without advancing it. */
module ExpressionFilter {
  import opened Wrappers
  import opened Keys

  /** The operations of the per-field predicates: the decision for a key in a
      state, the state after applying to a key, the state after a reset, and
      the state of a clone. */
  datatype PredicateOps<!S> = PredicateOps(
    accepts: (S, Key) -> bool,
    advance: (S, Key) -> S,
    reset: S -> S,
    clone: S -> S)

  /** The runtime errors of the filter. */
  datatype FilterError = AlreadyInitialized | NotInitialized

  /** The filter: whether the per-field predicates were set, the predicates by
      field name, and the key of the document being scanned (None when no
      document was started). */
  datatype Filter<S> = Filter(initialized: bool, filters: map<string, S>, document: Option<Key>)

  /** A filter nobody has set predicates on yet. */
  function Uninitialized<S>(): Filter<S>
  {
    Filter(false, map[], None)
  }

  /** Sets the per-field predicates; only the first call succeeds. */
  function SetFilters<S>(f: Filter<S>, fieldFilters: map<string, S>): (r: Result<Filter<S>, FilterError>)
    ensures r.Success? <==> !f.initialized
    ensures r.Failure? ==> r.error == AlreadyInitialized
    ensures r.Success? ==> r.value.initialized && r.value.filters == fieldFilters && r.value.document == f.document
  {
    if f.initialized then Failure(AlreadyInitialized)
    else Success(f.(filters := fieldFilters, initialized := true))
  }

  /** The preferred constructor: a filter over a prebuilt predicate map. */
  function New<S>(fieldFilters: map<string, S>): (r: Filter<S>)
    ensures r.initialized && r.filters == fieldFilters && r.document.None?
  {
    SetFilters(Uninitialized(), fieldFilters).value
  }

  /** A second initialisation always fails, whatever the maps. */
  lemma SetFiltersOnce<S>(a: map<string, S>, b: map<string, S>)
    ensures SetFilters(New(a), b) == Failure(AlreadyInitialized)
  {
  }

  /** apply: the key's field name, with grouping context removed, must have a
      predicate and that predicate must accept; only that predicate advances. */
  function Apply<S>(f: Filter<S>, ops: PredicateOps<S>, fieldName: Key -> string, key: Key): (r: Result<(bool, Filter<S>), FilterError>)
    ensures r.Failure? <==> !f.initialized
    ensures r.Failure? ==> r.error == NotInitialized
    ensures r.Success? ==> (r.value.0 <==> fieldName(key) in f.filters && ops.accepts(f.filters[fieldName(key)], key))
    ensures r.Success? ==>
      r.value.1.filters.Keys == f.filters.Keys && r.value.1.document == f.document && r.value.1.initialized
    ensures r.Success? ==> forall n :: n in f.filters && n != fieldName(key) ==> r.value.1.filters[n] == f.filters[n]
    ensures r.Success? && fieldName(key) in f.filters ==>
      r.value.1.filters[fieldName(key)] == ops.advance(f.filters[fieldName(key)], key)
  {
    if !f.initialized then Failure(NotInitialized)
    else
      var n := fieldName(key);
      if n in f.filters then
        Success((ops.accepts(f.filters[n], key), f.(filters := f.filters[n := ops.advance(f.filters[n], key)])))
      else Success((false, f))
  }

  /** peek: the same decision without changing any predicate. */
  function Peek<S>(f: Filter<S>, ops: PredicateOps<S>, fieldName: Key -> string, key: Key): (r: Result<bool, FilterError>)
    ensures r.Failure? <==> !f.initialized
    ensures r.Failure? ==> r.error == NotInitialized
    ensures r.Success? ==> (r.value <==> fieldName(key) in f.filters && ops.accepts(f.filters[fieldName(key)], key))
  {
    if !f.initialized then Failure(NotInitialized)
    else
      var n := fieldName(key);
      Success(n in f.filters && ops.accepts(f.filters[n], key))
  }

  /** Peek announces exactly the decision the next apply makes, and errs exactly
      when apply errs. */
  lemma PeekAgreesWithApply<S>(f: Filter<S>, ops: PredicateOps<S>, fieldName: Key -> string, key: Key)
    ensures Peek(f, ops, fieldName, key).Success? <==> Apply(f, ops, fieldName, key).Success?
    ensures Peek(f, ops, fieldName, key).Success? ==>
      Peek(f, ops, fieldName, key).value == Apply(f, ops, fieldName, key).value.0
  {
  }

  /** A key whose field has no predicate is rejected and changes nothing. */
  lemma UnfilteredFieldRejected<S>(f: Filter<S>, ops: PredicateOps<S>, fieldName: Key -> string, key: Key)
    requires f.initialized && fieldName(key) !in f.filters
    ensures Apply(f, ops, fieldName, key) == Success((false, f))
  {
  }

  /** startNewDocument: records the document key and resets every predicate. */
  function StartNewDocument<S>(f: Filter<S>, ops: PredicateOps<S>, document: Option<Key>): (r: Filter<S>)
    ensures r.document == document && r.initialized == f.initialized
    ensures r.filters.Keys == f.filters.Keys
    ensures forall n :: n in f.filters ==> r.filters[n] == ops.reset(f.filters[n])
  {
    f.(document := document, filters := map n | n in f.filters :: ops.reset(f.filters[n]))
  }

  /** Starting the same document twice is starting it once, when a reset
      predicate stays reset. */
  lemma StartNewDocumentIdempotent<S>(f: Filter<S>, ops: PredicateOps<S>, document: Option<Key>)
    requires forall s :: ops.reset(ops.reset(s)) == ops.reset(s)
    ensures StartNewDocument(StartNewDocument(f, ops, document), ops, document) == StartNewDocument(f, ops, document)
  {
    var once := StartNewDocument(f, ops, document);
    var twice := StartNewDocument(once, ops, document);
    assert twice.filters == once.filters;
  }

  /** The decision after a document boundary does not depend on what the
      previous document did to the predicates, as long as the same predicates
      existed and reset forgets the state. */
  lemma DocumentBoundaryForgets<S>(f: Filter<S>, g: Filter<S>, ops: PredicateOps<S>, fieldName: Key -> string,
                                   document: Option<Key>, key: Key)
    requires f.initialized && g.initialized && f.filters.Keys == g.filters.Keys
    requires forall n :: n in f.filters && n in g.filters ==> ops.reset(f.filters[n]) == ops.reset(g.filters[n])
    ensures Peek(StartNewDocument(f, ops, document), ops, fieldName, key) ==
            Peek(StartNewDocument(g, ops, document), ops, fieldName, key)
  {
  }

  /** keep: every key is kept. */
  predicate Keep<S>(f: Filter<S>, key: Key)
    ensures Keep(f, key)
  {
    true
  }

  /** The copy constructor: cloned predicates and the same document key. Copying
      a filter whose predicates were never set dereferences a null map. */
  function Copy<S>(other: Filter<S>, ops: PredicateOps<S>): (r: Result<Filter<S>, FilterError>)
    ensures r.Success? <==> other.initialized
    ensures r.Success? ==> r.value.initialized && r.value.document == other.document
    ensures r.Success? ==> r.value.filters.Keys == other.filters.Keys
    ensures r.Success? ==> forall n :: n in other.filters ==> r.value.filters[n] == ops.clone(other.filters[n])
  {
    if !other.initialized then Failure(NotInitialized)
    else
      var cloned := map n | n in other.filters :: ops.clone(other.filters[n]);
      Success(SetFilters(Uninitialized(), cloned).value.(document := other.document))
  }

  /** A copy decides every key as the original does, when cloning a predicate
      keeps its decisions. */
  lemma CopyDecidesAlike<S>(other: Filter<S>, ops: PredicateOps<S>, fieldName: Key -> string, key: Key)
    requires other.initialized
    requires forall s :: ops.accepts(ops.clone(s), key) == ops.accepts(s, key)
    ensures Copy(other, ops).Success?
    ensures Peek(Copy(other, ops).value, ops, fieldName, key) == Peek(other, ops, fieldName, key)
  {
  }

  // ---------------------------------------------------------------------------
  // Methods this filter does not implement

  /** No seek range is offered. */
  function GetSeekRange<S>(f: Filter<S>, current: Key, endKey: Key, endKeyInclusive: bool): (r: Option<Range>)
    ensures r.None?
  {
    None
  }

  /** No key transformation is offered. */
  function Transform<S>(f: Filter<S>, toLimit: Key): (r: Option<Key>)
    ensures r.None?
  {
    None
  }

  /** No bound on the number of next calls. */
  function GetMaxNextCount<S>(f: Filter<S>): (r: int)
    ensures r == -1
  {
    -1
  }
}
