/** The pruning of configured edge definitions before edges are generated:
    edges with a precondition are dropped unless preconditions are evaluated or
    all edges are requested, and then edges that touch a denylisted field are
    dropped when denylisting is enabled. Denylists are looked up per datatype,
    falling back to the list of the "default" datatype. */
module EdgePruning {

  /** The datatype whose denylists apply to datatypes without their own. */
  const DefaultDataType: string := "default"

  /** An edge definition: the source and sink fields, whether it is an
      enrichment edge and its enrichment field, and whether it carries a JEXL
      precondition. */
  datatype EdgeDefinition = EdgeDefinition(
    sourceFieldName: string,
    sinkFieldName: string,
    isEnrichmentEdge: bool,
    enrichmentField: string,
    hasJexlPrecondition: bool)

  /** Edge definitions by datatype. */
  type EdgeMap = map<string, set<EdgeDefinition>>

  /** The pruning-relevant part of the configuration. */
  datatype EdgeConfig = EdgeConfig(
    enableDenylist: bool,
    evaluatePreconditions: bool,
    includeAllEdges: bool,
    denylistFieldLookup: map<string, set<string>>,
    denylistValueLookup: map<string, set<string>>,
    edges: EdgeMap)

  // ---------------------------------------------------------------------------
  // Denylist lookup

  /** The datatype's own list decides when it has one; otherwise the default
      datatype's list; with neither, nothing is denylisted. */
  predicate Denylisted(lookup: map<string, set<string>>, dataType: string, x: string)
  {
    if dataType in lookup then x in lookup[dataType]
    else if DefaultDataType in lookup then x in lookup[DefaultDataType]
    else false
  }

  predicate IsDenylistField(cfg: EdgeConfig, dataType: string, fieldName: string)
  {
    Denylisted(cfg.denylistFieldLookup, dataType, fieldName)
  }

  predicate IsDenylistValue(cfg: EdgeConfig, dataType: string, fieldValue: string)
  {
    Denylisted(cfg.denylistValueLookup, dataType, fieldValue)
  }

  /** A datatype with its own list ignores the default list entirely: replacing
      or removing the default entry changes no answer for it. */
  lemma OwnListIgnoresDefault(lookup: map<string, set<string>>, dataType: string, x: string, other: set<string>)
    requires dataType in lookup && dataType != DefaultDataType
    ensures Denylisted(lookup[DefaultDataType := other], dataType, x) == Denylisted(lookup, dataType, x)
    ensures Denylisted(lookup - {DefaultDataType}, dataType, x) == Denylisted(lookup, dataType, x)
    ensures Denylisted(lookup, dataType, x) <==> x in lookup[dataType]
  {
  }

  /** A datatype without its own list answers as the default datatype does, and
      with no default list either nothing is denylisted. */
  lemma FallbackToDefault(lookup: map<string, set<string>>, dataType: string, x: string)
    requires dataType !in lookup
    ensures Denylisted(lookup, dataType, x) == Denylisted(lookup, DefaultDataType, x)
    ensures DefaultDataType !in lookup ==> !Denylisted(lookup, dataType, x)
  {
  }

  // ---------------------------------------------------------------------------
  // The two pruning steps

  /** An edge of `dataType` is denylisted when its source or sink field is, or
      when it is an enrichment edge whose enrichment field is. */
  predicate DenylistedEdge(lookup: map<string, set<string>>, dataType: string, e: EdgeDefinition)
  {
    Denylisted(lookup, dataType, e.sourceFieldName) || Denylisted(lookup, dataType, e.sinkFieldName)
    || (e.isEnrichmentEdge && Denylisted(lookup, dataType, e.enrichmentField))
  }

  /** Every datatype keeps its entry, holding its edges that are not denylisted. */
  function WithoutDenylisted(lookup: map<string, set<string>>, edges: EdgeMap): (r: EdgeMap)
    ensures r.Keys == edges.Keys
    ensures forall dt :: dt in edges ==> r[dt] == set e | e in edges[dt] && !DenylistedEdge(lookup, dt, e)
  {
    map dt | dt in edges :: set e | e in edges[dt] && !DenylistedEdge(lookup, dt, e)
  }

  /** Every datatype keeps its entry, holding its edges without a precondition. */
  function WithoutPreconditions(edges: EdgeMap): (r: EdgeMap)
    ensures r.Keys == edges.Keys
    ensures forall dt :: dt in edges ==> r[dt] == set e | e in edges[dt] && !e.hasJexlPrecondition
  {
    map dt | dt in edges :: set e | e in edges[dt] && !e.hasJexlPrecondition
  }

  /** removeDenyListedEdges: a no-op unless denylisting is enabled. */
  function RemoveDenyListedEdges(cfg: EdgeConfig): (r: EdgeConfig)
    ensures r == cfg.(edges := r.edges)
    ensures !cfg.enableDenylist ==> r == cfg
    ensures cfg.enableDenylist ==> r.edges == WithoutDenylisted(cfg.denylistFieldLookup, cfg.edges)
  {
    if cfg.enableDenylist then cfg.(edges := WithoutDenylisted(cfg.denylistFieldLookup, cfg.edges)) else cfg
  }

  /** setUpPreconditions: evaluating preconditions keeps every edge (the JEXL
      evaluation set-up is not modelled); otherwise, unless all edges are
      included, the edges with a precondition are removed. */
  function SetUpPreconditions(cfg: EdgeConfig): (r: EdgeConfig)
    ensures r == cfg.(edges := r.edges)
    ensures cfg.evaluatePreconditions || cfg.includeAllEdges ==> r == cfg
    ensures !cfg.evaluatePreconditions && !cfg.includeAllEdges ==> r.edges == WithoutPreconditions(cfg.edges)
  {
    if cfg.evaluatePreconditions then cfg
    else if !cfg.includeAllEdges then cfg.(edges := WithoutPreconditions(cfg.edges))
    else cfg
  }

  /** pruneEdges: the precondition step, then the denylist step. */
  function PruneEdges(cfg: EdgeConfig): (r: EdgeConfig)
    ensures r == cfg.(edges := r.edges)
    ensures r.edges.Keys == cfg.edges.Keys
    ensures forall dt :: dt in cfg.edges ==> r.edges[dt] <= cfg.edges[dt]
  {
    RemoveDenyListedEdges(SetUpPreconditions(cfg))
  }

  /** Whether pruning keeps edge `e` of datatype `dt`. */
  predicate Kept(cfg: EdgeConfig, dt: string, e: EdgeDefinition)
  {
    (cfg.evaluatePreconditions || cfg.includeAllEdges || !e.hasJexlPrecondition)
    && (!cfg.enableDenylist || !DenylistedEdge(cfg.denylistFieldLookup, dt, e))
  }

  /** After pruning, a datatype holds exactly the configured edges that neither
      step removes: with both flags off, the edges with a precondition are gone,
      and with denylisting on, the edges touching a denylisted field are gone. */
  lemma PruneEdgesExactly(cfg: EdgeConfig, dt: string, e: EdgeDefinition)
    requires dt in cfg.edges
    ensures e in PruneEdges(cfg).edges[dt] <==> e in cfg.edges[dt] && Kept(cfg, dt, e)
  {
    var mid := SetUpPreconditions(cfg);
    assert e in mid.edges[dt] <==>
      e in cfg.edges[dt] && (cfg.evaluatePreconditions || cfg.includeAllEdges || !e.hasJexlPrecondition);
  }

  /** With denylisting disabled and preconditions evaluated or all edges
      included, pruning changes nothing. */
  lemma PruneEdgesNoop(cfg: EdgeConfig)
    requires !cfg.enableDenylist && (cfg.evaluatePreconditions || cfg.includeAllEdges)
    ensures PruneEdges(cfg) == cfg
  {
  }

  /** Pruning twice is pruning once. */
  lemma PruneEdgesIdempotent(cfg: EdgeConfig)
    ensures PruneEdges(PruneEdges(cfg)) == PruneEdges(cfg)
  {
    var once := PruneEdges(cfg);
    var twice := PruneEdges(once);
    assert twice.edges.Keys == once.edges.Keys;
    forall dt | dt in once.edges
      ensures twice.edges[dt] == once.edges[dt]
    {
      forall e ensures e in twice.edges[dt] <==> e in once.edges[dt] {
        PruneEdgesExactly(once, dt, e);
        PruneEdgesExactly(cfg, dt, e);
      }
    }
    assert twice.edges == once.edges;
  }

  /** The order of the two steps does not matter. */
  lemma StepsCommute(cfg: EdgeConfig)
    ensures SetUpPreconditions(RemoveDenyListedEdges(cfg)) == RemoveDenyListedEdges(SetUpPreconditions(cfg))
  {
    var a := SetUpPreconditions(RemoveDenyListedEdges(cfg));
    var b := RemoveDenyListedEdges(SetUpPreconditions(cfg));
    assert a.edges.Keys == b.edges.Keys;
    forall dt | dt in a.edges
      ensures a.edges[dt] == b.edges[dt]
    {
      forall e ensures e in a.edges[dt] <==> e in b.edges[dt] {
        PruneEdgesExactly(cfg, dt, e);
      }
    }
    assert a.edges == b.edges;
  }
}
