/** Review findings and their identity. Free text (message, explanation, CWE) plays no part in consensus. */
module Findings {
  import opened Wrappers

  datatype Severity = Info | Low | Medium | High | Critical {
    function Weight(): (w: real)
      ensures w >= 0.0
    {
      match this
      case Info => 0.0
      case Low => 1.0
      case Medium => 3.0
      case High => 7.0
      case Critical => 12.0
    }
  }

  datatype Dimension =
    Security | Architecture | Performance | Documentation | Testing | Devops | Accessibility | Correctness

  datatype Source = Deterministic | Llm | Hybrid

  datatype Finding = Finding(
    agent: string,
    dimension: Dimension,
    category: string,
    severity: Severity,
    confidence: real,
    title: string,
    filePath: Option<string>,
    line: Option<nat>,
    source: Source)
  {
    /** The range checks of the model class. */
    predicate Valid() {
      && 0.0 <= confidence <= 1.0
      && (line.Some? ==> line.value >= 1)
      && (filePath.Some? ==> |filePath.value| <= 1024)
    }

    /** Same place and same category is the same issue. */
    function DedupeKey(): Key {
      (dimension, category, if filePath.Some? then filePath.value else "", if line.Some? then line.value else 0)
    }
  }

  type Key = (Dimension, string, string, nat)

  /** The order in which representatives are chosen: severity first, then confidence. */
  predicate Outranks(a: Finding, b: Finding) {
    || a.severity.Weight() > b.severity.Weight()
    || (a.severity.Weight() == b.severity.Weight() && a.confidence > b.confidence)
  }

  lemma WeightInjective(a: Severity, b: Severity)
    ensures a.Weight() == b.Weight() ==> a == b
  {
  }
}
