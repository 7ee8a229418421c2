/** The loaded ontology, reduced to what the KPI core reads and writes: the
    labels of every entity (what `search(label=...)` looks at), the asserted
    parents of classes and individuals (`is_a`), the ancestor sets the ontology
    library computes for classes (`ancestors()`), and the property values the
    core stores on KPI individuals. Entities are identified by their name
    (`get_name()`). */
module Ontology {
  import opened Wrappers

  type Name = string

  datatype Ontology = Ontology(
    labels: map<Name, set<string>>,
    isA: map<Name, seq<Name>>,
    ancestors: map<Name, set<Name>>,
    description: map<Name, seq<string>>,
    unit: map<Name, seq<string>>,
    humanFormula: map<Name, seq<string>>,
    parsableFormula: map<Name, seq<string>>,
    dependsOn: map<Name, seq<Name>>)

  /** `ONTO.search(label=l)`: every entity carrying the label. */
  function Search(o: Ontology, l: string): set<Name>
  {
    set n | n in o.labels && l in o.labels[n]
  }

  /** The entity a label designates when exactly one entity carries it. */
  ghost function Lookup(o: Ontology, l: string): (r: Option<Name>)
    ensures r.Some? <==> |Search(o, l)| == 1
    ensures r.Some? ==> Search(o, l) == {r.value}
  {
    var found := Search(o, l);
    if |found| == 1 then
      var n :| n in found;
      assert |found - {n}| == 0;
      Some(n)
    else None
  }

  lemma SingletonMember(s: set<Name>, a: Name, b: Name)
    requires |s| == 1 && a in s && b in s
    ensures a == b
  {
    assert |s - {a}| == 0;
  }

  /** `PARSABLE_FORMULA[n][0]`: the first parsable formula of an entity, if it has one. */
  function FirstFormula(o: Ontology, n: Name): Option<string>
  {
    if n in o.parsableFormula && |o.parsableFormula[n]| > 0 then Some(o.parsableFormula[n][0]) else None
  }

  function Parents(o: Ontology, c: Name): seq<Name>
  {
    if c in o.isA then o.isA[c] else []
  }

  function Ancestors(o: Ontology, c: Name): set<Name>
  {
    if c in o.ancestors then o.ancestors[c] else {}
  }

  /** `any(kpi in cls.ancestors() for cls in c.is_a) or kpi == c`: the class is
      the KPI class or one of its parents descends from it. */
  predicate IsKpiClass(o: Ontology, kpi: Name, c: Name)
  {
    (exists i :: 0 <= i < |Parents(o, c)| && kpi in Ancestors(o, Parents(o, c)[i])) || kpi == c
  }

  /** No label is carried by two entities. */
  ghost predicate LabelsUnique(o: Ontology)
  {
    forall l :: |Search(o, l)| <= 1
  }
}
