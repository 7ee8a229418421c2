/** The decisions and the ontology update of `add_kpi`, as functions of the
    ontology before the call: which of its three checks rejects the request,
    in the order it makes them, and what the new KPI individual carries when
    none does. Saving the snapshot and the counter belongs to the knowledge
    base itself. */
module Registrar {
  import opened Wrappers
  import opened Ontology
  import opened FormulaTokens
  import opened Resolver

  /** What `add_kpi` does: adds the KPI, or stops with one of its three
      messages ("KPI LABEL ALREADY EXISTS", "DOUBLE OR NONE REFERENCED KPI",
      "NOT A VALID SUPERCLASS"). */
  datatype AddOutcome = Added | LabelAlreadyExists | SuperclassNotUnique | InvalidSuperclass

  /** The checks of `add_kpi`, in its order: the new label must be unused, the
      superclass label must designate exactly one entity, and that entity must
      be the KPI class or have a parent that descends from it. */
  ghost function Validate(o: Ontology, kpiClass: Name, superclass: string, kpiLabel: string): (r: AddOutcome)
  {
    if Search(o, kpiLabel) != {} then LabelAlreadyExists
    else match Lookup(o, superclass)
      case None => SuperclassNotUnique
      case Some(c) => if IsKpiClass(o, kpiClass, c) then Added else InvalidSuperclass
  }

  /** The KPI is added exactly when its label is unused and its superclass
      label designates one entity that is a KPI class; each rejection names
      the first check that fails. */
  lemma ValidateOutcomes(o: Ontology, kpiClass: Name, superclass: string, kpiLabel: string)
    ensures Validate(o, kpiClass, superclass, kpiLabel) == LabelAlreadyExists <==> Search(o, kpiLabel) != {}
    ensures Validate(o, kpiClass, superclass, kpiLabel) == SuperclassNotUnique
        <==> Search(o, kpiLabel) == {} && |Search(o, superclass)| != 1
    ensures Validate(o, kpiClass, superclass, kpiLabel) == InvalidSuperclass
        <==> Search(o, kpiLabel) == {} && |Search(o, superclass)| == 1
             && forall c :: c in Search(o, superclass) ==> !IsKpiClass(o, kpiClass, c)
    ensures Validate(o, kpiClass, superclass, kpiLabel) == Added
        <==> Search(o, kpiLabel) == {} && |Search(o, superclass)| == 1
             && forall c :: c in Search(o, superclass) ==> IsKpiClass(o, kpiClass, c)
  {
    if Search(o, kpiLabel) == {} && |Search(o, superclass)| == 1 {
      var c := Lookup(o, superclass).value;
      assert forall c' :: c' in Search(o, superclass) ==> c' == c;
    }
  }

  /** The `depends_on` values: both classes, machine first, when the KPI
      depends on machine and operation; the one class when it depends on one;
      nothing is set when it depends on neither. */
  function DependsOnValue(onMachine: bool, onOperation: bool, machineClass: Name, operationClass: Name)
    : (r: Option<seq<Name>>)
    ensures r.None? <==> !onMachine && !onOperation
    ensures r.Some? ==> r.value == (if onMachine then [machineClass] else []) + (if onOperation then [operationClass] else [])
  {
    if onMachine && onOperation then Some([machineClass, operationClass])
    else if onOperation then Some([operationClass])
    else if onMachine then Some([machineClass])
    else None
  }

  /** The human-readable formula stored: the one given unless it is missing or
      empty, in which case the parsable formula stands in for it. */
  function HumanFormula(human: Option<string>, parsable: string): (h: string)
    ensures h == parsable || (human.Some? && h == human.value)
    ensures human.Some? && human.value != [] ==> h == human.value
    ensures h == [] ==> parsable == []
  {
    match human
    case Some(text) => if text != [] then text else parsable
    case None => parsable
  }

  /** The two maps agree at key k: both lack it, or both map it to the same value. */
  predicate SameAt<K, V(==)>(m: map<K, V>, m': map<K, V>, k: K)
  {
    (k in m <==> k in m') && (k in m ==> m[k] == m'[k])
  }

  /** Updating a map at key k leaves it as it was at every other key. */
  lemma UpdateElsewhere<K, V>(m: map<K, V>, m': map<K, V>, k: K, v: V)
    requires m' == m[k := v]
    ensures forall n :: n != k ==> SameAt(m', m, n)
  {
  }

  /** The individual `id` of class `sup` created by `add_kpi`, with its label,
      description, unit, formulas and, if any, dependencies. Entries that an
      entity named `id` already had are replaced; every other entity keeps all
      its entries. */
  function InsertKpi(o: Ontology, sup: Name, id: Name, kpiLabel: string, description: string, unit: string,
                     human: string, parsable: string, dependsOn: Option<seq<Name>>): (o': Ontology)
    ensures id in o'.labels && o'.labels[id] == {kpiLabel}
    ensures Parents(o', id) == [sup]
    ensures id in o'.description && o'.description[id] == [description]
    ensures id in o'.unit && o'.unit[id] == [unit]
    ensures id in o'.humanFormula && o'.humanFormula[id] == [human]
    ensures FirstFormula(o', id) == Some(parsable) && o'.parsableFormula[id] == [parsable]
    ensures dependsOn.Some? ==> id in o'.dependsOn && o'.dependsOn[id] == dependsOn.value
    ensures dependsOn.None? ==> o'.dependsOn == o.dependsOn
    ensures forall n :: n != id ==> FirstFormula(o', n) == FirstFormula(o, n)
    ensures forall n :: n != id ==> SameAt(o'.labels, o.labels, n) && SameAt(o'.isA, o.isA, n)
    ensures forall n :: n != id ==> SameAt(o'.description, o.description, n) && SameAt(o'.unit, o.unit, n)
    ensures forall n :: n != id ==> SameAt(o'.humanFormula, o.humanFormula, n)
    ensures forall n :: n != id ==> SameAt(o'.parsableFormula, o.parsableFormula, n)
    ensures forall n :: n != id ==> SameAt(o'.dependsOn, o.dependsOn, n)
    ensures o'.ancestors == o.ancestors
  {
    UpdateElsewhere(o.labels, o.labels[id := {kpiLabel}], id, {kpiLabel});
    UpdateElsewhere(o.isA, o.isA[id := [sup]], id, [sup]);
    UpdateElsewhere(o.description, o.description[id := [description]], id, [description]);
    UpdateElsewhere(o.unit, o.unit[id := [unit]], id, [unit]);
    UpdateElsewhere(o.humanFormula, o.humanFormula[id := [human]], id, [human]);
    UpdateElsewhere(o.parsableFormula, o.parsableFormula[id := [parsable]], id, [parsable]);
    var deps := match dependsOn
      case Some(d) => (UpdateElsewhere(o.dependsOn, o.dependsOn[id := d], id, d); o.dependsOn[id := d])
      case None => o.dependsOn;
    Ontology(
      o.labels[id := {kpiLabel}],
      o.isA[id := [sup]],
      o.ancestors,
      o.description[id := [description]],
      o.unit[id := [unit]],
      o.humanFormula[id := [human]],
      o.parsableFormula[id := [parsable]],
      deps)
  }

  /** After the insertion, a label other than the new one is carried by the
      entities that carried it before, except `id` whose labels were replaced. */
  lemma InsertKeepsOtherLabels(o: Ontology, sup: Name, id: Name, kpiLabel: string, description: string, unit: string,
                               human: string, parsable: string, dependsOn: Option<seq<Name>>, l: string)
    requires l != kpiLabel
    ensures Search(InsertKpi(o, sup, id, kpiLabel, description, unit, human, parsable, dependsOn), l)
         == Search(o, l) - {id}
  {
    var o' := InsertKpi(o, sup, id, kpiLabel, description, unit, human, parsable, dependsOn);
    forall n
      ensures n in Search(o', l) <==> n in Search(o, l) - {id}
    {
      if n != id && n in o.labels {
        assert o'.labels[n] == o.labels[n];
      }
    }
  }

  /** When the label was unused, the new individual is the one entity the
      label designates, and its parsable formula is the one read by
      `get_formulas`. */
  lemma InsertFindsNewLabel(o: Ontology, sup: Name, id: Name, kpiLabel: string, description: string, unit: string,
                            human: string, parsable: string, dependsOn: Option<seq<Name>>)
    requires Search(o, kpiLabel) == {}
    ensures var o' := InsertKpi(o, sup, id, kpiLabel, description, unit, human, parsable, dependsOn);
      Search(o', kpiLabel) == {id} && Lookup(o', kpiLabel) == Some(id)
  {
    var o' := InsertKpi(o, sup, id, kpiLabel, description, unit, human, parsable, dependsOn);
    forall n
      ensures n in Search(o', kpiLabel) <==> n == id
    {
      if n != id && n in o'.labels {
        assert n in o.labels && o'.labels[n] == o.labels[n];
        assert n !in Search(o, kpiLabel);
      }
    }
    assert Search(o', kpiLabel) == {id};
  }

  /** Adding a KPI under an unused label keeps every label carried by at most
      one entity. */
  lemma InsertKeepsLabelsUnique(o: Ontology, sup: Name, id: Name, kpiLabel: string, description: string, unit: string,
                                human: string, parsable: string, dependsOn: Option<seq<Name>>)
    requires LabelsUnique(o)
    requires Search(o, kpiLabel) == {}
    ensures LabelsUnique(InsertKpi(o, sup, id, kpiLabel, description, unit, human, parsable, dependsOn))
  {
    var o' := InsertKpi(o, sup, id, kpiLabel, description, unit, human, parsable, dependsOn);
    forall l
      ensures |Search(o', l)| <= 1
    {
      if l == kpiLabel {
        InsertFindsNewLabel(o, sup, id, kpiLabel, description, unit, human, parsable, dependsOn);
      } else {
        InsertKeepsOtherLabels(o, sup, id, kpiLabel, description, unit, human, parsable, dependsOn, l);
        assert Search(o', l) <= Search(o, l);
        assert |Search(o, l)| <= 1;
      }
    }
  }

  /** A KPI just added with a formula that references no other KPI is
      resolved by `get_formulas` to that formula alone, under the new label. */
  lemma InsertedResolves(o: Ontology, sup: Name, id: Name, kpiLabel: string, description: string, unit: string,
                         human: string, parsable: string, dependsOn: Option<seq<Name>>, fuel: nat)
    requires Search(o, kpiLabel) == {}
    requires ReferencedNames(parsable) == []
    requires fuel >= 1
    ensures Resolve(InsertKpi(o, sup, id, kpiLabel, description, unit, human, parsable, dependsOn), kpiLabel, fuel)
         == Success(Resolution([parsable], [id], [kpiLabel]))
  {
    var o' := InsertKpi(o, sup, id, kpiLabel, description, unit, human, parsable, dependsOn);
    InsertFindsNewLabel(o, sup, id, kpiLabel, description, unit, human, parsable, dependsOn);
    var acc := Resolution([parsable], [id], [kpiLabel]);
    assert Entry(o', kpiLabel) == Success((id, parsable));
    assert [parsable][0] == parsable && [parsable][1..] == [];
    assert Expand(o', [], acc, []) == Success((acc, []));
    assert Resolve(o', kpiLabel, fuel) == Unroll(o', ReferencedNames, [parsable], acc, fuel);
    assert Unroll(o', ReferencedNames, [parsable], acc, fuel) == Continue(o', ReferencedNames, Success((acc, [])), fuel - 1);
  }
}
