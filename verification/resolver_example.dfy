/** The worked example of `get_formulas`: `energy_cost` is computed from
    `power` and `tariff`, whose formulas reference nothing. */
module ResolverExample {
  import opened Wrappers
  import opened Ontology
  import opened FormulaTokens
  import opened Resolver
  import opened Registrar

  const CostFormula: string := "R°power°°°°* R°tariff°°°°"

  /** Three KPI individuals, named "ec", "pw" and "tf", with `cost` as the
      formula of `energy_cost`. */
  function Plant(cost: string): (o: Ontology)
    ensures FirstFormula(o, "ec") == Some(cost)
  {
    Ontology(
      map["ec" := {"energy_cost"}, "pw" := {"power"}, "tf" := {"tariff"}],
      map[], map[], map[], map[], map[],
      map["ec" := [cost], "pw" := ["P"], "tf" := ["T"]],
      map[])
  }

  lemma PlantEntries(cost: string)
    ensures HasPlantEntries(Plant(cost), cost, "ec")
  {
    var o := Plant(cost);
    assert "ec" in Search(o, "energy_cost");
    assert "pw" in Search(o, "power");
    assert "tf" in Search(o, "tariff");
    assert Search(o, "energy_cost") == {"ec"};
    assert Search(o, "power") == {"pw"};
    assert Search(o, "tariff") == {"tf"};
  }

  /** Two references separated by text without the letter `R`. */
  lemma TwoReferences(a: Reference, between: string, b: Reference)
    requires ValidReference(a) && ValidReference(b)
    requires forall i :: 0 <= i < |between| ==> between[i] != 'R'
    ensures ReferencedNames(RenderThen(a, between + RenderThen(b, []))) == [a.name, b.name]
  {
    ReferencedNamesRender(a, between + RenderThen(b, []));
    ReferencedNamesSkip(between, RenderThen(b, []));
    ReferencedNamesRender(b, []);
    assert ReferencedNames([]) == [];
  }

  /** The example formula is the text of a reference to `power`, then `* `,
      then the text of a reference to `tariff`. */
  lemma CostFormulaText()
    ensures CostFormula == RenderThen(Reference("power", "", "", ""), "* " + RenderThen(Reference("tariff", "", "", ""), []))
  {
  }

  lemma CostReferences()
    ensures ReferencedNames(CostFormula) == ["power", "tariff"]
  {
    CostFormulaText();
    TwoReferences(Reference("power", "", "", ""), "* ", Reference("tariff", "", "", ""));
  }

  lemma PlainReferences(f: string)
    requires forall i :: 0 <= i < |f| ==> f[i] != 'R'
    ensures ReferencedNames(f) == []
  {
    ReferencedNamesSkip(f, []);
    assert f + [] == f;
    assert ReferencedNames([]) == [];
  }

  /** The entries of the example, in any ontology that has them. */
  ghost predicate HasPlantEntries(o: Ontology, cost: string, ec: Name)
  {
    && Entry(o, "energy_cost") == Success((ec, cost))
    && Entry(o, "power") == Success(("pw", "P"))
    && Entry(o, "tariff") == Success(("tf", "T"))
  }

  /** Dequeuing the cost formula appends the entries of `power` and `tariff`. */
  lemma ExpandCost(o: Ontology, cost: string, ec: Name)
    requires HasPlantEntries(o, cost, ec)
    ensures Expand(o, ["power", "tariff"], Resolution([cost], [ec], ["energy_cost"]), [])
         == Success((Resolution([cost, "P", "T"], [ec, "pw", "tf"], ["energy_cost", "power", "tariff"]), ["P", "T"]))
  {
    var acc0 := Resolution([cost], [ec], ["energy_cost"]);
    var acc1 := Resolution([cost, "P"], [ec, "pw"], ["energy_cost", "power"]);
    assert ["power", "tariff"][1..] == ["tariff"] && ["tariff"][1..] == [];
    assert [cost] + ["P"] == [cost, "P"] && [ec] + ["pw"] == [ec, "pw"];
    assert ["energy_cost"] + ["power"] == ["energy_cost", "power"] && [] + ["P"] == ["P"];
    assert Expand(o, ["power", "tariff"], acc0, []) == Expand(o, ["tariff"], acc1, ["P"]);
    assert [cost, "P"] + ["T"] == [cost, "P", "T"] && [ec, "pw"] + ["tf"] == [ec, "pw", "tf"];
    assert ["energy_cost", "power"] + ["tariff"] == ["energy_cost", "power", "tariff"] && ["P"] + ["T"] == ["P", "T"];
  }

  /** The formulas of `power` and `tariff` reference nothing, so two more
      dequeues empty the worklist. */
  lemma DrainPlain(o: Ontology, refsOf: string -> seq<string>, acc: Resolution, fuel: nat)
    requires fuel >= 2
    requires refsOf("P") == [] && refsOf("T") == []
    ensures Unroll(o, refsOf, ["P", "T"], acc, fuel) == Success(acc)
  {
    assert ["P", "T"][0] == "P" && ["P", "T"][1..] == ["T"] && ["T"][0] == "T" && ["T"][1..] == [];
    assert Expand(o, [], acc, []) == Success((acc, []));
    assert Expand(o, [], acc, ["T"]) == Success((acc, ["T"]));
    assert Unroll(o, refsOf, ["T"], acc, fuel - 1) == Continue(o, refsOf, Expand(o, [], acc, []), fuel - 2);
    assert Unroll(o, refsOf, ["P", "T"], acc, fuel) == Continue(o, refsOf, Expand(o, [], acc, ["T"]), fuel - 1);
  }

  /** Dequeuing a lone formula. */
  lemma DequeueOnly(o: Ontology, refsOf: string -> seq<string>, f: string, acc: Resolution, acc': Resolution,
                    queue': seq<string>, fuel: nat)
    requires fuel > 0
    requires Expand(o, refsOf(f), acc, []) == Success((acc', queue'))
    ensures Unroll(o, refsOf, [f], acc, fuel) == Unroll(o, refsOf, queue', acc', fuel - 1)
  {
    assert [f][0] == f && [f][1..] == [];
  }

  lemma ResolvePlant(o: Ontology, refsOf: string -> seq<string>, cost: string, ec: Name, fuel: nat)
    requires fuel >= 3
    requires HasPlantEntries(o, cost, ec)
    requires refsOf(cost) == ["power", "tariff"] && refsOf("P") == [] && refsOf("T") == []
    ensures ResolveWith(o, refsOf, "energy_cost", fuel)
         == Success(Resolution([cost, "P", "T"], [ec, "pw", "tf"], ["energy_cost", "power", "tariff"]))
  {
    var acc0 := Resolution([cost], [ec], ["energy_cost"]);
    var acc := Resolution([cost, "P", "T"], [ec, "pw", "tf"], ["energy_cost", "power", "tariff"]);
    assert ResolveWith(o, refsOf, "energy_cost", fuel) == Unroll(o, refsOf, [cost], acc0, fuel);
    ExpandCost(o, cost, ec);
    DequeueOnly(o, refsOf, cost, acc0, acc, ["P", "T"], fuel);
    DrainPlain(o, refsOf, acc, fuel - 1);
  }

  /** `get_formulas("energy_cost")` lists the cost formula and then, in order of
      occurrence, the formulas of `power` and `tariff`; the lists come back as
      formulas, entity names, labels. Three dequeues suffice. */
  lemma EnergyCost(fuel: nat)
    requires fuel >= 3
    ensures Resolve(Plant(CostFormula), "energy_cost", fuel)
         == Success(Resolution([CostFormula, "P", "T"], ["ec", "pw", "tf"], ["energy_cost", "power", "tariff"]))
  {
    CostReferences();
    PlainReferences("P");
    PlainReferences("T");
    PlantEntries(CostFormula);
    ResolvePlant(Plant(CostFormula), ReferencedNames, CostFormula, "ec", fuel);
  }

  /** Registering `energy_cost` with the cost formula where `power` and
      `tariff` are leaf KPIs, then resolving it, gives the cost formula and
      the formulas of `power` and `tariff`, headed by the new individual. */
  lemma RegisterThenResolve(o: Ontology, sup: Name, id: Name, description: string, unit: string, human: string,
                            deps: Option<seq<Name>>, fuel: nat)
    requires fuel >= 3
    requires Search(o, "energy_cost") == {}
    requires Entry(o, "power") == Success(("pw", "P")) && Entry(o, "tariff") == Success(("tf", "T"))
    requires id != "pw" && id != "tf"
    ensures Resolve(InsertKpi(o, sup, id, "energy_cost", description, unit, human, CostFormula, deps), "energy_cost", fuel)
         == Success(Resolution([CostFormula, "P", "T"], [id, "pw", "tf"], ["energy_cost", "power", "tariff"]))
  {
    var o' := InsertKpi(o, sup, id, "energy_cost", description, unit, human, CostFormula, deps);
    InsertFindsNewLabel(o, sup, id, "energy_cost", description, unit, human, CostFormula, deps);
    InsertKeepsOtherLabels(o, sup, id, "energy_cost", description, unit, human, CostFormula, deps, "power");
    InsertKeepsOtherLabels(o, sup, id, "energy_cost", description, unit, human, CostFormula, deps, "tariff");
    assert Search(o, "power") == {"pw"} && Search(o, "tariff") == {"tf"};
    assert Search(o', "power") == {"pw"} && Search(o', "tariff") == {"tf"};
    assert HasPlantEntries(o', CostFormula, id);
    CostReferences();
    PlainReferences("P");
    PlainReferences("T");
    ResolvePlant(o', ReferencedNames, CostFormula, id, fuel);
  }
}
