/** The knowledge base module's state and its operations: the loaded
    ontology, the snapshot counter `SAVE_INT`, the snapshot files under
    `backups/` and the configuration file that records the counter. */
module KbInterface {
  import opened Wrappers
  import opened Decimal
  import opened Base64Url
  import opened HashCode
  import opened Ontology
  import opened FormulaTokens
  import opened Resolver
  import opened Registrar

  class KnowledgeBase {
    /** `ONTO`: the ontology in memory. */
    var onto: Ontology
    /** `SAVE_INT`: the version the next snapshot is saved under. */
    var saveInt: int
    /** The snapshot files written so far, by path. */
    var files: map<string, Ontology>
    /** The text of `config.cfg`. */
    var config: string

    /** The entities `start` finds under the labels `kpi`, `machine` and
        `operation`. */
    const kpiClass: Name
    const machineClass: Name
    const operationClass: Name
    /** SHA-256 of the UTF-8 encoding of a string. */
    const digestOf: string -> Digest

    /** The configuration file holds the text of the counter, and the
        ontology in memory is the one saved under the previous version. */
    ghost predicate Valid()
      reads this
    {
      && ParseInt(config) == Some(saveInt)
      && SnapshotPath(saveInt - 1) in files
      && files[SnapshotPath(saveInt - 1)] == onto
    }

    /** `start`: read the counter from the configuration file and load the
        snapshot saved under the version before it. */
    constructor Start(cfg: string, saved: map<string, Ontology>, kpi: Name, machine: Name, operation: Name,
                      digest: string -> Digest)
      requires ParseInt(cfg).Some?
      requires SnapshotPath(ParseInt(cfg).value - 1) in saved
      ensures saveInt == ParseInt(cfg).value
      ensures onto == saved[SnapshotPath(saveInt - 1)]
      ensures files == saved && config == cfg
      ensures kpiClass == kpi && machineClass == machine && operationClass == operation && digestOf == digest
      ensures Valid()
    {
      var v := ParseInt(cfg).value;
      saveInt := v;
      onto := saved[SnapshotPath(v - 1)];
      files := saved;
      config := cfg;
      kpiClass := kpi;
      machineClass := machine;
      operationClass := operation;
      digestOf := digest;
    }

    /** `get_onto_path`: the path of the last snapshot, which holds the
        ontology in memory. */
    function OntoPath(): (p: string)
      reads this
      ensures SnapshotVersion(p) == Some(saveInt - 1)
      ensures Valid() ==> p in files && files[p] == onto
    {
      SnapshotPathVersion(saveInt - 1);
      SnapshotPath(saveInt - 1)
    }

    /** `_generate_hash_code`: the identifier of the individual created for a
        label. */
    function HashCodeOf(l: string): (code: string)
      reads this
      ensures |code| <= CodeLength && '-' !in code && '_' !in code
      ensures code <= Clean(Encode(digestOf(l)))
    {
      GenerateHashCode(digestOf(l))
    }

    /** `ONTO.search(label=l)` followed by the check that exactly one entity
        was found: that entity, or None. */
    method FindUnique(l: string) returns (found: Option<Name>)
      ensures found == Lookup(onto, l)
    {
      var candidates := Search(onto, l);
      if |candidates| != 1 {
        return None;
      }
      var n :| n in candidates;
      return Some(n);
    }

    /** `get_formulas`: the formulas, entity names and labels reached from
        `kpi` by breadth-first unrolling of references, when at most `fuel`
        formulas are dequeued. */
    method GetFormulas(kpi: string, fuel: nat) returns (r: Result<Resolution, ResolveError>)
      ensures r == Resolve(onto, kpi, fuel)
      ensures r.Success? ==> IsExpansion(onto, ReferencedNames, kpi, r.value)
    {
      ResolveIsExpansion(onto, kpi, fuel);
      var root := FindUnique(kpi);
      if root.None? {
        return Failure(AmbiguousOrMissing(kpi));
      }
      var target := root.value;
      if FirstFormula(onto, target).None? {
        return Failure(MissingFormula(target));
      }
      var f := onto.parsableFormula[target][0];
      var toUnroll := [f];
      var acc := Resolution([f], [target], [kpi]);
      var steps: nat := 0;
      while toUnroll != []
        invariant steps <= fuel
        invariant Resolve(onto, kpi, fuel) == Unroll(onto, ReferencedNames, toUnroll, acc, fuel - steps)
        decreases fuel - steps
      {
        if steps == fuel {
          return Failure(OutOfFuel);
        }
        var matches := ReferencedNames(toUnroll[0]);
        UnrollDequeue(onto, ReferencedNames, toUnroll, acc, fuel - steps);
        var step := ExpandMatches(matches, acc, toUnroll[1..]);
        if step.Failure? {
          return Failure(step.error);
        }
        acc, toUnroll := step.value.0, step.value.1;
        steps := steps + 1;
      }
      return Success(acc);
    }

    /** The inner loop of `get_formulas` over the references found in one
        dequeued formula: each is looked up and its formula appended to the
        results and to the worklist. */
    method ExpandMatches(matches: seq<string>, acc: Resolution, queue: seq<string>)
      returns (step: Result<(Resolution, seq<string>), ResolveError>)
      ensures step == Expand(onto, matches, acc, queue)
    {
      var fList, kpiList, labelList := acc.formulas, acc.names, acc.labels;
      var toUnroll := queue;
      var i := 0;
      while i < |matches|
        invariant i <= |matches|
        invariant Expand(onto, matches, acc, queue)
               == Expand(onto, matches[i..], Resolution(fList, kpiList, labelList), toUnroll)
      {
        var kpiName := matches[i];
        var found := FindUnique(kpiName);
        if found.None? {
          return Failure(AmbiguousOrMissing(kpiName));
        }
        var t := found.value;
        if FirstFormula(onto, t).None? {
          return Failure(MissingFormula(t));
        }
        var g := onto.parsableFormula[t][0];
        ExpandFound(onto, matches[i..], Resolution(fList, kpiList, labelList), toUnroll, t, g);
        assert matches[i..][1..] == matches[i + 1..];
        toUnroll := toUnroll + [g];
        fList := fList + [g];
        kpiList := kpiList + [t];
        labelList := labelList + [kpiName];
        i := i + 1;
      }
      return Success((Resolution(fList, kpiList, labelList), toUnroll));
    }

    /** `add_kpi`: runs the three checks in order; when all pass, creates the
        individual named by the label's hash code under the superclass, saves
        the ontology as snapshot `SAVE_INT`, increments the counter and
        rewrites the configuration file. When a check fails nothing changes. */
    method AddKpi(superclass: string, kpiLabel: string, description: string, unitOfMeasure: string,
                  parsable: string, human: Option<string>, onMachine: bool, onOperation: bool)
      returns (outcome: AddOutcome)
      requires Valid()
      modifies this
      ensures Valid()
      ensures outcome == Validate(old(onto), kpiClass, superclass, kpiLabel)
      ensures outcome != Added ==>
        onto == old(onto) && saveInt == old(saveInt) && files == old(files) && config == old(config)
      ensures outcome == Added ==>
        && onto == InsertKpi(old(onto), Lookup(old(onto), superclass).value, HashCodeOf(kpiLabel), kpiLabel,
                             description, unitOfMeasure, HumanFormula(human, parsable), parsable,
                             DependsOnValue(onMachine, onOperation, machineClass, operationClass))
        && saveInt == old(saveInt) + 1
        && files == old(files)[SnapshotPath(old(saveInt)) := onto]
        && config == IntString(saveInt)
      ensures outcome == Added ==> OntoPath() == SnapshotPath(old(saveInt))
      ensures outcome == Added && LabelsUnique(old(onto)) ==> LabelsUnique(onto)
    {
      var humanText := HumanFormula(human, parsable);
      if Search(onto, kpiLabel) != {} {
        return LabelAlreadyExists;
      }
      var sup := FindUnique(superclass);
      if sup.None? {
        return SuperclassNotUnique;
      }
      var target := sup.value;
      if !IsKpiClass(onto, kpiClass, target) {
        return InvalidSuperclass;
      }
      var id := HashCodeOf(kpiLabel);
      var deps := DependsOnValue(onMachine, onOperation, machineClass, operationClass);
      if LabelsUnique(onto) {
        InsertKeepsLabelsUnique(onto, target, id, kpiLabel, description, unitOfMeasure, humanText, parsable, deps);
      }
      Commit(InsertKpi(onto, target, id, kpiLabel, description, unitOfMeasure, humanText, parsable, deps));
      return Added;
    }

    /** The last steps of `add_kpi`: save the ontology as the snapshot named
        by the counter, increment the counter and rewrite the configuration
        with it. The new snapshot is then the last one. */
    method Commit(o: Ontology)
      requires Valid()
      modifies this
      ensures onto == o && saveInt == old(saveInt) + 1
      ensures files == old(files)[SnapshotPath(old(saveInt)) := o] && config == IntString(saveInt)
      ensures Valid() && OntoPath() == SnapshotPath(old(saveInt))
    {
      onto := o;
      files := files[SnapshotPath(saveInt) := onto];
      saveInt := saveInt + 1;
      config := IntString(saveInt);
      IntStringRoundTrip(saveInt);
    }
  }
}
