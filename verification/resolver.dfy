/** The formula resolver `get_formulas`, as a specification: starting from a
    KPI label, a first-in first-out worklist of parsable formulas is expanded;
    every reference occurrence in a dequeued formula is looked up by label and
    its formula is appended to the results and to the worklist. There is no
    de-duplication and no cycle detection, so the expansion is bounded here by
    `fuel`, the number of formulas dequeued. */
module Resolver {
  import opened Wrappers
  import opened Seqs
  import opened Ontology
  import opened FormulaTokens

  /** The three parallel lists `get_formulas` returns, in its return order:
      formulas, entity names, labels. */
  datatype Resolution = Resolution(formulas: seq<string>, names: seq<Name>, labels: seq<string>)

  /** Why `get_formulas` gives no lists: a label found zero or several times
      (the source returns None), an entity without a parsable formula (the
      source raises IndexError), or a worklist still not empty after `fuel`
      dequeues (the source keeps looping). */
  datatype ResolveError = AmbiguousOrMissing(searched: string) | MissingFormula(name: Name) | OutOfFuel

  /** Look a label up and read the first parsable formula of the entity found. */
  ghost function Entry(o: Ontology, l: string): Result<(Name, string), ResolveError>
  {
    match Lookup(o, l)
    case None => Failure(AmbiguousOrMissing(l))
    case Some(n) =>
      match FirstFormula(o, n)
      case None => Failure(MissingFormula(n))
      case Some(f) => Success((n, f))
  }

  /** Appends one entry per referenced name, in order (the inner loop over the
      matches of one dequeued formula). */
  ghost function Expand(o: Ontology, refs: seq<string>, acc: Resolution, queue: seq<string>)
    : Result<(Resolution, seq<string>), ResolveError>
    decreases |refs|
  {
    if refs == [] then Success((acc, queue))
    else match Entry(o, refs[0])
      case Failure(e) => Failure(e)
      case Success((n, f)) =>
        Expand(o, refs[1..], Resolution(acc.formulas + [f], acc.names + [n], acc.labels + [refs[0]]), queue + [f])
  }

  /** Continues the outer loop after one expansion step. */
  ghost function Continue(o: Ontology, refsOf: string -> seq<string>,
                          step: Result<(Resolution, seq<string>), ResolveError>, fuel: nat): Result<Resolution, ResolveError>
    decreases fuel, 1
  {
    match step
    case Failure(e) => Failure(e)
    case Success((acc, queue)) => Unroll(o, refsOf, queue, acc, fuel)
  }

  /** The outer loop: dequeue the earliest formula and expand the references
      `refsOf` finds in it. */
  ghost function Unroll(o: Ontology, refsOf: string -> seq<string>, queue: seq<string>, acc: Resolution, fuel: nat)
    : Result<Resolution, ResolveError>
    decreases fuel, 0
  {
    if queue == [] then Success(acc)
    else if fuel == 0 then Failure(OutOfFuel)
    else Continue(o, refsOf, Expand(o, refsOf(queue[0]), acc, queue[1..]), fuel - 1)
  }

  /** The resolution of `root` by a reference scanner `refsOf`, when at most
      `fuel` formulas are dequeued. */
  ghost function ResolveWith(o: Ontology, refsOf: string -> seq<string>, root: string, fuel: nat)
    : Result<Resolution, ResolveError>
  {
    match Entry(o, root)
    case Failure(e) => Failure(e)
    case Success((n, f)) => Unroll(o, refsOf, [f], Resolution([f], [n], [root]), fuel)
  }

  /** `get_formulas(root)`, which scans formulas with its reference pattern,
      when at most `fuel` formulas are dequeued. */
  ghost function Resolve(o: Ontology, root: string, fuel: nat): Result<Resolution, ResolveError>
  {
    ResolveWith(o, ReferencedNames, root, fuel)
  }

  /** One dequeue of the outer loop. */
  lemma UnrollDequeue(o: Ontology, refsOf: string -> seq<string>, queue: seq<string>, acc: Resolution, fuel: nat)
    requires queue != [] && fuel > 0
    ensures Unroll(o, refsOf, queue, acc, fuel)
         == Continue(o, refsOf, Expand(o, refsOf(queue[0]), acc, queue[1..]), fuel - 1)
  {
  }

  /** One found reference of the inner loop. */
  lemma ExpandFound(o: Ontology, refs: seq<string>, acc: Resolution, queue: seq<string>, n: Name, f: string)
    requires refs != [] && Entry(o, refs[0]) == Success((n, f))
    ensures Expand(o, refs, acc, queue)
         == Expand(o, refs[1..], Resolution(acc.formulas + [f], acc.names + [n], acc.labels + [refs[0]]), queue + [f])
  {
  }

  // ---------------------------------------------------------------------------
  // What a successful resolution is, independently of the worklist. The
  // lemmas about the worklist hold for any reference scanner.

  /** The references of each formula, concatenated in list order. */
  ghost function AllReferences(refsOf: string -> seq<string>, fs: seq<string>): seq<string>
  {
    if fs == [] then [] else AllReferences(refsOf, fs[..|fs| - 1]) + refsOf(fs[|fs| - 1])
  }

  ghost predicate Parallel(r: Resolution)
  {
    |r.formulas| == |r.names| == |r.labels|
  }

  /** Every entry from position `from` on is its label's unique entity and that
      entity's formula. */
  ghost predicate EntriesFound(o: Ontology, r: Resolution, from: nat)
    requires Parallel(r)
  {
    forall j {:trigger Entry(o, r.labels[j])} ::
      from <= j < |r.labels| ==> Entry(o, r.labels[j]) == Success((r.names[j], r.formulas[j]))
  }

  /** Every formula listed after the first was enqueued by an earlier one:
      the formula at position j belongs to one of the first j reference
      occurrences of the formulas before it. */
  ghost predicate Enqueued(refsOf: string -> seq<string>, fs: seq<string>)
  {
    forall j :: 1 <= j < |fs| ==> j <= |AllReferences(refsOf, fs[..j])|
  }

  /** A complete expansion from `root`: three parallel lists, headed by the
      label itself, whose later labels are exactly the reference occurrences of
      all the formulas listed, in order (breadth-first, one entry per
      occurrence), whose every entry is found by its label, and whose every
      formula after the first was enqueued by an earlier one. */
  ghost predicate IsExpansion(o: Ontology, refsOf: string -> seq<string>, root: string, r: Resolution)
  {
    && Parallel(r)
    && |r.labels| >= 1
    && r.labels[0] == root
    && r.labels[1..] == AllReferences(refsOf, r.formulas)
    && EntriesFound(o, r, 0)
    && Enqueued(refsOf, r.formulas)
  }

  /** Worklist invariant: `done` is what has been dequeued, the results are
      `done` followed by the worklist, and every entry is found by its label. */
  ghost predicate Progress(o: Ontology, root: string, acc: Resolution, done: seq<string>, queue: seq<string>)
  {
    && Parallel(acc)
    && |acc.labels| >= 1
    && acc.labels[0] == root
    && acc.formulas == done + queue
    && EntriesFound(o, acc, 0)
  }

  /** A state of the worklist loop from `root`: `done` has been dequeued, the
      lists hold `done` followed by the worklist, every entry was found by its
      label, the later labels are the references of `done`, and every
      dequeued formula after the root's was enqueued by an earlier one. The
      loop keeps it (ReachableStep), and there is at most one such state for
      each number of dequeues (ReachableUnique), so it is the state the loop
      is in after `|done|` dequeues. */
  ghost predicate Reachable(o: Ontology, refsOf: string -> seq<string>, root: string, acc: Resolution,
                            done: seq<string>, queue: seq<string>)
  {
    && Progress(o, root, acc, done, queue)
    && acc.labels[1..] == AllReferences(refsOf, done)
    && Enqueued(refsOf, done)
  }

  lemma {:induction false} ExpandAppends(o: Ontology, refs: seq<string>, acc: Resolution, queue: seq<string>,
                                         acc': Resolution, queue': seq<string>)
    requires Parallel(acc)
    requires Expand(o, refs, acc, queue) == Success((acc', queue'))
    ensures Parallel(acc')
    ensures acc'.labels == acc.labels + refs
    ensures acc'.formulas[..|acc.formulas|] == acc.formulas
    ensures acc'.names[..|acc.names|] == acc.names
    ensures queue' == queue + acc'.formulas[|acc.formulas|..]
    ensures EntriesFound(o, acc', |acc.labels|)
    decreases |refs|
  {
    if refs == [] {
      assert acc.formulas[..|acc.formulas|] == acc.formulas;
      assert acc.names[..|acc.names|] == acc.names;
      assert acc.labels + refs == acc.labels;
    } else {
      var (n, f) := Entry(o, refs[0]).value;
      var next := Resolution(acc.formulas + [f], acc.names + [n], acc.labels + [refs[0]]);
      ExpandAppends(o, refs[1..], next, queue + [f], acc', queue');
      assert acc'.labels == acc.labels + refs by {
        assert acc.labels + [refs[0]] + refs[1..] == acc.labels + refs;
      }
      assert acc'.formulas[..|acc.formulas|] == acc.formulas by {
        assert acc'.formulas[..|acc.formulas|] == acc'.formulas[..|next.formulas|][..|acc.formulas|];
      }
      assert acc'.names[..|acc.names|] == acc.names by {
        assert acc'.names[..|acc.names|] == acc'.names[..|next.names|][..|acc.names|];
      }
      assert acc'.formulas[|acc.formulas|..] == [f] + acc'.formulas[|next.formulas|..] by {
        assert acc'.formulas[|acc.formulas|] == next.formulas[|acc.formulas|];
      }
      var k := |acc.labels|;
      assert acc'.labels[k] == refs[0] && acc'.names[k] == n && acc'.formulas[k] == f by {
        assert acc'.labels[k] == next.labels[k];
        assert acc'.names[k] == next.names[k];
        assert acc'.formulas[k] == next.formulas[k];
      }
    }
  }

  /** The converse of ExpandAppends: lists that extend `acc` by one found
      entry per referenced name are what the inner loop builds. */
  lemma {:induction false} ExpandFill(o: Ontology, refs: seq<string>, acc: Resolution, queue: seq<string>,
                                      acc': Resolution)
    requires Parallel(acc) && Parallel(acc')
    requires acc'.labels == acc.labels + refs
    requires acc'.formulas[..|acc.formulas|] == acc.formulas
    requires acc'.names[..|acc.names|] == acc.names
    requires EntriesFound(o, acc', |acc.labels|)
    ensures Expand(o, refs, acc, queue) == Success((acc', queue + acc'.formulas[|acc.formulas|..]))
    decreases |refs|
  {
    var k := |acc.labels|;
    if refs == [] {
      assert acc'.labels == acc.labels;
      assert acc'.formulas == acc'.formulas[..k] && acc'.names == acc'.names[..k];
      assert queue + acc'.formulas[k..] == queue;
    } else {
      assert acc'.labels[k] == refs[0];
      var n, f := acc'.names[k], acc'.formulas[k];
      var next := Resolution(acc.formulas + [f], acc.names + [n], acc.labels + [refs[0]]);
      assert next.formulas == acc'.formulas[..k + 1] by {
        SliceSplit(acc'.formulas, k, k + 1);
      }
      assert next.names == acc'.names[..k + 1] by {
        SliceSplit(acc'.names, k, k + 1);
      }
      assert acc'.labels == next.labels + refs[1..];
      ExpandFill(o, refs[1..], next, queue + [f], acc');
      assert (queue + [f]) + acc'.formulas[k + 1..] == queue + acc'.formulas[k..] by {
        assert acc'.formulas[k..] == [f] + acc'.formulas[k + 1..];
      }
    }
  }

  lemma AllReferencesSnoc(refsOf: string -> seq<string>, done: seq<string>, f: string)
    ensures AllReferences(refsOf, done + [f]) == AllReferences(refsOf, done) + refsOf(f)
  {
    assert (done + [f])[..|done|] == done;
  }

  lemma EntriesExtend(o: Ontology, acc: Resolution, acc': Resolution)
    requires Parallel(acc) && Parallel(acc') && |acc.labels| <= |acc'.labels|
    requires acc'.labels[..|acc.labels|] == acc.labels
    requires acc'.names[..|acc.names|] == acc.names
    requires acc'.formulas[..|acc.formulas|] == acc.formulas
    requires EntriesFound(o, acc, 0) && EntriesFound(o, acc', |acc.labels|)
    ensures EntriesFound(o, acc', 0)
  {
    var k := |acc.labels|;
    forall j | 0 <= j < k
      ensures Entry(o, acc'.labels[j]) == Success((acc'.names[j], acc'.formulas[j]))
    {
      assert acc'.labels[j] == acc'.labels[..k][j];
      assert acc'.names[j] == acc'.names[..k][j];
      assert acc'.formulas[j] == acc'.formulas[..k][j];
    }
  }

  /** One dequeue keeps the worklist invariant and adds the dequeued
      formula's references to the labels. */
  lemma ProgressStep(o: Ontology, root: string, acc: Resolution, done: seq<string>, f: string, rest: seq<string>,
                     refs: seq<string>, acc': Resolution, queue': seq<string>)
    requires Progress(o, root, acc, done, [f] + rest)
    requires Expand(o, refs, acc, rest) == Success((acc', queue'))
    ensures Progress(o, root, acc', done + [f], queue')
    ensures acc'.labels[1..] == acc.labels[1..] + refs
  {
    ExpandAppends(o, refs, acc, rest, acc', queue');
    var k := |acc.formulas|;
    assert acc'.formulas == acc.formulas + acc'.formulas[k..] by {
      assert acc'.formulas == acc'.formulas[..k] + acc'.formulas[k..];
    }
    TailOfAppend(acc.labels, refs);
    PrefixOfAppend(acc.labels, refs);
    EntriesExtend(o, acc, acc');
  }

  /** A formula dequeued while the worklist is not empty was enqueued: the
      references found so far reach at least as far as it. */
  lemma EnqueuedStep(refsOf: string -> seq<string>, done: seq<string>, f: string)
    requires Enqueued(refsOf, done) && |done| <= |AllReferences(refsOf, done)|
    ensures Enqueued(refsOf, done + [f])
  {
    forall j | 1 <= j < |done + [f]| ensures j <= |AllReferences(refsOf, (done + [f])[..j])| {
      assert (done + [f])[..j] == done[..j];
      if j == |done| {
        assert done[..j] == done;
      }
    }
  }

  /** One dequeue and its expansion lead from a loop state to the next. */
  lemma ReachableStep(o: Ontology, refsOf: string -> seq<string>, root: string, acc: Resolution,
                      done: seq<string>, queue: seq<string>, acc': Resolution, queue': seq<string>)
    requires Reachable(o, refsOf, root, acc, done, queue) && queue != []
    requires Expand(o, refsOf(queue[0]), acc, queue[1..]) == Success((acc', queue'))
    ensures Reachable(o, refsOf, root, acc', done + [queue[0]], queue')
  {
    AllReferencesSnoc(refsOf, done, queue[0]);
    assert queue == [queue[0]] + queue[1..];
    ProgressStep(o, root, acc, done, queue[0], queue[1..], refsOf(queue[0]), acc', queue');
    assert |AllReferences(refsOf, done)| == |acc.labels| - 1;
    EnqueuedStep(refsOf, done, queue[0]);
  }

  /** The worklist loop ends in a complete expansion whenever it ends. */
  lemma {:induction false} UnrollIsExpansion(o: Ontology, refsOf: string -> seq<string>, root: string,
                                             acc: Resolution, done: seq<string>, queue: seq<string>, fuel: nat)
    requires Reachable(o, refsOf, root, acc, done, queue)
    ensures var r := Unroll(o, refsOf, queue, acc, fuel);
      r.Success? ==> IsExpansion(o, refsOf, root, r.value)
    decreases fuel
  {
    if queue == [] {
      assert done + queue == done;
    } else if fuel > 0 {
      var refs := refsOf(queue[0]);
      var step := Expand(o, refs, acc, queue[1..]);
      assert Unroll(o, refsOf, queue, acc, fuel) == Continue(o, refsOf, step, fuel - 1);
      if step.Success? {
        var (acc', queue') := step.value;
        ReachableStep(o, refsOf, root, acc, done, queue, acc', queue');
        UnrollIsExpansion(o, refsOf, root, acc', done + [queue[0]], queue', fuel - 1);
      }
    }
  }

  lemma ResolveWithIsExpansion(o: Ontology, refsOf: string -> seq<string>, root: string, fuel: nat)
    ensures var r := ResolveWith(o, refsOf, root, fuel);
      r.Success? ==> IsExpansion(o, refsOf, root, r.value)
  {
    match Entry(o, root)
    case Failure(_) =>
    case Success((n, f)) =>
      var acc := Resolution([f], [n], [root]);
      assert Reachable(o, refsOf, root, acc, [], [f]);
      UnrollIsExpansion(o, refsOf, root, acc, [], [f], fuel);
  }

  /** A successful `get_formulas` returns three lists of equal length headed
      by the root's formula, the root's entity name and the root label; every
      later label is a reference occurrence, taken breadth-first in the order
      the formulas were listed and left to right within each formula, with no
      de-duplication; every entry is its label's unique entity and its formula. */
  lemma ResolveIsExpansion(o: Ontology, root: string, fuel: nat)
    ensures Resolve(o, root, fuel).Success? ==> IsExpansion(o, ReferencedNames, root, Resolve(o, root, fuel).value)
  {
    ResolveWithIsExpansion(o, ReferencedNames, root, fuel);
  }

  /** The number of entries is one plus the number of reference occurrences in
      all listed formulas. */
  lemma ResolveLength(o: Ontology, root: string, fuel: nat)
    requires Resolve(o, root, fuel).Success?
    ensures var r := Resolve(o, root, fuel).value;
      |r.formulas| == |r.names| == |r.labels| == 1 + |AllReferences(ReferencedNames, r.formulas)|
  {
    ResolveIsExpansion(o, root, fuel);
  }

  // ---------------------------------------------------------------------------
  // Uniqueness: the loop states and the expansion are determined by the root.

  /** The references of a prefix of the formulas are a prefix of theirs. */
  lemma {:induction false} AllReferencesPrefix(refsOf: string -> seq<string>, fs: seq<string>, k: nat)
    requires k <= |fs|
    ensures AllReferences(refsOf, fs[..k]) <= AllReferences(refsOf, fs)
    decreases |fs| - k
  {
    if k == |fs| {
      assert fs[..k] == fs;
    } else {
      var init := fs[..|fs| - 1];
      assert init[..k] == fs[..k];
      AllReferencesPrefix(refsOf, init, k);
    }
  }

  /** In a loop state, the entry at a dequeued position j is found by its
      label, which is the root for j = 0 and otherwise a reference of the
      first j dequeued formulas. */
  lemma LabelAt(o: Ontology, refsOf: string -> seq<string>, root: string, acc: Resolution,
                done: seq<string>, queue: seq<string>, j: nat)
    requires Reachable(o, refsOf, root, acc, done, queue) && j < |done|
    ensures Entry(o, acc.labels[j]) == Success((acc.names[j], done[j]))
    ensures j == 0 ==> acc.labels[j] == root
    ensures j > 0 ==> (j - 1 < |AllReferences(refsOf, done[..j])|
                       && acc.labels[j] == AllReferences(refsOf, done[..j])[j - 1])
  {
    assert acc.formulas[j] == done[j];
    if j > 0 {
      AllReferencesPrefix(refsOf, done, j);
      assert acc.labels[j] == acc.labels[1..][j - 1];
    }
  }

  /** Two loop states from the same root agree on the formulas both have
      dequeued. */
  lemma {:induction false} ReachablePrefix(o: Ontology, refsOf: string -> seq<string>, root: string,
                                           acc1: Resolution, done1: seq<string>, queue1: seq<string>,
                                           acc2: Resolution, done2: seq<string>, queue2: seq<string>, k: nat)
    requires Reachable(o, refsOf, root, acc1, done1, queue1)
    requires Reachable(o, refsOf, root, acc2, done2, queue2)
    requires k <= |done1| && k <= |done2|
    ensures done1[..k] == done2[..k]
    decreases k
  {
    if k > 0 {
      var j := k - 1;
      ReachablePrefix(o, refsOf, root, acc1, done1, queue1, acc2, done2, queue2, j);
      LabelAt(o, refsOf, root, acc1, done1, queue1, j);
      LabelAt(o, refsOf, root, acc2, done2, queue2, j);
      assert acc1.labels[j] == acc2.labels[j];
      assert done1[..k] == done1[..j] + [done1[j]];
      assert done2[..k] == done2[..j] + [done2[j]];
    }
  }

  /** There is at most one loop state for each number of dequeues: the
      dequeued formulas, the worklist and the three lists are determined by
      the root. */
  lemma ReachableUnique(o: Ontology, refsOf: string -> seq<string>, root: string,
                        acc1: Resolution, done1: seq<string>, queue1: seq<string>,
                        acc2: Resolution, done2: seq<string>, queue2: seq<string>)
    requires Reachable(o, refsOf, root, acc1, done1, queue1)
    requires Reachable(o, refsOf, root, acc2, done2, queue2)
    requires |done1| == |done2|
    ensures done1 == done2 && acc1 == acc2 && queue1 == queue2
  {
    ReachablePrefix(o, refsOf, root, acc1, done1, queue1, acc2, done2, queue2, |done1|);
    assert done1 == done1[..|done1|] && done2 == done2[..|done2|];
    assert acc1.labels == [acc1.labels[0]] + acc1.labels[1..];
    assert acc2.labels == [acc2.labels[0]] + acc2.labels[1..];
    forall i | 0 <= i < |acc1.labels|
      ensures acc1.names[i] == acc2.names[i] && acc1.formulas[i] == acc2.formulas[i]
    {
      assert Entry(o, acc1.labels[i]) == Success((acc1.names[i], acc1.formulas[i]));
      assert Entry(o, acc2.labels[i]) == Success((acc2.names[i], acc2.formulas[i]));
    }
    assert acc1.names == acc2.names && acc1.formulas == acc2.formulas;
    assert queue1 == acc1.formulas[|done1|..];
    assert queue2 == acc2.formulas[|done2|..];
  }

  /** Every loop state after a dequeue comes from the state before it: that
      state's worklist starts with the last dequeued formula, and expanding
      that formula's references leads to the given state. */
  lemma ReachablePredecessor(o: Ontology, refsOf: string -> seq<string>, root: string, acc: Resolution,
                             done: seq<string>, queue: seq<string>) returns (acc0: Resolution, queue0: seq<string>)
    requires Reachable(o, refsOf, root, acc, done, queue) && done != []
    ensures Reachable(o, refsOf, root, acc0, done[..|done| - 1], queue0)
    ensures queue0 != [] && queue0[0] == done[|done| - 1]
    ensures Expand(o, refsOf(queue0[0]), acc0, queue0[1..]) == Success((acc, queue))
  {
    var d, g := done[..|done| - 1], done[|done| - 1];
    assert done == d + [g];
    AllReferencesSnoc(refsOf, d, g);
    var p := 1 + |AllReferences(refsOf, d)|;
    if d != [] {
      assert done[..|d|] == d;
    }
    acc0 := Resolution(acc.formulas[..p], acc.names[..p], acc.labels[..p]);
    queue0 := acc.formulas[|d|..p];
    assert acc.labels == acc0.labels + refsOf(g) by {
      assert acc.labels == [root] + AllReferences(refsOf, done);
    }
    PrefixOfAppend(acc0.labels, refsOf(g));
    SliceSplit(acc.formulas, |d|, p);
    assert acc.formulas[..|d|] == d;
    assert EntriesFound(o, acc0, 0) by {
      forall j | 0 <= j < p ensures Entry(o, acc0.labels[j]) == Success((acc0.names[j], acc0.formulas[j])) {
        assert Entry(o, acc.labels[j]) == Success((acc.names[j], acc.formulas[j]));
      }
    }
    assert Enqueued(refsOf, d) by {
      forall j | 1 <= j < |d| ensures j <= |AllReferences(refsOf, d[..j])| {
        assert done[..j] == d[..j];
      }
    }
    assert acc0.labels[1..] == AllReferences(refsOf, d);
    ExpandFill(o, refsOf(g), acc0, queue0[1..], acc);
    SliceSplit(acc.formulas, |d| + 1, p);
  }

  /** Every loop state is one the loop passes through: resolving the root with
      at least as much fuel as the state's dequeues is the same as continuing
      from that state with the fuel left. */
  lemma {:induction false} ReachableReached(o: Ontology, refsOf: string -> seq<string>, root: string, acc: Resolution,
                                            done: seq<string>, queue: seq<string>, fuel: nat)
    requires Reachable(o, refsOf, root, acc, done, queue) && |done| <= fuel
    ensures ResolveWith(o, refsOf, root, fuel) == Unroll(o, refsOf, queue, acc, fuel - |done|)
    decreases |done|
  {
    if done == [] {
      assert acc.labels == [root] by {
        assert acc.labels == [acc.labels[0]] + acc.labels[1..];
      }
      assert Entry(o, acc.labels[0]) == Success((acc.names[0], acc.formulas[0]));
      assert acc == Resolution([acc.formulas[0]], [acc.names[0]], [root]);
      assert queue == acc.formulas;
    } else {
      var acc0, queue0 := ReachablePredecessor(o, refsOf, root, acc, done, queue);
      ReachableReached(o, refsOf, root, acc0, done[..|done| - 1], queue0, fuel);
      UnrollDequeue(o, refsOf, queue0, acc0, fuel - (|done| - 1));
    }
  }

  /** A complete expansion is the loop state whose worklist is empty. */
  lemma ExpansionReachable(o: Ontology, refsOf: string -> seq<string>, root: string, r: Resolution)
    requires IsExpansion(o, refsOf, root, r)
    ensures Reachable(o, refsOf, root, r, r.formulas, [])
  {
    assert r.formulas + [] == r.formulas;
  }

  /** A complete expansion that is not longer than another is its prefix,
      and the references of that prefix fill all but its first position. */
  lemma ExpansionPrefix(o: Ontology, refsOf: string -> seq<string>, root: string, r1: Resolution, r2: Resolution)
    requires IsExpansion(o, refsOf, root, r1) && IsExpansion(o, refsOf, root, r2)
    requires |r1.formulas| <= |r2.formulas|
    ensures r2.formulas[..|r1.formulas|] == r1.formulas
    ensures |AllReferences(refsOf, r2.formulas[..|r1.formulas|])| == |r1.formulas| - 1
  {
    var m := |r1.formulas|;
    ExpansionReachable(o, refsOf, root, r1);
    ExpansionReachable(o, refsOf, root, r2);
    ReachablePrefix(o, refsOf, root, r1, r1.formulas, [], r2, r2.formulas, [], m);
    assert r1.formulas[..m] == r1.formulas;
  }

  /** No complete expansion of a root is a proper prefix of another: the
      shorter one has no reference left for the next formula of the longer. */
  lemma ExpansionNotShorter(o: Ontology, refsOf: string -> seq<string>, root: string, r1: Resolution, r2: Resolution)
    requires IsExpansion(o, refsOf, root, r1) && IsExpansion(o, refsOf, root, r2)
    ensures |r2.formulas| <= |r1.formulas|
  {
    if |r1.formulas| < |r2.formulas| {
      ExpansionPrefix(o, refsOf, root, r1, r2);
    }
  }

  /** A root has at most one complete expansion, so `IsExpansion` pins down
      the result of a successful `get_formulas`. */
  lemma ExpansionUnique(o: Ontology, refsOf: string -> seq<string>, root: string, r1: Resolution, r2: Resolution)
    requires IsExpansion(o, refsOf, root, r1) && IsExpansion(o, refsOf, root, r2)
    ensures r1 == r2
  {
    ExpansionNotShorter(o, refsOf, root, r1, r2);
    ExpansionNotShorter(o, refsOf, root, r2, r1);
    ExpansionReachable(o, refsOf, root, r1);
    ExpansionReachable(o, refsOf, root, r2);
    ReachableUnique(o, refsOf, root, r1, r1.formulas, [], r2, r2.formulas, []);
  }

  // ---------------------------------------------------------------------------
  // Failures.

  /** Looking up label l fails with e: no entity or several entities carry l,
      or the one entity carrying it has no parsable formula. */
  ghost predicate FailsOn(o: Ontology, l: string, e: ResolveError)
  {
    || (e == AmbiguousOrMissing(l) && |Search(o, l)| != 1)
    || (e.MissingFormula? && Lookup(o, l) == Some(e.name) && FirstFormula(o, e.name) == None)
  }

  /** The lookups of `refs`, made in order, first fail on one of its labels
      with e: every earlier label was found. */
  ghost predicate FirstFailure(o: Ontology, refs: seq<string>, e: ResolveError)
  {
    exists i :: 0 <= i < |refs| && (forall j :: 0 <= j < i ==> Entry(o, refs[j]).Success?) && FailsOn(o, refs[i], e)
  }

  /** What a failure of the worklist loop means, in terms of its states
      (`Reachable`, one per number of dequeues): after fewer than `bound`
      dequeues, a lookup failed on a reference of the formula at the head of
      the worklist, all earlier references of that formula having been found;
      or, for `OutOfFuel`, the state after `bound` dequeues still has a
      non-empty worklist. */
  ghost predicate LoopFailure(o: Ontology, refsOf: string -> seq<string>, root: string, e: ResolveError, bound: nat)
  {
    if e == OutOfFuel then
      exists acc, done, queue :: Reachable(o, refsOf, root, acc, done, queue) && queue != [] && |done| == bound
    else
      exists acc, done, queue :: Reachable(o, refsOf, root, acc, done, queue) && queue != [] && |done| < bound
        && FirstFailure(o, refsOf(queue[0]), e)
  }

  /** A lookup fails exactly on what the ontology says of its label: on the
      label itself when it is not carried by exactly one entity, otherwise on
      the entity found when it has no parsable formula. */
  lemma EntryExplained(o: Ontology, l: string)
    ensures Entry(o, l) == Failure(AmbiguousOrMissing(l)) <==> |Search(o, l)| != 1
    ensures Entry(o, l).Failure? ==> FailsOn(o, l, Entry(o, l).error)
    ensures Entry(o, l).Success? ==> Lookup(o, l) == Some(Entry(o, l).value.0)
  {
  }

  /** The inner loop fails on the first referenced label whose lookup fails. */
  lemma {:induction false} ExpandExplained(o: Ontology, refs: seq<string>, acc: Resolution, queue: seq<string>)
    ensures Expand(o, refs, acc, queue).Failure? ==> FirstFailure(o, refs, Expand(o, refs, acc, queue).error)
    decreases |refs|
  {
    var r := Expand(o, refs, acc, queue);
    if refs != [] && r.Failure? {
      EntryExplained(o, refs[0]);
      if Entry(o, refs[0]).Failure? {
        assert 0 < |refs| && FailsOn(o, refs[0], r.error);
      } else {
        var (n, f) := Entry(o, refs[0]).value;
        var acc' := Resolution(acc.formulas + [f], acc.names + [n], acc.labels + [refs[0]]);
        ExpandExplained(o, refs[1..], acc', queue + [f]);
        var i :| 0 <= i < |refs[1..]| && (forall j :: 0 <= j < i ==> Entry(o, refs[1..][j]).Success?)
          && FailsOn(o, refs[1..][i], r.error);
        assert forall j :: 0 <= j < i + 1 ==> Entry(o, refs[j]).Success? by {
          forall j | 0 <= j < i + 1 ensures Entry(o, refs[j]).Success? {
            if j > 0 {
              assert refs[j] == refs[1..][j - 1];
            }
          }
        }
        assert FailsOn(o, refs[i + 1], r.error);
      }
    }
  }

  /** Every failure of the worklist loop from one of its states is a lookup
      failing on a reference of a formula it dequeues, or the bound reached
      with formulas still waiting. */
  lemma {:induction false} UnrollExplained(o: Ontology, refsOf: string -> seq<string>, root: string, acc: Resolution,
                                           done: seq<string>, queue: seq<string>, fuel: nat)
    requires Reachable(o, refsOf, root, acc, done, queue)
    ensures var r := Unroll(o, refsOf, queue, acc, fuel);
      r.Failure? ==> LoopFailure(o, refsOf, root, r.error, |done| + fuel)
    decreases fuel
  {
    var r := Unroll(o, refsOf, queue, acc, fuel);
    if queue != [] && fuel == 0 {
      assert Reachable(o, refsOf, root, acc, done, queue) && |done| == |done| + fuel;
    } else if queue != [] {
      var refs := refsOf(queue[0]);
      var step := Expand(o, refs, acc, queue[1..]);
      assert r == Continue(o, refsOf, step, fuel - 1);
      ExpandExplained(o, refs, acc, queue[1..]);
      if step.Failure? {
        assert r.error != OutOfFuel;
        assert Reachable(o, refsOf, root, acc, done, queue) && |done| < |done| + fuel && FirstFailure(o, refs, r.error);
      } else {
        var (acc', queue') := step.value;
        ReachableStep(o, refsOf, root, acc, done, queue, acc', queue');
        UnrollExplained(o, refsOf, root, acc', done + [queue[0]], queue', fuel - 1);
      }
    }
  }

  /** Every failure of `get_formulas`: the root label fails its own lookup,
      a lookup fails on a reference met while unrolling (after the earlier
      references of the same formula were found), or `fuel` formulas were
      dequeued and some still wait. A root label not carried by exactly one
      entity fails on that label, with no partial result. */
  lemma ResolveExplained(o: Ontology, root: string, fuel: nat)
    ensures var r := Resolve(o, root, fuel);
      r.Failure? ==> FailsOn(o, root, r.error) || LoopFailure(o, ReferencedNames, root, r.error, fuel)
    ensures |Search(o, root)| != 1 ==> Resolve(o, root, fuel) == Failure(AmbiguousOrMissing(root))
  {
    EntryExplained(o, root);
    if Entry(o, root).Success? {
      var (n, f) := Entry(o, root).value;
      var acc := Resolution([f], [n], [root]);
      assert Reachable(o, ReferencedNames, root, acc, [], [f]);
      UnrollExplained(o, ReferencedNames, root, acc, [], [f], fuel);
    }
  }

  // ---------------------------------------------------------------------------
  // Fuel.

  lemma {:induction false} UnrollFuelMonotone(o: Ontology, refsOf: string -> seq<string>, queue: seq<string>,
                                              acc: Resolution, fuel: nat, more: nat)
    requires fuel <= more
    requires Unroll(o, refsOf, queue, acc, fuel) != Failure(OutOfFuel)
    ensures Unroll(o, refsOf, queue, acc, more) == Unroll(o, refsOf, queue, acc, fuel)
    decreases fuel
  {
    if queue != [] {
      var step := Expand(o, refsOf(queue[0]), acc, queue[1..]);
      if step.Success? {
        UnrollFuelMonotone(o, refsOf, step.value.1, step.value.0, fuel - 1, more - 1);
      }
    }
  }

  /** The fuel bound only cuts a resolution short: an outcome reached within
      some bound is the outcome under every larger bound. */
  lemma ResolveFuelMonotone(o: Ontology, root: string, fuel: nat, more: nat)
    requires fuel <= more
    requires Resolve(o, root, fuel) != Failure(OutOfFuel)
    ensures Resolve(o, root, more) == Resolve(o, root, fuel)
  {
    if Entry(o, root).Success? {
      var (n, f) := Entry(o, root).value;
      UnrollFuelMonotone(o, ReferencedNames, [f], Resolution([f], [n], [root]), fuel, more);
    }
  }

  // ---------------------------------------------------------------------------
  // Cycles.

  lemma {:induction false} UnrollSelfLoop(o: Ontology, refsOf: string -> seq<string>, l: string, n: Name, f: string,
                                          queue: seq<string>, acc: Resolution, fuel: nat)
    requires refsOf(f) == [l]
    requires Entry(o, l) == Success((n, f))
    requires queue != [] && forall i :: 0 <= i < |queue| ==> queue[i] == f
    ensures Unroll(o, refsOf, queue, acc, fuel) == Failure(OutOfFuel)
    decreases fuel
  {
    if fuel > 0 {
      var acc' := Resolution(acc.formulas + [f], acc.names + [n], acc.labels + [l]);
      assert Expand(o, [l], acc, queue[1..]) == Expand(o, [], acc', queue[1..] + [f]);
      UnrollSelfLoop(o, refsOf, l, n, f, queue[1..] + [f], acc', fuel - 1);
    }
  }

  /** A formula that is exactly the token of a name references that name alone. */
  lemma BareTokenReferences(l: string)
    requires l != [] && AllNameChars(l)
    ensures ReferencedNames(Render(Reference(l, "", "", ""))) == [l]
  {
    ReferencedNamesRender(Reference(l, "", "", ""), []);
    assert ReferencedNames([]) == [];
  }

  /** A KPI whose formula references its own label and nothing else (for
      instance, a formula that is exactly its own token) is never fully
      unrolled: the worklist never empties, whatever the bound. */
  lemma SelfReferenceNeverEnds(o: Ontology, l: string, n: Name, f: string, fuel: nat)
    requires Search(o, l) == {n}
    requires FirstFormula(o, n) == Some(f)
    requires ReferencedNames(f) == [l]
    ensures Resolve(o, l, fuel) == Failure(OutOfFuel)
  {
    UnrollSelfLoop(o, ReferencedNames, l, n, f, [f], Resolution([f], [n], [l]), fuel);
  }
}
