/** The validator's pass over a document, and what acceptance means: the invocation facts and the state
    of the primary tree determine every other field. */
module AggregateValidator {
  import opened AggregateEvidence
  import opened SortedText

  function IdSet(invocations: seq<Invocation>): set<string> {
    set i | 0 <= i < |invocations| :: invocations[i].registration.id
  }

  lemma IdSetOfConcat(a: seq<Invocation>, b: seq<Invocation>)
    ensures IdSet(a + b) == IdSet(a) + IdSet(b)
    ensures ToolDigests(a + b) == ToolDigests(a) + ToolDigests(b)
  {
    var ab := a + b;
    forall i | 0 <= i < |a| ensures ab[i] == a[i] {}
    forall i | 0 <= i < |b| ensures ab[|a| + i] == b[i] {}
    assert forall x :: x in IdSet(a) ==> x in IdSet(ab);
    assert forall x :: x in IdSet(b) ==> x in IdSet(ab) by {
      forall x | x in IdSet(b) ensures x in IdSet(ab) {
        var i :| 0 <= i < |b| && b[i].registration.id == x;
        assert ab[|a| + i].registration.id == x;
      }
    }
    assert forall x :: x in ToolDigests(b) ==> x in ToolDigests(ab) by {
      forall x | x in ToolDigests(b) ensures x in ToolDigests(ab) {
        var i :| 0 <= i < |b| && b[i].toolDigest == x;
        assert ab[|a| + i].toolDigest == x;
      }
    }
  }

  lemma DistinctConcat(a: seq<Invocation>, b: seq<Invocation>)
    ensures Distinct(a + b) <==> Distinct(a) && Distinct(b) && IdSet(a) !! IdSet(b)
  {
    var ab := a + b;
    if Distinct(ab) {
      assert forall i | 0 <= i < |a| :: ab[i] == a[i];
      assert forall i | 0 <= i < |b| :: ab[|a| + i] == b[i];
      forall x | x in IdSet(a) ensures x !in IdSet(b) {
        var i :| 0 <= i < |a| && a[i].registration.id == x;
        forall j | 0 <= j < |b| ensures b[j].registration.id != x {
          assert ab[i].registration.id != ab[|a| + j].registration.id;
        }
      }
    }
    if Distinct(a) && Distinct(b) && IdSet(a) !! IdSet(b) {
      forall i, j | 0 <= i < j < |ab| ensures ab[i].registration.id != ab[j].registration.id {
        if i < |a| {
          assert a[i].registration.id in IdSet(a);
          if j >= |a| { assert b[j - |a|].registration.id in IdSet(b); }
        }
      }
    }
  }

  lemma {:induction false} AllInvocationsPrefix(children: seq<Child>, c: nat)
    requires c < |children|
    ensures AllInvocations(children[..c + 1]) == AllInvocations(children[..c]) + children[c].invocations
    ensures AllInvocations(children[..c + 1]) <= AllInvocations(children)
    decreases |children| - c
  {
    assert children[..c + 1][..c] == children[..c];
    if c + 1 == |children| {
      assert children[..c + 1] == children;
    } else {
      AllInvocationsPrefix(children, c + 1);
    }
  }

  lemma DistinctPrefix(a: seq<Invocation>, all: seq<Invocation>)
    requires a <= all && Distinct(all)
    ensures Distinct(a)
  {
    assert forall i | 0 <= i < |a| :: a[i] == all[i];
  }

  lemma RepeatedId(invocations: seq<Invocation>, i: nat, ids: set<string>)
    requires i < |invocations| && invocations[i].registration.id in ids + IdSet(invocations[..i])
    ensures !(Distinct(invocations) && IdSet(invocations) !! ids)
  {
    var id := invocations[i].registration.id;
    assert id in IdSet(invocations);
    if id !in ids {
      var j :| 0 <= j < i && invocations[..i][j].registration.id == id;
      assert invocations[j].registration.id == invocations[i].registration.id;
    }
  }

  /** The first c children are as registered and no invocation id repeats among them. */
  ghost predicate CheckedUpTo(registry: Registry, e: Evidence, c: nat)
    requires c <= |e.children| == |registry.children|
  {
    && Distinct(AllInvocations(e.children[..c]))
    && (forall d | 0 <= d < c ::
          ChildFits(e.children[d], registry.children[d], e.baselineRevision, e.baselineTreeDigest))
  }

  lemma NextChild(registry: Registry, e: Evidence, c: nat)
    requires c < |e.children| == |registry.children| && CheckedUpTo(registry, e, c)
    ensures var child, before := e.children[c], AllInvocations(e.children[..c]);
            var after := AllInvocations(e.children[..c + 1]);
            && (CheckedUpTo(registry, e, c + 1) <==>
                  && ChildFits(child, registry.children[c], e.baselineRevision, e.baselineTreeDigest)
                  && Distinct(child.invocations) && IdSet(child.invocations) !! IdSet(before))
            && IdSet(after) == IdSet(before) + IdSet(child.invocations)
            && ToolDigests(after) == ToolDigests(before) + ToolDigests(child.invocations)
  {
    AllInvocationsPrefix(e.children, c);
    IdSetOfConcat(AllInvocations(e.children[..c]), e.children[c].invocations);
    DistinctConcat(AllInvocations(e.children[..c]), e.children[c].invocations);
  }

  lemma NextItems(children: seq<Child>, c: nat)
    requires c < |children|
    ensures InvocationItems(children[..c + 1])
            == InvocationItems(children[..c]) + ChildItems(children[c].id, children[c].invocations)
  {
    assert children[..c + 1][..c] == children[..c];
  }

  lemma FittingChildrenCheck(registry: Registry, e: Evidence, c: nat)
    requires c <= |e.children| == |registry.children| && ChildrenFit(registry, e)
    ensures CheckedUpTo(registry, e, c)
  {
    if c > 0 { AllInvocationsPrefix(e.children, c - 1); }
    DistinctPrefix(AllInvocations(e.children[..c]), AllInvocations(e.children));
  }

  // ---------------------------------------------------------------- the validator

  /** The answers about children and their invocations. */
  predicate AboutChildren(v: Verdict) {
    v.ChildrenInvalid? || v.InvocationsInvalid? || v.InvocationFactsInvalid? || v.ChildOutcomeInvalid?
  }

  /** One child: its registration, its invocations in order, its outcome. `ids` are the invocation ids
      met so far. */
  method CheckChild(child: Child, registered: RegisteredChild, revision: string, treeDigest: string, ids: set<string>)
    returns (verdict: Verdict)
    ensures verdict == Valid <==>
            && ChildFits(child, registered, revision, treeDigest)
            && Distinct(child.invocations) && IdSet(child.invocations) !! ids
    ensures verdict == Valid || (AboutChildren(verdict) && verdict != ChildrenInvalid)
    ensures verdict == ChildOutcomeInvalid ==> child.summary != ChildSummary(child.invocations)
    ensures verdict == InvocationFactsInvalid ==>
              |child.invocations| == |registered.invocations|
              && exists i :: 0 <= i < |child.invocations|
                             && !FactsFit(child.invocations[i], registered.invocations[i], revision, treeDigest)
  {
    if !ChildShapeFits(child, registered) { return InvocationsInvalid; }
    var seen := ids;
    for i := 0 to |child.invocations|
      invariant seen == ids + IdSet(child.invocations[..i])
      invariant Distinct(child.invocations[..i]) && IdSet(child.invocations[..i]) !! ids
      invariant forall j | 0 <= j < i ::
                  InvocationFits(child.invocations[j], registered.invocations[j], revision, treeDigest)
    {
      var observed := child.invocations[i];
      assert child.invocations[..i + 1] == child.invocations[..i] + [observed];
      IdSetOfConcat(child.invocations[..i], [observed]);
      DistinctConcat(child.invocations[..i], [observed]);
      assert IdSet([observed]) == {observed.registration.id};
      if observed.registration.id in seen {
        RepeatedId(child.invocations, i, ids);
        return InvocationsInvalid;
      }
      if !RegistrationFits(observed.registration, registered.invocations[i]) { return InvocationsInvalid; }
      seen := seen + {observed.registration.id};
      if !FactsFit(observed, registered.invocations[i], revision, treeDigest) { return InvocationFactsInvalid; }
    }
    assert child.invocations[..|child.invocations|] == child.invocations;
    return if child.summary == ChildSummary(child.invocations) then Valid else ChildOutcomeInvalid;
  }

  /** All children in registry order, collecting the items they give rise to. */
  method CheckChildren(registry: Registry, e: Evidence) returns (verdict: Verdict, derivedItems: seq<Item>)
    ensures verdict == Valid <==> ChildrenFit(registry, e)
    ensures verdict == ChildrenInvalid <==> |e.children| != |registry.children|
    ensures verdict == Valid || AboutChildren(verdict)
    ensures verdict == Valid ==> derivedItems == InvocationItems(e.children)
  {
    derivedItems := [];
    if |e.children| != |registry.children| { return ChildrenInvalid, derivedItems; }
    var invocationIds: set<string> := {};
    var toolDigests: set<string> := {};
    for c := 0 to |e.children|
      invariant derivedItems == InvocationItems(e.children[..c])
      invariant invocationIds == IdSet(AllInvocations(e.children[..c]))
      invariant toolDigests == ToolDigests(AllInvocations(e.children[..c]))
      invariant CheckedUpTo(registry, e, c)
    {
      var child := e.children[c];
      NextChild(registry, e, c);
      NextItems(e.children, c);
      verdict := CheckChild(child, registry.children[c], e.baselineRevision, e.baselineTreeDigest, invocationIds);
      if verdict != Valid {
        if ChildrenFit(registry, e) { FittingChildrenCheck(registry, e, c + 1); }
        return;
      }
      invocationIds := invocationIds + IdSet(child.invocations);
      toolDigests := toolDigests + ToolDigests(child.invocations);
      derivedItems := derivedItems + ChildItems(child.id, child.invocations);
    }
    assert e.children[..|e.children|] == e.children;
    verdict := if |toolDigests| == 1 then Valid else InvocationFactsInvalid;
  }

  /** The answer for the first derived section that does not fit. */
  function FirstMisfit(items: bool, rollup: bool, cleanup: bool, terminal: bool, storage: bool): (v: Verdict)
    ensures v == Valid <==> items && rollup && cleanup && terminal && storage
    ensures !AboutChildren(v) && v != SchemaInvalid && v != RegistryInvalid
  {
    if !items then ItemsInvalid
    else if !rollup then RollupInvalid
    else if !cleanup then CleanupInvalid
    else if !terminal then TerminalInvalid
    else if !storage then StorageInvalid
    else Valid
  }

  function FirstMismatch(registry: Registry, e: Evidence): Verdict {
    FirstMisfit(ItemsFit(registry, e), RollupSectionFits(e), CleanupSectionFits(e), TerminalSectionFits(registry, e),
                e.retainedFieldNames == RETAINED_FIELDS)
  }

  /** The items of the known gaps follow those of the invocations. */
  method AddGapItems(registry: Registry, invocationItems: seq<Item>) returns (derivedItems: seq<Item>)
    ensures derivedItems == invocationItems + GapItems(registry.gaps)
  {
    derivedItems := invocationItems;
    for g := 0 to |registry.gaps|
      invariant derivedItems == invocationItems + GapItems(registry.gaps[..g])
    {
      derivedItems := derivedItems + [GapItem(registry.gaps[g])];
    }
    assert registry.gaps[..|registry.gaps|] == registry.gaps;
  }

  method CheckTerminal(registry: Registry, e: Evidence) returns (ok: bool)
    ensures ok <==> TerminalSectionFits(registry, e)
  {
    var terminal := DerivedTerminal(e.children, e.cleanup, |registry.gaps| > 0);
    var exitCode := AggregateExit(terminal);
    return e.terminal == terminal && e.exitCode == exitCode && e.terminalReason == ReasonFor(exitCode);
  }

  /** Compares the derived sections in order; each answer names the first that differs. */
  method CheckDerivations(registry: Registry, e: Evidence, invocationItems: seq<Item>) returns (verdict: Verdict)
    requires invocationItems == InvocationItems(e.children)
    ensures verdict == FirstMismatch(registry, e)
  {
    var derivedItems := AddGapItems(registry, invocationItems);
    if e.items != derivedItems { return ItemsInvalid; }
    var derivedRollup := FileItems(derivedItems);
    if e.rollup != derivedRollup { return RollupInvalid; }
    if e.cleanup != ExpectedCleanup(e.children, e.cleanup.primaryTreeUnchanged) { return CleanupInvalid; }
    var ok := CheckTerminal(registry, e);
    if !ok { return TerminalInvalid; }
    return if e.retainedFieldNames == RETAINED_FIELDS then Valid else StorageInvalid;
  }

  /** Accepts a document exactly when everything in it that can be derived is what was derived, and otherwise
      says which part failed first. */
  method ValidateEvidence(registry: Registry, e: Evidence) returns (verdict: Verdict)
    ensures verdict == Valid <==> Accepted(registry, e)
    ensures verdict == SchemaInvalid <==> !SchemaFits(e)
    ensures verdict == RegistryInvalid <==> SchemaFits(e) && e.registryDigest != registry.digest
    ensures SchemaFits(e) && e.registryDigest == registry.digest ==>
              && (verdict == ChildrenInvalid <==> |e.children| != |registry.children|)
              && (ChildrenFit(registry, e) <==> !AboutChildren(verdict))
              && (ChildrenFit(registry, e) ==> verdict == FirstMismatch(registry, e))
  {
    if !SchemaFits(e) { return SchemaInvalid; }
    if e.registryDigest != registry.digest { return RegistryInvalid; }
    var derivedItems;
    verdict, derivedItems := CheckChildren(registry, e);
    if verdict != Valid { return; }
    verdict := CheckDerivations(registry, e, derivedItems);
  }

  // ---------------------------------------------------------------- evidence is determined by its facts

  lemma {:induction false} SomeChildRan(children: seq<Child>)
    requires AllInvocations(children) != []
    ensures exists c :: 0 <= c < |children| && children[c].invocations != []
  {
    var last := |children| - 1;
    if children[last].invocations == [] {
      SomeChildRan(children[..last]);
      var c :| 0 <= c < last && children[..last][c].invocations != [];
      assert children[c].invocations != [];
    }
  }

  lemma SameInvocationsSameChildren(registry: Registry, a: Evidence, b: Evidence)
    requires ChildrenFit(registry, a) && ChildrenFit(registry, b)
    requires forall c | 0 <= c < |registry.children| :: a.children[c].invocations == b.children[c].invocations
    ensures a.children == b.children
    ensures a.baselineRevision == b.baselineRevision && a.baselineTreeDigest == b.baselineTreeDigest
  {
    forall c | 0 <= c < |registry.children| ensures a.children[c] == b.children[c] {
      assert ChildFits(a.children[c], registry.children[c], a.baselineRevision, a.baselineTreeDigest);
      assert ChildFits(b.children[c], registry.children[c], b.baselineRevision, b.baselineTreeDigest);
    }
    assert a.children == b.children;
    assert ToolDigests([]) == {};
    SomeChildRan(a.children);
    var c :| 0 <= c < |a.children| && a.children[c].invocations != [];
    assert InvocationFits(a.children[c].invocations[0], registry.children[c].invocations[0],
                          a.baselineRevision, a.baselineTreeDigest);
    assert InvocationFits(b.children[c].invocations[0], registry.children[c].invocations[0],
                          b.baselineRevision, b.baselineTreeDigest);
  }

  /** Two accepted documents with equal invocation facts and an equal primary-tree flag are equal in
      every field. */
  lemma EvidenceIsDetermined(registry: Registry, a: Evidence, b: Evidence)
    requires Accepted(registry, a) && Accepted(registry, b)
    requires a.cleanup.primaryTreeUnchanged == b.cleanup.primaryTreeUnchanged
    requires forall c | 0 <= c < |registry.children| :: a.children[c].invocations == b.children[c].invocations
    ensures a == b
  {
    SameInvocationsSameChildren(registry, a, b);
  }

  // ---------------------------------------------------------------- the roll-up is a partition

  function Ids(items: seq<Item>): (ids: seq<string>)
    ensures |ids| == |items|
    ensures forall i :: 0 <= i < |items| ==> ids[i] == items[i].id
  {
    seq(|items|, i requires 0 <= i < |items| => items[i].id)
  }

  /** How often an id is listed under one of the conclusions. */
  function Listed(items: seq<Item>, conclusions: set<Conclusion>, id: string): nat {
    if items == [] then 0
    else
      var last := items[|items| - 1];
      Listed(items[..|items| - 1], conclusions, id) + (if last.conclusion in conclusions && last.id == id then 1 else 0)
  }

  lemma {:induction false} ListedIsMultiplicity(items: seq<Item>, conclusion: Conclusion, id: string)
    ensures multiset(Sort(IdsWith(items, conclusion)))[id] == Listed(items, {conclusion}, id)
  {
    if items != [] { ListedIsMultiplicity(items[..|items| - 1], conclusion, id); }
  }

  predicate IsFiled(item: Item, conclusion: Conclusion, id: string) {
    item.conclusion == conclusion && item.id == id
  }

  /** Where the items with the id and the conclusion are. */
  function Places(items: seq<Item>, conclusion: Conclusion, id: string): set<nat> {
    set i: nat | i < |items| && IsFiled(items[i], conclusion, id)
  }

  /** How many items have the id and the conclusion. */
  function Count(items: seq<Item>, conclusion: Conclusion, id: string): nat {
    |Places(items, conclusion, id)|
  }

  lemma OneMorePlace(front: seq<Item>, last: Item, conclusion: Conclusion, id: string)
    ensures Places(front + [last], conclusion, id)
            == Places(front, conclusion, id) + if IsFiled(last, conclusion, id) then {|front|} else {}
    ensures |front| !in Places(front, conclusion, id)
  {
    assert forall i: nat | i < |front| :: (front + [last])[i] == front[i];
    assert (front + [last])[|front|] == last;
  }

  lemma OneMoreCounts(front: seq<Item>, last: Item, conclusion: Conclusion, id: string)
    ensures Count(front + [last], conclusion, id)
            == Count(front, conclusion, id) + if IsFiled(last, conclusion, id) then 1 else 0
  {
    OneMorePlace(front, last, conclusion, id);
  }

  lemma {:induction false} ListedIsCount(items: seq<Item>, conclusion: Conclusion, id: string)
    ensures Listed(items, {conclusion}, id) == Count(items, conclusion, id)
  {
    if items != [] {
      var last := |items| - 1;
      ListedIsCount(items[..last], conclusion, id);
      OneMoreCounts(items[..last], items[last], conclusion, id);
      assert items[..last] + [items[last]] == items;
    }
  }

  /** Every list holds each id exactly as often as an item with that id has the list's own conclusion. */
  ghost predicate FiledByConclusion(items: seq<Item>, r: Rollup) {
    forall id: string ::
      && multiset(r.assured)[id] == Count(items, Assured, id)
      && multiset(r.blocked)[id] == Count(items, Blocked, id)
      && multiset(r.incomplete)[id] == Count(items, Incomplete, id)
      && multiset(r.survived)[id] == Count(items, Survived, id)
      && multiset(r.unqualified)[id] == Count(items, Unqualified, id)
  }

  lemma RollupFiles(items: seq<Item>)
    ensures FiledByConclusion(items, RollupOf(items))
  {
    forall id: string, conclusion: Conclusion
      ensures multiset(Sort(IdsWith(items, conclusion)))[id] == Count(items, conclusion, id)
    {
      ListedIsMultiplicity(items, conclusion, id);
      ListedIsCount(items, conclusion, id);
    }
  }

  lemma {:induction false} ListedApart(items: seq<Item>, a: set<Conclusion>, b: set<Conclusion>, id: string)
    requires a !! b
    ensures Listed(items, a + b, id) == Listed(items, a, id) + Listed(items, b, id)
  {
    if items != [] { ListedApart(items[..|items| - 1], a, b, id); }
  }

  const CONCLUSIONS: set<Conclusion> := {Assured, Blocked, Incomplete, Survived, Unqualified}

  lemma {:induction false} EveryIdIsListed(items: seq<Item>, id: string)
    ensures Listed(items, CONCLUSIONS, id) == multiset(Ids(items))[id]
  {
    if items != [] {
      EveryIdIsListed(items[..|items| - 1], id);
      assert items[|items| - 1].conclusion in CONCLUSIONS by {
        match items[|items| - 1].conclusion
        case Assured => case Blocked => case Incomplete => case Survived => case Unqualified =>
      }
      assert Ids(items) == Ids(items[..|items| - 1]) + [items[|items| - 1].id];
    }
  }

  lemma ConclusionsPartition(items: seq<Item>, id: string)
    ensures Listed(items, {Assured}, id) + Listed(items, {Blocked}, id) + Listed(items, {Incomplete}, id)
            + Listed(items, {Survived}, id) + Listed(items, {Unqualified}, id) == multiset(Ids(items))[id]
  {
    EveryIdIsListed(items, id);
    ListedApart(items, {Assured}, {Blocked}, id);
    ListedApart(items, {Assured} + {Blocked}, {Incomplete}, id);
    ListedApart(items, {Assured} + {Blocked} + {Incomplete}, {Survived}, id);
    ListedApart(items, {Assured} + {Blocked} + {Incomplete} + {Survived}, {Unqualified}, id);
    assert {Assured} + {Blocked} + {Incomplete} + {Survived} + {Unqualified} == CONCLUSIONS;
  }

  lemma RollupCounts(items: seq<Item>, id: string)
    ensures var r := RollupOf(items);
            multiset(r.assured)[id] + multiset(r.blocked)[id] + multiset(r.incomplete)[id]
            + multiset(r.survived)[id] + multiset(r.unqualified)[id] == multiset(Ids(items))[id]
  {
    ConclusionsPartition(items, id);
    ListedIsMultiplicity(items, Assured, id);
    ListedIsMultiplicity(items, Blocked, id);
    ListedIsMultiplicity(items, Incomplete, id);
    ListedIsMultiplicity(items, Survived, id);
    ListedIsMultiplicity(items, Unqualified, id);
  }

  lemma RollupIsSorted(items: seq<Item>)
    ensures var r := RollupOf(items);
            && Sorted(r.assured) && Sorted(r.blocked) && Sorted(r.incomplete)
            && Sorted(r.survived) && Sorted(r.unqualified)
  {
    SortSorts(IdsWith(items, Assured));
    SortSorts(IdsWith(items, Blocked));
    SortSorts(IdsWith(items, Incomplete));
    SortSorts(IdsWith(items, Survived));
    SortSorts(IdsWith(items, Unqualified));
  }

  /** An accepted roll-up files every item id under its own conclusion exactly as often as it occurs, in
      five sorted lists that together hold every id as often as it occurs. */
  lemma RollupIsASortedPartition(registry: Registry, e: Evidence, id: string)
    requires Accepted(registry, e)
    ensures FiledByConclusion(e.items, e.rollup)
    ensures var r := e.rollup;
            && multiset(r.assured)[id] + multiset(r.blocked)[id] + multiset(r.incomplete)[id]
               + multiset(r.survived)[id] + multiset(r.unqualified)[id] == multiset(Ids(e.items))[id]
            && Sorted(r.assured) && Sorted(r.blocked) && Sorted(r.incomplete)
            && Sorted(r.survived) && Sorted(r.unqualified)
  {
    RollupFiles(e.items);
    RollupCounts(e.items, id);
    RollupIsSorted(e.items);
  }
}
