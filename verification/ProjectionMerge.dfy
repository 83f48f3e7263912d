/** Publishing a committed projection without undoing local edits
    (`publishCommittedProjection` in src/server/db/database.ts). */
module ProjectionMerge {
  import opened Wrappers

  /** A record: its id, empty when it has none, and its JSON text. */
  datatype Item = Item(id: string, json: string)

  type Data = map<string, seq<Item>>

  /** The entry of an id-keyed map built from the list: the last item with that id. */
  function Find(items: seq<Item>, id: string): Option<Item> {
    if items == [] then None
    else
      var n := |items| - 1;
      if items[n].id == id then Some(items[n]) else Find(items[..n], id)
  }

  predicate HasId(items: seq<Item>, id: string) { exists k :: 0 <= k < |items| && items[k].id == id }

  /** What the retained list makes of one current item. */
  function Outcome(before: seq<Item>, committed: seq<Item>, item: Item): seq<Item> {
    if item.id == "" || Find(before, item.id) != Some(item) then [item]
    else match Find(committed, item.id)
      case Some(replacement) => [replacement]
      case None => []
  }

  function Retained(before: seq<Item>, committed: seq<Item>, current: seq<Item>, n: nat): seq<Item>
    requires n <= |current|
  {
    if n == 0 then [] else Retained(before, committed, current, n - 1) + Outcome(before, committed, current[n - 1])
  }

  predicate IsNew(before: seq<Item>, current: seq<Item>, item: Item) {
    item.id != "" && !HasId(current, item.id) && !HasId(before, item.id)
  }

  function Added(before: seq<Item>, committed: seq<Item>, current: seq<Item>, n: nat): seq<Item>
    requires n <= |committed|
  {
    if n == 0 then []
    else
      Added(before, committed, current, n - 1)
      + (if IsNew(before, current, committed[n - 1]) then [committed[n - 1]] else [])
  }

  function Merge(before: seq<Item>, committed: seq<Item>, current: seq<Item>): seq<Item> {
    Retained(before, committed, current, |current|) + Added(before, committed, current, |committed|)
  }

  /** Only collections known to all three sides are merged. */
  function MergeAll(before: Data, committed: Data, current: Data): Data {
    map c | c in current :: if c in committed && c in before then Merge(before[c], committed[c], current[c])
        else current[c]
  }

  /** The merge while some committed collections are still to come. */
  function MergedBut(before: Data, committed: Data, current: Data, todo: set<string>): Data {
    map c | c in current :: if c in todo then current[c] else MergeAll(before, committed, current)[c]
  }

  lemma MergedEnds(before: Data, committed: Data, current: Data)
    ensures MergedBut(before, committed, current, committed.Keys) == current
    ensures MergedBut(before, committed, current, {}) == MergeAll(before, committed, current)
  {
    hide Merge;
  }

  lemma MergedStep(before: Data, committed: Data, current: Data, todo: set<string>, c: string)
    requires c in todo && c in committed
    ensures var m := MergedBut(before, committed, current, todo);
            && (c in m <==> c in current) && (c in current ==> m[c] == current[c])
            && MergedBut(before, committed, current, todo - {c}) ==
               if c in before && c in current then m[c := Merge(before[c], committed[c], current[c])] else m
  {
    hide Merge;
  }

  method MergeItems(before: seq<Item>, committed: seq<Item>, current: seq<Item>) returns (retained: seq<Item>)
    ensures retained == Merge(before, committed, current)
  {
    retained := [];
    for n := 0 to |current|
      invariant retained == Retained(before, committed, current, n)
    {
      var item := current[n];
      if item.id == "" || Find(before, item.id) != Some(item) {
        retained := retained + [item];
      } else {
        var replacement := Find(committed, item.id);
        if replacement.Some? { retained := retained + [replacement.value]; }
      }
    }
    ghost var kept := retained;
    for n := 0 to |committed|
      invariant retained == kept + Added(before, committed, current, n)
    {
      var item := committed[n];
      if item.id != "" && !HasId(current, item.id) && !HasId(before, item.id) {
        retained := retained + [item];
      }
    }
  }

  // ---------------------------------------------------------------------
  // The merge, id by id
  // ---------------------------------------------------------------------

  predicate UniqueIds(items: seq<Item>) {
    forall i, j :: 0 <= i < j < |items| && items[i].id != "" ==> items[i].id != items[j].id
  }

  lemma {:induction false} FindFacts(items: seq<Item>, id: string)
    ensures Find(items, id).Some? <==> HasId(items, id)
    ensures Find(items, id).Some? ==> Find(items, id).value in items && Find(items, id).value.id == id
  {
    if items != [] {
      var n := |items| - 1;
      FindFacts(items[..n], id);
      if items[n].id != id && HasId(items, id) {
        var k :| 0 <= k < |items| && items[k].id == id;
        assert items[..n][k].id == id;
      }
    }
  }

  lemma {:induction false} FindConcat(a: seq<Item>, b: seq<Item>, id: string)
    ensures Find(a + b, id) == if Find(b, id).Some? then Find(b, id) else Find(a, id)
  {
    if b == [] {
      assert a + b == a;
    } else {
      var n := |b| - 1;
      assert (a + b)[..|a + b| - 1] == a + b[..n];
      FindConcat(a, b[..n], id);
    }
  }

  lemma FindOne(item: Item, id: string)
    ensures Find([item], id) == if item.id == id then Some(item) else None
    ensures Find([], id) == None
  {
    assert [item][..0] == [];
  }

  lemma OutcomeFind(before: seq<Item>, committed: seq<Item>, item: Item, id: string)
    requires id != ""
    ensures Find(Outcome(before, committed, item), id)
            == if item.id != id then None
               else if Find(before, id) != Some(item) then Some(item) else Find(committed, id)
  {
    FindFacts(committed, item.id);
    FindOne(item, id);
    if Find(committed, item.id).Some? { FindOne(Find(committed, item.id).value, id); }
  }

  /** With unique ids, the last item of a prefix is the only one with its id. */
  lemma FindPrefix(items: seq<Item>, n: nat, id: string)
    requires 0 < n <= |items| && UniqueIds(items) && id != ""
    ensures Find(items[..n], id) == if items[n - 1].id == id then Some(items[n - 1]) else Find(items[..n - 1], id)
    ensures items[n - 1].id == id ==> Find(items[..n - 1], id).None?
  {
    assert items[..n][..n - 1] == items[..n - 1];
    FindFacts(items[..n - 1], id);
    assert forall k :: 0 <= k < n - 1 ==> items[..n - 1][k] == items[k];
  }

  /** Local outcome for an edited item, committed outcome for an untouched one. */
  function Decide(current: Option<Item>, before: Option<Item>, committed: Option<Item>): Option<Item> {
    if current.None? then None else if current != before then current else committed
  }

  lemma DecideOneMore(item: Item, id: string, prefix: Option<Item>, before: Option<Item>,
                      committed: Option<Item>, next: Option<Item>)
    requires item.id == id ==> prefix.None?
    requires next == if item.id != id then None else if before != Some(item) then Some(item) else committed
    ensures (if next.Some? then next else Decide(prefix, before, committed))
            == Decide(if item.id == id then Some(item) else prefix, before, committed)
  {}

  /** The list holds under the id what is decided from the current items. */
  ghost predicate FindsDecided(kept: seq<Item>, items: seq<Item>, before: Option<Item>,
                               committed: Option<Item>, id: string) {
    Find(kept, id) == Decide(Find(items, id), before, committed)
  }

  lemma FindsDecidedStep(before: seq<Item>, committed: seq<Item>, current: seq<Item>, n: nat,
                         kept: seq<Item>, id: string)
    requires n < |current| && UniqueIds(current) && id != ""
    requires FindsDecided(kept, current[..n], Find(before, id), Find(committed, id), id)
    ensures FindsDecided(kept + Outcome(before, committed, current[n]), current[..n + 1],
                         Find(before, id), Find(committed, id), id)
  {
    var item := current[n];
    var next := Outcome(before, committed, item);
    FindPrefix(current, n + 1, id);
    OutcomeFind(before, committed, item, id);
    FindConcat(kept, next, id);
    hide Find, Outcome, UniqueIds, HasId, Decide;
    DecideOneMore(item, id, Find(current[..n], id), Find(before, id), Find(committed, id), Find(next, id));
  }

  lemma {:induction false} RetainedFind(before: seq<Item>, committed: seq<Item>, current: seq<Item>, n: nat, id: string)
    requires n <= |current| && UniqueIds(current) && id != ""
    ensures FindsDecided(Retained(before, committed, current, n), current[..n],
                         Find(before, id), Find(committed, id), id)
  {
    if n == 0 {
      assert current[..0] == [];
    } else {
      RetainedFind(before, committed, current, n - 1, id);
      hide FindsDecided, Outcome, UniqueIds, Find;
      FindsDecidedStep(before, committed, current, n - 1, Retained(before, committed, current, n - 1), id);
    }
  }

  /** The added list holds under an unknown id what the committed items hold. */
  ghost predicate FindsAdded(added: seq<Item>, items: seq<Item>, known: bool, id: string) {
    Find(added, id) == if known then None else Find(items, id)
  }

  lemma FindSnoc(items: seq<Item>, item: Item, id: string)
    ensures Find(items + [item], id) == if item.id == id then Some(item) else Find(items, id)
  {
    assert (items + [item])[..|items|] == items;
  }

  lemma FindsAddedStep(before: seq<Item>, committed: seq<Item>, current: seq<Item>, n: nat,
                       added: seq<Item>, id: string)
    requires n < |committed| && id != ""
    requires FindsAdded(added, committed[..n], HasId(current, id) || HasId(before, id), id)
    ensures FindsAdded(added + (if IsNew(before, current, committed[n]) then [committed[n]] else []),
                       committed[..n + 1],
                       HasId(current, id) || HasId(before, id), id)
  {
    var item := committed[n];
    assert committed[..n + 1] == committed[..n] + [item];
    hide Find, HasId;
    FindSnoc(committed[..n], item, id);
    if IsNew(before, current, item) {
      FindSnoc(added, item, id);
    } else {
      assert added + [] == added;
    }
  }

  lemma {:induction false} AddedFind(before: seq<Item>, committed: seq<Item>, current: seq<Item>, n: nat, id: string)
    requires n <= |committed| && id != ""
    ensures FindsAdded(Added(before, committed, current, n), committed[..n],
                       HasId(current, id) || HasId(before, id), id)
  {
    if n == 0 {
      assert committed[..0] == [];
    } else {
      AddedFind(before, committed, current, n - 1, id);
      hide FindsAdded, HasId, IsNew;
      FindsAddedStep(before, committed, current, n - 1, Added(before, committed, current, n - 1), id);
    }
  }

  /** Three-way merge: an id changed, added or deleted locally keeps its local outcome, every other id takes the
      committed one. */
  lemma MergeIsThreeWay(before: seq<Item>, committed: seq<Item>, current: seq<Item>, id: string)
    requires UniqueIds(current) && id != ""
    ensures Find(Merge(before, committed, current), id)
            == if Find(current, id) != Find(before, id) then Find(current, id) else Find(committed, id)
  {
    RetainedFind(before, committed, current, |current|, id);
    AddedFind(before, committed, current, |committed|, id);
    FindConcat(Retained(before, committed, current, |current|), Added(before, committed, current, |committed|), id);
    assert current[..|current|] == current && committed[..|committed|] == committed;
    FindFacts(current, id);
    FindFacts(before, id);
  }

  // ---------------------------------------------------------------------
  // Uniqueness and order
  // ---------------------------------------------------------------------

  lemma UniqueConcat(a: seq<Item>, b: seq<Item>)
    requires UniqueIds(a) && UniqueIds(b)
    requires forall x, y :: x in a && y in b && x.id != "" ==> x.id != y.id
    ensures UniqueIds(a + b)
  {}

  lemma OutcomeIds(before: seq<Item>, committed: seq<Item>, item: Item)
    ensures |Outcome(before, committed, item)| <= 1
    ensures forall x :: x in Outcome(before, committed, item) ==> x.id == item.id
  {
    FindFacts(committed, item.id);
    hide Find;
  }

  lemma HasIdNext(items: seq<Item>, n: nat, id: string)
    requires n < |items|
    ensures HasId(items[..n + 1], id) <==> HasId(items[..n], id) || items[n].id == id
  {
    assert items[..n + 1] == items[..n] + [items[n]];
    if HasId(items[..n], id) {
      var k :| 0 <= k < n && items[..n][k].id == id;
      assert items[..n + 1][k].id == id;
    }
    if items[n].id == id { assert items[..n + 1][n].id == id; }
  }

  lemma NewId(items: seq<Item>, n: nat)
    requires n < |items| && UniqueIds(items) && items[n].id != ""
    ensures !HasId(items[..n], items[n].id)
  {
    assert forall k :: 0 <= k < n ==> items[..n][k] == items[k];
  }

  /** Unique ids, all of them found among the given items. */
  ghost predicate IdsWithin(list: seq<Item>, items: seq<Item>) {
    UniqueIds(list) && forall x :: x in list && x.id != "" ==> HasId(items, x.id)
  }

  lemma IdsWithinStep(list: seq<Item>, next: seq<Item>, items: seq<Item>, n: nat)
    requires n < |items| && UniqueIds(items) && IdsWithin(list, items[..n])
    requires |next| <= 1 && forall x :: x in next ==> x.id == items[n].id
    ensures IdsWithin(list + next, items[..n + 1])
  {
    if items[n].id != "" { NewId(items, n); }
    assert UniqueIds(next);
    hide HasId, UniqueIds;
    forall x, y | x in list && y in next && x.id != "" ensures x.id != y.id {}
    UniqueConcat(list, next);
    forall x | x in list + next && x.id != "" ensures HasId(items[..n + 1], x.id) { HasIdNext(items, n, x.id); }
  }

  lemma {:induction false} RetainedIds(before: seq<Item>, committed: seq<Item>, current: seq<Item>, n: nat)
    requires n <= |current| && UniqueIds(current)
    ensures IdsWithin(Retained(before, committed, current, n), current[..n])
  {
    if n > 0 {
      RetainedIds(before, committed, current, n - 1);
      OutcomeIds(before, committed, current[n - 1]);
      hide IdsWithin, Outcome, UniqueIds;
      IdsWithinStep(Retained(before, committed, current, n - 1), Outcome(before, committed, current[n - 1]),
                    current, n - 1);
    }
  }

  ghost predicate AllNew(list: seq<Item>, before: seq<Item>, current: seq<Item>) {
    forall x :: x in list ==> IsNew(before, current, x)
  }

  lemma {:induction false} AddedIds(before: seq<Item>, committed: seq<Item>, current: seq<Item>, n: nat)
    requires n <= |committed| && UniqueIds(committed)
    ensures IdsWithin(Added(before, committed, current, n), committed[..n])
    ensures AllNew(Added(before, committed, current, n), before, current)
  {
    if n > 0 {
      AddedIds(before, committed, current, n - 1);
      var a, item := Added(before, committed, current, n - 1), committed[n - 1];
      var last := if IsNew(before, current, item) then [item] else [];
      assert AllNew(a + last, before, current);
      hide IdsWithin, AllNew, IsNew, UniqueIds;
      IdsWithinStep(a, last, committed, n - 1);
    }
  }

  lemma MergeKeepsIdsUnique(before: seq<Item>, committed: seq<Item>, current: seq<Item>)
    requires UniqueIds(current) && UniqueIds(committed)
    ensures UniqueIds(Merge(before, committed, current))
  {
    RetainedIds(before, committed, current, |current|);
    AddedIds(before, committed, current, |committed|);
    assert current[..|current|] == current;
    UniqueConcat(Retained(before, committed, current, |current|), Added(before, committed, current, |committed|));
  }

  /** Same items by id. */
  ghost predicate SameById(a: seq<Item>, b: seq<Item>) {
    forall id :: id != "" ==> Find(a, id) == Find(b, id)
  }

  /** Without local edits the merge is the committed projection. */
  lemma NoLocalEdits(before: seq<Item>, committed: seq<Item>, current: seq<Item>)
    requires UniqueIds(current) && SameById(current, before)
    ensures SameById(Merge(before, committed, current), committed)
  {
    forall id | id != "" ensures Find(Merge(before, committed, current), id) == Find(committed, id) {
      MergeIsThreeWay(before, committed, current, id);
    }
  }

  lemma {:induction false} NothingCommitted(before: seq<Item>, committed: seq<Item>, current: seq<Item>, n: nat)
    requires n <= |current| && SameById(committed, before)
    ensures Retained(before, committed, current, n) == current[..n]
  {
    if n > 0 {
      NothingCommitted(before, committed, current, n - 1);
      assert current[..n] == current[..n - 1] + [current[n - 1]];
      var item := current[n - 1];
      if item.id != "" { assert Find(committed, item.id) == Find(before, item.id); }
    }
  }

  lemma {:induction false} NothingAdded(before: seq<Item>, committed: seq<Item>, current: seq<Item>, n: nat)
    requires n <= |committed| && SameById(committed, before)
    ensures Added(before, committed, current, n) == []
  {
    if n > 0 {
      NothingAdded(before, committed, current, n - 1);
      var item := committed[n - 1];
      FindFacts(committed, item.id);
      FindFacts(before, item.id);
      assert HasId(committed, item.id);
      if item.id != "" { assert Find(committed, item.id) == Find(before, item.id); }
    }
  }

  /** When nothing was committed, the current list comes back unchanged, order included. */
  lemma NoCommittedChange(before: seq<Item>, committed: seq<Item>, current: seq<Item>)
    requires SameById(committed, before)
    ensures Merge(before, committed, current) == current
  {
    NothingCommitted(before, committed, current, |current|);
    NothingAdded(before, committed, current, |committed|);
    assert current[..|current|] == current;
  }

  /** The items without an id, in order. */
  function Anonymous(items: seq<Item>): seq<Item> {
    if items == [] then []
    else
      var n := |items| - 1;
      Anonymous(items[..n]) + (if items[n].id == "" then [items[n]] else [])
  }

  lemma {:induction false} AnonymousConcat(a: seq<Item>, b: seq<Item>)
    ensures Anonymous(a + b) == Anonymous(a) + Anonymous(b)
  {
    if b == [] {
      assert a + b == a;
    } else {
      var n := |b| - 1;
      assert (a + b)[..|a + b| - 1] == a + b[..n];
      AnonymousConcat(a, b[..n]);
    }
  }

  lemma AnonymousOne(item: Item)
    ensures Anonymous([item]) == if item.id == "" then [item] else []
  {
    assert [item][..0] == [];
  }

  ghost predicate SameAnonymous(a: seq<Item>, b: seq<Item>) { Anonymous(a) == Anonymous(b) }

  lemma AnonymousOutcome(before: seq<Item>, committed: seq<Item>, item: Item)
    ensures SameAnonymous(Outcome(before, committed, item), [item])
  {
    FindFacts(committed, item.id);
    AnonymousOne(item);
    if item.id != "" && Find(committed, item.id).Some? { AnonymousOne(Find(committed, item.id).value); }
    hide Anonymous;
    assert Outcome(before, committed, item) == [] ==> Anonymous([item]) == [];
  }

  lemma AnonymousJoin(a: seq<Item>, b: seq<Item>, c: seq<Item>, d: seq<Item>)
    requires SameAnonymous(a, c) && SameAnonymous(b, d)
    ensures SameAnonymous(a + b, c + d)
  {
    AnonymousConcat(a, b);
    AnonymousConcat(c, d);
  }

  lemma {:induction false} AnonymousRetained(before: seq<Item>, committed: seq<Item>, current: seq<Item>, n: nat)
    requires n <= |current|
    ensures SameAnonymous(Retained(before, committed, current, n), current[..n])
  {
    if n == 0 {
      assert current[..0] == [];
    } else {
      AnonymousRetained(before, committed, current, n - 1);
      AnonymousOutcome(before, committed, current[n - 1]);
      assert current[..n] == current[..n - 1] + [current[n - 1]];
      hide SameAnonymous, Outcome;
      AnonymousJoin(Retained(before, committed, current, n - 1), Outcome(before, committed, current[n - 1]),
                    current[..n - 1], [current[n - 1]]);
    }
  }

  lemma {:induction false} AnonymousNone(items: seq<Item>)
    requires forall x :: x in items ==> x.id != ""
    ensures Anonymous(items) == []
  {
    if items != [] {
      var n := |items| - 1;
      assert items[n] in items;
      AnonymousNone(items[..n]);
    }
  }

  /** Items without an id are never dropped, duplicated or moved past each other. */
  lemma MergeKeepsAnonymous(before: seq<Item>, committed: seq<Item>, current: seq<Item>)
    requires UniqueIds(committed)
    ensures Anonymous(Merge(before, committed, current)) == Anonymous(current)
  {
    AnonymousRetained(before, committed, current, |current|);
    AddedIds(before, committed, current, |committed|);
    AnonymousNone(Added(before, committed, current, |committed|));
    AnonymousConcat(Retained(before, committed, current, |current|), Added(before, committed, current, |committed|));
    assert current[..|current|] == current;
  }
}
