/**
 The current branch of a conversation: the walk from a leaf to its root through parent links that may be dangling or cyclic,
 and what splicing a message out of the tree does to it.
 */
module BranchSelection {
  import opened Wrappers

  type MessageId = string

  /** A message row as branch selection reads it; a missing or blank parent is None. */
  datatype Row = Row(id: MessageId, parent: Option<MessageId>, isAssistant: bool)

  type Parents = map<MessageId, Option<MessageId>>

  // ---------------------------------------------------------------- the walk

  /** From the cursor up to the first row without a known parent, or already visited; root first. */
  function Climb(parents: Parents, cursor: MessageId, visited: set<MessageId>): seq<MessageId>
    requires cursor in parents
    decreases |parents.Keys - visited|
  {
    if cursor in visited then []
    else
      assert parents.Keys - (visited + {cursor}) < parents.Keys - visited by {
        assert cursor in parents.Keys - visited;
      }
      SmallerSet(parents.Keys - (visited + {cursor}), parents.Keys - visited);
      var parent := parents[cursor];
      if parent.Some? && parent.value in parents then Climb(parents, parent.value, visited + {cursor}) + [cursor]
      else [cursor]
  }

  lemma SmallerSet<T>(s: set<T>, t: set<T>)
    requires s < t
    ensures |s| < |t|
  {
    var rest := t - s;
    assert t == s + rest && rest != {};
  }

  function Branch(parents: Parents, leaf: MessageId): seq<MessageId>
    requires leaf in parents
  {
    Climb(parents, leaf, {})
  }

  predicate IsRoot(parents: Parents, x: MessageId)
    requires x in parents
  {
    parents[x].None? || parents[x].value !in parents
  }

  /** Each row's parent is the row before it, and the last row is the leaf. */
  predicate IsChain(parents: Parents, leaf: MessageId, b: seq<MessageId>) {
    && b != [] && b[|b| - 1] == leaf
    && (forall i :: 0 <= i < |b| ==> b[i] in parents)
    && (forall i :: 0 < i < |b| ==> parents[b[i]] == Some(b[i - 1]))
  }

  /** A duplicate-free chain that could not be continued: its first row has no known parent, or one that is in the chain. */
  predicate IsBranch(parents: Parents, leaf: MessageId, b: seq<MessageId>) {
    IsChain(parents, leaf, b) && Distinct(b) && (IsRoot(parents, b[0]) || parents[b[0]].value in b)
  }

  predicate IsRootPath(parents: Parents, leaf: MessageId, b: seq<MessageId>) {
    IsChain(parents, leaf, b) && IsRoot(parents, b[0])
  }

  ghost predicate Acyclic(parents: Parents) {
    forall x :: x in parents ==> exists b: seq<MessageId> :: IsRootPath(parents, x, b)
  }

  lemma RootPathOf(parents: Parents, x: MessageId) returns (b: seq<MessageId>)
    requires Acyclic(parents) && x in parents
    ensures IsRootPath(parents, x, b)
  {
    b :| IsRootPath(parents, x, b);
  }

  /** Every parent link leads to a known message of lesser age. */
  predicate Descends(parents: Parents, ages: map<MessageId, nat>) {
    && parents.Keys <= ages.Keys
    && forall x <- parents :: parents[x].Some? ==> parents[x].value in parents && ages[parents[x].value] < ages[x]
  }

  lemma {:induction false} DescendsToRoot(parents: Parents, ages: map<MessageId, nat>, x: MessageId) returns (b: seq<MessageId>)
    requires Descends(parents, ages) && x in parents
    ensures IsRootPath(parents, x, b)
    decreases ages[x]
  {
    b := [];
    if parents[x].Some? {
      b := DescendsToRoot(parents, ages, parents[x].value);
    }
    b := b + [x];
  }

  lemma DescendingIsAcyclic(parents: Parents, ages: map<MessageId, nat>)
    requires Descends(parents, ages)
    ensures Acyclic(parents)
  {
    forall x | x in parents ensures exists b: seq<MessageId> :: IsRootPath(parents, x, b) {
      var b := DescendsToRoot(parents, ages, x);
    }
  }

  lemma {:induction false} AncestorsAreOlder(parents: Parents, ages: map<MessageId, nat>, b: seq<MessageId>, k: nat)
    requires Descends(parents, ages) && k < |b| && (forall i :: 0 <= i < |b| ==> b[i] in parents)
    requires forall i :: 0 < i < |b| ==> parents[b[i]] == Some(b[i - 1])
    ensures ages[b[k]] <= ages[b[|b| - 1]]
    decreases |b| - k
  {
    if k + 1 < |b| {
      AncestorsAreOlder(parents, ages, b, k + 1);
    }
  }

  /** A message that is no younger than another does not lie above it. */
  lemma YoungerIsNotAbove(parents: Parents, ages: map<MessageId, nat>, a: MessageId, p: MessageId)
    requires Descends(parents, ages) && a in parents && p in parents && ages[p] < ages[a]
    ensures a !in Branch(parents, p)
  {
    var b := Branch(parents, p);
    SelectionIsBranch(parents, p);
    if a in b {
      var k :| 0 <= k < |b| && b[k] == a;
      AncestorsAreOlder(parents, ages, b, k);
    }
  }

  lemma {:induction false} ClimbIsChain(parents: Parents, cursor: MessageId, visited: set<MessageId>)
    requires cursor in parents && cursor !in visited
    ensures var b := Climb(parents, cursor, visited);
      && IsChain(parents, cursor, b) && Distinct(b) && (forall x <- b :: x !in visited)
      && (IsRoot(parents, b[0]) || parents[b[0]].value in b || parents[b[0]].value in visited)
    decreases |parents.Keys - visited|
  {
    var parent := parents[cursor];
    if parent.Some? && parent.value in parents {
      if parent.value in visited + {cursor} {
        assert Climb(parents, parent.value, visited + {cursor}) == [];
        assert Climb(parents, cursor, visited) == [cursor];
      } else {
        assert cursor in parents.Keys - visited;
        SmallerSet(parents.Keys - (visited + {cursor}), parents.Keys - visited);
        ClimbIsChain(parents, parent.value, visited + {cursor});
        var above := Climb(parents, parent.value, visited + {cursor});
        var b := above + [cursor];
        assert Climb(parents, cursor, visited) == b;
        assert forall x <- b :: x in above || x == cursor;
        assert parents[b[0]].Some? && parents[b[0]].value in visited + {cursor} ==>
          parents[b[0]].value in visited || b[|b| - 1] == parents[b[0]].value;
      }
    }
  }

  /** On any parent map, cycles included, the walk yields a branch ending in the leaf. */
  lemma SelectionIsBranch(parents: Parents, leaf: MessageId)
    requires leaf in parents
    ensures IsBranch(parents, leaf, Branch(parents, leaf))
  {
    ClimbIsChain(parents, leaf, {});
  }

  /** Two chains to one leaf agree, counted from the leaf. */
  lemma {:induction false} ChainsAgree(parents: Parents, leaf: MessageId, b: seq<MessageId>, c: seq<MessageId>, k: nat)
    requires IsChain(parents, leaf, b) && IsChain(parents, leaf, c)
    requires k < |b| && k < |c|
    ensures b[|b| - 1 - k] == c[|c| - 1 - k]
  {
    if k > 0 {
      ChainsAgree(parents, leaf, b, c, k - 1);
    }
  }

  lemma LongerChainRepeats(parents: Parents, leaf: MessageId, b: seq<MessageId>, c: seq<MessageId>)
    requires IsBranch(parents, leaf, b) && IsChain(parents, leaf, c) && |b| < |c|
    ensures !Distinct(c)
  {
    var first := |c| - |b|;
    ChainsAgree(parents, leaf, b, c, |b| - 1);
    assert c[first] == b[0] && parents[c[first]] == Some(c[first - 1]);
    assert c[first - 1] in b;
    var i :| 0 <= i < |b| && b[i] == c[first - 1];
    ChainsAgree(parents, leaf, b, c, |b| - 1 - i);
    assert c[first + i] == c[first - 1];
  }

  /** A leaf has one branch: being a duplicate-free chain that cannot be continued determines the selection. */
  lemma BranchIsUnique(parents: Parents, leaf: MessageId, b: seq<MessageId>, c: seq<MessageId>)
    requires IsBranch(parents, leaf, b) && IsBranch(parents, leaf, c)
    ensures b == c
  {
    if |b| < |c| {
      LongerChainRepeats(parents, leaf, b, c);
    } else if |c| < |b| {
      LongerChainRepeats(parents, leaf, c, b);
    }
    forall i | 0 <= i < |b| ensures b[i] == c[i] {
      ChainsAgree(parents, leaf, b, c, |b| - 1 - i);
    }
  }

  lemma {:induction false} RootPathIsDistinct(parents: Parents, leaf: MessageId, b: seq<MessageId>, i: nat, j: nat)
    requires IsRootPath(parents, leaf, b) && i < j < |b|
    ensures b[i] != b[j]
    decreases i
  {
    assert parents[b[j]] == Some(b[j - 1]);
    if i > 0 {
      RootPathIsDistinct(parents, leaf, b, i - 1, j - 1);
    }
  }

  /** Where a path to a root exists, the selection is that whole path. */
  lemma SelectionIsRootPath(parents: Parents, leaf: MessageId, b: seq<MessageId>)
    requires leaf in parents && IsRootPath(parents, leaf, b)
    ensures Branch(parents, leaf) == b && Distinct(b)
  {
    forall i, j | 0 <= i < j < |b| ensures b[i] != b[j] {
      RootPathIsDistinct(parents, leaf, b, i, j);
    }
    SelectionIsBranch(parents, leaf);
    BranchIsUnique(parents, leaf, Branch(parents, leaf), b);
  }

  // ---------------------------------------------------------------- the source's loop

  /** `new Map(rows.map(...))`: of rows with one id the last wins. */
  function ById(rows: seq<Row>): (m: map<MessageId, Row>)
    ensures forall id :: id in m ==> m[id].id == id && m[id] in rows
    ensures forall row <- rows :: row.id in m
    decreases |rows|
  {
    if rows == [] then map[]
    else
      var last := rows[|rows| - 1];
      ById(rows[..|rows| - 1])[last.id := last]
  }

  function ParentsOf(rows: seq<Row>): Parents {
    var byId := ById(rows);
    map id | id in byId :: byId[id].parent
  }

  function Reversed<T>(s: seq<T>): (r: seq<T>)
    ensures |r| == |s| && forall i :: 0 <= i < |s| ==> r[i] == s[|s| - 1 - i]
  {
    seq(|s|, i requires 0 <= i < |s| => s[|s| - 1 - i])
  }

  function Ids(rows: seq<Row>): (ids: seq<MessageId>)
    ensures |ids| == |rows| && forall i :: 0 <= i < |rows| ==> ids[i] == rows[i].id
  {
    seq(|rows|, i requires 0 <= i < |rows| => rows[i].id)
  }

  lemma ClimbOnce(parents: Parents, cursor: MessageId, visited: set<MessageId>)
    requires cursor in parents
    ensures cursor in visited ==> Climb(parents, cursor, visited) == []
    ensures cursor !in visited && IsRoot(parents, cursor) ==> Climb(parents, cursor, visited) == [cursor]
    ensures cursor !in visited && !IsRoot(parents, cursor) ==>
      Climb(parents, cursor, visited) == Climb(parents, parents[cursor].value, visited + {cursor}) + [cursor]
  {
  }

  lemma PushIsPrepend(branch: seq<Row>, row: Row)
    ensures Reversed(Ids(branch + [row])) == [row.id] + Reversed(Ids(branch))
  {
  }

  /** selectCurrentBranchRows: all rows when the leaf is unknown, otherwise the rows of the leaf's branch. */
  method SelectCurrentBranchRows(rows: seq<Row>, leaf: Option<MessageId>) returns (selected: seq<Row>)
    ensures leaf.None? || leaf.value !in ById(rows) ==> selected == rows
    ensures leaf.Some? && leaf.value in ById(rows) ==>
      Ids(selected) == Branch(ParentsOf(rows), leaf.value)
      && forall row <- selected :: row.id in ById(rows) && row == ById(rows)[row.id]
  {
    hide Climb, ById, Reversed, Ids;
    if leaf.None? || |rows| == 0 {
      return rows;
    }
    var byId := ById(rows);
    if leaf.value !in byId {
      return rows;
    }
    ghost var parents := ParentsOf(rows);
    ghost var whole := Branch(parents, leaf.value);
    var branch: seq<Row> := [];
    var visited: set<MessageId> := {};
    var cursor := Some(byId[leaf.value]);
    assert Reversed(Ids(branch)) == [];
    while cursor.Some?
      invariant forall row <- branch :: row.id in byId && row == byId[row.id]
      invariant cursor.Some? ==> cursor.value.id in byId && cursor.value == byId[cursor.value.id]
      invariant visited <= byId.Keys
      invariant cursor.Some? ==> whole == Climb(parents, cursor.value.id, visited) + Reversed(Ids(branch))
      invariant cursor.None? ==> whole == Reversed(Ids(branch))
      decreases byId.Keys - visited, cursor.Some?
    {
      var row := cursor.value;
      ClimbOnce(parents, row.id, visited);
      if row.id in visited {
        break;
      }
      PushIsPrepend(branch, row);
      visited := visited + {row.id};
      branch := branch + [row];
      if row.parent.None? {
        break;
      }
      cursor := if row.parent.value in byId then Some(byId[row.parent.value]) else None;
    }
    assert whole == Reversed(Ids(branch));
    selected := Reversed(branch);
    assert Ids(selected) == Reversed(Ids(branch));
  }

  // ---------------------------------------------------------------- the active assistant shell

  function FindRow(rows: seq<Row>, id: MessageId): (r: Option<Row>)
    ensures r.Some? ==> r.value in rows && r.value.id == id
    ensures r.None? ==> forall row <- rows :: row.id != id
  {
    if rows == [] then None else if rows[0].id == id then Some(rows[0]) else FindRow(rows[1..], id)
  }

  /** includeActiveAssistantShell. */
  function IncludeActiveAssistantShell(branch: seq<Row>, rows: seq<Row>, active: Option<MessageId>): seq<Row> {
    if active.None? || FindRow(branch, active.value).Some? then branch
    else
      var shell := FindRow(rows, active.value);
      if shell.None? || !shell.value.isAssistant then branch
      else if shell.value.parent.None? || branch == [] || branch[|branch| - 1].id != shell.value.parent.value then branch
      else branch + [shell.value]
  }

  predicate IsRowChain(rows: seq<Row>) {
    && (forall i :: 0 < i < |rows| ==> rows[i].parent == Some(rows[i - 1].id))
    && (forall i, j :: 0 <= i < j < |rows| ==> rows[i].id != rows[j].id)
  }

  /** Adding the shell of the answer being written keeps a branch a chain; it adds that one row or nothing. */
  lemma ShellKeepsChain(branch: seq<Row>, rows: seq<Row>, active: Option<MessageId>)
    requires IsRowChain(branch)
    ensures var r := IncludeActiveAssistantShell(branch, rows, active);
      && IsRowChain(r) && branch <= r && |r| <= |branch| + 1
      && (active.Some? && FindRow(branch, active.value).Some? ==> r == branch)
      && (|r| > |branch| ==> r[|branch|].id == active.value && r[|branch|] in rows && r[|branch|].isAssistant)
  {
    var r := IncludeActiveAssistantShell(branch, rows, active);
    if r != branch {
      assert forall i :: 0 <= i < |branch| ==> branch[i] in branch;
    }
  }

  lemma {:induction false} FindsTheFirst(rows: seq<Row>, id: MessageId, k: nat)
    requires k < |rows| && rows[k].id == id && forall j :: 0 <= j < k ==> rows[j].id != id
    ensures FindRow(rows, id) == Some(rows[k])
  {
    if k > 0 {
      FindsTheFirst(rows[1..], id, k - 1);
    }
  }

  /** The shell is added exactly when it is not on the branch, is there, is an assistant's, and hangs below the end of the branch. */
  lemma ShellIsAddedIff(branch: seq<Row>, rows: seq<Row>, id: MessageId, k: nat)
    requires k < |rows| && rows[k].id == id && forall j :: 0 <= j < k ==> rows[j].id != id
    ensures IncludeActiveAssistantShell(branch, rows, Some(id)) ==
      if (forall row <- branch :: row.id != id) && rows[k].isAssistant && branch != [] && rows[k].parent == Some(branch[|branch| - 1].id)
      then branch + [rows[k]]
      else branch
  {
    FindsTheFirst(rows, id, k);
  }

  // ---------------------------------------------------------------- splicing

  /** The children of a become children of p. */
  function Spliced(parents: Parents, a: MessageId, p: MessageId): (r: Parents)
    ensures r.Keys == parents.Keys
  {
    map x | x in parents :: if parents[x] == Some(a) then Some(p) else parents[x]
  }

  function Without(b: seq<MessageId>, a: MessageId): seq<MessageId> {
    if b == [] then [] else (if b[0] == a then [] else [b[0]]) + Without(b[1..], a)
  }

  lemma {:induction false} WithoutAbsent(b: seq<MessageId>, a: MessageId)
    requires a !in b
    ensures Without(b, a) == b
  {
    if b != [] {
      WithoutAbsent(b[1..], a);
    }
  }

  lemma {:induction false} WithoutOnce(b: seq<MessageId>, a: MessageId, i: nat)
    requires Distinct(b) && i < |b| && b[i] == a
    ensures Without(b, a) == b[..i] + b[i + 1..]
  {
    if i == 0 {
      assert a !in b[1..];
      WithoutAbsent(b[1..], a);
    } else {
      WithoutOnce(b[1..], a, i - 1);
      assert b[..i] + b[i + 1..] == [b[0]] + (b[1..][..i - 1] + b[1..][i..]);
    }
  }

  /** A branch that does not pass through the hidden message, or ends in it, is not touched. */
  lemma SpliceLeavesOthers(parents: Parents, a: MessageId, p: MessageId, leaf: MessageId, b: seq<MessageId>)
    requires a in parents && IsRootPath(parents, leaf, b) && (a !in b || leaf == a)
    ensures IsRootPath(Spliced(parents, a, p), leaf, b)
  {
    SelectionIsRootPath(parents, leaf, b);
    var after := Spliced(parents, a, p);
    forall i | 0 < i < |b| ensures after[b[i]] == parents[b[i]] {
      assert b[i - 1] in b;
      assert b[i - 1] != b[|b| - 1];
    }
  }

  /** The new parent is the right one: the hidden message's own, or an unknown one for a message without known parent. */
  predicate FitsParent(parents: Parents, a: MessageId, p: MessageId)
    requires a in parents
  {
    if p in parents then parents[a] == Some(p) else IsRoot(parents, a)
  }

  /** The heart of hiding: below the hidden message, the branch loses exactly that message if and only if the new parent fits. */
  lemma SpliceRemovesExactly(parents: Parents, a: MessageId, p: MessageId, leaf: MessageId, b: seq<MessageId>)
    requires IsRootPath(parents, leaf, b) && a in b && leaf != a
    ensures IsRootPath(Spliced(parents, a, p), leaf, Without(b, a)) <==> FitsParent(parents, a, p)
  {
    SelectionIsRootPath(parents, leaf, b);
    var after := Spliced(parents, a, p);
    var i :| 0 <= i < |b| && b[i] == a;
    WithoutOnce(b, a, i);
    var w := b[..i] + b[i + 1..];
    assert parents[b[i + 1]] == Some(a) && w[i] == b[i + 1];
    forall j | 0 <= j < |b| && j != i + 1 ensures after[b[j]] == parents[b[j]] {
      if j > 0 {
        assert b[j - 1] != b[i];
      }
    }
    assert after[w[i]] == Some(p);
    assert i > 0 ==> w[i - 1] == b[i - 1] && parents[a] == Some(b[i - 1]);
    if FitsParent(parents, a, p) {
      assert forall j :: 0 < j < |w| ==> after[w[j]] == Some(w[j - 1]);
    }
  }

  /** Moving the children of a below p makes no circle: p does not hang below a. */
  predicate MayAdopt(parents: Parents, a: MessageId, p: MessageId) {
    p !in parents || p == a || a !in Branch(parents, p)
  }

  /** Below the hidden message, a root path is replaced by the new parent's root path as far as the message. */
  lemma SplicedPath(parents: Parents, a: MessageId, p: MessageId, leaf: MessageId, b: seq<MessageId>, i: nat, above: seq<MessageId>)
    requires IsRootPath(parents, leaf, b) && i + 1 < |b| && b[i] == a
    requires IsRootPath(parents, p, above) && a !in above
    ensures IsRootPath(Spliced(parents, a, p), leaf, above + b[i + 1..])
  {
    SelectionIsRootPath(parents, leaf, b);
    var after, c := Spliced(parents, a, p), above + b[i + 1..];
    forall k | 0 < k < |c| ensures after[c[k]] == Some(c[k - 1]) {
      if k < |above| {
        assert parents[above[k]] == Some(above[k - 1]) && above[k - 1] in above;
      } else {
        var m := k - |above| + i + 1;
        assert c[k] == b[m] && parents[b[m]] == Some(b[m - 1]);
      }
    }
    assert IsRoot(after, above[0]);
  }

  lemma OrphanedPath(parents: Parents, a: MessageId, p: MessageId, leaf: MessageId, b: seq<MessageId>, i: nat)
    requires IsRootPath(parents, leaf, b) && i + 1 < |b| && b[i] == a && p !in parents
    ensures IsRootPath(Spliced(parents, a, p), leaf, b[i + 1..])
  {
    SelectionIsRootPath(parents, leaf, b);
    var after, c := Spliced(parents, a, p), b[i + 1..];
    forall k | 0 < k < |c| ensures after[c[k]] == Some(c[k - 1]) {
      assert c[k] == b[k + i + 1] && parents[b[k + i + 1]] == Some(b[k + i]) && b[k + i] != b[i];
    }
  }

  /** Splicing keeps the parent relation acyclic if and only if the new parent does not hang below the hidden message. */
  lemma SpliceKeepsAcyclicIff(parents: Parents, a: MessageId, p: MessageId)
    requires Acyclic(parents) && a in parents
    ensures Acyclic(Spliced(parents, a, p)) <==> MayAdopt(parents, a, p)
  {
    hide Acyclic, Branch;
    if p == a {
      assert Spliced(parents, a, p) == parents;
    } else if MayAdopt(parents, a, p) {
      AdoptionKeepsAcyclic(parents, a, p);
    } else {
      var b := RootPathOf(parents, p);
      SelectionIsRootPath(parents, p, b);
      if Acyclic(Spliced(parents, a, p)) {
        var c := RootPathOf(Spliced(parents, a, p), p);
        CircleBelow(parents, a, p, b, c);
      }
    }
  }

  lemma AdoptionKeepsAcyclic(parents: Parents, a: MessageId, p: MessageId)
    requires Acyclic(parents) && a in parents && MayAdopt(parents, a, p) && p != a
    ensures Acyclic(Spliced(parents, a, p))
  {
    hide Branch, IsRootPath, MayAdopt;
    forall x | x in parents ensures exists b: seq<MessageId> :: IsRootPath(Spliced(parents, a, p), x, b) {
      var b := AdoptedPath(parents, a, p, x);
    }
  }

  lemma AdoptedPath(parents: Parents, a: MessageId, p: MessageId, x: MessageId) returns (c: seq<MessageId>)
    requires Acyclic(parents) && a in parents && MayAdopt(parents, a, p) && p != a && x in parents
    ensures IsRootPath(Spliced(parents, a, p), x, c)
  {
    hide Acyclic;
    c := RootPathOf(parents, x);
    if a !in c || x == a {
      SpliceLeavesOthers(parents, a, p, x, c);
    } else {
      var i :| 0 <= i < |c| && c[i] == a;
      if p in parents {
        var above := RootPathOf(parents, p);
        SelectionIsRootPath(parents, p, above);
        SplicedPath(parents, a, p, x, c, i, above);
        c := above + c[i + 1..];
      } else {
        OrphanedPath(parents, a, p, x, c, i);
        c := c[i + 1..];
      }
    }
  }

  /** If it does, the part of its path that lies below the hidden message closes to a circle. */
  lemma CircleBelow(parents: Parents, a: MessageId, p: MessageId, b: seq<MessageId>, c: seq<MessageId>)
    requires a in parents && p in parents && p != a && IsRootPath(parents, p, b) && a in b
    ensures !IsRootPath(Spliced(parents, a, p), p, c)
  {
    hide Branch;
    var after := Spliced(parents, a, p);
    SelectionIsRootPath(parents, p, b);
    var i :| 0 <= i < |b| && b[i] == a;
    var circle := b[i + 1..];
    forall k | 0 < k < |circle| ensures after[circle[k]] == Some(circle[k - 1]) {
      assert circle[k] == b[k + i + 1] && parents[b[k + i + 1]] == Some(b[k + i]) && b[k + i] != b[i];
    }
    assert parents[circle[0]] == Some(b[i]);
    assert after[circle[0]] == Some(p) && circle[|circle| - 1] == p;
    assert IsBranch(after, p, circle);
    if IsRootPath(after, p, c) {
      SelectionIsRootPath(after, p, c);
      BranchIsUnique(after, p, circle, c);
    }
  }

  /** The hidden message's own parent never hangs below it. */
  lemma OwnParentMayAdopt(parents: Parents, a: MessageId, p: MessageId)
    requires Acyclic(parents) && a in parents && FitsParent(parents, a, p)
    ensures MayAdopt(parents, a, p)
  {
    hide Acyclic;
    if p in parents {
      var b := RootPathOf(parents, a);
      SelectionIsRootPath(parents, a, b);
      assert |b| > 1 && parents[b[|b| - 1]] == Some(b[|b| - 2]);
      var above := b[..|b| - 1];
      assert IsRootPath(parents, p, above);
      SelectionIsRootPath(parents, p, above);
    }
  }

  lemma SplicedDescends(parents: Parents, ages: map<MessageId, nat>, a: MessageId, p: MessageId)
    requires Descends(parents, ages) && a in parents && p in parents && ages[p] < ages[a]
    ensures Descends(Spliced(parents, a, p), ages)
  {
  }

  /** What every branch is after splicing, whichever parent was remembered. */
  lemma SplicedBranch(parents: Parents, a: MessageId, p: MessageId, leaf: MessageId)
    requires Acyclic(parents) && a in parents && p in parents && a !in Branch(parents, p) && leaf in parents
    ensures var b, c := Branch(parents, leaf), Branch(Spliced(parents, a, p), leaf);
      && (a !in b || leaf == a ==> c == b)
      && (forall i :: 0 <= i < |b| && b[i] == a && leaf != a ==> c == Branch(parents, p) + b[i + 1..])
  {
    hide Acyclic, Branch;
    var b := RootPathOf(parents, leaf);
    var above := RootPathOf(parents, p);
    SelectionIsRootPath(parents, leaf, b);
    SelectionIsRootPath(parents, p, above);
    var after := Spliced(parents, a, p);
    if a !in b || leaf == a {
      SpliceLeavesOthers(parents, a, p, leaf, b);
      SelectionIsRootPath(after, leaf, b);
    } else {
      forall i | 0 <= i < |b| && b[i] == a ensures Branch(after, leaf) == above + b[i + 1..] {
        SplicedPath(parents, a, p, leaf, b, i, above);
        SelectionIsRootPath(after, leaf, above + b[i + 1..]);
      }
    }
  }

  /** Splicing and selecting commute, for every leaf but the hidden message itself. */
  lemma SpliceCommutesWithSelection(parents: Parents, a: MessageId, p: MessageId, leaf: MessageId)
    requires Acyclic(parents) && a in parents && FitsParent(parents, a, p) && leaf in parents && leaf != a
    ensures Branch(Spliced(parents, a, p), leaf) == Without(Branch(parents, leaf), a)
  {
    hide Acyclic;
    var b := RootPathOf(parents, leaf);
    SelectionIsRootPath(parents, leaf, b);
    if a in b {
      SpliceRemovesExactly(parents, a, p, leaf, b);
      SelectionIsRootPath(Spliced(parents, a, p), leaf, Without(b, a));
    } else {
      WithoutAbsent(b, a);
      SpliceLeavesOthers(parents, a, p, leaf, b);
      SelectionIsRootPath(Spliced(parents, a, p), leaf, b);
    }
  }

  /** The branch of a message's parent is the message's branch without the message. */
  lemma ParentBranch(parents: Parents, a: MessageId, p: MessageId)
    requires Acyclic(parents) && a in parents && parents[a] == Some(p) && p in parents
    ensures Branch(parents, p) == Without(Branch(parents, a), a)
  {
    hide Branch, Without, Acyclic;
    var b := RootPathOf(parents, a);
    SelectionIsRootPath(parents, a, b);
    assert |b| > 1 && parents[b[|b| - 1]] == Some(b[|b| - 2]);
    var above := b[..|b| - 1];
    assert IsRootPath(parents, p, above);
    SelectionIsRootPath(parents, p, above);
    WithoutLast(b, a);
  }

  lemma WithoutLast(b: seq<MessageId>, a: MessageId)
    requires Distinct(b) && b != [] && b[|b| - 1] == a
    ensures Without(b, a) == b[..|b| - 1]
  {
    WithoutOnce(b, a, |b| - 1);
  }

  /** Selected branches lose exactly the hidden message if and only if the new parent fits. */
  lemma SplicedBranchIsExactIff(parents: Parents, a: MessageId, p: MessageId, leaf: MessageId)
    requires Acyclic(parents) && a in parents && leaf in parents && leaf != a && a in Branch(parents, leaf)
    requires Acyclic(Spliced(parents, a, p))
    ensures Branch(Spliced(parents, a, p), leaf) == Without(Branch(parents, leaf), a) <==> FitsParent(parents, a, p)
  {
    hide Acyclic, Branch, Without, FitsParent;
    var after := Spliced(parents, a, p);
    var b := RootPathOf(parents, leaf);
    var d := RootPathOf(after, leaf);
    SelectionIsRootPath(parents, leaf, b);
    SelectionIsRootPath(after, leaf, d);
    SpliceRemovesExactly(parents, a, p, leaf, b);
    if IsRootPath(after, leaf, Without(b, a)) {
      SelectionIsRootPath(after, leaf, Without(b, a));
    }
  }
}
