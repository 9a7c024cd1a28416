/** The trade categories: a table with a parent column, and the nested listing built from it
    (crud_trade_categories). */
module Categories {
  import opened Prelude

  datatype Category = Category(name: string, displayName: string, parent: Option<nat>)

  type Rows = map<nat, Category>

  // ─── Parent chains ──────────────────────────────────────────────────────────

  /** Every parent is a row of the table. */
  predicate IsClosed(rows: Rows) {
    forall id: nat | id in rows && rows[id].parent.Some? :: rows[id].parent.value in rows
  }

  /** The parent chain of id ends in a root after n steps. */
  predicate AtDepth(rows: Rows, id: nat, n: nat)
    decreases n
  {
    id in rows &&
    match rows[id].parent
    case None => n == 0
    case Some(p) => n > 0 && AtDepth(rows, p, n - 1)
  }

  ghost predicate IsRooted(rows: Rows, id: nat) {
    exists n: nat :: AtDepth(rows, id, n)
  }

  /** No chain dangles or runs in a circle. */
  ghost predicate IsForest(rows: Rows) {
    forall id: nat | id in rows :: IsRooted(rows, id)
  }

  /** The k-th ancestor of id. */
  function Climb(rows: Rows, id: nat, k: nat): Option<nat>
    decreases k
  {
    if id !in rows then None
    else if k == 0 then Some(id)
    else match rows[id].parent
      case None => None
      case Some(p) => Climb(rows, p, k - 1)
  }

  /** id is on the parent chain that starts at start. */
  ghost predicate IsOnChain(rows: Rows, start: nat, id: nat) {
    exists k: nat :: Climb(rows, start, k) == Some(id)
  }

  lemma {:induction false} DepthIsUnique(rows: Rows, id: nat, m: nat, n: nat)
    requires AtDepth(rows, id, m) && AtDepth(rows, id, n)
    ensures m == n
    decreases m
  {
    if m > 0 && n > 0 { DepthIsUnique(rows, rows[id].parent.value, m - 1, n - 1); }
  }

  /** Climbing k steps takes k off the depth. */
  lemma {:induction false} DepthAfterClimb(rows: Rows, id: nat, n: nat, k: nat)
    requires AtDepth(rows, id, n)
    ensures Climb(rows, id, k).Some? <==> k <= n
    ensures k <= n ==> AtDepth(rows, Climb(rows, id, k).value, n - k)
    decreases k
  {
    if k > 0 && n > 0 { DepthAfterClimb(rows, rows[id].parent.value, n - 1, k - 1); }
  }

  lemma ForestIsClosed(rows: Rows)
    requires IsForest(rows)
    ensures IsClosed(rows)
  {
    forall id: nat | id in rows && rows[id].parent.Some? ensures rows[id].parent.value in rows {
      assert IsRooted(rows, id);
      var n: nat :| AtDepth(rows, id, n);
      assert AtDepth(rows, rows[id].parent.value, n - 1);
    }
  }

  /** The ids on a chain of depth n. */
  function Chain(rows: Rows, id: nat, n: nat): set<nat>
    requires AtDepth(rows, id, n)
    decreases n
  {
    if n == 0 then {id} else {id} + Chain(rows, rows[id].parent.value, n - 1)
  }

  lemma {:induction false} OnChainIsShallow(rows: Rows, id: nat, n: nat, x: nat) returns (m: nat)
    requires AtDepth(rows, id, n) && x in Chain(rows, id, n)
    ensures m <= n && AtDepth(rows, x, m)
    decreases n
  {
    if x == id {
      m := n;
    } else {
      m := OnChainIsShallow(rows, rows[id].parent.value, n - 1, x);
    }
  }

  lemma {:induction false} ChainIsLong(rows: Rows, id: nat, n: nat)
    requires AtDepth(rows, id, n)
    ensures Chain(rows, id, n) <= rows.Keys && |Chain(rows, id, n)| == n + 1
    decreases n
  {
    if n > 0 {
      var p := rows[id].parent.value;
      ChainIsLong(rows, p, n - 1);
      if id in Chain(rows, p, n - 1) {
        var m := OnChainIsShallow(rows, p, n - 1, id);
        DepthIsUnique(rows, id, m, n);
      }
    }
  }

  lemma DepthIsBounded(rows: Rows, id: nat, n: nat)
    requires AtDepth(rows, id, n)
    ensures n < |rows|
  {
    ChainIsLong(rows, id, n);
    var chain := Chain(rows, id, n);
    assert rows.Keys == chain + (rows.Keys - chain);
  }

  // ─── Changing the table ─────────────────────────────────────────────────────

  lemma {:induction false} AddedKeepsDepth(rows: Rows, id: nat, row: Category, x: nat, n: nat)
    requires id !in rows && AtDepth(rows, x, n)
    ensures AtDepth(rows[id := row], x, n)
    decreases n
  {
    if n > 0 { AddedKeepsDepth(rows, id, row, rows[x].parent.value, n - 1); }
  }

  /** Adding a row under an existing parent, or as a root, keeps the forest. */
  lemma CreateKeepsForest(rows: Rows, id: nat, row: Category)
    requires IsForest(rows) && id !in rows && (row.parent.Some? ==> row.parent.value in rows)
    ensures IsForest(rows[id := row])
  {
    forall x: nat | x in rows ensures IsRooted(rows[id := row], x) {
      assert IsRooted(rows, x);
      var n: nat :| AtDepth(rows, x, n);
      AddedKeepsDepth(rows, id, row, x, n);
    }
    if row.parent.Some? {
      assert IsRooted(rows[id := row], row.parent.value);
      var n: nat :| AtDepth(rows[id := row], row.parent.value, n);
      assert AtDepth(rows[id := row], id, n + 1);
    } else {
      assert AtDepth(rows[id := row], id, 0);
    }
  }

  predicate HasChildren(rows: Rows, id: nat) {
    exists c: nat :: c in rows && rows[c].parent == Some(id)
  }

  lemma {:induction false} RemovedKeepsDepth(rows: Rows, id: nat, x: nat, n: nat)
    requires !HasChildren(rows, id) && x != id && AtDepth(rows, x, n)
    ensures AtDepth(rows - {id}, x, n)
    decreases n
  {
    if n > 0 { RemovedKeepsDepth(rows, id, rows[x].parent.value, n - 1); }
  }

  /** Deleting a row without children keeps the forest. */
  lemma DeleteKeepsForest(rows: Rows, id: nat)
    requires IsForest(rows) && !HasChildren(rows, id)
    ensures IsForest(rows - {id})
  {
    forall x: nat | x in rows - {id} ensures IsRooted(rows - {id}, x) {
      assert IsRooted(rows, x);
      var n: nat :| AtDepth(rows, x, n);
      RemovedKeepsDepth(rows, id, x, n);
    }
  }

  /** A chain that avoids a changed row is unchanged. */
  lemma {:induction false} AvoidingKeepsDepth(rows: Rows, id: nat, row: Category, x: nat, n: nat)
    requires AtDepth(rows, x, n) && !IsOnChain(rows, x, id)
    ensures AtDepth(rows[id := row], x, n)
    decreases n
  {
    assert Climb(rows, x, 0) == Some(x);
    if n > 0 {
      var p := rows[x].parent.value;
      forall k: nat ensures Climb(rows, p, k) != Some(id) {
        assert Climb(rows, x, k + 1) == Climb(rows, p, k);
      }
      AvoidingKeepsDepth(rows, id, row, p, n - 1);
    }
  }

  /** If the changed row itself is rooted, so is everything that was. */
  lemma {:induction false} RootedAfterChange(rows: Rows, id: nat, row: Category, x: nat, n: nat)
    requires AtDepth(rows, x, n) && IsRooted(rows[id := row], id)
    ensures IsRooted(rows[id := row], x)
    decreases n
  {
    if x != id {
      if n == 0 {
        assert AtDepth(rows[id := row], x, 0);
      } else {
        RootedAfterChange(rows, id, row, rows[x].parent.value, n - 1);
        var m: nat :| AtDepth(rows[id := row], rows[x].parent.value, m);
        assert AtDepth(rows[id := row], x, m + 1);
      }
    }
  }

  /** What leads to the changed row still does. */
  lemma {:induction false} StillOnChain(rows: Rows, id: nat, row: Category, x: nat, k: nat) returns (k': nat)
    requires id in rows && Climb(rows, x, k) == Some(id)
    ensures Climb(rows[id := row], x, k') == Some(id)
    decreases k
  {
    if x == id {
      k' := 0;
    } else {
      k' := StillOnChain(rows, id, row, rows[x].parent.value, k - 1);
      k' := k' + 1;
    }
  }

  /** Moving a category keeps the forest exactly when the new parent is not the category itself or one of
      its descendants, that is, when the category is not on the new parent's chain. The endpoint only
      refuses the category itself. */
  lemma UpdateKeepsForestExactlyWhen(rows: Rows, id: nat, row: Category)
    requires IsForest(rows) && id in rows && (row.parent.Some? ==> row.parent.value in rows)
    ensures IsForest(rows[id := row]) <==> (row.parent.Some? ==> !IsOnChain(rows, row.parent.value, id))
    ensures IsClosed(rows[id := row])
  {
    var rows' := rows[id := row];
    ForestIsClosed(rows);
    if row.parent.None? {
      assert AtDepth(rows', id, 0);
      EverythingStaysRooted(rows, id, row);
    } else {
      var p := row.parent.value;
      if IsOnChain(rows, p, id) {
        forall n: nat ensures !AtDepth(rows', id, n) {
          CircleHasNoDepth(rows, id, row, n);
        }
        assert !IsRooted(rows', id);
      } else {
        assert IsRooted(rows, p);
        var n: nat :| AtDepth(rows, p, n);
        AvoidingKeepsDepth(rows, id, row, p, n);
        assert AtDepth(rows', id, n + 1);
        EverythingStaysRooted(rows, id, row);
      }
    }
  }

  lemma EverythingStaysRooted(rows: Rows, id: nat, row: Category)
    requires IsForest(rows) && IsRooted(rows[id := row], id)
    ensures IsForest(rows[id := row])
  {
    forall x: nat | x in rows ensures IsRooted(rows[id := row], x) {
      assert IsRooted(rows, x);
      var n: nat :| AtDepth(rows, x, n);
      RootedAfterChange(rows, id, row, x, n);
    }
  }

  lemma CircleHasNoDepth(rows: Rows, id: nat, row: Category, n: nat)
    requires id in rows && row.parent.Some? && IsOnChain(rows, row.parent.value, id)
    ensures !AtDepth(rows[id := row], id, n)
  {
    var rows', p := rows[id := row], row.parent.value;
    var k: nat :| Climb(rows, p, k) == Some(id);
    var k' := StillOnChain(rows, id, row, p, k);
    if AtDepth(rows', id, n) {
      DepthAfterClimb(rows', p, n - 1, k');
      DepthIsUnique(rows', id, n, n - 1 - k');
    }
  }

  /** An accepted update that closes a circle: 2 lies below 1, and 1 is moved below 2. Neither is rooted any more. */
  lemma MovingUpClosesACircle(name: string, displayName: string)
    ensures var rows := map[1 := Category(name, displayName, None), 2 := Category(displayName, name, Some(1))];
            var rows' := rows[1 := Category(name, displayName, Some(2))];
            && IsForest(rows) && IsOnChain(rows, 2, 1)
            && IsClosed(rows') && !IsRooted(rows', 1) && !IsRooted(rows', 2)
  {
    var one: nat, two: nat := 1, 2;
    var rows: Rows := map[one := Category(name, displayName, None), two := Category(displayName, name, Some(one))];
    var row := Category(name, displayName, Some(two));
    var rows' := rows[one := row];
    assert AtDepth(rows, one, 0) && AtDepth(rows, two, 1);
    assert Climb(rows, one, 0) == Some(one) && Climb(rows, two, 1) == Some(one);
    UpdateKeepsForestExactlyWhen(rows, one, row);
    forall n: nat ensures !AtDepth(rows', one, n) {
      CircleHasNoDepth(rows, one, row, n);
    }
    forall n: nat ensures !AtDepth(rows', two, n) {
      CircleHasNoDepth(rows, one, row, n + 1);
    }
  }

  // ─── The store ──────────────────────────────────────────────────────────────

  datatype Answer =
    | Done
    | DuplicateName | NoSuchParent | NoSuchCategory | OwnParent | HasSubcategories | SoftDeleteUnsupported
    | NotNullViolation

  predicate NameTaken(rows: Rows, name: string) {
    exists id: nat :: id in rows && rows[id].name == name
  }

  predicate NamesAreUnique(rows: Rows) {
    forall a: nat, b: nat | a in rows && b in rows && a != b :: rows[a].name != rows[b].name
  }

  class CategoryStore {
    var rows: Rows
    var nextId: nat

    ghost predicate Valid()
      reads this
    {
      && (forall id: nat | id in rows :: id < nextId)
      && IsClosed(rows)
      && NamesAreUnique(rows)
    }

    constructor ()
      ensures Valid() && IsForest(rows) && rows == map[]
    {
      rows := map[];
      nextId := 1;
    }

    method Create(name: string, displayName: string, parent: Option<nat>) returns (answer: Answer, id: nat)
      requires Valid()
      modifies this
      ensures Valid()
      ensures answer == if NameTaken(old(rows), name) then DuplicateName
                        else if parent.Some? && parent.value !in old(rows) then NoSuchParent
                        else Done
      ensures answer.Done? ==> id !in old(rows) && rows == old(rows)[id := Category(name, displayName, parent)]
      ensures !answer.Done? ==> rows == old(rows)
      ensures old(IsForest(rows)) ==> IsForest(rows)
    {
      id := 0;
      if NameTaken(rows, name) {
        return DuplicateName, id;
      }
      if parent.Some? && parent.value !in rows {
        return NoSuchParent, id;
      }
      id := nextId;
      if IsForest(rows) { CreateKeepsForest(rows, id, Category(name, displayName, parent)); }
      rows := rows[id := Category(name, displayName, parent)];
      nextId := nextId + 1;
      answer := Done;
    }

    method Update(id: nat, name: Patch<string>, displayName: Patch<string>, parent: Patch<nat>) returns (answer: Answer)
      requires Valid()
      modifies this`rows
      ensures Valid()
      ensures answer == if id !in old(rows) then NoSuchCategory
                        else if parent.To? && parent.value == id then OwnParent
                        else if parent.To? && parent.value !in old(rows) then NoSuchParent
                        else if name.To? && name.value != old(rows)[id].name && NameTaken(old(rows), name.value)
                            then DuplicateName
                        else if name.Null? || displayName.Null? then NotNullViolation
                        else Done
      ensures answer.Done? ==>
                rows == old(rows)[id := Category(if name.To? then name.value else old(rows)[id].name,
                                                 if displayName.To? then displayName.value
                                                     else old(rows)[id].displayName,
                                                 if parent.To? then Some(parent.value)
                                                 else if parent.Null? then None else old(rows)[id].parent)]
      ensures !answer.Done? ==> rows == old(rows)
      ensures old(IsForest(rows)) ==>
                (IsForest(rows) <==> !(answer.Done? && parent.To? && IsOnChain(old(rows), parent.value, id)))
    {
      answer := Refusal(id, name, displayName, parent);
      if !answer.Done? { return; }
      var row := Changed(rows[id], name, displayName, parent);
      if IsForest(rows) { MoveKeepsForestExactlyWhen(rows, id, row, parent); }
      rows := rows[id := row];
    }

    /** The checks of an update, in order. */
    method Refusal(id: nat, name: Patch<string>, displayName: Patch<string>, parent: Patch<nat>)
                   returns (answer: Answer)
      ensures answer == if id !in rows then NoSuchCategory
                        else if parent.To? && parent.value == id then OwnParent
                        else if parent.To? && parent.value !in rows then NoSuchParent
                        else if name.To? && name.value != rows[id].name && NameTaken(rows, name.value)
                            then DuplicateName
                        else if name.Null? || displayName.Null? then NotNullViolation
                        else Done
    {
      if id !in rows {
        return NoSuchCategory;
      }
      if parent.To? {
        if parent.value == id {
          return OwnParent;
        }
        if parent.value !in rows {
          return NoSuchParent;
        }
      }
      if name.To? && name.value != rows[id].name && NameTaken(rows, name.value) {
        return DuplicateName;
      }
      if name.Null? || displayName.Null? {
        return NotNullViolation;
      }
      return Done;
    }

    /** The row with the given fields set. */
    method Changed(was: Category, name: Patch<string>, displayName: Patch<string>, parent: Patch<nat>)
                   returns (row: Category)
      ensures row == Category(if name.To? then name.value else was.name,
                              if displayName.To? then displayName.value else was.displayName,
                              Patched(parent, was.parent))
    {
      row := was;
      if name.To? {
        row := row.(name := name.value);
      }
      if displayName.To? {
        row := row.(displayName := displayName.value);
      }
      if parent.To? {
        row := row.(parent := Some(parent.value));
      } else if parent.Null? {
        row := row.(parent := None);
      }
    }

    method Delete(id: nat, hard: bool) returns (answer: Answer)
      requires Valid()
      modifies this`rows
      ensures Valid()
      ensures answer == if id !in old(rows) then NoSuchCategory
                        else if HasChildren(old(rows), id) then HasSubcategories
                        else if !hard then SoftDeleteUnsupported
                        else Done
      ensures rows == if answer.Done? then old(rows) - {id} else old(rows)
      ensures old(IsForest(rows)) ==> IsForest(rows)
    {
      if id !in rows {
        return NoSuchCategory;
      }
      if HasChildren(rows, id) {
        return HasSubcategories;
      }
      if !hard {
        return SoftDeleteUnsupported;
      }
      if IsForest(rows) { DeleteKeepsForest(rows, id); }
      rows := rows - {id};
      answer := Done;
    }
  }

  /** The condition in terms of the update: only a parent that is given can break the forest. */
  lemma MoveKeepsForestExactlyWhen(rows: Rows, id: nat, row: Category, parent: Patch<nat>)
    requires IsForest(rows) && id in rows && row.parent == Patched(parent, rows[id].parent)
    requires parent.To? ==> parent.value in rows
    ensures IsForest(rows[id := row]) <==> !(parent.To? && IsOnChain(rows, parent.value, id))
  {
    ForestIsClosed(rows);
    UpdateKeepsForestExactlyWhen(rows, id, row);
    if parent.Absent? && row.parent.Some? { OwnParentIsNotBelow(rows, id); }
  }

  /** A category is not among its own ancestors. */
  lemma OwnParentIsNotBelow(rows: Rows, id: nat)
    requires IsForest(rows) && id in rows && rows[id].parent.Some?
    ensures !IsOnChain(rows, rows[id].parent.value, id)
  {
    var p := rows[id].parent.value;
    assert IsRooted(rows, id);
    var n: nat :| AtDepth(rows, id, n);
    forall k: nat ensures Climb(rows, p, k) != Some(id) {
      DepthAfterClimb(rows, p, n - 1, k);
      if Climb(rows, p, k) == Some(id) { DepthIsUnique(rows, id, n, n - 1 - k); }
    }
  }
}
