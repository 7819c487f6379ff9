/** The relational store as the handlers see it: one table per resource, a map from
    auto-increment id to row, with the unique key a table may have, and the four
    statements the handlers issue against it (INSERT, UPDATE ... WHERE id = ?,
    DELETE ... WHERE id = ?, SELECT id ... WHERE name = ?). A store failure other than a
    duplicate key is not something the table decides: it is passed in as `fault`. */
module Store {
  import opened Js
  import opened Http

  /** A stored row: the resource's fields and the timestamps the store keeps. */
  datatype Row<R> = Row(data: R, createdAt: int, updatedAt: Option<int>)

  /** No two rows share a non-null unique key. */
  ghost predicate UniqueKeys<R>(rows: map<nat, Row<R>>, keyOf: R -> Option<string>) {
    forall i, j :: i in rows && j in rows && i != j && keyOf(rows[i].data).Some? ==>
      keyOf(rows[i].data) != keyOf(rows[j].data)
  }

  /** Some row other than `self` already holds the unique key of `r`. */
  predicate KeyTaken<R>(rows: map<nat, Row<R>>, keyOf: R -> Option<string>, r: R, self: Option<nat>) {
    keyOf(r).Some? && exists j :: j in rows && Some(j) != self && keyOf(rows[j].data) == keyOf(r)
  }

  /** The message MySQL attaches to `ER_DUP_ENTRY`. */
  function DupMessage(key: string): string {
    "Duplicate entry '" + key + "'"
  }

  /** What an INSERT of `r` answers: the fault, a duplicate key, or the next id. */
  function InsertVerdict<R>(rows: map<nat, Row<R>>, keyOf: R -> Option<string>, nextId: nat,
                            r: R, fault: Option<string>): (res: StoreResult)
    ensures res.Success? <==> fault.None? && !KeyTaken(rows, keyOf, r, None)
    ensures res.Success? ==> res.value == nextId
    ensures res.Failure? && res.error.DupEntry? <==> fault.None? && KeyTaken(rows, keyOf, r, None)
    ensures fault.Some? ==> res == Failure(Fault(fault.value))
  {
    if fault.Some? then Failure(Fault(fault.value))
    else if KeyTaken(rows, keyOf, r, None) then Failure(DupEntry(DupMessage(keyOf(r).value)))
    else Success(nextId)
  }

  /** What `UPDATE ... WHERE id = ?` answers when it would replace the fields of row `id`
      by `change` of them: the fault, 0 affected rows for an absent id, a duplicate key,
      or 1 affected row. */
  function UpdateVerdict<R>(rows: map<nat, Row<R>>, keyOf: R -> Option<string>, id: nat,
                            change: R -> R, fault: Option<string>): (res: StoreResult)
    ensures res == Success(1) <==> fault.None? && id in rows && !KeyTaken(rows, keyOf, change(rows[id].data), Some(id))
    ensures res == Success(0) <==> fault.None? && id !in rows
    ensures res.Failure? && res.error.DupEntry? <==>
            fault.None? && id in rows && KeyTaken(rows, keyOf, change(rows[id].data), Some(id))
    ensures fault.Some? ==> res == Failure(Fault(fault.value))
  {
    if fault.Some? then Failure(Fault(fault.value))
    else if id !in rows then Success(0)
    else
      var after := change(rows[id].data);
      if KeyTaken(rows, keyOf, after, Some(id)) then Failure(DupEntry(DupMessage(keyOf(after).value)))
      else Success(1)
  }

  /** What `DELETE ... WHERE id = ?` answers: the fault, or the number of rows removed. */
  function DeleteVerdict<R>(rows: map<nat, Row<R>>, id: nat, fault: Option<string>): (res: StoreResult)
    ensures res.Success? <==> fault.None?
    ensures res.Success? ==> (res.value == 1 <==> id in rows) && (res.value == 0 <==> id !in rows)
    ensures res.Failure? ==> res.error == Fault(fault.value)
  {
    if fault.Some? then Failure(Fault(fault.value))
    else if id in rows then Success(1) else Success(0)
  }

  /** Ids in strictly ascending order. */
  predicate Ascending(ids: seq<nat>) {
    forall a, b :: 0 <= a < b < |ids| ==> ids[a] < ids[b]
  }

  /** Row `id` is named `name`. */
  predicate Named<R>(rows: map<nat, Row<R>>, nameOf: R -> string, id: nat, name: string) {
    id in rows && nameOf(rows[id].data) == name
  }

  /** The smallest id in [from, bound) whose row is named `name`, if any. */
  function FirstNamed<R>(rows: map<nat, Row<R>>, nameOf: R -> string, name: string, from: nat, bound: nat): (r: Option<nat>)
    decreases bound - from
  {
    if from >= bound then None
    else if Named(rows, nameOf, from, name) then Some(from)
    else FirstNamed(rows, nameOf, name, from + 1, bound)
  }

  lemma {:induction false} FirstNamedIsLeast<R>(rows: map<nat, Row<R>>, nameOf: R -> string, name: string, from: nat, bound: nat)
    ensures var r := FirstNamed(rows, nameOf, name, from, bound);
      && (r.Some? ==> from <= r.value < bound && Named(rows, nameOf, r.value, name))
      && (r.Some? ==> forall j :: from <= j < r.value ==> !Named(rows, nameOf, j, name))
      && (r.None? <==> forall j :: from <= j < bound ==> !Named(rows, nameOf, j, name))
    decreases bound - from
  {
    if from < bound && !Named(rows, nameOf, from, name) {
      FirstNamedIsLeast(rows, nameOf, name, from + 1, bound);
    }
  }

  /** `result.length > 0 ? result[0].id : null`. */
  function FirstOrNull(ids: seq<nat>): Option<nat> {
    if |ids| > 0 then Some(ids[0]) else None
  }

  /** One table. `nameOf` is the column a reference by name is matched against;
      `keyOf` the column that is unique (None where there is none). */
  class Table<R> {
    const nameOf: R -> string
    const keyOf: R -> Option<string>
    var rows: map<nat, Row<R>>
    var nextId: nat

    ghost predicate Valid()
      reads this
    {
      && 1 <= nextId
      && (forall id :: id in rows ==> 1 <= id < nextId)
      && UniqueKeys(rows, keyOf)
    }

    constructor (nameOf: R -> string, keyOf: R -> Option<string>)
      ensures Valid()
      ensures this.nameOf == nameOf && this.keyOf == keyOf
      ensures rows == map[] && nextId == 1
    {
      this.nameOf := nameOf;
      this.keyOf := keyOf;
      rows := map[];
      nextId := 1;
    }

    /** The reference resolution a handler performs for `name` against this table. */
    function Resolve(name: string): (r: Option<nat>)
      reads this
    {
      FirstNamed(rows, nameOf, name, 1, nextId)
    }

    /** `INSERT`: a fresh id and a row stamped `now`, unless the store fails or the
        unique key is taken. The storage engine is not given; the counter follows
        InnoDB's AUTO_INCREMENT, which uses an id up once the statement reaches the key
        check, so an INSERT refused as a duplicate still advances it. */
    method Insert(r: R, now: int, fault: Option<string>) returns (res: StoreResult)
      requires Valid()
      modifies this
      ensures Valid()
      ensures res == InsertVerdict(old(rows), keyOf, old(nextId), r, fault)
      ensures res.Success? ==> res.value !in old(rows)
      ensures res.Success? ==> rows == old(rows)[res.value := Row(r, now, None)]
      ensures res.Failure? ==> rows == old(rows)
      ensures nextId == if fault.None? then old(nextId) + 1 else old(nextId)
    {
      res := InsertVerdict(rows, keyOf, nextId, r, fault);
      if res.Success? {
        rows := rows[nextId := Row(r, now, None)];
      }
      if fault.None? {
        nextId := nextId + 1;
      }
    }

    /** `UPDATE ... WHERE id = ?`: row `id` gets `change` of its old fields and the update
        stamp `now`; its id and creation stamp stay. */
    method Update(id: nat, change: R -> R, now: int, fault: Option<string>) returns (res: StoreResult)
      requires Valid()
      modifies this
      ensures Valid() && nextId == old(nextId)
      ensures res == UpdateVerdict(old(rows), keyOf, id, change, fault)
      ensures res == Success(1) ==> rows == old(rows)[id := Row(change(old(rows)[id].data), old(rows)[id].createdAt, Some(now))]
      ensures res != Success(1) ==> rows == old(rows)
    {
      res := UpdateVerdict(rows, keyOf, id, change, fault);
      if res == Success(1) {
        rows := rows[id := Row(change(rows[id].data), rows[id].createdAt, Some(now))];
      }
    }

    /** `DELETE ... WHERE id = ?`. */
    method Delete(id: nat, fault: Option<string>) returns (res: StoreResult)
      requires Valid()
      modifies this
      ensures Valid() && nextId == old(nextId)
      ensures res == DeleteVerdict(old(rows), id, fault)
      ensures res == Success(1) ==> rows == old(rows) - {id}
      ensures res != Success(1) ==> rows == old(rows)
    {
      res := DeleteVerdict(rows, id, fault);
      if res == Success(1) {
        rows := rows - {id};
      }
    }

    /** `SELECT id FROM ... WHERE name = ?`: every row named `name`, in id order. */
    method Select(name: string) returns (ids: seq<nat>)
      requires Valid()
      ensures Ascending(ids)
      ensures forall id :: id in ids <==> Named(rows, nameOf, id, name)
      ensures FirstOrNull(ids) == Resolve(name)
    {
      ids := [];
      var i := 1;
      while i < nextId
        invariant 1 <= i <= nextId
        invariant Ascending(ids)
        invariant forall k :: 0 <= k < |ids| ==> ids[k] < i
        invariant forall id :: id in ids <==> 1 <= id < i && Named(rows, nameOf, id, name)
      {
        if Named(rows, nameOf, i, name) {
          ids := ids + [i];
        }
        i := i + 1;
      }
      FirstNamedIsLeast(rows, nameOf, name, 1, nextId);
      if ids != [] {
        assert ids[0] in ids;
        assert Resolve(name).value in ids;
      }
    }
  }
}
