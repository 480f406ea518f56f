/**
 * The transaction manager: a map of transaction records plus a pointer to the
 * "active" one. Records move between PENDING, COMMITTED and ABORTED, but no
 * transaction ever wraps or undoes a document mutation. Timestamps are left
 * out, and `randomUUID` becomes the `id` parameter of `BeginTransaction`.
 */
module TransactionManager {
  import opened Maybe
  import opened Json

  datatype TransactionState = Pending | Committed | Aborted

  datatype OperationKind = CreateOp | UpdateOp | DeleteOp

  datatype TransactionOperation = TransactionOperation(
    kind: OperationKind,
    collection: string,
    documentId: Option<string>,
    data: Option<Value>)

  datatype Transaction = Transaction(id: string, state: TransactionState, operations: seq<TransactionOperation>)

  datatype Manager = Manager(transactions: map<string, Transaction>, active: Option<string>)

  /** The manager after a `commit` or `rollback`, and the boolean the call returned. */
  datatype Outcome = Outcome(manager: Manager, ok: bool)

  function NewManager(): (r: Manager)
    ensures r.transactions == map[] && r.active.None?
  {
    Manager(map[], None)
  }

  /** `!this.activeTransaction`: there is no active id, or it is the (falsy) empty string. */
  predicate NoActive(m: Manager) {
    m.active.None? || m.active.value == ""
  }

  /** Every record is stored under its own id, and an active id names a record. */
  ghost predicate Valid(m: Manager) {
    && (m.active.Some? ==> m.active.value in m.transactions)
    && forall k :: k in m.transactions ==> m.transactions[k].id == k
  }

  /** `getTransaction`: the stored record, or `None`. */
  function GetTransaction(m: Manager, id: string): (r: Option<Transaction>)
    ensures r.Some? <==> id in m.transactions
    ensures r.Some? ==> r.value == m.transactions[id]
  {
    if id in m.transactions then Some(m.transactions[id]) else None
  }

  /** `getActiveTransaction`. */
  function GetActiveTransaction(m: Manager): (r: Option<string>)
    ensures r.Some? && Valid(m) ==> GetTransaction(m, r.value).Some?
    ensures r.None? <==> m.active.None?
  {
    m.active
  }

  /**
   * `beginTransaction`: record `id` as a PENDING transaction with no
   * operations and make it active. The previously active record is left as
   * it was.
   */
  function BeginTransaction(m: Manager, id: string): (r: Manager)
    ensures GetTransaction(r, id) == Some(Transaction(id, Pending, []))
    ensures forall k :: k != id ==> GetTransaction(r, k) == GetTransaction(m, k)
    ensures GetActiveTransaction(r) == Some(id)
    ensures m.transactions.Keys <= r.transactions.Keys
    ensures Valid(m) ==> Valid(r)
  {
    Manager(m.transactions[id := Transaction(id, Pending, [])], Some(id))
  }

  /**
   * `addOperation`: append `op` to the active transaction's operations. With
   * no active transaction (or an active id without a record) nothing changes.
   */
  function AddOperation(m: Manager, op: TransactionOperation): (r: Manager)
    ensures NoActive(m) ==> r == m
    ensures r.active == m.active
    ensures forall k :: m.active != Some(k) ==> GetTransaction(r, k) == GetTransaction(m, k)
    ensures !NoActive(m) && m.active.value in m.transactions ==>
      var t := m.transactions[m.active.value];
      GetTransaction(r, m.active.value) == Some(t.(operations := t.operations + [op]))
    ensures r.transactions.Keys == m.transactions.Keys
    ensures Valid(m) ==> Valid(r)
  {
    if NoActive(m) then m
    else
      var a := m.active.value;
      if a !in m.transactions then m
      else
        var t := m.transactions[a];
        m.(transactions := m.transactions[a := t.(operations := t.operations + [op])])
  }

  /** Set the state of a known record and clear the active pointer if it named that record. */
  function Finish(m: Manager, id: string, state: TransactionState): (r: Outcome)
    ensures !r.ok <==> id !in m.transactions
    ensures !r.ok ==> r.manager == m
    ensures r.ok ==> GetTransaction(r.manager, id) == Some(m.transactions[id].(state := state))
    ensures forall k :: k != id ==> GetTransaction(r.manager, k) == GetTransaction(m, k)
    ensures r.ok && m.active == Some(id) ==> r.manager.active.None?
    ensures m.active != Some(id) ==> r.manager.active == m.active
    ensures r.manager.transactions.Keys == m.transactions.Keys
    ensures Valid(m) ==> Valid(r.manager)
  {
    if id !in m.transactions then Outcome(m, false)
    else
      var active := if m.active == Some(id) then None else m.active;
      Outcome(Manager(m.transactions[id := m.transactions[id].(state := state)], active), true)
  }

  /** `commit`: mark the record COMMITTED whatever its state, even ABORTED. */
  function Commit(m: Manager, id: string): (r: Outcome)
    ensures !r.ok <==> GetTransaction(m, id).None?
    ensures !r.ok ==> r.manager == m
    ensures r.ok ==> GetTransaction(r.manager, id).Some? && GetTransaction(r.manager, id).value.state == Committed
    ensures r.ok ==> GetTransaction(r.manager, id).value.operations == m.transactions[id].operations
    ensures forall k :: k != id ==> GetTransaction(r.manager, k) == GetTransaction(m, k)
    ensures r.ok && GetActiveTransaction(m) == Some(id) ==> GetActiveTransaction(r.manager).None?
    ensures GetActiveTransaction(m) != Some(id) ==> GetActiveTransaction(r.manager) == GetActiveTransaction(m)
    ensures Valid(m) ==> Valid(r.manager)
  {
    Finish(m, id, Committed)
  }

  /** `rollback`: mark the record ABORTED whatever its state. Nothing is undone. */
  function Rollback(m: Manager, id: string): (r: Outcome)
    ensures !r.ok <==> GetTransaction(m, id).None?
    ensures !r.ok ==> r.manager == m
    ensures r.ok ==> GetTransaction(r.manager, id).Some? && GetTransaction(r.manager, id).value.state == Aborted
    ensures r.ok ==> GetTransaction(r.manager, id).value.operations == m.transactions[id].operations
    ensures forall k :: k != id ==> GetTransaction(r.manager, k) == GetTransaction(m, k)
    ensures r.ok && GetActiveTransaction(m) == Some(id) ==> GetActiveTransaction(r.manager).None?
    ensures GetActiveTransaction(m) != Some(id) ==> GetActiveTransaction(r.manager) == GetActiveTransaction(m)
    ensures Valid(m) ==> Valid(r.manager)
  {
    Finish(m, id, Aborted)
  }

  // ---------------------------------------------------------------------
  // Properties over several calls
  // ---------------------------------------------------------------------

  /** A rolled-back transaction can still be committed: the last call decides its state. */
  lemma CommitAfterRollback(m: Manager, id: string)
    requires id in m.transactions
    ensures var after := Commit(Rollback(m, id).manager, id);
      after.ok && GetTransaction(after.manager, id).value.state == Committed
  {
  }

  /** Beginning a new transaction leaves the one active before it untouched and pending if it was. */
  lemma BeginLeavesPreviousActive(m: Manager, id: string)
    requires Valid(m) && m.active.Some? && m.active.value != id
    ensures GetTransaction(BeginTransaction(m, id), m.active.value) == Some(m.transactions[m.active.value])
  {
  }

  /** Once the active transaction is committed, `addOperation` records nothing. */
  lemma AddAfterCommitIsIgnored(m: Manager, op: TransactionOperation)
    requires m.active.Some? && m.active.value in m.transactions
    ensures var c := Commit(m, m.active.value).manager;
      AddOperation(c, op) == c
  {
  }

  /** A sequence of `addOperation` calls records its operations in call order. */
  lemma {:induction false} AddOperationsInOrder(m: Manager, ops: seq<TransactionOperation>)
    requires !NoActive(m) && m.active.value in m.transactions
    ensures var r := AddAll(m, ops);
      r.active == m.active && m.active.value in r.transactions &&
      r.transactions[m.active.value].operations == m.transactions[m.active.value].operations + ops
    decreases |ops|
  {
    if |ops| > 0 {
      var m1 := AddOperation(m, ops[0]);
      AddOperationsInOrder(m1, ops[1..]);
      assert m.transactions[m.active.value].operations + [ops[0]] + ops[1..]
          == m.transactions[m.active.value].operations + ops;
    }
  }

  /** Apply `addOperation` for each element of `ops`, first to last. */
  function AddAll(m: Manager, ops: seq<TransactionOperation>): Manager
    decreases |ops|
  {
    if |ops| == 0 then m else AddAll(AddOperation(m, ops[0]), ops[1..])
  }
}
