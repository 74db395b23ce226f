// The provider-wide table seen from one agent's object: every statement on it is a step of the publishing machine.
module ApprovalLink {
  import opened Wrappers
  import opened ApprovalState
  import Index = ApprovalIndex
  import opened ApprovalPublish

  /** One agent's copies in the table, by operation. */
  function Of(copy: Index.Copy, a: Index.Agent): map<string, State> {
    map k | k in copy && k.agent == a :: k.operation := copy[k].status
  }

  lemma OfAt(copy: Index.Copy, a: Index.Agent, op: string)
    ensures op in Of(copy, a) <==> Index.Key(a, op) in copy
    ensures op in Of(copy, a) ==> Of(copy, a)[op] == copy[Index.Key(a, op)].status
  {
    if Index.Key(a, op) in copy { assert Index.Key(a, op).operation == op; }
  }

  lemma SameAt(copy: Index.Copy, copy': Index.Copy, a: Index.Agent)
    requires forall op :: Index.Key(a, op) in copy <==> Index.Key(a, op) in copy'
    requires forall op :: Index.Key(a, op) in copy ==> copy'[Index.Key(a, op)].status == copy[Index.Key(a, op)].status
    ensures Of(copy', a) == Of(copy, a)
  {
    forall op: string ensures (op in Of(copy', a) <==> op in Of(copy, a)) && (op in Of(copy, a) ==> Of(copy', a)[op] == Of(copy, a)[op]) {
      OfAt(copy, a, op);
      OfAt(copy', a, op);
    }
  }

  /** The upsert is the machine's forward-only merge, and no other agent's. */
  lemma UpsertIsMerge(copy: Index.Copy, registry: Index.Registry, k: Index.Key, row: Index.Row, a: Index.Agent)
    ensures Of(Index.Upserted(copy, registry, k, row), a)
         == if k.agent == a then Merged(Of(copy, a), Hint(k.operation, row.status)) else Of(copy, a)
  {
    var copy' := Index.Upserted(copy, registry, k, row);
    OfAt(copy, a, k.operation);
    var merged := if k.agent == a then Merged(Of(copy, a), Hint(k.operation, row.status)) else Of(copy, a);
    assert k == Index.Key(k.agent, k.operation);
    forall op: string ensures (op in Of(copy', a) <==> op in merged) && (op in merged ==> Of(copy', a)[op] == merged[op]) {
      OfAt(copy, a, op);
      OfAt(copy', a, op);
    }
  }

  /** The marks, deliveries and registry writes leave every state in the table. */
  lemma OthersKeepStates(db: Index.Db, e: Index.Event, a: Index.Agent)
    requires !e.Upsert? && !e.Prune?
    ensures Of(Index.Next(db, e).copy, a) == Of(db.copy, a)
  {
    SameAt(db.copy, Index.Next(db, e).copy, a);
  }

  /** What a prune takes of one agent's. */
  function Gone(db: Index.Db, ended: int, deleted: int, a: Index.Agent): set<string> {
    set op | op in Of(db.copy, a) && op !in Of(Index.Pruned(db.copy, db.registry, ended, deleted), a)
  }

  /** A prune drops ended copies, and a deleted agent's, which is when the machine may. */
  lemma PruneMayDrop(db: Index.Db, ended: int, deleted: int, a: Index.Agent, op: string)
    requires Index.Inv(db) && op in Gone(db, ended, deleted, a)
    ensures op in Of(db.copy, a) && (Ended(Of(db.copy, a)[op]) || Index.IsDeleted(db.registry, a))
  {
    OfAt(db.copy, a, op);
    OfAt(Index.Pruned(db.copy, db.registry, ended, deleted), a, op);
    var k := Index.Key(a, op);
    assert Index.Clean(db.registry, k, db.copy[k]);
  }

  lemma PruneIs(db: Index.Db, ended: int, deleted: int, a: Index.Agent)
    ensures Of(Index.Pruned(db.copy, db.registry, ended, deleted), a) == Of(db.copy, a) - Gone(db, ended, deleted, a)
  {
    var copy' := Index.Pruned(db.copy, db.registry, ended, deleted);
    forall op: string ensures op in Of(copy', a) ==> op in Of(db.copy, a) && Of(copy', a)[op] == Of(db.copy, a)[op] {
      OfAt(db.copy, a, op);
      OfAt(copy', a, op);
    }
  }

  /** The machine's drops of these copies, one after another. */
  lemma {:induction false} DropThem(w: World, ops: set<string>) returns (steps: seq<Action>)
    requires forall op :: op in ops ==> op in w.d1.copy && (Ended(w.d1.copy[op]) || w.status.Gone?)
    ensures IsRun(w, steps) && forall s :: s in steps ==> s.DropCopy?
    ensures After(w, steps).d1.copy == w.d1.copy - ops && After(w, steps).status == w.status
    decreases |ops|
  {
    if ops == {} {
      steps := [];
    } else {
      var op :| op in ops;
      var w' := Next(w, DropCopy(op));
      var rest := DropThem(w', ops - {op});
      steps := [DropCopy(op)] + rest;
      assert steps[1..] == rest;
      assert w.d1.copy - {op} - (ops - {op}) == w.d1.copy - ops;
    }
  }

  /** The machine's copy is this agent's part of the table, and its status the registry's line. */
  predicate Mirrors(w: World, db: Index.Db, a: Index.Agent) {
    && w.d1.copy == Of(db.copy, a)
    && (w.status.NotProvisioned? <==> a !in db.registry) && (w.status.Gone? <==> Index.IsDeleted(db.registry, a))
  }

  /** The steps are others', and lead to where the statement leads. */
  ghost predicate Leads(w: World, steps: seq<Action>, db: Index.Db, a: Index.Agent) {
    IsRun(w, steps) && Mirrors(After(w, steps), db, a) && forall s :: s in steps ==> !ByPass(s)
  }

  lemma UpsertIsAStep(w: World, db: Index.Db, e: Index.Event, a: Index.Agent) returns (steps: seq<Action>)
    requires Mirrors(w, db, a) && e.Upsert? && e.key.agent == a && Hint(e.key.operation, e.row.status) in w.d1.late
    ensures Leads(w, steps, Index.Next(db, e), a)
  {
    var late := LateWrite(Hint(e.key.operation, e.row.status));
    UpsertIsMerge(db.copy, db.registry, e.key, e.row, a);
    assert Mirrors(Next(w, late), Index.Next(db, e), a);
    steps := [late];
    assert After(w, steps) == Next(w, late);
  }

  lemma OthersUpsertIsNone(w: World, db: Index.Db, e: Index.Event, a: Index.Agent)
    requires Mirrors(w, db, a) && e.Upsert? && e.key.agent != a
    ensures Leads(w, [], Index.Next(db, e), a)
  {
    UpsertIsMerge(db.copy, db.registry, e.key, e.row, a);
  }

  lemma PruneIsDrops(w: World, db: Index.Db, e: Index.Event, a: Index.Agent) returns (steps: seq<Action>)
    requires Index.Inv(db) && Mirrors(w, db, a) && e.Prune?
    ensures Leads(w, steps, Index.Next(db, e), a)
  {
    var gone := Gone(db, e.ended, e.deleted, a);
    PruneIs(db, e.ended, e.deleted, a);
    forall op | op in gone ensures op in w.d1.copy && (Ended(w.d1.copy[op]) || w.status.Gone?) {
      PruneMayDrop(db, e.ended, e.deleted, a, op);
    }
    steps := DropThem(w, gone);
  }

  /** The registry's line begins, or says it is deleted; any other write to it is no step. */
  function RegistryStep(db: Index.Db, e: Index.Event, a: Index.Agent): seq<Action> {
    if e.Create? && e.agent == a then [Provision]
    else if Index.IsDeleted(Index.Next(db, e).registry, a) && !Index.IsDeleted(db.registry, a) then [Delete]
    else []
  }

  lemma RegistryIsAStep(w: World, db: Index.Db, e: Index.Event, a: Index.Agent)
    requires Mirrors(w, db, a) && Index.Can(db, e) && !e.Upsert? && !e.Prune?
    ensures Leads(w, RegistryStep(db, e, a), Index.Next(db, e), a)
  {
    OthersKeepStates(db, e, a);
  }

  /**
   * Whatever statement the table or the registry takes, the machine has a run that does the same to this agent's part:
   * a late write for an upsert of its own, drops for a prune, a provisioning or a delete, nothing for the rest.
   */
  lemma StatementIsARun(w: World, db: Index.Db, e: Index.Event, a: Index.Agent) returns (steps: seq<Action>)
    requires Index.Inv(db) && Index.Can(db, e) && Mirrors(w, db, a)
    requires e.Upsert? && e.key.agent == a ==> Hint(e.key.operation, e.row.status) in w.d1.late
    ensures Leads(w, steps, Index.Next(db, e), a)
  {
    steps := [];
    if e.Upsert? {
      if e.key.agent == a { steps := UpsertIsAStep(w, db, e, a); } else { OthersUpsertIsNone(w, db, e, a); }
    } else if e.Prune? {
      steps := PruneIsDrops(w, db, e, a);
    } else {
      RegistryIsAStep(w, db, e, a);
      steps := RegistryStep(db, e, a);
    }
  }
}
