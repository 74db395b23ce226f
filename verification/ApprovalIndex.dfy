/** The provider-wide copy of held calls: its statements, and what every run of them keeps. */
module ApprovalIndex {
  import opened Wrappers
  import opened ApprovalState

  datatype Agent = Agent(tenant: string, id: string)
  datatype Key = Key(agent: Agent, operation: string)
  /** `args` and `body` are the free text a deleted agent's copy drops. */
  datatype Item = Item(args: Option<string>, body: Option<string>, delivery: Option<string>, description: string, rest: string)
  datatype Row = Row(origin: string, status: State, item: Item, createdAt: int, expiresAt: Option<int>, updatedAt: int, deletedAt: Option<int>)
  /** An agent's line in the provisioning registry. */
  datatype Entry = Entry(deleted: bool, deletedAt: Option<int>, updatedAt: int)
  type Copy = map<Key, Row>
  type Registry = map<Agent, Entry>

  function Dropped(item: Item): Item {
    item.(args := None, body := None)
  }

  predicate IsDeleted(registry: Registry, a: Agent) {
    a in registry && registry[a].deleted
  }

  /** When the registry says the agent was deleted; none for one that is not. */
  function DeletedAt(registry: Registry, a: Agent): Option<int> {
    if !IsDeleted(registry, a) then None
    else if registry[a].deletedAt.Some? then registry[a].deletedAt
    else Some(registry[a].updatedAt)
  }

  function Coalesce(a: Option<int>, b: Option<int>): Option<int> {
    if a.Some? then a else b
  }

  /** The row as it is written: marked, and without the free text, when the registry says its agent is deleted. */
  function AsWritten(registry: Registry, k: Key, row: Row): Row {
    var at := DeletedAt(registry, k.agent);
    row.(deletedAt := at, item := if at.Some? then Dropped(row.item) else row.item)
  }

  function Upserted(copy: Copy, registry: Registry, k: Key, row: Row): Copy {
    var next := AsWritten(registry, k, row);
    if k !in copy then copy[k := next]
    else
      var was := copy[k];
      if Rank(next.status) > Rank(was.status) then
        copy[k := was.(status := next.status, expiresAt := next.expiresAt, updatedAt := next.updatedAt,
                       deletedAt := Coalesce(was.deletedAt, next.deletedAt), item := next.item)]
      else copy
  }

  function MarkedRow(row: Row, at: int): Row {
    row.(deletedAt := Coalesce(row.deletedAt, Some(at)), item := Dropped(row.item))
  }

  function Marked(copy: Copy, a: Agent, at: int): Copy {
    map k | k in copy :: if k.agent == a then MarkedRow(copy[k], at) else copy[k]
  }

  function Delivered(copy: Copy, k: Key, status: State, delivery: Option<string>, description: string): Copy {
    if k !in copy then copy
    else
      var item := copy[k].item.(delivery := delivery);
      copy[k := copy[k].(item := if copy[k].status == status then item.(description := description) else item)]
  }

  /** The prune's first statement: the rows a delete left unmarked. */
  function MarkedByRegistry(copy: Copy, registry: Registry): Copy {
    map k | k in copy ::
      if copy[k].deletedAt.None? && IsDeleted(registry, k.agent)
      then copy[k].(deletedAt := DeletedAt(registry, k.agent), item := Dropped(copy[k].item)) else copy[k]
  }

  predicate DropsEnded(row: Row, ended: int) {
    row.deletedAt.None? && Ended(row.status) && row.updatedAt < ended
  }

  predicate DropsDeleted(row: Row, deleted: int) {
    row.deletedAt.Some? && row.deletedAt.value < deleted
  }

  /** The three statements of one batch. */
  function Pruned(copy: Copy, registry: Registry, ended: int, deleted: int): Copy {
    var marked := MarkedByRegistry(copy, registry);
    var live := map k | k in marked && !DropsEnded(marked[k], ended) :: marked[k];
    map k | k in live && !DropsDeleted(live[k], deleted) :: live[k]
  }

  /** A registry write: any other status changes nothing on a deleted row. */
  function Updated(registry: Registry, a: Agent, deleted: Option<bool>, deletedAt: Option<Option<int>>, now: int): Registry {
    if a !in registry || (deleted == Some(false) && registry[a].deleted) then registry
    else
      var e := registry[a];
      registry[a := Entry(if deleted.Some? then deleted.value else e.deleted, if deletedAt.Some? then deletedAt.value else e.deletedAt, now)]
  }

  // ----- Runs -----

  datatype Event =
    | Upsert(key: Key, row: Row)
    | Mark(agent: Agent, at: int)
    | Deliver(key: Key, status: State, delivery: Option<string>, description: string)
    | Prune(ended: int, deleted: int)
    | Create(agent: Agent, now: int)
    | Update(agent: Agent, toDeleted: Option<bool>, deletedAt: Option<Option<int>>, now: int)

  datatype Db = Db(copy: Copy, registry: Registry)

  /** An agent's copies are marked only after the registry says it is deleted, and an agent is created once. */
  predicate Can(db: Db, e: Event) {
    match e
    case Mark(a, _) => IsDeleted(db.registry, a)
    case Create(a, _) => a !in db.registry
    case _ => true
  }

  function Next(db: Db, e: Event): Db {
    match e
    case Upsert(k, row) => db.(copy := Upserted(db.copy, db.registry, k, row))
    case Mark(a, at) => db.(copy := Marked(db.copy, a, at))
    case Deliver(k, status, delivery, description) => db.(copy := Delivered(db.copy, k, status, delivery, description))
    case Prune(ended, deleted) => db.(copy := Pruned(db.copy, db.registry, ended, deleted))
    case Create(a, now) => db.(registry := db.registry[a := Entry(false, None, now)])
    case Update(a, deleted, deletedAt, now) => db.(registry := Updated(db.registry, a, deleted, deletedAt, now))
  }

  predicate IsRun(db: Db, events: seq<Event>)
    decreases |events|
  {
    events == [] || (Can(db, events[0]) && IsRun(Next(db, events[0]), events[1..]))
  }

  function After(db: Db, events: seq<Event>): Db
    decreases |events|
  {
    if events == [] then db else After(Next(db, events[0]), events[1..])
  }

  /** A marked row is a deleted agent's and carries no free text. */
  predicate Clean(registry: Registry, k: Key, row: Row) {
    row.deletedAt.Some? ==> IsDeleted(registry, k.agent) && row.item.args.None? && row.item.body.None?
  }

  predicate Inv(db: Db) {
    forall k :: k in db.copy ==> Clean(db.registry, k, db.copy[k])
  }

  lemma StepInv(db: Db, e: Event)
    requires Inv(db) && Can(db, e)
    ensures Inv(Next(db, e))
  {
    forall k | k in Next(db, e).copy ensures Clean(Next(db, e).registry, k, Next(db, e).copy[k]) {
      if k in db.copy { assert Clean(db.registry, k, db.copy[k]); }
    }
  }

  /** In every reachable state a marked copy is a deleted agent's and carries no arguments text. */
  lemma {:induction false} MarkedCarryNoText(db: Db, events: seq<Event>)
    requires Inv(db) && IsRun(db, events)
    ensures Inv(After(db, events))
    decreases |events|
  {
    if events != [] {
      StepInv(db, events[0]);
      MarkedCarryNoText(Next(db, events[0]), events[1..]);
    }
  }

  /** Deleted is final in the registry. */
  lemma {:induction false} DeletedIsFinal(db: Db, events: seq<Event>, a: Agent)
    requires IsRun(db, events) && IsDeleted(db.registry, a)
    ensures IsDeleted(After(db, events).registry, a)
    decreases |events|
  {
    if events != [] {
      DeletedIsFinal(Next(db, events[0]), events[1..], a);
    }
  }

  /** The copy of one hold is there throughout the run. */
  predicate Stays(db: Db, events: seq<Event>, k: Key)
    decreases |events|
  {
    k in db.copy && (events != [] ==> Stays(Next(db, events[0]), events[1..], k))
  }

  /** While it is there, a copy keeps its first mark and never steps back in rank; within a rank its state stays. */
  lemma {:induction false} FirstMarkAndRankStay(db: Db, events: seq<Event>, k: Key)
    requires IsRun(db, events) && Stays(db, events, k)
    ensures k in After(db, events).copy
    ensures var was, row := db.copy[k], After(db, events).copy[k];
            && (was.deletedAt.Some? ==> row.deletedAt == was.deletedAt)
            && Rank(row.status) >= Rank(was.status)
            && (Rank(row.status) == Rank(was.status) ==> row.status == was.status && row.updatedAt == was.updatedAt)
    decreases |events|
  {
    if events != [] {
      FirstMarkAndRankStay(Next(db, events[0]), events[1..], k);
    }
  }

  /** The event offers the hold's copy a state. */
  predicate Offers(e: Event, k: Key, s: State) {
    e.Upsert? && e.key == k && e.row.status == s
  }

  /**
   * Whatever the order and the repetitions, a copy that stays holds the furthest state offered: it is at least as far
   * as every state offered, and its own was offered or was there before.
   */
  lemma {:induction false} FurthestOfferWins(db: Db, events: seq<Event>, k: Key, i: nat)
    requires IsRun(db, events) && Stays(db, events, k) && i < |events| && events[i].Upsert? && events[i].key == k
    ensures k in After(db, events).copy && Rank(After(db, events).copy[k].status) >= Rank(events[i].row.status)
    decreases |events|
  {
    if i == 0 {
      FirstMarkAndRankStay(Next(db, events[0]), events[1..], k);
    } else {
      FurthestOfferWins(Next(db, events[0]), events[1..], k, i - 1);
    }
  }

  lemma {:induction false} StateWasOffered(db: Db, events: seq<Event>, k: Key)
    requires IsRun(db, events) && Stays(db, events, k)
    ensures k in After(db, events).copy
    ensures var s := After(db, events).copy[k].status;
            s == db.copy[k].status || exists i :: 0 <= i < |events| && Offers(events[i], k, s)
    decreases |events|
  {
    if events != [] {
      StateWasOffered(Next(db, events[0]), events[1..], k);
      var s := After(db, events).copy[k].status;
      if s != db.copy[k].status && s == Next(db, events[0]).copy[k].status {
        assert Offers(events[0], k, s);
      } else if j :| 0 <= j < |events[1..]| && Offers(events[1..][j], k, s) {
        assert Offers(events[j + 1], k, s);
      }
    }
  }

  // ----- What a prune removes -----

  /** A deleted agent's copy: its mark, or the one the prune gives it first. */
  function MarkOf(db: Db, k: Key): Option<int>
    requires k in db.copy
  {
    Coalesce(db.copy[k].deletedAt, DeletedAt(db.registry, k.agent))
  }

  /**
   * A prune removes exactly: a deleted agent's copies whose mark is before the year bound, and a live agent's ended
   * holds whose last change is before the other bound. So a deleted agent's copy never goes at the shorter bound, and a
   * live agent's unfinished hold never goes at all.
   */
  lemma PrunedExactly(db: Db, ended: int, deleted: int, k: Key)
    requires Inv(db) && k in db.copy
    ensures var gone := k !in Next(db, Prune(ended, deleted)).copy;
            && (IsDeleted(db.registry, k.agent) ==> MarkOf(db, k).Some? && (gone <==> MarkOf(db, k).value < deleted))
            && (!IsDeleted(db.registry, k.agent) ==> (gone <==> Ended(db.copy[k].status) && db.copy[k].updatedAt < ended))
  {
    assert Clean(db.registry, k, db.copy[k]);
  }

  /** Over a run of prunes no later than the year bound, and of every other event, a deleted agent's marked copy stays. */
  lemma {:induction false} KeptForTheYear(db: Db, events: seq<Event>, k: Key, bound: int)
    requires Inv(db) && IsRun(db, events) && k in db.copy && IsDeleted(db.registry, k.agent)
    requires db.copy[k].deletedAt.Some? && bound <= db.copy[k].deletedAt.value
    requires forall i :: 0 <= i < |events| && events[i].Prune? ==> events[i].deleted <= bound
    ensures Stays(db, events, k)
    ensures k in After(db, events).copy && After(db, events).copy[k].deletedAt == db.copy[k].deletedAt
    decreases |events|
  {
    if events != [] {
      if events[0].Prune? { PrunedExactly(db, events[0].ended, events[0].deleted, k); }
      StepInv(db, events[0]);
      KeptForTheYear(Next(db, events[0]), events[1..], k, bound);
    }
  }

  /** And a hold still pending or approved, of an agent that stays live, is in the copy whatever prunes run. */
  lemma {:induction false} UnfinishedIsKept(db: Db, events: seq<Event>, k: Key)
    requires Inv(db) && IsRun(db, events) && k in db.copy && !Ended(db.copy[k].status)
    requires !IsDeleted(After(db, events).registry, k.agent)
    requires forall i :: 0 <= i < |events| && events[i].Upsert? && events[i].key == k ==> !Ended(events[i].row.status)
    ensures Stays(db, events, k) && k in After(db, events).copy
    decreases |events|
  {
    if events != [] {
      if IsDeleted(db.registry, k.agent) {
        DeletedIsFinal(db, events, k.agent);
      } else {
        if events[0].Prune? { PrunedExactly(db, events[0].ended, events[0].deleted, k); }
        StepInv(db, events[0]);
        UnfinishedIsKept(Next(db, events[0]), events[1..], k);
      }
    }
  }

  // ----- The table in place -----

  class ApprovalTable {
    var copy: Copy
    var registry: Registry

    constructor ()
      ensures copy == map[] && registry == map[]
    {
      copy, registry := map[], map[];
    }

    method UpsertHold(k: Key, row: Row)
      modifies this`copy
      ensures copy == Upserted(old(copy), registry, k, row)
    {
      var at := DeletedAt(registry, k.agent);
      var item := if at.Some? then Dropped(row.item) else row.item;
      if k !in copy {
        copy := copy[k := row.(item := item, deletedAt := at)];
      } else if Rank(row.status) > Rank(copy[k].status) {
        var mark := if copy[k].deletedAt.Some? then copy[k].deletedAt else at;
        copy := copy[k := copy[k].(status := row.status, expiresAt := row.expiresAt, updatedAt := row.updatedAt, deletedAt := mark, item := item)];
      }
    }

    method MarkAgentDeleted(a: Agent, at: int)
      modifies this`copy
      ensures copy == Marked(old(copy), a, at)
    {
      var left := copy.Keys;
      while left != {}
        invariant left <= copy.Keys == old(copy).Keys
        invariant forall k :: k in copy ==> copy[k] == if k in left || k.agent != a then old(copy)[k] else MarkedRow(old(copy)[k], at)
        decreases left
      {
        var k :| k in left;
        if k.agent == a {
          var mark := if copy[k].deletedAt.Some? then copy[k].deletedAt else Some(at);
          copy := copy[k := copy[k].(deletedAt := mark, item := Dropped(copy[k].item))];
        }
        left := left - {k};
      }
    }

    method SetDelivery(k: Key, status: State, delivery: Option<string>, description: string)
      modifies this`copy
      ensures copy == Delivered(old(copy), k, status, delivery, description)
    {
      if k in copy {
        var row := copy[k];
        var item := row.item.(delivery := delivery);
        if row.status == status { item := item.(description := description); }
        copy := copy[k := row.(item := item)];
      }
    }

    /** One transaction of three statements. */
    method PruneBoth(ended: int, deleted: int)
      modifies this`copy
      ensures copy == Pruned(old(copy), registry, ended, deleted)
    {
      copy := map k | k in copy ::
        if copy[k].deletedAt.None? && IsDeleted(registry, k.agent)
        then copy[k].(deletedAt := DeletedAt(registry, k.agent), item := Dropped(copy[k].item)) else copy[k];
      copy := map k | k in copy && !(copy[k].deletedAt.None? && Ended(copy[k].status) && copy[k].updatedAt < ended) :: copy[k];
      copy := map k | k in copy && !(copy[k].deletedAt.Some? && copy[k].deletedAt.value < deleted) :: copy[k];
    }

    method UpdateAgent(a: Agent, toDeleted: Option<bool>, deletedAt: Option<Option<int>>, now: int) returns (changed: bool)
      modifies this`registry
      ensures registry == Updated(old(registry), a, toDeleted, deletedAt, now)
      ensures changed == (a in old(registry) && !(toDeleted == Some(false) && old(registry)[a].deleted))
    {
      changed := a in registry && !(toDeleted == Some(false) && registry[a].deleted);
      if changed {
        var e := registry[a];
        if toDeleted.Some? { e := e.(deleted := toDeleted.value); }
        if deletedAt.Some? { e := e.(deletedAt := deletedAt.value); }
        registry := registry[a := e.(updatedAt := now)];
      }
    }
  }
}
