// What each statement on the provider-wide copy writes, field by field, and that a live agent's text is left alone.
module ApprovalWrites {
  import opened Wrappers
  import opened ApprovalState
  import opened ApprovalIndex

  /** Pending is before approved, and both are before the four ends, which are alike. */
  lemma RanksAre()
    ensures Rank(Pending) < Rank(Approved) < Rank(Denied)
    ensures Rank(Denied) == Rank(Expired) == Rank(Executed) == Rank(Failed)
  {
  }

  /** When the registry says an agent was deleted: its own time for that, or when its line was last written. */
  function RegistrySays(registry: Registry, a: Agent): Option<int> {
    if a in registry && registry[a].deleted
    then Some(if registry[a].deletedAt.Some? then registry[a].deletedAt.value else registry[a].updatedAt) else None
  }

  function WithoutText(item: Item): Item {
    Item(None, None, item.delivery, item.description, item.rest)
  }

  /** A hold's first copy is what was sent: marked, and without its text, exactly when its agent is deleted. */
  lemma FirstCopyIsWritten(copy: Copy, registry: Registry, k: Key, row: Row)
    requires k !in copy
    ensures Upserted(copy, registry, k, row) == copy[k :=
              if RegistrySays(registry, k.agent).Some?
              then row.(deletedAt := RegistrySays(registry, k.agent), item := WithoutText(row.item))
              else row.(deletedAt := None)]
  {
  }

  /** A later state is written over an earlier one; who it is of and when it began stay, and so does its first mark. */
  lemma LaterStateIsWritten(copy: Copy, registry: Registry, k: Key, row: Row)
    requires k in copy && Rank(row.status) > Rank(copy[k].status)
    ensures var (was, now, says) := (copy[k], Upserted(copy, registry, k, row), RegistrySays(registry, k.agent));
            && now == copy[k := now[k]] && (now[k].origin, now[k].createdAt) == (was.origin, was.createdAt)
            && (now[k].status, now[k].expiresAt, now[k].updatedAt) == (row.status, row.expiresAt, row.updatedAt)
            && now[k].deletedAt == (if was.deletedAt.Some? then was.deletedAt else says)
            && now[k].item == if says.Some? then WithoutText(row.item) else row.item
  {
  }

  /** No other changes anything. */
  lemma OtherStatesAreNot(copy: Copy, registry: Registry, k: Key, row: Row)
    requires k in copy && Rank(row.status) <= Rank(copy[k].status)
    ensures Upserted(copy, registry, k, row) == copy
  {
  }

  /** The texts of a hold's copy. */
  function Text(row: Row): (Option<string>, Option<string>) {
    (row.item.args, row.item.body)
  }

  /** While its agent is not deleted, a copy keeps its text through every statement but a later state's own, whose text it takes. */
  lemma LiveTextStays(db: Db, e: Event, k: Key)
    requires Can(db, e) && k in db.copy && k in Next(db, e).copy && !IsDeleted(Next(db, e).registry, k.agent)
    ensures Text(Next(db, e).copy[k]) ==
      if e.Upsert? && e.key == k && Rank(e.row.status) > Rank(db.copy[k].status) then Text(e.row) else Text(db.copy[k])
  {
    if IsDeleted(db.registry, k.agent) { DeletedStays(db, e, k.agent); }
  }

  lemma DeletedStays(db: Db, e: Event, a: Agent)
    requires Can(db, e) && IsDeleted(db.registry, a)
    ensures IsDeleted(Next(db, e).registry, a)
  {
  }

  /** A delivery is noted on its copy alone, its description only while the copy is still in that state. */
  lemma DeliveryIsNoted(copy: Copy, k: Key, status: State, delivery: Option<string>, description: string)
    ensures k !in copy ==> Delivered(copy, k, status, delivery, description) == copy
    ensures k in copy ==>
      Delivered(copy, k, status, delivery, description) == copy[k := copy[k].(item := copy[k].item.(delivery := delivery,
        description := if copy[k].status == status then description else copy[k].item.description))]
  {
  }

  /** A mark is the first there was, and takes the text of every copy of the agent; no other copy changes. */
  lemma MarkIsWritten(copy: Copy, a: Agent, at: int, k: Key)
    ensures k in Marked(copy, a, at) <==> k in copy
    ensures k in copy && k.agent != a ==> Marked(copy, a, at)[k] == copy[k]
    ensures k in copy && k.agent == a ==>
      Marked(copy, a, at)[k] == copy[k].(item := WithoutText(copy[k].item),
        deletedAt := if copy[k].deletedAt.Some? then copy[k].deletedAt else Some(at))
  {
  }

  /** The registry takes every write but one that would bring a deleted line back, and only of a line it has. */
  lemma RegistryTakes(registry: Registry, a: Agent, deleted: Option<bool>, deletedAt: Option<Option<int>>, now: int)
    ensures a !in registry || (registry[a].deleted && deleted == Some(false)) ==> Updated(registry, a, deleted, deletedAt, now) == registry
    ensures a in registry && !(registry[a].deleted && deleted == Some(false)) ==>
      Updated(registry, a, deleted, deletedAt, now) == registry[a := Entry(
        if deleted.None? then registry[a].deleted else deleted.value, if deletedAt.None? then registry[a].deletedAt else deletedAt.value, now)]
  {
  }
}
