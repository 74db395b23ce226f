// The `connectors` table as its renewals use it: each statement is one atomic conditional update of one row.
//
// A pair GitHub handed out (an access and a refresh token) is named by one identity. Each pair is sealed for the
// table once, so the ciphertext a statement compares is named by the pair it seals.
module ConnectorRow {
  import opened Wrappers

  type Pair = nat
  type Holder = nat

  /** What renews the access token; a row without one never expires. */
  datatype Refresh = Refresh(pair: Pair, expiresAt: Option<int>)

  datatype Row = Row(
    access: Pair,
    refresh: Option<Refresh>,
    refreshedAt: Option<int>,
    brokenAt: Option<int>,
    until: Option<int>,       // refreshing_until
    holder: Option<Holder>,   // refreshing_by
    accountId: Option<nat>,
    login: string)            // lower-cased
  {
    /** The refresh ciphertext the row holds now. */
    function Current(): Option<Pair> {
      if refresh.Some? then Some(refresh.value.pair) else None
    }
  }

  /** What a reconnect in place writes. */
  datatype Reconnected = Reconnected(access: Pair, refresh: Option<Refresh>, accountId: nat, login: string, at: int)

  function Lease(r: Row, now: int, until: int, holder: Holder): (Row, bool) {
    if r.until.None? || r.until.value <= now then (r.(until := Some(until), holder := Some(holder)), true) else (r, false)
  }

  function Unlease(r: Row, holder: Holder): Row {
    if r.holder == Some(holder) then r.(until := None, holder := None) else r
  }

  function Rotate(r: Row, next: Refresh, at: int, expected: Pair, holder: Holder): (Row, bool) {
    if r.Current() != Some(expected) then (r, false)
    else (Unlease(r, holder).(access := next.pair, refresh := Some(next), refreshedAt := Some(at), brokenAt := None), true)
  }

  function MarkBroken(r: Row, at: int, holder: Option<Holder>, spent: Option<Pair>): (Row, bool) {
    if r.brokenAt.Some? || (spent.Some? && r.Current() != spent) then (r, false)
    else ((if holder.Some? then Unlease(r, holder.value) else r).(brokenAt := Some(at)), true)
  }

  /** The account a reconnect may write over: the same id, or with no id yet the same login. */
  predicate SameAccount(r: Row, accountId: nat, login: string) {
    if r.accountId.Some? then r.accountId.value == accountId else r.login == login
  }

  function Reconnect(r: Row, next: Reconnected): (Row, bool) {
    if !SameAccount(r, next.accountId, next.login) then (r, false)
    else (Row(next.access, next.refresh, if next.refresh.Some? then Some(next.at) else None, None, None, None, Some(next.accountId), next.login), true)
  }

  /** The table itself: every statement reassigns at most the one row it names, and answers whether it changed one. */
  class ConnectorTable {
    var rows: map<string, Row>

    constructor ()
      ensures rows == map[]
    {
      rows := map[];
    }

    method LeaseFor(id: string, now: int, until: int, holder: Holder) returns (won: bool)
      modifies this
      ensures id !in old(rows) ==> !won && rows == old(rows)
      ensures id in old(rows) ==> won == (old(rows[id].until).None? || old(rows[id].until).value <= now)
      ensures id in old(rows) && won ==> rows == old(rows)[id := old(rows[id]).(until := Some(until), holder := Some(holder))]
      ensures !won ==> rows == old(rows)
      ensures id in old(rows) ==> (rows[id], won) == Lease(old(rows[id]), now, until, holder)
    {
      won := false;
      if id in rows {
        var r := rows[id];
        if r.until.None? || r.until.value <= now {
          rows := rows[id := r.(until := Some(until), holder := Some(holder))];
          won := true;
        }
      }
    }

    method Release(id: string, holder: Holder)
      modifies this
      ensures rows.Keys == old(rows).Keys
      ensures forall k :: k in rows ==> rows[k] == if k == id then Unlease(old(rows[k]), holder) else old(rows[k])
    {
      if id in rows && rows[id].holder == Some(holder) {
        rows := rows[id := rows[id].(until := None, holder := None)];
      }
    }

    method RotateOver(id: string, next: Refresh, at: int, expected: Pair, holder: Holder) returns (landed: bool)
      modifies this
      ensures rows.Keys == old(rows).Keys
      ensures forall k :: k in rows && k != id ==> rows[k] == old(rows[k])
      ensures landed == (id in old(rows) && old(rows[id]).Current() == Some(expected))
      ensures !landed ==> rows == old(rows)
      ensures id in old(rows) ==> (rows[id], landed) == Rotate(old(rows[id]), next, at, expected, holder)
      ensures landed ==> rows[id].access == next.pair && rows[id].refresh == Some(next) && rows[id].refreshedAt == Some(at)
      ensures landed ==> rows[id].brokenAt.None?
      ensures landed && old(rows[id]).holder == Some(holder) ==> rows[id].until.None? && rows[id].holder.None?
      ensures landed && old(rows[id]).holder != Some(holder) ==>
        (rows[id].until, rows[id].holder) == (old(rows[id]).until, old(rows[id]).holder)
    {
      landed := false;
      if id in rows {
        var r := rows[id];
        if r.refresh.Some? && r.refresh.value.pair == expected {
          var mine := r.holder == Some(holder);
          r := r.(access := next.pair, refresh := Some(next), refreshedAt := Some(at), brokenAt := None);
          if mine { r := r.(until := None, holder := None); }
          rows := rows[id := r];
          landed := true;
        }
      }
    }

    method MarkBrokenAs(id: string, at: int, holder: Option<Holder>, spent: Option<Pair>) returns (changed: bool)
      modifies this
      ensures rows.Keys == old(rows).Keys
      ensures forall k :: k in rows && k != id ==> rows[k] == old(rows[k])
      ensures !changed ==> rows == old(rows)
      ensures id !in old(rows) ==> !changed
      ensures id in old(rows) ==> (rows[id], changed) == MarkBroken(old(rows[id]), at, holder, spent)
      ensures id in old(rows) ==>
        (changed <==> old(rows[id]).brokenAt.None? && (spent.Some? ==> old(rows[id]).refresh.Some? && old(rows[id]).refresh.value.pair == spent.value))
      ensures changed ==> rows[id].brokenAt == Some(at) && (rows[id].access, rows[id].refresh) == (old(rows[id]).access, old(rows[id]).refresh)
    {
      changed := false;
      if id in rows {
        var r := rows[id];
        if r.brokenAt.None? && (spent.None? || (r.refresh.Some? && r.refresh.value.pair == spent.value)) {
          r := r.(brokenAt := Some(at));
          if holder.Some? && r.holder == Some(holder.value) { r := r.(until := None, holder := None); }
          rows := rows[id := r];
          changed := true;
        }
      }
    }

    method ReconnectAs(id: string, next: Reconnected) returns (written: bool)
      modifies this
      ensures rows.Keys == old(rows).Keys
      ensures forall k :: k in rows && k != id ==> rows[k] == old(rows[k])
      ensures !written ==> rows == old(rows)
      ensures id !in old(rows) ==> !written
      ensures id in old(rows) ==> (rows[id], written) == Reconnect(old(rows[id]), next)
      // The same account: by its number where the row has one, by its name only where it has none yet.
      ensures id in old(rows) && old(rows[id]).accountId.Some? ==> (written <==> old(rows[id]).accountId == Some(next.accountId))
      ensures id in old(rows) && old(rows[id]).accountId.None? ==> (written <==> old(rows[id]).login == next.login)
      ensures written ==> rows[id].access == next.access && rows[id].refresh == next.refresh && rows[id].brokenAt.None?
      ensures written ==> rows[id].refreshedAt == if next.refresh.Some? then Some(next.at) else None
      ensures written ==> rows[id].until.None? && rows[id].holder.None? && rows[id].accountId == Some(next.accountId) && rows[id].login == next.login
    {
      written := false;
      if id in rows {
        var r := rows[id];
        if (r.accountId.None? || r.accountId.value == next.accountId) && (r.accountId.Some? || r.login == next.login) {
          r := r.(access := next.access, refresh := next.refresh, refreshedAt := if next.refresh.Some? then Some(next.at) else None,
                  brokenAt := None, until := None, holder := None, accountId := Some(next.accountId), login := next.login);
          rows := rows[id := r];
          written := true;
        }
      }
    }

    method Remove(id: string) returns (removed: bool)
      modifies this
      ensures removed == (id in old(rows)) && rows == old(rows) - {id}
    {
      removed := id in rows;
      rows := rows - {id};
    }
  }
}
