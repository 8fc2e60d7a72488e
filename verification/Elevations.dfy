/**
 The table of time-locked withdrawals as its repository updates it, statement
 by statement. Each method does to the rows what the protocol's step does.
 */
module Elevations {
  import opened Withdrawals

  class ElevationRepo {
    var rows: map<nat, Row>

    constructor ()
      ensures rows == map[]
    {
      rows := map[];
    }

    /** The probe of the unique index on pending content. */
    method ProbeIndex(ghost s: State, id: nat, row: Row) returns (twin: bool)
      requires s.rows == rows
      ensures twin == PendingTwin(s, row, id)
    {
      twin := false;
      var rest := rows.Keys;
      while rest != {}
        invariant rest <= rows.Keys
        invariant twin ==
                  exists k <- rows :: k !in rest && k != id && rows[k].status == Pending && rows[k].SameContent(row)
        decreases rest
      {
        var k :| k in rest;
        rest := rest - {k};
        if k != id && rows[k].status == Pending && rows[k].SameContent(row) {
          twin := true;
        }
      }
    }

    /** A second pending row with the same content violates the unique index. */
    method Create(ghost s: State, id: nat, row: Row) returns (ok: bool)
      requires s.rows == rows && id !in rows && row.status == Pending
      modifies this
      ensures ok == !PendingTwin(s, row, id)
      ensures rows == if ok then old(rows)[id := row] else old(rows)
    {
      var twin := ProbeIndex(s, id, row);
      ok := !twin;
      if ok {
        rows := rows[id := row];
      }
    }

    /** Only a pending row can be claimed, so of two claims at most one succeeds. */
    method ClaimForBroadcast(id: nat) returns (claimed: bool)
      modifies this
      ensures claimed == (id in old(rows) && old(rows)[id].status == Pending)
      ensures rows == if claimed then old(rows)[id := old(rows)[id].(status := Broadcasting)] else old(rows)
    {
      claimed := id in rows && rows[id].status == Pending;
      if claimed {
        rows := rows[id := rows[id].(status := Broadcasting)];
      }
    }

    /** No status guard. */
    method MarkBroadcast(ghost s: State, id: nat)
      requires s.rows == rows
      modifies this
      ensures rows == Withdrawals.MarkBroadcast(s, id).rows
    {
      if id in rows {
        rows := rows[id := rows[id].(status := Broadcast)];
      }
    }

    /** Fails, leaving the row broadcasting, when the same content is pending again. */
    method ReleaseClaim(ghost s: State, id: nat)
      requires s.rows == rows
      modifies this
      ensures rows == Withdrawals.ReleaseClaim(s, id).rows
    {
      if id in rows && rows[id].status == Broadcasting {
        var twin := ProbeIndex(s, id, rows[id]);
        if !twin {
          rows := rows[id := rows[id].(status := Pending)];
        }
      }
    }

    method MarkExpired(ghost s: State, id: nat)
      requires s.rows == rows
      modifies this
      ensures rows == Withdrawals.MarkExpired(s, id).rows
    {
      if id in rows && (rows[id].status == Pending || rows[id].status == Broadcasting) {
        rows := rows[id := rows[id].(status := Expired)];
      }
    }

    method CancelPending(ghost env: Env, ghost s: State, user: string, id: nat) returns (found: bool)
      requires s.rows == rows
      modifies this
      ensures rows == Act(env, s, Cancel(user, id)).rows
      ensures found == (id in old(rows) && old(rows)[id].user == user && old(rows)[id].status == Pending)
    {
      found := id in rows && rows[id].user == user && rows[id].status == Pending;
      if found {
        rows := rows[id := rows[id].(status := Cancelled)];
      }
    }
  }
}
