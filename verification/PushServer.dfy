/** The statistics tick of PushLoop, with its three cursors updated in place (internal/api/ws.go). */
module PushServer {
  import opened PushCursors

  /** The count query: the rows of a kind beyond the cursor. */
  method CountRows(rows: seq<Row>, kind: int, last: int) returns (n: nat)
    ensures n == |Unseen(rows, kind, last)|
  {
    n := 0;
    var i := 0;
    while i < |rows|
      invariant i <= |rows|
      invariant n + |Unseen(rows[i..], kind, last)| == |Unseen(rows, kind, last)|
    {
      assert rows[i..][1..] == rows[i + 1..];
      if rows[i].kind == kind && rows[i].id > last {
        n := n + 1;
      }
      i := i + 1;
    }
  }

  class Server {
    var lastNewId: int
    var lastDestId: int
    var lastSysId: int
    var sent: seq<Frame>

    /** The tables and all insertions so far, which the server sees only through its queries. */
    ghost var state: State

    ghost predicate Valid()
      reads this
    {
      && lastNewId == state.created.last && lastDestId == state.destroyed.last
      && lastSysId == state.sys.last && sent == state.frames
    }

    constructor ()
      ensures Valid() && state == START
    {
      lastNewId, lastDestId, lastSysId, sent := 0, 0, 0, [];
      state := START;
    }

    /** The four subqueries in one statement; None when it fails. */
    method FrameConnStats(conns: seq<Row>, ok: bool) returns (newCnt: nat, destCnt: nat, newMax: int, destMax: int)
      ensures ok ==> newCnt == |Unseen(conns, NEW, lastNewId)| && destCnt == |Unseen(conns, DESTROY, lastDestId)|
      ensures ok ==> newMax == MaxId(conns, NEW, lastNewId) && destMax == MaxId(conns, DESTROY, lastDestId)
      ensures !ok ==> newMax == lastNewId && destMax == lastDestId
    {
      if !ok {
        return 0, 0, lastNewId, lastDestId;
      }
      newCnt := CountRows(conns, NEW, lastNewId);
      destCnt := CountRows(conns, DESTROY, lastDestId);
      newMax, destMax := MaxId(conns, NEW, lastNewId), MaxId(conns, DESTROY, lastDestId);
    }

    /** Frames for the next rows in id order, up to the limit or the first row that cannot be read. */
    method FrameSystem(system: seq<Row>, readable: nat) returns (lastId: int, frames: seq<Frame>)
      ensures var unseen := Unseen(system, SYSTEM, lastSysId);
        var n := Taken(|unseen|, readable);
        && frames == SystemFrames(Serials(unseen[..n]))
        && lastId == if n == 0 then lastSysId else unseen[n - 1].id
    {
      hide Unseen;
      var rows := Unseen(system, SYSTEM, lastSysId);
      lastId, frames := lastSysId, [];
      var i := 0;
      while i < |rows| && i < LIMIT
        invariant i <= |rows| && i <= LIMIT && i <= readable
        invariant frames == SystemFrames(Serials(rows[..i]))
        invariant lastId == if i == 0 then lastSysId else rows[i - 1].id
      {
        if i == readable {
          break;
        }
        lastId := rows[i].id;
        frames := frames + [SystemFrame(rows[i].serial)];
        i := i + 1;
      }
    }

    method PushStats(conns: seq<Row>, ok: bool)
      requires Valid() && conns == state.conns
      modifies this
      ensures Valid() && state == CountTick(old(state), ok)
    {
      var newCnt, destCnt, newMax, destMax := FrameConnStats(conns, ok);
      if ok {
        lastNewId, lastDestId := newMax, destMax;
        sent := sent + [Stats(newCnt, destCnt)];
      }
      state := CountTick(state, ok);
    }

    method PushSystem(system: seq<Row>, readable: nat)
      requires Valid() && system == state.system
      modifies this
      ensures Valid() && state == SystemTick(old(state), readable)
    {
      hide Unseen;
      var id, frames := FrameSystem(system, readable);
      FramedSends(state.sys, state.system, readable);
      if |frames| > 0 {
        lastSysId := id;
        sent := sent + frames;
      } else {
        assert sent + frames == sent;
      }
      state := SystemTick(state, readable);
    }

    /** One statistics tick: cursors move only on success, and what is sent is what the model sends. */
    method StatTick(conns: seq<Row>, system: seq<Row>, ok: bool, readable: nat)
      requires Valid() && conns == state.conns && system == state.system
      modifies this
      ensures Valid() && state == Step(old(state), Tick(ok, readable))
    {
      CountSparesSystem(state, ok);
      PushStats(conns, ok);
      PushSystem(system, readable);
    }
  }

  lemma FramedSends(f: Feed, rows: seq<Row>, readable: nat)
    ensures var unseen := Unseen(rows, SYSTEM, f.last);
      Framed(f, rows, readable).seen[|f.seen|..] == Serials(unseen[..Taken(|unseen|, readable)])
  {
  }
}
