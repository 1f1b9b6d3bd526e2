/** The local record ids of server record ids: a table for the frequent ones, a sorted array for the
    rest. */
module RecordIds {
  import opened DxArrays

  const RECORD_ID_VECTOR_SIZE := 1000
  const DX_RECORD_ID_INVALID := -1

  datatype Pair = Pair(server: int, local: int)

  predicate Frequent(server: int) { 0 <= server < RECORD_ID_VECTOR_SIZE }

  ghost predicate Ascending(pairs: seq<Pair>) {
    forall i, j :: 0 <= i < j < |pairs| ==> pairs[i].server < pairs[j].server
  }

  /** The id the last of these assignments to a server id gave it. */
  function LastAssigned(history: seq<Pair>, server: int): int {
    if history == [] then DX_RECORD_ID_INVALID
    else if history[|history| - 1].server == server then history[|history| - 1].local
    else LastAssigned(history[..|history| - 1], server)
  }

  /** It is the id of the assignment behind which there is no other to the server id, */
  lemma {:induction false} LastAssignedIs(history: seq<Pair>, server: int, k: nat)
    requires k < |history| && history[k].server == server
    requires forall i :: k < i < |history| ==> history[i].server != server
    ensures LastAssigned(history, server) == history[k].local
  {
    if k < |history| - 1 {
      LastAssignedIs(history[..|history| - 1], server, k);
    }
  }

  /** and -1 if there is none. */
  lemma {:induction false} NoneAssigned(history: seq<Pair>, server: int)
    requires !HasServer(history, server)
    ensures LastAssigned(history, server) == -1
  {
    if history != [] {
      var before := history[..|history| - 1];
      assert forall i :: 0 <= i < |before| ==> before[i] == history[i];
      NoneAssigned(before, server);
    }
  }

  lemma LastAssignedStep(history: seq<Pair>, p: Pair, server: int)
    ensures LastAssigned(history + [p], server) == if server == p.server then p.local else LastAssigned(history, server)
  {
    assert (history + [p])[..|history|] == history;
  }

  /** `pairs` has every rare server id that was assigned, with its last id, and no other. */
  ghost predicate Remembers(pairs: seq<Pair>, history: seq<Pair>) {
    && (forall i :: 0 <= i < |pairs| ==>
          !Frequent(pairs[i].server) && pairs[i].local == LastAssigned(history, pairs[i].server))
    && (forall s :: !Frequent(s) && !HasServer(pairs, s) ==> LastAssigned(history, s) == DX_RECORD_ID_INVALID)
  }

  ghost predicate HasServer(pairs: seq<Pair>, server: int) {
    exists i :: 0 <= i < |pairs| && pairs[i].server == server
  }

  lemma StaysChanged(pairs: seq<Pair>, at: nat, p: Pair, server: int)
    requires at < |pairs| && pairs[at].server == p.server
    ensures HasServer(pairs, server) ==> HasServer(pairs[at := p], server)
  {
    if HasServer(pairs, server) {
      var i :| 0 <= i < |pairs| && pairs[i].server == server;
      assert pairs[at := p][i].server == server;
    }
  }

  lemma RemembersChanged(pairs: seq<Pair>, history: seq<Pair>, at: nat, p: Pair)
    requires Ascending(pairs) && Remembers(pairs, history)
    requires at < |pairs| && pairs[at].server == p.server
    ensures Remembers(pairs[at := p], history + [p]) && Ascending(pairs[at := p])
  {
    var after := pairs[at := p];
    forall i | 0 <= i < |after| ensures after[i].local == LastAssigned(history + [p], after[i].server) {
      LastAssignedStep(history, p, after[i].server);
    }
    forall s | !Frequent(s) && !HasServer(after, s) ensures LastAssigned(history + [p], s) == DX_RECORD_ID_INVALID {
      LastAssignedStep(history, p, s);
      StaysChanged(pairs, at, p, s);
      assert after[at].server == p.server;
    }
  }

  function Inserted(pairs: seq<Pair>, at: nat, p: Pair): seq<Pair>
    requires at <= |pairs|
  {
    pairs[..at] + [p] + pairs[at..]
  }

  lemma StaysInserted(pairs: seq<Pair>, at: nat, p: Pair, server: int)
    requires at <= |pairs|
    ensures HasServer(pairs, server) || server == p.server ==> HasServer(Inserted(pairs, at, p), server)
  {
    assert Inserted(pairs, at, p)[at].server == p.server;
    if HasServer(pairs, server) {
      var i :| 0 <= i < |pairs| && pairs[i].server == server;
      assert Inserted(pairs, at, p)[if i < at then i else i + 1].server == server;
    }
  }

  lemma RemembersInserted(pairs: seq<Pair>, history: seq<Pair>, at: nat, p: Pair)
    requires Remembers(pairs, history) && !Frequent(p.server) && at <= |pairs|
    requires forall i :: 0 <= i < at ==> pairs[i].server < p.server
    requires forall i :: at <= i < |pairs| ==> pairs[i].server > p.server
    ensures Remembers(Inserted(pairs, at, p), history + [p])
  {
    var after := Inserted(pairs, at, p);
    hide HasServer;
    forall i | 0 <= i < |after|
      ensures !Frequent(after[i].server) && after[i].local == LastAssigned(history + [p], after[i].server)
    {
      LastAssignedStep(history, p, after[i].server);
    }
    forall s | !Frequent(s) && !HasServer(after, s) ensures LastAssigned(history + [p], s) == DX_RECORD_ID_INVALID {
      LastAssignedStep(history, p, s);
      StaysInserted(pairs, at, p, s);
    }
  }

  lemma AscendingInserted(pairs: seq<Pair>, at: nat, p: Pair)
    requires Ascending(pairs) && at <= |pairs|
    requires forall i :: 0 <= i < at ==> pairs[i].server < p.server
    requires forall i :: at <= i < |pairs| ==> pairs[i].server > p.server
    ensures Ascending(Inserted(pairs, at, p))
  {}

  lemma RemembersFrequent(pairs: seq<Pair>, history: seq<Pair>, p: Pair)
    requires Remembers(pairs, history) && Frequent(p.server)
    ensures Remembers(pairs, history + [p])
  {
    forall s ensures s != p.server ==> LastAssigned(history + [p], s) == LastAssigned(history, s) {
      LastAssignedStep(history, p, s);
    }
  }

  class RecordIdMap {
    const frequentIds: array<int>
    const idMap: DxArray<Pair>
    /** Every assignment made so far, the last one last */
    ghost var history: seq<Pair>

    ghost predicate Valid()
      reads this, frequentIds, idMap, idMap.elements
    {
      && frequentIds.Length == RECORD_ID_VECTOR_SIZE
      && idMap.Valid()
      && Ascending(idMap.Contents())
      && Remembers(idMap.Contents(), history)
      && forall s :: 0 <= s < RECORD_ID_VECTOR_SIZE ==> frequentIds[s] == LastAssigned(history, s)
    }

    constructor ()
      ensures Valid() && history == []
      ensures fresh(frequentIds) && fresh(idMap) && fresh(idMap.elements)
    {
      frequentIds := new int[RECORD_ID_VECTOR_SIZE](_ => DX_RECORD_ID_INVALID);
      idMap := new DxArray();
      history := [];
    }

    /** The search both functions make of the sorted array. */
    method Find(server: int) returns (found: bool, idx: nat)
      requires Valid() && !Frequent(server)
      ensures idx <= idMap.size
      ensures found ==> idx < idMap.size && idMap.Contents()[idx].server == server
      ensures !found ==> !HasServer(idMap.Contents(), server)
      ensures !found ==> forall i :: 0 <= i < idx ==> idMap.Contents()[i].server < server
      ensures !found ==> forall i :: idx <= i < idMap.size ==> idMap.Contents()[i].server > server
    {
      found, idx := BinarySearch(idMap.elements[..idMap.size], 0, idMap.size,
                                 (p: Pair) => NumericComparator(p.server, server));
    }

    /** dx_get_record_id: the id last assigned, whatever was assigned before and between. */
    method GetRecordId(server: int) returns (id: int)
      requires Valid()
      ensures id == LastAssigned(history, server)
    {
      if Frequent(server) {
        return frequentIds[server];
      }
      var found, idx := Find(server);
      if !found {
        return DX_RECORD_ID_INVALID;
      }
      return idMap.elements[idx].local;
    }

    /** dx_assign_server_record_id */
    method AssignServerRecordId(id: int, server: int)
      requires Valid()
      modifies this, frequentIds, idMap, idMap.elements
      ensures Valid() && history == old(history) + [Pair(server, id)]
      ensures idMap.elements == old(idMap.elements) || fresh(idMap.elements)
    {
      forall s
        ensures LastAssigned(history + [Pair(server, id)], s) == if s == server then id else LastAssigned(history, s)
      {
        LastAssignedStep(history, Pair(server, id), s);
      }
      if Frequent(server) {
        frequentIds[server] := id;
        RemembersFrequent(idMap.Contents(), history, Pair(server, id));
      } else {
        AssignRare(id, server);
      }
      history := history + [Pair(server, id)];
    }

    /** The assignment of an id that is not in the table */
    method AssignRare(id: int, server: int)
      requires Valid() && !Frequent(server)
      modifies idMap, idMap.elements
      ensures idMap.Valid() && Ascending(idMap.Contents())
      ensures Remembers(idMap.Contents(), history + [Pair(server, id)])
      ensures idMap.elements == old(idMap.elements) || fresh(idMap.elements)
    {
      hide Remembers, LastAssigned, HasServer;
      var found, idx := Find(server);
      if found {
        RemembersChanged(idMap.Contents(), history, idx, Pair(server, id));
        idMap.elements[idx] := Pair(idMap.elements[idx].server, id);
        assert idMap.Contents() == old(idMap.Contents())[idx := Pair(server, id)];
      } else {
        RemembersInserted(idMap.Contents(), history, idx, Pair(server, id));
        AscendingInserted(idMap.Contents(), idx, Pair(server, id));
        idMap.Insert(Pair(server, id), idx);
      }
    }
  }
}
