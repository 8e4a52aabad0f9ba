// Append-only JSONL logs whose rows are owned by an allocation, by a rebuild, or
// by nobody (ordinary lifecycle events).
module CampaignLogs {
  import opened Wrappers
  import opened CampaignData

  datatype Owner = Nobody | Allocation(id: string) | Rebuild(id: string)

  datatype Body =
    | Decision(text: string)
    | SuggestionCreated(at: real)
    | OptimizerRebuilt(event: RebuildEvent)
    | Lifecycle(text: string)

  datatype LogRow = LogRow(owner: Owner, trialId: nat, body: Body)

  type Log = seq<LogRow>

  // The rows carrying one identifier, in order.
  function Owned(log: Log, o: Owner): Log {
    if log == [] then []
    else Owned(log[..|log| - 1], o) + if log[|log| - 1].owner == o then [log[|log| - 1]] else []
  }

  // _publish_allocation_rows: append the rows unless exactly they are there
  // already; None is the conflict error.
  function Publish(log: Log, rows: Log): Option<Log>
    requires rows != []
  {
    var present := Owned(log, rows[0].owner);
    if present != [] then (if present != rows then None else Some(log))
    else Some(log + rows)
  }

  function OwnerOf(rows: Log): Owner {
    if rows == [] then Nobody else rows[0].owner
  }

  predicate Block(rows: Log) {
    OwnerOf(rows) != Nobody && forall i :: 0 <= i < |rows| ==> rows[i].owner == OwnerOf(rows)
  }

  predicate Blocks(blocks: seq<Log>) {
    && (forall i :: 0 <= i < |blocks| ==> Block(blocks[i]))
    && (forall i, j :: 0 <= i < j < |blocks| ==> OwnerOf(blocks[i]) != OwnerOf(blocks[j]))
  }

  // The log without its unowned tail.
  function Trim(log: Log): (r: Log)
    ensures |r| <= |log|
  {
    if log != [] && log[|log| - 1].owner == Nobody then Trim(log[..|log| - 1]) else log
  }

  // The log is these blocks, each in one piece and in this order, with nothing
  // but unowned rows before, between and after them.
  predicate BlockForm(log: Log, blocks: seq<Log>)
    decreases |blocks|
  {
    var t := Trim(log);
    if blocks == [] then t == []
    else
      var b := blocks[|blocks| - 1];
      |b| <= |t| && t[|t| - |b|..] == b && BlockForm(t[..|t| - |b|], blocks[..|blocks| - 1])
  }

  lemma UnownedAppends(log: Log, row: LogRow, blocks: seq<Log>)
    requires BlockForm(log, blocks) && row.owner == Nobody
    ensures BlockForm(log + [row], blocks)
  {
    assert (log + [row])[..|log|] == log;
    assert Trim(log + [row]) == Trim(log);
  }

  lemma BlockAppends(log: Log, b: Log, blocks: seq<Log>)
    requires BlockForm(log, blocks) && Block(b)
    ensures BlockForm(log + b, blocks + [b])
  {
    assert Trim(log + b) == log + b;
    assert (log + b)[|log|..] == b && (log + b)[..|log|] == log;
    assert (blocks + [b])[..|blocks|] == blocks;
  }

  lemma {:induction false} OwnedAppends(a: Log, b: Log, o: Owner)
    ensures Owned(a + b, o) == Owned(a, o) + Owned(b, o)
    decreases |b|
  {
    if b == [] {
      assert a + b == a;
    } else {
      var n := |b| - 1;
      OwnedAppends(a, b[..n], o);
      assert (a + b)[..|a + b| - 1] == a + b[..n];
    }
  }

  lemma {:induction false} OwnedOfTrim(log: Log, o: Owner)
    requires o != Nobody
    ensures Owned(Trim(log), o) == Owned(log, o)
  {
    if log != [] && log[|log| - 1].owner == Nobody { OwnedOfTrim(log[..|log| - 1], o); }
  }

  lemma {:induction false} OwnedOfBlock(b: Log, o: Owner)
    requires forall i :: 0 <= i < |b| ==> b[i].owner == OwnerOf(b)
    ensures b != [] ==> Owned(b, o) == if o == OwnerOf(b) then b else []
    ensures b == [] ==> Owned(b, o) == []
  {
    if |b| > 1 {
      OwnedOfBlock(b[..|b| - 1], o);
      assert b == b[..|b| - 1] + [b[|b| - 1]];
    } else if |b| == 1 {
      assert b[..0] == [];
    }
  }

  // The block of one owner, if there is one.
  function BlockOf(blocks: seq<Log>, o: Owner): Log
  {
    if blocks == [] then []
    else if OwnerOf(blocks[|blocks| - 1]) == o then blocks[|blocks| - 1]
    else BlockOf(blocks[..|blocks| - 1], o)
  }

  // In block form with distinct owners, an owner's rows are exactly its block.
  lemma {:induction false} OwnedInBlockForm(log: Log, blocks: seq<Log>, o: Owner)
    requires BlockForm(log, blocks) && Blocks(blocks) && o != Nobody
    ensures Owned(log, o) == BlockOf(blocks, o)
    decreases |blocks|
  {
    OwnedOfTrim(log, o);
    if blocks == [] {
    } else {
      var front, b := LastBlock(log, blocks);
      var earlier := blocks[..|blocks| - 1];
      hide Owned, Trim, BlockForm;
      OwnedAppends(front, b, o);
      OwnedOfBlock(b, o);
      OwnedInBlockForm(front, earlier, o);
      if o == OwnerOf(b) { NoBlockOf(earlier, o); }
    }
  }

  lemma LastBlock(log: Log, blocks: seq<Log>) returns (front: Log, b: Log)
    requires BlockForm(log, blocks) && Blocks(blocks) && blocks != []
    ensures b == blocks[|blocks| - 1] && Block(b) && Trim(log) == front + b
    ensures BlockForm(front, blocks[..|blocks| - 1]) && Blocks(blocks[..|blocks| - 1])
    ensures forall x :: x in blocks[..|blocks| - 1] ==> OwnerOf(x) != OwnerOf(b)
  {
    b := blocks[|blocks| - 1];
    front := Trim(log)[..|Trim(log)| - |b|];
  }

  lemma {:induction false} NoBlockOf(blocks: seq<Log>, o: Owner)
    requires forall x :: x in blocks ==> OwnerOf(x) != o
    ensures BlockOf(blocks, o) == []
  {
    if blocks != [] { NoBlockOf(blocks[..|blocks| - 1], o); }
  }

  lemma {:induction false} BlockOfMember(blocks: seq<Log>, i: nat)
    requires Blocks(blocks) && i < |blocks|
    ensures BlockOf(blocks, OwnerOf(blocks[i])) == blocks[i]
    decreases |blocks|
  {
    var n := |blocks| - 1;
    if i < n { BlockOfMember(blocks[..n], i); }
  }

  // Publishing an absent block appends it; publishing a present one is a no-op.
  lemma PublishFresh(log: Log, blocks: seq<Log>, b: Log)
    requires BlockForm(log, blocks) && Blocks(blocks) && Block(b)
    requires forall x :: x in blocks ==> OwnerOf(x) != OwnerOf(b)
    ensures Publish(log, b) == Some(log + b) && BlockForm(log + b, blocks + [b])
  {
    OwnedInBlockForm(log, blocks, OwnerOf(b));
    NoBlockOf(blocks, OwnerOf(b));
    BlockAppends(log, b, blocks);
  }

  lemma PublishAgain(log: Log, blocks: seq<Log>, b: Log)
    requires BlockForm(log, blocks + [b]) && Blocks(blocks + [b])
    ensures Publish(log, b) == Some(log)
  {
    assert (blocks + [b])[|blocks|] == b;
    OwnedInBlockForm(log, blocks + [b], OwnerOf(b));
    BlockOfMember(blocks + [b], |blocks|);
  }
}
