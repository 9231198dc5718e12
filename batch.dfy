/** `llama_batch` and the two helpers `llama_batch_clear` and
    `llama_batch_add`. The batch is a set of parallel arrays allocated by
    the engine with one slot per token; `nTokens` is the cursor that says
    how many slots are in use. `seqId` holds one separately allocated row
    of sequence ids per slot. */
module Batch {

  /** What one used slot of a batch holds. */
  datatype Slot = Slot(token: int, pos: int, seqIds: seq<int>, logits: int)

  class LlamaBatch {
    var nTokens: int
    const token: array<int>
    const pos: array<int>
    const nSeqId: array<int>
    const seqId: array<array<int>>
    const logits: array<int>

    /** The rows of `seqId`. */
    ghost function Rows(): set<array<int>>
      reads seqId
    {
      set i | 0 <= i < seqId.Length :: seqId[i]
    }

    ghost predicate Valid()
      reads this, nSeqId, seqId, Rows()
    {
      token.Length == pos.Length == nSeqId.Length == seqId.Length == logits.Length &&
      0 <= nTokens <= token.Length &&
      token != pos && token != nSeqId && token != logits &&
      pos != nSeqId && pos != logits && nSeqId != logits &&
      (forall i, j :: 0 <= i < j < seqId.Length ==> seqId[i] != seqId[j]) &&
      (forall i :: 0 <= i < seqId.Length ==>
        seqId[i] != token && seqId[i] != pos && seqId[i] != nSeqId && seqId[i] != logits) &&
      (forall i :: 0 <= i < nTokens ==> 0 <= nSeqId[i] <= seqId[i].Length)
    }

    /** The slots in use, in order. */
    ghost function Contents(): seq<Slot>
      requires Valid()
      reads this, token, pos, nSeqId, seqId, logits, Rows()
    {
      seq(nTokens, i requires 0 <= i < nTokens && Valid() reads this, token, pos, nSeqId, seqId, logits, Rows() =>
        Slot(token[i], pos[i], seqId[i][..nSeqId[i]], logits[i]))
    }

    /** `llama_batch_init(capacity, 0, maxSeqIds)`. */
    constructor (capacity: nat, maxSeqIds: nat)
      ensures Valid() && Contents() == []
      ensures token.Length == capacity
      ensures forall i :: 0 <= i < capacity ==> seqId[i].Length == maxSeqIds
    {
      var t, p, n, l := new int[capacity], new int[capacity], new int[capacity], new int[capacity];
      var empty := new int[0];
      var rows := new array<int>[capacity](_ => empty);
      var i := 0;
      while i < capacity
        invariant 0 <= i <= capacity
        invariant forall k :: 0 <= k < i ==> fresh(rows[k]) && rows[k].Length == maxSeqIds
        invariant forall k, l :: 0 <= k < l < i ==> rows[k] != rows[l]
        invariant forall k :: 0 <= k < i ==>
          rows[k] != t && rows[k] != p && rows[k] != n && rows[k] != l
      {
        rows[i] := new int[maxSeqIds];
        i := i + 1;
      }
      nTokens, token, pos, nSeqId, seqId, logits := 0, t, p, n, rows, l;
    }
  }

  /** `llama_batch_clear`: the cursor goes back to 0; no slot is touched. */
  method BatchClear(batch: LlamaBatch)
    requires batch.Valid()
    modifies batch`nTokens
    ensures batch.Valid() && batch.Contents() == []
    ensures batch.nTokens == 0
  {
    batch.nTokens := 0;
  }

  /** The `seq_id[n_tokens][i] = seq_ids[i]` loop of `llama_batch_add`:
      the ids go to the front of the row and the rest stays as it was. */
  method CopyIds(row: array<int>, ids: seq<int>)
    requires |ids| <= row.Length
    modifies row
    ensures row[..] == ids + old(row[|ids|..])
  {
    for i := 0 to |ids|
      invariant row[..i] == ids[..i]
      invariant row[i..] == old(row[i..])
    {
      row[i] := ids[i];
    }
    assert row[..] == row[..|ids|] + row[|ids|..];
  }

  /** `llama_batch_add`: fills the slot at the cursor and moves the cursor
      on by one. The caller must leave room for one more slot and for the
      sequence ids, as the C arrays have no bounds checks. */
  method BatchAdd(batch: LlamaBatch, id: int, pos: int, seqIds: seq<int>, logits: bool)
    requires batch.Valid()
    requires batch.nTokens < batch.token.Length
    requires |seqIds| <= batch.seqId[batch.nTokens].Length
    modifies batch`nTokens, batch.token, batch.pos, batch.nSeqId, batch.logits, batch.seqId[batch.nTokens]
    ensures batch.Valid()
    ensures batch.nTokens == old(batch.nTokens) + 1
    ensures batch.Contents() == old(batch.Contents()) + [Slot(id, pos, seqIds, if logits then 1 else 0)]
    ensures batch.token[..] == old(batch.token[..])[old(batch.nTokens) := id]
    ensures batch.pos[..] == old(batch.pos[..])[old(batch.nTokens) := pos]
    ensures batch.nSeqId[..] == old(batch.nSeqId[..])[old(batch.nTokens) := |seqIds|]
    ensures batch.logits[..] == old(batch.logits[..])[old(batch.nTokens) := if logits then 1 else 0]
    ensures batch.seqId[old(batch.nTokens)][..] == seqIds + old(batch.seqId[batch.nTokens][|seqIds|..])
    ensures forall k :: 0 <= k < batch.seqId.Length && k != old(batch.nTokens) ==>
      batch.seqId[k][..] == old(batch.seqId[k][..])
  {
    var n := batch.nTokens;
    ghost var before := batch.Contents();
    batch.token[n] := id;
    batch.pos[n] := pos;
    batch.nSeqId[n] := |seqIds|;
    var row := batch.seqId[n];
    CopyIds(row, seqIds);
    batch.logits[n] := if logits then 1 else 0;
    batch.nTokens := n + 1;
    forall i | 0 <= i < n
      ensures batch.seqId[i] != row && batch.nSeqId[i] == old(batch.nSeqId[i])
      ensures batch.seqId[i][..] == old(batch.seqId[i][..])
    {
    }
    assert batch.Valid();
    forall i | 0 <= i < n
      ensures batch.Contents()[i] == before[i]
    {
    }
    assert batch.Contents()[n] == Slot(id, pos, seqIds, if logits then 1 else 0);
  }
}
