/** engine/recurrent_checkpoint.h: a snapshot of the plain recurrent buffers,
    taken before a verification batch and written back when drafts are rejected. */
module Checkpoint {
  import opened Wrappers
  import opened Graph

  /** The backend's persistent state buffers, by identity. */
  type Buffers = map<nat, Bytes>

  datatype Entry = Entry(state: nat, bytes: Bytes)

  /** The saved bytes of `id`, or what `now` holds for it. */
  function Saved(entries: seq<Entry>, now: Buffers, id: nat): Bytes
    requires id in now
  {
    if entries == [] then now[id]
    else if entries[0].state == id then entries[0].bytes
    else Saved(entries[1..], now, id)
  }

  class RecurrentCheckpoint {
    var entries: seq<Entry>
    var device: Option<Buffers>
    var valid: bool

    /** What a valid snapshot of `states` over `seen` records: every listed
        non-empty buffer once, with its bytes. */
    ghost predicate Records(states: seq<Option<nat>>, seen: Buffers)
      reads this
    {
      && valid
      && match device
         case Some(all) => all == seen && entries == []
         case None => Covers(entries, states, |states|, seen)
    }

    constructor ()
      ensures !valid && entries == [] && device == None
    {
      entries, device, valid := [], None, false;
    }

    /** capture: lists may repeat a buffer or hold null; empty buffers are skipped
        (recurrent_checkpoint.h:15-43). */
    method Capture(buffers: Buffers, states: seq<Option<nat>>, snapshots: bool)
      requires forall i :: 0 <= i < |states| && states[i].Some? ==> states[i].value in buffers
      modifies this
      ensures Records(states, buffers)
      ensures device.Some? <==> snapshots
    {
      entries, device, valid := [], None, false;
      if snapshots {
        device, valid := Some(buffers), true;
        return;
      }
      for i := 0 to |states|
        invariant device == None && Covers(entries, states, i, buffers)
      {
        if states[i].Some? {
          var id := states[i].value;
          var known := false;
          for e := 0 to |entries|
            invariant known <==> exists k :: 0 <= k < e && entries[k].state == id
          {
            known := known || entries[e].state == id;
          }
          ghost var before := entries;
          if !known && buffers[id] != [] {
            entries := entries + [Entry(id, buffers[id])];
            assert entries[|before|].state == id;
          }
          assert forall k :: 0 <= k < |before| ==> entries[k] == before[k];
        }
      }
      valid := true;
    }

    /** restore: all spans are checked before anything is written
        (recurrent_checkpoint.h:45-58). */
    method Restore(buffers: Buffers) returns (ok: bool, restored: Buffers)
      requires Distinct(entries) && forall k :: 0 <= k < |entries| ==> entries[k].state in buffers
      ensures !ok ==> restored == buffers
      ensures ok <==> valid && (device.Some? || forall k :: 0 <= k < |entries| ==> |buffers[entries[k].state]| == |entries[k].bytes|)
      ensures ok && device.Some? ==> restored == device.value
      ensures ok && device.None? ==>
        restored == map id | id in buffers :: Saved(entries, buffers, id)
    {
      restored := buffers;
      if !valid {
        return false, restored;
      }
      if device.Some? {
        return true, device.value;
      }
      for k := 0 to |entries|
        invariant forall m :: 0 <= m < k ==> |buffers[entries[m].state]| == |entries[m].bytes|
      {
        if |buffers[entries[k].state]| != |entries[k].bytes| {
          return false, restored;
        }
      }
      for k := 0 to |entries|
        invariant restored.Keys == buffers.Keys
        invariant forall id <- buffers :: restored[id] == Saved(entries[..k], buffers, id)
      {
        assert entries[..k + 1] == entries[..k] + [entries[k]];
        forall id | id in buffers
          ensures Saved(entries[..k + 1], buffers, id) == if id == entries[k].state then entries[k].bytes else Saved(entries[..k], buffers, id)
        {
          SavedSnoc(entries[..k], entries[k], buffers, id);
        }
        restored := restored[entries[k].state := entries[k].bytes];
      }
      assert entries[..|entries|] == entries;
      ok := true;
    }

    /** No state needs rolling back (recurrent_checkpoint.h:60-67). */
    predicate Empty()
      reads this
    {
      match device
      case Some(all) => forall id <- all :: all[id] == []
      case None => entries == []
    }
  }

  predicate Distinct(entries: seq<Entry>) {
    forall a, b :: 0 <= a < b < |entries| ==> entries[a].state != entries[b].state
  }

  /** `entries` holds the non-empty buffers among the first `n` listed states. */
  ghost predicate Covers(entries: seq<Entry>, states: seq<Option<nat>>, n: nat, seen: Buffers)
    requires n <= |states|
  {
    && Distinct(entries)
    && (forall k :: 0 <= k < |entries| ==>
          entries[k].state in seen && entries[k].bytes == seen[entries[k].state] != [])
    && (forall i :: 0 <= i < n && states[i].Some? && states[i].value in seen && seen[states[i].value] != [] ==>
          exists k :: 0 <= k < |entries| && entries[k].state == states[i].value)
  }

  lemma {:induction false} SavedSnoc(entries: seq<Entry>, e: Entry, now: Buffers, id: nat)
    requires id in now && forall k :: 0 <= k < |entries| ==> entries[k].state != e.state
    ensures Saved(entries + [e], now, id) == if id == e.state then e.bytes else Saved(entries, now, id)
  {
    if entries != [] {
      assert (entries + [e])[1..] == entries[1..] + [e];
      SavedSnoc(entries[1..], e, now, id);
    } else {
      assert (entries + [e])[1..] == [];
    }
  }

  lemma {:induction false} SavedIs(entries: seq<Entry>, k: nat, now: Buffers)
    requires k < |entries| && Distinct(entries) && entries[k].state in now
    ensures Saved(entries, now, entries[k].state) == entries[k].bytes
  {
    if k > 0 {
      SavedIs(entries[1..], k - 1, now);
    }
  }

  /** Same buffers with the same sizes: all that kernels may change is contents. */
  predicate SameLayout(a: Buffers, b: Buffers) {
    a.Keys == b.Keys && forall id <- a :: |a[id]| == |b[id]|
  }

  /** A checkpoint that lists every buffer undoes any change of contents. */
  lemma RestoreUndoes(entries: seq<Entry>, states: seq<Option<nat>>, before: Buffers, after: Buffers)
    requires Covers(entries, states, |states|, before) && SameLayout(before, after)
    requires forall id <- before :: Some(id) in states
    ensures (map id | id in after :: Saved(entries, after, id)) == before
    ensures forall k :: 0 <= k < |entries| ==> entries[k].state in after && |after[entries[k].state]| == |entries[k].bytes|
  {
    forall id | id in before
      ensures Saved(entries, after, id) == before[id]
    {
      if before[id] != [] {
        var i :| 0 <= i < |states| && states[i] == Some(id);
        var k :| 0 <= k < |entries| && entries[k].state == id;
        SavedIs(entries, k, after);
      } else {
        SavedAbsent(entries, after, id);
      }
    }
  }

  lemma {:induction false} SavedAbsent(entries: seq<Entry>, now: Buffers, id: nat)
    requires id in now && forall k :: 0 <= k < |entries| ==> entries[k].state != id
    ensures Saved(entries, now, id) == now[id]
  {
    if entries != [] {
      SavedAbsent(entries[1..], now, id);
    }
  }
}
