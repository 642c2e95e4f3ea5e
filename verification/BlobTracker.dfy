/** The tracker object of src/detection/blob_tracker.py: it updates its blob objects
    in place, and every method is proved to perform the transition of the same name
    in BlobTracks. */
module BlobTracker {
  import opened Prelude
  import opened Geometry
  import opened Association
  import opened ObjectLists
  import Spec = BlobTracks

  class TrackedBlob {
    const id: nat
    var bbox: Box
    var lastSeenAt: real
    var consecutiveHits: int

    constructor (id: nat, bbox: Box, now: real)
      ensures Value() == Spec.Blob(id, bbox, now, 1)
    {
      this.id := id;
      this.bbox := bbox;
      lastSeenAt := now;
      consecutiveHits := 1;
    }

    function Value(): Spec.Blob
      reads this
    {
      Spec.Blob(id, bbox, lastSeenAt, consecutiveHits)
    }
  }

  /** The values of the blob objects, in dictionary order. */
  ghost function ValuesOf(bs: seq<TrackedBlob>): (r: seq<Spec.Blob>)
    reads bs
    ensures |r| == |bs| && forall i :: 0 <= i < |bs| ==> r[i] == bs[i].Value()
  {
    seq(|bs|, i requires 0 <= i < |bs| reads bs => bs[i].Value())
  }

  lemma ValuesOfAppend(bs: seq<TrackedBlob>, b: TrackedBlob)
    ensures ValuesOf(bs + [b]) == ValuesOf(bs) + [b.Value()]
  {
  }

  class BlobTracker {
    const s: Spec.Settings
    var blobs: seq<TrackedBlob>
    var nextId: nat
    ghost var Repr: set<TrackedBlob>

    constructor (raw: Spec.Settings)
      ensures s == Spec.Clamp(raw)
      ensures Valid() && Repr == {} && blobs == [] && nextId == 0
    {
      s := Spec.Clamp(raw);
      blobs, nextId, Repr := [], 0, {};
    }

    ghost predicate Valid()
      reads this
    {
      Separate(blobs) && forall b :: b in blobs ==> b in Repr
    }

    ghost function Current(): Spec.State
      reads this, blobs
    {
      Spec.State(ValuesOf(blobs), nextId)
    }

    ghost function LedgerOf(results: seq<Spec.Result>): Spec.Ledger
      reads this, blobs
    {
      Spec.Ledger(ValuesOf(blobs), nextId, results)
    }

    ghost predicate Uses(usedIds: set<nat>, results: seq<Spec.Result>) {
      forall id :: id in usedIds <==> Spec.IsUsed(results, id)
    }

    /** Scan for the blob of a box, skipping the ones already used. */
    method BestBlob(box: Box, usedIds: set<nat>, ghost results: seq<Spec.Result>) returns (best: Option<nat>)
      requires Uses(usedIds, results)
      ensures best == Spec.Match(s, LedgerOf(results), box)
    {
      ghost var scores := Spec.Scores(s, LedgerOf(results), box);
      best := None;
      var bestScore := 0.0;
      for i := 0 to |blobs|
        invariant best == FirstBest(scores[..i])
        invariant bestScore == if best.Some? then scores[best.value] else 0.0
      {
        assert scores[..i + 1][..i] == scores[..i];
        var b := blobs[i];
        if b.id !in usedIds {
          var score := s.iou(box, b.bbox);
          if score > bestScore {
            best, bestScore := Some(i), score;
          }
        }
      }
      assert scores[..|blobs|] == scores;
      if best.Some? && bestScore < s.threshold {
        best := None;
      }
    }

    method Renew(i: nat, box: Box, now: real, results: seq<Spec.Result>) returns (results': seq<Spec.Result>)
      requires Valid() && i < |blobs|
      modifies blobs[i]
      ensures var old_ := old(LedgerOf(results));
        LedgerOf(results') == Spec.Replaced(old_, i, Spec.Smoothed(s, old_.blobs[i], box, now))
    {
      ghost var before := ValuesOf(blobs);
      var b := blobs[i];
      b.bbox := Blend(b.bbox, box, s.alpha);
      b.lastSeenAt := now;
      b.consecutiveHits := b.consecutiveHits + 1;
      results' := results + [Spec.Result(b.id, b.bbox, false, b.consecutiveHits)];
      assert forall j :: 0 <= j < |blobs| && j != i ==> blobs[j].Value() == before[j];
      assert ValuesOf(blobs) == before[i := b.Value()];
    }

    method Adopt(box: Box, now: real, results: seq<Spec.Result>) returns (results': seq<Spec.Result>)
      requires Valid()
      modifies this
      ensures Valid() && fresh(Repr - old(Repr))
      ensures LedgerOf(results') == Spec.Appended(old(LedgerOf(results)), box, now)
    {
      var b := new TrackedBlob(nextId, box, now);
      ValuesOfAppend(blobs, b);
      results' := results + [Spec.Result(nextId, box, true, 1)];
      blobs, nextId, Repr := blobs + [b], nextId + 1, Repr + {b};
    }

    /** One box: refresh the best unused blob or start one. */
    method Associate(box: Box, now: real, usedIds: set<nat>, results: seq<Spec.Result>)
      returns (usedIds': set<nat>, results': seq<Spec.Result>)
      requires Valid() && Uses(usedIds, results)
      modifies this, Repr
      ensures Valid() && fresh(Repr - old(Repr)) && Uses(usedIds', results')
      ensures LedgerOf(results') == Spec.AssignOne(s, old(LedgerOf(results)), box, now)
    {
      var best := BestBlob(box, usedIds, results);
      if best.Some? {
        results' := Renew(best.value, box, now, results);
      } else {
        results' := Adopt(box, now, results);
      }
      usedIds' := usedIds + {results'[|results|].objectId};
      UsesAfter(usedIds, results, results'[|results|]);
      assert results' == results + [results'[|results|]];
    }

    lemma UsesAfter(usedIds: set<nat>, results: seq<Spec.Result>, r: Spec.Result)
      requires Uses(usedIds, results)
      ensures Uses(usedIds + {r.objectId}, results + [r])
    {
      var more := results + [r];
      assert more[|results|] == r;
      forall id | Spec.IsUsed(results, id) ensures Spec.IsUsed(more, id) {
        var k :| 0 <= k < |results| && results[k].objectId == id;
        assert more[k].objectId == id;
      }
    }

    method Update(boxes: seq<Box>, now: real) returns (results: seq<Spec.Result>)
      requires Valid()
      modifies this, Repr
      ensures Valid() && fresh(Repr - old(Repr))
      ensures Current() == Spec.Update(s, old(Current()), boxes, now)
      ensures results == Spec.Results(s, old(Current()), boxes, now)
    {
      results := AssociateAll(boxes, now);
      Evict(now);
    }

    method AssociateAll(boxes: seq<Box>, now: real) returns (results: seq<Spec.Result>)
      requires Valid()
      modifies this, Repr
      ensures Valid() && fresh(Repr - old(Repr))
      ensures LedgerOf(results) == Spec.Assign(s, Spec.Start(old(Current())), boxes, now)
    {
      var usedIds: set<nat> := {};
      results := [];
      ghost var start := Spec.Start(Current());
      for k := 0 to |boxes|
        invariant Valid() && fresh(Repr - old(Repr)) && Uses(usedIds, results)
        invariant LedgerOf(results) == Spec.Assign(s, start, boxes[..k], now)
      {
        Spec.AssignStep(s, start, boxes, now, k);
        usedIds, results := Associate(boxes[k], now, usedIds, results);
      }
      assert boxes[..|boxes|] == boxes;
    }

    /** The blob objects still within the grace period. */
    method LiveBlobs(now: real) returns (kept: seq<TrackedBlob>)
      requires Valid()
      ensures Separate(kept) && forall b :: b in kept ==> b in blobs
      ensures ValuesOf(kept) == Spec.Fresh(s, ValuesOf(blobs), now)
    {
      kept := [];
      ghost var all := ValuesOf(blobs);
      for i := 0 to |blobs|
        invariant KeptFrom(blobs, kept, i)
        invariant ValuesOf(kept) == Spec.Fresh(s, all[..i], now)
      {
        Spec.FreshStep(s, all, now, i);
        NotYetKept(blobs, kept, i);
        ValuesOfAppend(kept, blobs[i]);
        if now - blobs[i].lastSeenAt <= s.maxMissed {
          kept := kept + [blobs[i]];
        }
      }
      assert all[..|blobs|] == all && blobs[..|blobs|] == blobs;
    }

    /** Remove the blobs unseen for longer than the grace period. */
    method Evict(now: real)
      requires Valid()
      modifies this`blobs
      ensures Valid() && ValuesOf(blobs) == Spec.Fresh(s, old(ValuesOf(blobs)), now)
    {
      blobs := LiveBlobs(now);
    }

    method OtherBlobs(id: nat) returns (kept: seq<TrackedBlob>)
      requires Valid()
      ensures Separate(kept) && forall b :: b in kept ==> b in blobs
      ensures ValuesOf(kept) == Spec.Without(ValuesOf(blobs), id)
    {
      kept := [];
      ghost var all := ValuesOf(blobs);
      for i := 0 to |blobs|
        invariant KeptFrom(blobs, kept, i)
        invariant ValuesOf(kept) == Spec.Without(all[..i], id)
      {
        assert all[..i + 1][..i] == all[..i];
        NotYetKept(blobs, kept, i);
        ValuesOfAppend(kept, blobs[i]);
        if blobs[i].id != id {
          kept := kept + [blobs[i]];
        }
      }
      assert all[..|blobs|] == all && blobs[..|blobs|] == blobs;
    }

    /** Drop one blob; an unknown id changes nothing. */
    method Forget(id: nat)
      requires Valid()
      modifies this`blobs
      ensures Valid() && ValuesOf(blobs) == Spec.Without(old(ValuesOf(blobs)), id)
    {
      blobs := OtherBlobs(id);
    }

    method Clear()
      modifies this`blobs
      ensures Valid() && blobs == []
    {
      blobs := [];
    }
  }
}
