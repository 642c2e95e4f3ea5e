/** What a track is called: its label and its source go back to the detections that
    association gave to it, each overwritten by the last one that was allowed to. */
module ObjectLabels {
  import opened Prelude
  import opened ObjectTracks
  import opened ObjectHistory
  import opened ObjectRuns
  import opened ObjectSteps
  import opened ObjectMatches

  /** One of these came from the specific detector. */
  ghost predicate SpecificAmong(ds: seq<Detection>) {
    exists i :: 0 <= i < |ds| && ds[i].source == Some(SPECIFIC)
  }

  /** Detection `i` may rename the track: the first one, one of the specific or of no
      stated source, or any one as long as no specific one came before. */
  ghost predicate Relabels(ds: seq<Detection>, i: nat)
    requires i < |ds|
  {
    i == 0 || ds[i].source.GetOr(SPECIFIC) == SPECIFIC || !SpecificAmong(ds[..i])
  }

  /** The value is that of the last detection that may rename the track and has one, or
      the default if none has. */
  ghost predicate LastWord(ds: seq<Detection>, said: Detection -> Option<string>, value: string, default: string) {
    || (value == default && forall i :: 0 <= i < |ds| && Relabels(ds, i) ==> said(ds[i]).None?)
    || exists i :: 0 <= i < |ds| && Relabels(ds, i) && said(ds[i]) == Some(value) && Unsaid(ds, said, i + 1)
  }

  ghost predicate Unsaid(ds: seq<Detection>, said: Detection -> Option<string>, from: nat) {
    forall j :: from <= j < |ds| && Relabels(ds, j) ==> said(ds[j]).None?
  }

  /** The label and the source are the last word of these detections. */
  ghost predicate Named(ds: seq<Detection>, t: Track) {
    && LastWord(ds, (d: Detection) => d.className, t.labelName, "object")
    && LastWord(ds, (d: Detection) => d.source, t.source, "detector")
  }

  lemma RelabelsAppend(ds: seq<Detection>, d: Detection)
    ensures forall i :: 0 <= i < |ds| ==> (Relabels(ds + [d], i) <==> Relabels(ds, i))
    ensures Relabels(ds + [d], |ds|) <==> ds == [] || d.source.GetOr(SPECIFIC) == SPECIFIC || !SpecificAmong(ds)
  {
    forall i | 0 <= i < |ds| ensures Relabels(ds + [d], i) <==> Relabels(ds, i) {
      assert (ds + [d])[..i] == ds[..i];
    }
    assert (ds + [d])[..|ds|] == ds;
  }

  /** One more detection has the last word if it may and says something. */
  lemma LastWordAppend(ds: seq<Detection>, d: Detection, said: Detection -> Option<string>, value: string,
                       default: string)
    requires LastWord(ds, said, value, default)
    ensures LastWord(ds + [d], said, if Relabels(ds + [d], |ds|) then said(d).GetOr(value) else value, default)
  {
    var more := ds + [d];
    RelabelsAppend(ds, d);
    if Relabels(more, |ds|) && said(d).Some? {
      assert more[|ds|] == d && Unsaid(more, said, |ds| + 1);
    } else if i :| 0 <= i < |ds| && Relabels(ds, i) && said(ds[i]) == Some(value) && Unsaid(ds, said, i + 1) {
      assert more[i] == ds[i] && Unsaid(more, said, i + 1);
    }
  }

  lemma SpecificAppend(ds: seq<Detection>, d: Detection)
    ensures SpecificAmong(ds + [d]) <==> SpecificAmong(ds) || d.source == Some(SPECIFIC)
  {
    assert (ds + [d])[|ds|] == d;
    if SpecificAmong(ds) {
      var i :| 0 <= i < |ds| && ds[i].source == Some(SPECIFIC);
      assert (ds + [d])[i].source == Some(SPECIFIC);
    }
  }

  /** The track is named by its detections, and is specific if one of them was. */
  ghost predicate NamedBy(ds: seq<Detection>, t: Track) {
    ds != [] && Named(ds, t) && (t.source == SPECIFIC <==> SpecificAmong(ds))
  }

  lemma NamedAtBirth(id: nat, d: Detection, at: real)
    ensures NamedBy([d], Birth(id, d, at))
  {
    assert Relabels([d], 0);
    assert [d][0] == d;
    assert Unsaid([d], (x: Detection) => x.className, 1) && Unsaid([d], (x: Detection) => x.source, 1);
  }

  lemma NamedAfterHit(s: Settings, ds: seq<Detection>, t: Track, d: Detection, at: real)
    requires NamedBy(ds, t)
    ensures NamedBy(ds + [d], Refresh(s, t, d, at))
  {
    RelabelsAppend(ds, d);
    SpecificAppend(ds, d);
    LastWordAppend(ds, d, (x: Detection) => x.className, t.labelName, "object");
    LastWordAppend(ds, d, (x: Detection) => x.source, t.source, "detector");
  }

  lemma {:induction false} LifeIsNamed(s: Settings, h: Life)
    ensures NamedBy(Detections(h), Replay(s, h))
    decreases |h.events|
  {
    if h.events == [] {
      NamedAtBirth(h.id, h.birth, h.bornAt);
    } else {
      var before, e := Prefix(h, |h.events| - 1), h.events[|h.events| - 1];
      LifeIsNamed(s, before);
      if e.Seen? {
        NamedAfterHit(s, Detections(before), Replay(s, before), e.detection, e.seenAt);
      }
    }
  }

  /** In any run a live track bears the class name of the last detection given to it that
      may rename it and has one, "object" if none has, and likewise its source. */
  lemma RunTrackIsNamed(s: Settings, ops: seq<Op>, n: nat, t: Track)
    requires Runnable(ops) && n <= |ops| && t in TracksAfter(s, ops, n)
    ensures Named(HitsOf(s, ops, n, t.id), t)
  {
    var h := TrackLife(s, ops, n, t);
    LifeIsNamed(s, h);
  }
}
