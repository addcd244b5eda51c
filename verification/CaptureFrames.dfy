/** Repeated deliveries of a session's frames reduced to the last of each (scripts/capture_replay.py, _dedup_frames). */
module CaptureFrames {
  import opened Common

  /** A tool frame is known by its call, any other by its message, or its own id, with what it says. */
  datatype Key =
    | CallKey(callId: string, eventType: string)
    | PlainKey(source: string, eventType: string, tool: Option<string>, delta: Option<string>)

  datatype Frame = Frame(callId: string, messageId: string, eventId: string, eventType: string,
                         tool: Option<string>, delta: Option<string>, payload: string)

  /** An empty id counts as none. */
  function KeyOf(f: Frame): Key {
    if f.callId != "" then CallKey(f.callId, f.eventType)
    else PlainKey(if f.messageId != "" then f.messageId else f.eventId, f.eventType, f.tool, f.delta)
  }

  /**
   * When two frames have one key: of one type, either parts of one call, or of no call and with one message, or else one
   * event, one tool and one text.
   */
  lemma SameKeyIff(f: Frame, g: Frame)
    ensures KeyOf(f) == KeyOf(g) <==>
              && f.eventType == g.eventType && f.callId == g.callId
              && (|f.callId| == 0 ==>
                    && f.tool == g.tool && f.delta == g.delta
                    && (if |f.messageId| > 0 then f.messageId else f.eventId) == (if |g.messageId| > 0 then g.messageId else g.eventId))
  {
    assert forall s: string :: |s| == 0 <==> s == "";
  }

  /** No later frame has the key of frame i. */
  predicate IsLast(frames: seq<Frame>, i: nat)
    requires i < |frames|
  {
    forall j | i < j < |frames| :: KeyOf(frames[j]) != KeyOf(frames[i])
  }

  /** The frames before n that are the last of their keys in the whole list. */
  function Survivors(frames: seq<Frame>, n: nat): seq<Frame>
    requires n <= |frames|
  {
    if n == 0 then []
    else Survivors(frames, n - 1) + if IsLast(frames, n - 1) then [frames[n - 1]] else []
  }

  method DedupFrames(frames: seq<Frame>) returns (kept: seq<Frame>)
    ensures kept == Survivors(frames, |frames|)
  {
    hide KeyOf;
    var latest: map<Key, nat> := map[];
    for i := 0 to |frames|
      invariant forall k | k in latest :: latest[k] < i && KeyOf(frames[latest[k]]) == k
      invariant forall j | 0 <= j < i :: KeyOf(frames[j]) in latest && j <= latest[KeyOf(frames[j])]
    {
      latest := latest[KeyOf(frames[i]) := i];
    }
    kept := [];
    for i := 0 to |frames|
      invariant kept == Survivors(frames, i)
    {
      LatestIsLast(frames, latest, i);
      if latest[KeyOf(frames[i])] == i { kept := kept + [frames[i]]; }
    }
  }

  lemma LatestIsLast(frames: seq<Frame>, latest: map<Key, nat>, i: nat)
    requires i < |frames|
    requires forall k | k in latest :: latest[k] < |frames| && KeyOf(frames[latest[k]]) == k
    requires forall j | 0 <= j < |frames| :: KeyOf(frames[j]) in latest && j <= latest[KeyOf(frames[j])]
    ensures KeyOf(frames[i]) in latest && (latest[KeyOf(frames[i])] == i <==> IsLast(frames, i))
  {
    hide KeyOf;
  }

  /** The last position of a key among the frames from i on. */
  lemma {:induction false} LastOf(frames: seq<Frame>, i: nat) returns (last: nat)
    requires i < |frames|
    ensures i <= last < |frames| && KeyOf(frames[last]) == KeyOf(frames[i]) && IsLast(frames, last)
    decreases |frames| - i
  {
    hide KeyOf;
    if IsLast(frames, i) {
      last := i;
    } else {
      var j :| i < j < |frames| && KeyOf(frames[j]) == KeyOf(frames[i]);
      last := LastOf(frames, j);
    }
  }

  lemma {:induction false} SurvivorsIn(frames: seq<Frame>, n: nat)
    requires n <= |frames|
    ensures forall f :: f in Survivors(frames, n) <==> exists i :: 0 <= i < n && frames[i] == f && IsLast(frames, i)
  {
    hide KeyOf, IsLast;
    if n > 0 {
      SurvivorsIn(frames, n - 1);
      forall f ensures f in Survivors(frames, n) <==> exists i :: 0 <= i < n && frames[i] == f && IsLast(frames, i) {
        if f in Survivors(frames, n - 1) {
          var i :| 0 <= i < n - 1 && frames[i] == f && IsLast(frames, i);
        } else if f in Survivors(frames, n) {
          assert frames[n - 1] == f;
        }
      }
    }
  }

  ghost predicate DistinctKeys(frames: seq<Frame>) {
    forall i, j | 0 <= i < j < |frames| :: KeyOf(frames[i]) != KeyOf(frames[j])
  }

  lemma {:induction false} SurvivorsDistinct(frames: seq<Frame>, n: nat)
    requires n <= |frames|
    ensures DistinctKeys(Survivors(frames, n))
  {
    hide KeyOf;
    if n > 0 {
      SurvivorsDistinct(frames, n - 1);
      SurvivorsIn(frames, n - 1);
      var before, s := Survivors(frames, n - 1), Survivors(frames, n);
      forall i, j | 0 <= i < j < |s| ensures KeyOf(s[i]) != KeyOf(s[j]) {
        assert s[i] == before[i] && before[i] in before;
        var k :| 0 <= k < n - 1 && frames[k] == s[i] && IsLast(frames, k);
        if j < |before| { assert s[j] == before[j]; } else { assert KeyOf(frames[n - 1]) != KeyOf(frames[k]); }
      }
    }
  }

  /**
   * Exactly one frame of each key survives, and it is the last one delivered: a completed tool frame replaces its
   * pending forms, and frames that say different things all stay.
   */
  lemma OneLastFrameEach(frames: seq<Frame>, i: nat)
    requires i < |frames|
    ensures var kept := Survivors(frames, |frames|);
            && DistinctKeys(kept)
            && exists last :: i <= last < |frames| && IsLast(frames, last) && KeyOf(frames[last]) == KeyOf(frames[i])
                              && frames[last] in kept
  {
    hide KeyOf, IsLast;
    SurvivorsDistinct(frames, |frames|);
    SurvivorsIn(frames, |frames|);
    var last := LastOf(frames, i);
  }

  /** Reducing twice changes nothing more. */
  lemma {:induction false} DedupIdempotent(frames: seq<Frame>)
    ensures var kept := Survivors(frames, |frames|); Survivors(kept, |kept|) == kept
  {
    SurvivorsDistinct(frames, |frames|);
    var kept := Survivors(frames, |frames|);
    AllSurvive(kept, |kept|);
    assert kept[..|kept|] == kept;
  }

  lemma {:induction false} AllSurvive(frames: seq<Frame>, n: nat)
    requires n <= |frames| && DistinctKeys(frames)
    ensures Survivors(frames, n) == frames[..n]
  {
    hide KeyOf;
    if n > 0 {
      AllSurvive(frames, n - 1);
    }
  }
}
