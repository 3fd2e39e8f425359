/**
  `TEventBuilder::EventBuild` (src/TEventBuilder.cpp): one event per
  trigger hit, built from the hits within the time window around it, and
  dropped when the window reaches a trigger of higher priority.
 */
module EventBuilding {
  import opened Results
  import opened EventData
  import opened HitTypes
  import opened ChannelSettings
  import opened Classification
  import opened TimestampRepair

  /** What the window scans read besides the hits. */
  datatype ScanParams = ScanParams(settings: SettingsGrid, timeWindow: int)

  /** What one build reads besides the hits. */
  datatype Config = Config(scan: ScanParams, onlyFission: bool, rule: AdcRule)

  /** The hit's channel exists in the settings grid. */
  predicate Known(settings: SettingsGrid, h: Hit)
  {
    Lookup(settings, h.mod, h.channel).Some?
  }

  predicate AllKnown(settings: SettingsGrid, hits: seq<Hit>)
  {
    forall k :: 0 <= k < |hits| ==> Known(settings, hits[k])
  }

  /** The hit's channel is configured as an event trigger. */
  predicate IsTrigger(settings: SettingsGrid, h: Hit)
  {
    match Lookup(settings, h.mod, h.channel)
    case Some(s) => s.isEventTrigger
    case None => false
  }

  /**
    The hit is a trigger whose (untruncated) detector id is numerically
    greater than the event's stored 8-bit trigger id.
   */
  predicate Outranks(settings: SettingsGrid, h: Hit, triggerID: u8)
  {
    match Lookup(settings, h.mod, h.channel)
    case Some(s) => s.isEventTrigger && s.detectorID > triggerID
    case None => false
  }

  /** Past the window after the trigger time (the forward scan stops here). */
  predicate AfterWindow(h: Hit, triggerTime: int, window: int)
  {
    h.timestamp - triggerTime > window
  }

  /** Before the window ahead of the trigger time (the backward scan stops here). */
  predicate BeforeWindow(h: Hit, triggerTime: int, window: int)
  {
    h.timestamp - triggerTime < -window
  }

  /** The outcome of one scan: the rebased hits it absorbed, or an abort. */
  datatype Scan = Absorbed(members: seq<Hit>) | Aborted

  /**
    The forward loop from index j: each hit is first checked for priority
    (abort), then for the window (stop), then absorbed rebased to the
    trigger time.
   */
  function ScanForward(hits: seq<Hit>, p: ScanParams, triggerTime: int, triggerID: u8, j: nat): (r: Scan)
    requires j <= |hits|
    ensures r.Absorbed? ==> j + |r.members| <= |hits|
    decreases |hits| - j
  {
    if j == |hits| then Absorbed([])
    else if Outranks(p.settings, hits[j], triggerID) then Aborted
    else if AfterWindow(hits[j], triggerTime, p.timeWindow) then Absorbed([])
    else
      match ScanForward(hits, p, triggerTime, triggerID, j + 1)
      case Aborted => Aborted
      case Absorbed(rest) => Absorbed([Rebase(hits[j], triggerTime)] + rest)
  }

  /**
    What the forward scan absorbs: the contiguous run of hits from j,
    rebased, all inside the window.
   */
  lemma {:induction false} ScanForwardTaken(hits: seq<Hit>, p: ScanParams, triggerTime: int, triggerID: u8, j: nat)
    requires j <= |hits| && ScanForward(hits, p, triggerTime, triggerID, j).Absorbed?
    ensures var m := ScanForward(hits, p, triggerTime, triggerID, j).members;
      forall k :: 0 <= k < |m| ==>
        m[k] == Rebase(hits[j + k], triggerTime) && !AfterWindow(hits[j + k], triggerTime, p.timeWindow)
    decreases |hits| - j
  {
    if j < |hits| && !Outranks(p.settings, hits[j], triggerID) && !AfterWindow(hits[j], triggerTime, p.timeWindow) {
      ScanForwardTaken(hits, p, triggerTime, triggerID, j + 1);
      var rest := ScanForward(hits, p, triggerTime, triggerID, j + 1).members;
      var m := ScanForward(hits, p, triggerTime, triggerID, j).members;
      assert m == [Rebase(hits[j], triggerTime)] + rest;
      forall k | 1 <= k < |m|
        ensures m[k] == Rebase(hits[j + k], triggerTime) && !AfterWindow(hits[j + k], triggerTime, p.timeWindow)
      {
        assert m[k] == rest[k - 1];
        assert j + k == (j + 1) + (k - 1);
      }
    }
  }

  /** No hit the forward scan looked at, the one it stopped at included, outranks the trigger. */
  lemma {:induction false} ScanForwardClear(hits: seq<Hit>, p: ScanParams, triggerTime: int, triggerID: u8, j: nat)
    requires j <= |hits| && ScanForward(hits, p, triggerTime, triggerID, j).Absorbed?
    ensures var m := ScanForward(hits, p, triggerTime, triggerID, j).members;
      forall k :: j <= k < |hits| && k <= j + |m| ==> !Outranks(p.settings, hits[k], triggerID)
    decreases |hits| - j
  {
    if j < |hits| && !Outranks(p.settings, hits[j], triggerID) && !AfterWindow(hits[j], triggerTime, p.timeWindow) {
      ScanForwardClear(hits, p, triggerTime, triggerID, j + 1);
      var rest := ScanForward(hits, p, triggerTime, triggerID, j + 1).members;
      assert |ScanForward(hits, p, triggerTime, triggerID, j).members| == 1 + |rest|;
    }
  }

  /** The forward scan ends at the end of the hits or at the first hit past the window. */
  lemma {:induction false} ScanForwardStop(hits: seq<Hit>, p: ScanParams, triggerTime: int, triggerID: u8, j: nat)
    requires j <= |hits| && ScanForward(hits, p, triggerTime, triggerID, j).Absorbed?
    ensures var m := ScanForward(hits, p, triggerTime, triggerID, j).members;
      j + |m| < |hits| ==> AfterWindow(hits[j + |m|], triggerTime, p.timeWindow)
    decreases |hits| - j
  {
    if j < |hits| && !Outranks(p.settings, hits[j], triggerID) && !AfterWindow(hits[j], triggerTime, p.timeWindow) {
      ScanForwardStop(hits, p, triggerTime, triggerID, j + 1);
      var rest := ScanForward(hits, p, triggerTime, triggerID, j + 1).members;
      assert |ScanForward(hits, p, triggerTime, triggerID, j).members| == 1 + |rest|;
    }
  }

  /** The backward loop from index j down to 0, with the same order of checks. */
  function ScanBackward(hits: seq<Hit>, p: ScanParams, triggerTime: int, triggerID: u8, j: int): (r: Scan)
    requires -1 <= j < |hits|
    ensures r.Absorbed? ==> |r.members| <= j + 1
    decreases j + 1
  {
    if j < 0 then Absorbed([])
    else if Outranks(p.settings, hits[j], triggerID) then Aborted
    else if BeforeWindow(hits[j], triggerTime, p.timeWindow) then Absorbed([])
    else
      match ScanBackward(hits, p, triggerTime, triggerID, j - 1)
      case Aborted => Aborted
      case Absorbed(rest) => Absorbed([Rebase(hits[j], triggerTime)] + rest)
  }

  /**
    What the backward scan absorbs: the contiguous run of hits from j down,
    rebased, all inside the window.
   */
  lemma {:induction false} ScanBackwardTaken(hits: seq<Hit>, p: ScanParams, triggerTime: int, triggerID: u8, j: int)
    requires -1 <= j < |hits| && ScanBackward(hits, p, triggerTime, triggerID, j).Absorbed?
    ensures var m := ScanBackward(hits, p, triggerTime, triggerID, j).members;
      forall k :: 0 <= k < |m| ==>
        m[k] == Rebase(hits[j - k], triggerTime) && !BeforeWindow(hits[j - k], triggerTime, p.timeWindow)
    decreases j + 1
  {
    if j >= 0 && !Outranks(p.settings, hits[j], triggerID) && !BeforeWindow(hits[j], triggerTime, p.timeWindow) {
      ScanBackwardTaken(hits, p, triggerTime, triggerID, j - 1);
      var rest := ScanBackward(hits, p, triggerTime, triggerID, j - 1).members;
      var m := ScanBackward(hits, p, triggerTime, triggerID, j).members;
      assert m == [Rebase(hits[j], triggerTime)] + rest;
      forall k | 1 <= k < |m|
        ensures m[k] == Rebase(hits[j - k], triggerTime) && !BeforeWindow(hits[j - k], triggerTime, p.timeWindow)
      {
        assert m[k] == rest[k - 1];
        assert j - k == (j - 1) - (k - 1);
      }
    }
  }

  /** No hit the backward scan looked at, the one it stopped at included, outranks the trigger. */
  lemma {:induction false} ScanBackwardClear(hits: seq<Hit>, p: ScanParams, triggerTime: int, triggerID: u8, j: int)
    requires -1 <= j < |hits| && ScanBackward(hits, p, triggerTime, triggerID, j).Absorbed?
    ensures var m := ScanBackward(hits, p, triggerTime, triggerID, j).members;
      forall k :: j - |m| <= k <= j && 0 <= k ==> !Outranks(p.settings, hits[k], triggerID)
    decreases j + 1
  {
    if j >= 0 && !Outranks(p.settings, hits[j], triggerID) && !BeforeWindow(hits[j], triggerTime, p.timeWindow) {
      ScanBackwardClear(hits, p, triggerTime, triggerID, j - 1);
      var rest := ScanBackward(hits, p, triggerTime, triggerID, j - 1).members;
      assert |ScanBackward(hits, p, triggerTime, triggerID, j).members| == 1 + |rest|;
    }
  }

  /** The backward scan ends at the first hit or at the first hit before the window. */
  lemma {:induction false} ScanBackwardStop(hits: seq<Hit>, p: ScanParams, triggerTime: int, triggerID: u8, j: int)
    requires -1 <= j < |hits| && ScanBackward(hits, p, triggerTime, triggerID, j).Absorbed?
    ensures var m := ScanBackward(hits, p, triggerTime, triggerID, j).members;
      |m| < j + 1 ==> BeforeWindow(hits[j - |m|], triggerTime, p.timeWindow)
    decreases j + 1
  {
    if j >= 0 && !Outranks(p.settings, hits[j], triggerID) && !BeforeWindow(hits[j], triggerTime, p.timeWindow) {
      ScanBackwardStop(hits, p, triggerTime, triggerID, j - 1);
      var rest := ScanBackward(hits, p, triggerTime, triggerID, j - 1).members;
      assert |ScanBackward(hits, p, triggerTime, triggerID, j).members| == 1 + |rest|;
    }
  }

  /**
    A higher-priority trigger at index k is reached by the forward scan
    from j: every hit between j and k lies inside the window (k itself may
    lie outside it, because priority is checked first).
   */
  predicate ReachedForward(hits: seq<Hit>, p: ScanParams, triggerTime: int, triggerID: u8, j: nat, k: int)
  {
    && j <= k < |hits|
    && Outranks(p.settings, hits[k], triggerID)
    && forall m :: j <= m < k ==> !AfterWindow(hits[m], triggerTime, p.timeWindow)
  }

  predicate ReachedBackward(hits: seq<Hit>, p: ScanParams, triggerTime: int, triggerID: u8, j: int, k: int)
  {
    && 0 <= k <= j < |hits|
    && Outranks(p.settings, hits[k], triggerID)
    && forall m :: k < m <= j ==> !BeforeWindow(hits[m], triggerTime, p.timeWindow)
  }

  ghost predicate ReachesForward(hits: seq<Hit>, p: ScanParams, triggerTime: int, triggerID: u8, j: nat)
  {
    exists k :: ReachedForward(hits, p, triggerTime, triggerID, j, k)
  }

  ghost predicate ReachesBackward(hits: seq<Hit>, p: ScanParams, triggerTime: int, triggerID: u8, j: int)
  {
    exists k :: ReachedBackward(hits, p, triggerTime, triggerID, j, k)
  }

  /** The forward scan aborts exactly when it reaches a higher-priority trigger. */
  lemma {:induction false} ForwardAbortIff(hits: seq<Hit>, p: ScanParams, triggerTime: int, triggerID: u8, j: nat)
    requires j <= |hits|
    ensures ScanForward(hits, p, triggerTime, triggerID, j).Aborted?
            <==> ReachesForward(hits, p, triggerTime, triggerID, j)
    decreases |hits| - j
  {
    if j == |hits| {
    } else if Outranks(p.settings, hits[j], triggerID) {
      assert ReachedForward(hits, p, triggerTime, triggerID, j, j);
    } else if AfterWindow(hits[j], triggerTime, p.timeWindow) {
      assert !ReachesForward(hits, p, triggerTime, triggerID, j);
    } else {
      ForwardAbortIff(hits, p, triggerTime, triggerID, j + 1);
      if ReachesForward(hits, p, triggerTime, triggerID, j) {
        var k :| ReachedForward(hits, p, triggerTime, triggerID, j, k);
        assert ReachedForward(hits, p, triggerTime, triggerID, j + 1, k);
      }
      if ReachesForward(hits, p, triggerTime, triggerID, j + 1) {
        var k :| ReachedForward(hits, p, triggerTime, triggerID, j + 1, k);
        assert ReachedForward(hits, p, triggerTime, triggerID, j, k);
      }
    }
  }

  /** The backward scan aborts exactly when it reaches a higher-priority trigger. */
  lemma {:induction false} BackwardAbortIff(hits: seq<Hit>, p: ScanParams, triggerTime: int, triggerID: u8, j: int)
    requires -1 <= j < |hits|
    ensures ScanBackward(hits, p, triggerTime, triggerID, j).Aborted?
            <==> ReachesBackward(hits, p, triggerTime, triggerID, j)
    decreases j + 1
  {
    if j < 0 {
    } else if Outranks(p.settings, hits[j], triggerID) {
      assert ReachedBackward(hits, p, triggerTime, triggerID, j, j);
    } else if BeforeWindow(hits[j], triggerTime, p.timeWindow) {
      assert !ReachesBackward(hits, p, triggerTime, triggerID, j);
    } else {
      BackwardAbortIff(hits, p, triggerTime, triggerID, j - 1);
      if ReachesBackward(hits, p, triggerTime, triggerID, j) {
        var k :| ReachedBackward(hits, p, triggerTime, triggerID, j, k);
        assert ReachedBackward(hits, p, triggerTime, triggerID, j - 1, k);
      }
      if ReachesBackward(hits, p, triggerTime, triggerID, j - 1) {
        var k :| ReachedBackward(hits, p, triggerTime, triggerID, j - 1, k);
        assert ReachedBackward(hits, p, triggerTime, triggerID, j, k);
      }
    }
  }

  /** On time-ordered hits, every hit after where the forward scan stopped is past the window. */
  lemma ForwardStopsForGood(hits: seq<Hit>, p: ScanParams, triggerTime: int, triggerID: u8, j: nat)
    requires j <= |hits| && SortedByTime(hits)
    requires ScanForward(hits, p, triggerTime, triggerID, j).Absorbed?
    ensures var n := |ScanForward(hits, p, triggerTime, triggerID, j).members|;
      forall q :: j + n <= q < |hits| ==> AfterWindow(hits[q], triggerTime, p.timeWindow)
  {
    ScanForwardStop(hits, p, triggerTime, triggerID, j);
    var n := |ScanForward(hits, p, triggerTime, triggerID, j).members|;
    forall q | j + n <= q < |hits|
      ensures AfterWindow(hits[q], triggerTime, p.timeWindow)
    {
      assert hits[j + n].timestamp <= hits[q].timestamp;
    }
  }

  /** On time-ordered hits, every hit before where the backward scan stopped is before the window. */
  lemma BackwardStopsForGood(hits: seq<Hit>, p: ScanParams, triggerTime: int, triggerID: u8, j: int)
    requires -1 <= j < |hits| && SortedByTime(hits)
    requires ScanBackward(hits, p, triggerTime, triggerID, j).Absorbed?
    ensures var n := |ScanBackward(hits, p, triggerTime, triggerID, j).members|;
      forall q :: 0 <= q <= j - n ==> BeforeWindow(hits[q], triggerTime, p.timeWindow)
  {
    ScanBackwardStop(hits, p, triggerTime, triggerID, j);
    var n := |ScanBackward(hits, p, triggerTime, triggerID, j).members|;
    forall q | 0 <= q <= j - n
      ensures BeforeWindow(hits[q], triggerTime, p.timeWindow)
    {
      assert hits[q].timestamp <= hits[j - n].timestamp;
    }
  }

  /** The stored trigger id: the detector id converted to `uint8_t`. */
  function TriggerIdOf(settings: SettingsGrid, h: Hit): (id: u8)
    requires Known(settings, h)
    ensures (Lookup(settings, h.mod, h.channel).value.detectorID - id) % 0x100 == 0
  {
    ToU8(Lookup(settings, h.mod, h.channel).value.detectorID)
  }

  /** Some scan around trigger hit i reaches a higher-priority trigger. */
  ghost predicate Vetoed(hits: seq<Hit>, c: Config, i: nat)
    requires i < |hits| && Known(c.scan.settings, hits[i])
  {
    var t, id := hits[i].timestamp, TriggerIdOf(c.scan.settings, hits[i]);
    ReachesForward(hits, c.scan, t, id, i + 1) || ReachesBackward(hits, c.scan, t, id, i - 1)
  }

  /**
    The event anchored at hit i, if any: the trigger hit rebased to 0, then
    the forward members, then the backward members, classified; `None` for
    a non-trigger hit, an aborted scan, or a non-fission event when only
    fission events are kept.
   */
  function AnchorEvent(hits: seq<Hit>, c: Config, i: nat): (r: Option<Event>)
    requires i < |hits|
    ensures r.Some? ==> IsTrigger(c.scan.settings, hits[i])
  {
    match Lookup(c.scan.settings, hits[i].mod, hits[i].channel)
    case None => None
    case Some(s) =>
      if !s.isEventTrigger then None
      else
        var t, id := hits[i].timestamp, ToU8(s.detectorID);
        match ScanForward(hits, c.scan, t, id, i + 1)
        case Aborted => None
        case Absorbed(fwd) =>
          match ScanBackward(hits, c.scan, t, id, i - 1)
          case Aborted => None
          case Absorbed(bwd) =>
            var e := Classify(id, [Rebase(hits[i], t)] + fwd + bwd, c.rule);
            if c.onlyFission && !e.isFissionEvent then None else Some(e)
  }

  /**
    An event starts with its trigger hit rebased to time 0, carries the
    trigger's detector id truncated to 8 bits, is the classification of its
    own hits, and is a fission event whenever only those are kept.
   */
  lemma AnchorEventShape(hits: seq<Hit>, c: Config, i: nat)
    requires i < |hits| && AnchorEvent(hits, c, i).Some?
    ensures var e := AnchorEvent(hits, c, i).value;
      && e.triggerID == TriggerIdOf(c.scan.settings, hits[i])
      && |e.hitData| > 0 && e.hitData[0] == Rebase(hits[i], hits[i].timestamp)
      && e.hitData[0].timestamp == 0
      && e == Classify(e.triggerID, e.hitData, c.rule)
      && (c.onlyFission ==> e.isFissionEvent)
  {
  }

  /**
    With every event kept, a trigger hit yields an event exactly when no
    scan reaches a higher-priority trigger.
   */
  lemma AnchorEventKeptIff(hits: seq<Hit>, c: Config, i: nat)
    requires i < |hits| && !c.onlyFission
    ensures AnchorEvent(hits, c, i).Some?
            <==> IsTrigger(c.scan.settings, hits[i]) && !Vetoed(hits, c, i)
  {
    if IsTrigger(c.scan.settings, hits[i]) {
      var t, id := hits[i].timestamp, TriggerIdOf(c.scan.settings, hits[i]);
      ForwardAbortIff(hits, c.scan, t, id, i + 1);
      BackwardAbortIff(hits, c.scan, t, id, i - 1);
    }
  }

  /**
    Keeping only fission events filters the events that would be kept
    otherwise, and changes nothing else.
   */
  lemma AnchorEventFissionFilter(hits: seq<Hit>, c: Config, i: nat)
    requires i < |hits|
    ensures var all := AnchorEvent(hits, c.(onlyFission := false), i);
      AnchorEvent(hits, c.(onlyFission := true), i)
        == if all.Some? && all.value.isFissionEvent then all else None
  {
  }

  predicate SortedHits(hits: seq<Hit>)
  {
    SortedByTime(hits)
  }

  /** An event is the trigger hit, then what the forward scan absorbed, then the backward scan. */
  lemma AnchorEventParts(hits: seq<Hit>, c: Config, i: nat)
    requires i < |hits| && AnchorEvent(hits, c, i).Some?
    ensures Known(c.scan.settings, hits[i])
    ensures var t, id := hits[i].timestamp, TriggerIdOf(c.scan.settings, hits[i]);
      && ScanForward(hits, c.scan, t, id, i + 1).Absorbed?
      && ScanBackward(hits, c.scan, t, id, i - 1).Absorbed?
      && AnchorEvent(hits, c, i).value.hitData
         == [Rebase(hits[i], t)] + ScanForward(hits, c.scan, t, id, i + 1).members
            + ScanBackward(hits, c.scan, t, id, i - 1).members
  {
  }

  /** The hits of an event around trigger hit i: the trigger rebased, then both scans' members. */
  function ScannedHits(hits: seq<Hit>, p: ScanParams, i: nat, id: u8): seq<Hit>
    requires i < |hits|
    requires ScanForward(hits, p, hits[i].timestamp, id, i + 1).Absorbed?
    requires ScanBackward(hits, p, hits[i].timestamp, id, i - 1).Absorbed?
  {
    var t := hits[i].timestamp;
    [Rebase(hits[i], t)] + ScanForward(hits, p, t, id, i + 1).members + ScanBackward(hits, p, t, id, i - 1).members
  }

  /** On time-ordered hits, both scans keep to the window around the trigger. */
  lemma ScansWithinWindow(hits: seq<Hit>, p: ScanParams, i: nat, id: u8)
    requires i < |hits| && SortedByTime(hits) && p.timeWindow >= 0
    requires ScanForward(hits, p, hits[i].timestamp, id, i + 1).Absorbed?
    requires ScanBackward(hits, p, hits[i].timestamp, id, i - 1).Absorbed?
    ensures var data := ScannedHits(hits, p, i, id);
      forall k :: 0 <= k < |data| ==> -p.timeWindow <= data[k].timestamp <= p.timeWindow
  {
    var data := ScannedHits(hits, p, i, id);
    var t := hits[i].timestamp;
    var fwd := ScanForward(hits, p, t, id, i + 1).members;
    var bwd := ScanBackward(hits, p, t, id, i - 1).members;
    ScanForwardTaken(hits, p, t, id, i + 1);
    ScanBackwardTaken(hits, p, t, id, i - 1);
    forall k | 0 <= k < |data|
      ensures -p.timeWindow <= data[k].timestamp <= p.timeWindow
    {
      if 1 <= k < 1 + |fwd| {
        assert data[k] == fwd[k - 1] == Rebase(hits[i + 1 + (k - 1)], t);
        assert hits[i].timestamp <= hits[i + 1 + (k - 1)].timestamp;
      } else if 1 + |fwd| <= k {
        assert data[k] == bwd[k - 1 - |fwd|] == Rebase(hits[i - 1 - (k - 1 - |fwd|)], t);
        assert hits[i - 1 - (k - 1 - |fwd|)].timestamp <= hits[i].timestamp;
      }
    }
  }

  /** On time-ordered hits, every hit in the window around the trigger is in one of the scans. */
  lemma ScansCoverWindow(hits: seq<Hit>, p: ScanParams, i: nat, id: u8)
    requires i < |hits| && SortedByTime(hits)
    requires ScanForward(hits, p, hits[i].timestamp, id, i + 1).Absorbed?
    requires ScanBackward(hits, p, hits[i].timestamp, id, i - 1).Absorbed?
    ensures var data := ScannedHits(hits, p, i, id);
      forall j :: 0 <= j < |hits| && -p.timeWindow <= hits[j].timestamp - hits[i].timestamp <= p.timeWindow
        ==> Rebase(hits[j], hits[i].timestamp) in data
  {
    var data := ScannedHits(hits, p, i, id);
    var t := hits[i].timestamp;
    var fwd := ScanForward(hits, p, t, id, i + 1).members;
    var bwd := ScanBackward(hits, p, t, id, i - 1).members;
    ScanForwardTaken(hits, p, t, id, i + 1);
    ScanBackwardTaken(hits, p, t, id, i - 1);
    ForwardStopsForGood(hits, p, t, id, i + 1);
    BackwardStopsForGood(hits, p, t, id, i - 1);
    forall j | 0 <= j < |hits| && -p.timeWindow <= hits[j].timestamp - t <= p.timeWindow
      ensures Rebase(hits[j], t) in data
    {
      if j == i {
        assert data[0] == Rebase(hits[j], t);
      } else if j > i {
        assert data[1 + (j - i - 1)] == fwd[j - i - 1];
      } else {
        assert data[1 + |fwd| + (i - 1 - j)] == bwd[i - 1 - j];
      }
    }
  }

  /**
    On time-ordered hits (as `CheckHitData` leaves them) and a non-negative
    window, every hit of an event lies within the window around its trigger.
   */
  lemma AnchorEventWithinWindow(hits: seq<Hit>, c: Config, i: nat)
    requires i < |hits| && SortedByTime(hits) && c.scan.timeWindow >= 0
    requires AnchorEvent(hits, c, i).Some?
    ensures var e := AnchorEvent(hits, c, i).value;
      forall k :: 0 <= k < |e.hitData| ==>
        -c.scan.timeWindow <= e.hitData[k].timestamp <= c.scan.timeWindow
  {
    AnchorEventParts(hits, c, i);
    var id := TriggerIdOf(c.scan.settings, hits[i]);
    ScansWithinWindow(hits, c.scan, i, id);
    assert AnchorEvent(hits, c, i).value.hitData == ScannedHits(hits, c.scan, i, id);
  }

  /**
    On time-ordered hits, every hit within the window around an event's
    trigger is in the event.
   */
  lemma AnchorEventCoversWindow(hits: seq<Hit>, c: Config, i: nat)
    requires i < |hits| && SortedByTime(hits)
    requires AnchorEvent(hits, c, i).Some?
    ensures var e := AnchorEvent(hits, c, i).value;
      forall j :: 0 <= j < |hits|
                  && -c.scan.timeWindow <= hits[j].timestamp - hits[i].timestamp <= c.scan.timeWindow
        ==> Rebase(hits[j], hits[i].timestamp) in e.hitData
  {
    AnchorEventParts(hits, c, i);
    var id := TriggerIdOf(c.scan.settings, hits[i]);
    ScansCoverWindow(hits, c.scan, i, id);
    assert AnchorEvent(hits, c, i).value.hitData == ScannedHits(hits, c.scan, i, id);
  }

  /**
    With equal timestamps the event depends on the order the sort leaves
    them in. Trigger A (detector id 1) at time 0, then trigger B (id 5) and
    a plain hit C both at 2000, with a window of 1000: when B comes first
    the forward scan meets it before any window test and drops A's event;
    when C comes first the scan stops at C and A's event is kept.
   */
  lemma TieOrderChangesEvent()
    ensures var trig := DefaultChSettings().(isEventTrigger := true);
      var grid := [[trig.(detectorID := 1), trig.(detectorID := 5), DefaultChSettings()]];
      var c := Config(ScanParams(grid, 1000), false, MemberEnergy);
      var a, b, h := Hit(0, 0, 0, 0, 0), Hit(0, 1, 2000, 0, 0), Hit(0, 2, 2000, 0, 0);
      && SortedByTime([a, b, h]) && SortedByTime([a, h, b])
      && multiset([a, b, h]) == multiset([a, h, b])
      && AnchorEvent([a, b, h], c, 0).None?
      && AnchorEvent([a, h, b], c, 0).Some?
  {
    var trig := DefaultChSettings().(isEventTrigger := true);
    var grid := [[trig.(detectorID := 1), trig.(detectorID := 5), DefaultChSettings()]];
    var p := ScanParams(grid, 1000);
    var a, b, h := Hit(0, 0, 0, 0, 0), Hit(0, 1, 2000, 0, 0), Hit(0, 2, 2000, 0, 0);
    assert Lookup(grid, 0, 1) == Some(trig.(detectorID := 5));
    assert Outranks(grid, b, 1);
    assert ScanForward([a, b, h], p, 0, 1, 1).Aborted?;
    assert !Outranks(grid, h, 1) && AfterWindow(h, 0, 1000);
    assert ScanForward([a, h, b], p, 0, 1, 1) == Absorbed([]);
    assert ScanBackward([a, h, b], p, 0, 1, -1) == Absorbed([]);
  }

  /** The events of anchors i, i+1, ... in order: the body of the outer loop. */
  function BuildFrom(hits: seq<Hit>, c: Config, i: nat): (events: seq<Event>)
    requires i <= |hits|
    ensures |events| <= |hits| - i
    decreases |hits| - i
  {
    if i == |hits| then [] else EventsAt(hits, c, i) + BuildFrom(hits, c, i + 1)
  }

  /** The event anchored at hit i as a list: empty or a single event. */
  function EventsAt(hits: seq<Hit>, c: Config, i: nat): (r: seq<Event>)
    requires i < |hits|
    ensures |r| <= 1
  {
    match AnchorEvent(hits, c, i) case Some(e) => [e] case None => []
  }

  /** The indices of the hits that anchor an event, from i on, ascending. */
  function AnchorsFrom(hits: seq<Hit>, c: Config, i: nat): (idx: seq<nat>)
    requires i <= |hits|
    ensures forall k :: 0 <= k < |idx| ==> i <= idx[k] < |hits|
    ensures forall k, l :: 0 <= k < l < |idx| ==> idx[k] < idx[l]
    decreases |hits| - i
  {
    if i == |hits| then []
    else if AnchorEvent(hits, c, i).Some? then [i] + AnchorsFrom(hits, c, i + 1)
    else AnchorsFrom(hits, c, i + 1)
  }

  /** Every hit from i on that anchors an event is in the anchor list. */
  lemma {:induction false} AnchorsFromComplete(hits: seq<Hit>, c: Config, i: nat, j: nat)
    requires i <= j < |hits| && AnchorEvent(hits, c, j).Some?
    ensures j in AnchorsFrom(hits, c, i)
    decreases j - i
  {
    if i < j {
      AnchorsFromComplete(hits, c, i + 1, j);
      var rest := AnchorsFrom(hits, c, i + 1);
      var idx := AnchorsFrom(hits, c, i);
      assert idx == rest || idx == [i] + rest;
    }
  }

  /** What each hit anchors, by index: the event, or `None`. */
  function AnchorTable(hits: seq<Hit>, c: Config): (table: seq<Option<Event>>)
    ensures |table| == |hits|
    ensures forall j :: 0 <= j < |hits| ==> table[j] == AnchorEvent(hits, c, j)
  {
    seq(|hits|, j requires 0 <= j < |hits| => AnchorEvent(hits, c, j))
  }

  /** `events` are the table's events at the indices `idx`, position by position. */
  predicate AnchorsMatch(table: seq<Option<Event>>, idx: seq<nat>, events: seq<Event>)
  {
    && |idx| == |events|
    && forall k :: 0 <= k < |idx| ==> idx[k] < |table| && table[idx[k]] == Some(events[k])
  }

  lemma AnchorsMatchCons(table: seq<Option<Event>>, i: nat, e: Event, idx: seq<nat>, events: seq<Event>)
    requires i < |table| && table[i] == Some(e)
    requires AnchorsMatch(table, idx, events)
    ensures AnchorsMatch(table, [i] + idx, [e] + events)
  {
    var idx', events' := [i] + idx, [e] + events;
    forall k | 1 <= k < |idx'|
      ensures idx'[k] < |table| && table[idx'[k]] == Some(events'[k])
    {
      assert idx'[k] == idx[k - 1] && events'[k] == events[k - 1];
    }
  }

  /**
    The built events are the anchors' events in anchor order: one event per
    anchoring trigger hit, and no other.
   */
  lemma {:induction false} BuildFromAnchors(hits: seq<Hit>, c: Config, i: nat)
    requires i <= |hits|
    ensures AnchorsMatch(AnchorTable(hits, c), AnchorsFrom(hits, c, i), BuildFrom(hits, c, i))
    decreases |hits| - i
  {
    if i < |hits| {
      BuildFromAnchors(hits, c, i + 1);
      var rest, restIdx := BuildFrom(hits, c, i + 1), AnchorsFrom(hits, c, i + 1);
      assert BuildFrom(hits, c, i) == EventsAt(hits, c, i) + rest;
      if AnchorEvent(hits, c, i).Some? {
        assert EventsAt(hits, c, i) == [AnchorEvent(hits, c, i).value];
        assert AnchorsFrom(hits, c, i) == [i] + restIdx;
        AnchorsMatchCons(AnchorTable(hits, c), i, AnchorEvent(hits, c, i).value, restIdx, rest);
      } else {
        assert EventsAt(hits, c, i) == [];
        assert BuildFrom(hits, c, i) == rest;
      }
    }
  }

  /** The events flagged as fission, in order. */
  function FissionOnly(events: seq<Event>): (r: seq<Event>)
    ensures |r| <= |events|
    ensures forall k :: 0 <= k < |r| ==> r[k].isFissionEvent
  {
    if events == [] then []
    else (if events[0].isFissionEvent then [events[0]] else []) + FissionOnly(events[1..])
  }

  /** Only-fission mode keeps exactly the fission events of the full build, in order. */
  lemma {:induction false} BuildFissionFilter(hits: seq<Hit>, c: Config, i: nat)
    requires i <= |hits|
    ensures BuildFrom(hits, c.(onlyFission := true), i)
            == FissionOnly(BuildFrom(hits, c.(onlyFission := false), i))
    decreases |hits| - i
  {
    if i < |hits| {
      var kept, all := c.(onlyFission := true), c.(onlyFission := false);
      BuildFissionFilter(hits, c, i + 1);
      EventsAtFission(hits, c, i);
      assert BuildFrom(hits, kept, i) == EventsAt(hits, kept, i) + BuildFrom(hits, kept, i + 1);
      assert BuildFrom(hits, all, i) == EventsAt(hits, all, i) + BuildFrom(hits, all, i + 1);
      FissionOnlyAppend(EventsAt(hits, all, i), BuildFrom(hits, all, i + 1));
    }
  }

  /** Only-fission mode keeps the anchor's event exactly when it is a fission event. */
  lemma EventsAtFission(hits: seq<Hit>, c: Config, i: nat)
    requires i < |hits|
    ensures EventsAt(hits, c.(onlyFission := true), i) == FissionOnly(EventsAt(hits, c.(onlyFission := false), i))
  {
    AnchorEventFissionFilter(hits, c, i);
  }

  lemma {:induction false} FissionOnlyAppend(a: seq<Event>, b: seq<Event>)
    ensures FissionOnly(a + b) == FissionOnly(a) + FissionOnly(b)
  {
    if a == [] {
      assert a + b == b;
    } else {
      assert (a + b)[1..] == a[1..] + b;
      FissionOnlyAppend(a[1..], b);
    }
  }

  /** The first hit whose channel is missing from the grid, from index i on. */
  function FirstUnknown(settings: SettingsGrid, hits: seq<Hit>, i: nat): (k: nat)
    requires i <= |hits|
    ensures i <= k <= |hits|
    ensures forall m :: i <= m < k ==> Known(settings, hits[m])
    ensures k < |hits| ==> !Known(settings, hits[k])
    decreases |hits| - i
  {
    if i == |hits| || !Known(settings, hits[i]) then i else FirstUnknown(settings, hits, i + 1)
  }

  function UnknownChannelError(settings: SettingsGrid, hits: seq<Hit>): Error
    requires !AllKnown(settings, hits)
  {
    var k := FirstUnknown(settings, hits, 0);
    UnknownChannel(hits[k].mod, hits[k].channel)
  }

  /** The builder's state: its constructor arguments, the loaded hits and the built events. */
  datatype Builder = Builder(
    fileName: string,
    timeWindow: int,
    onlyFissionEvents: bool,
    settings: SettingsGrid,
    hitData: seq<Hit>,
    eventData: Option<seq<Event>>)   // `None`: the `unique_ptr` is null

  /** The in-class defaults (in ns, and all events kept); the constructor overrides both. */
  const DefaultTimeWindow: int := 1000
  const DefaultOnlyFissionEvents: bool := false

  /** The four-argument constructor: no hits, no event list. */
  function NewBuilder(fileName: string, timeWindow: int, onlyFissionEvents: bool, settings: SettingsGrid): (b: Builder)
    ensures b.fileName == fileName && b.timeWindow == timeWindow
    ensures b.onlyFissionEvents == onlyFissionEvents && b.settings == settings
    ensures b.hitData == [] && b.eventData.None?
  {
    Builder(fileName, timeWindow, onlyFissionEvents, settings, [], None)
  }

  function SetTimeWindow(b: Builder, timeWindow: int): (r: Builder)
    ensures r.timeWindow == timeWindow
    ensures r.(timeWindow := b.timeWindow) == b
  {
    b.(timeWindow := timeWindow)
  }

  /** Moves the event list out; the builder is left holding none. */
  function GetEventData(b: Builder): (r: (Option<seq<Event>>, Builder))
    ensures r.0 == b.eventData && r.1.eventData.None?
    ensures r.1.(eventData := b.eventData) == b
  {
    (b.eventData, b.(eventData := None))
  }

  /** A second move in a row yields nothing. */
  lemma GetEventDataTwice(b: Builder)
    ensures GetEventData(GetEventData(b).1).0.None?
  {
  }

  function BuilderConfig(b: Builder, rule: AdcRule): Config
  {
    Config(ScanParams(b.settings, b.timeWindow), b.onlyFissionEvents, rule)
  }

  /**
    `EventBuild`: nothing happens on an empty hit list (the event list is
    left as it was, possibly null); a hit whose channel is missing from the
    grid makes `.at()` throw; otherwise a new event list replaces the old
    one and its size is returned.
   */
  function EventBuild(b: Builder, rule: AdcRule): (r: Result<(Builder, nat)>)
    ensures |b.hitData| == 0 ==> r == Ok((b, 0))
    ensures |b.hitData| > 0 ==> (r.Err? <==> !AllKnown(b.settings, b.hitData))
    ensures r.Err? ==> r.error.UnknownChannel?
    ensures r.Ok? && |b.hitData| > 0 ==>
              && r.value.0.eventData.Some?
              && r.value.1 == |r.value.0.eventData.value|
              && r.value.0.(eventData := b.eventData) == b
    ensures r.Ok? && |b.hitData| > 0 ==>
              r.value.0.eventData == Some(BuildFrom(b.hitData, BuilderConfig(b, rule), 0))
  {
    if |b.hitData| == 0 then Ok((b, 0))
    else if !AllKnown(b.settings, b.hitData) then Err(UnknownChannelError(b.settings, b.hitData))
    else
      var events := BuildFrom(b.hitData, BuilderConfig(b, rule), 0);
      Ok((b.(eventData := Some(events)), |events|))
  }

  /**
    `LoadHits` after the file is read: `None` stands for a file or tree
    that cannot be opened (no hits, count 0). Each hit's channel is looked
    up in the grid (`.at()` throws for a missing one), then `CheckHitData`
    runs, whose `.at(0)` throws on an empty tree.
   */
  function LoadHits(b: Builder, source: Option<seq<Hit>>): (r: Result<(Builder, nat)>)
    ensures source.None? ==> r == Ok((b.(hitData := []), 0))
    ensures source.Some? ==>
              (r.Err? <==> !AllKnown(b.settings, source.value) || |source.value| == 0)
    ensures source.Some? && r.Ok? ==>
              && r.value.1 == |source.value| == |r.value.0.hitData|
              && SortedByTime(r.value.0.hitData)
              && multiset(r.value.0.hitData) == multiset(Repair(source.value))
              && r.value.0.(hitData := b.hitData) == b
  {
    match source
    case None => Ok((b.(hitData := []), 0))
    case Some(raw) =>
      if !AllKnown(b.settings, raw) then Err(UnknownChannelError(b.settings, raw))
      else if |raw| == 0 then Err(EmptyHitSet)
      else Ok((b.(hitData := CheckHitData(raw)), |raw|))
  }

  /** `LoadHits` with the evidently intended guard: an empty tree loads no hits. */
  function LoadHitsGuarded(b: Builder, source: Option<seq<Hit>>): (r: Result<(Builder, nat)>)
    ensures source.None? ==> r == Ok((b.(hitData := []), 0))
    ensures source.Some? ==> (r.Err? <==> !AllKnown(b.settings, source.value))
    ensures r.Ok? ==>
              && r.value.1 == |r.value.0.hitData|
              && SortedByTime(r.value.0.hitData)
              && r.value.0.(hitData := b.hitData) == b
    ensures source.Some? && |source.value| > 0 && r.Ok? ==>
              multiset(r.value.0.hitData) == multiset(Repair(source.value))
  {
    match source
    case None => Ok((b.(hitData := []), 0))
    case Some(raw) =>
      if !AllKnown(b.settings, raw) then Err(UnknownChannelError(b.settings, raw))
      else if |raw| == 0 then Ok((b.(hitData := []), 0))
      else Ok((b.(hitData := CheckHitData(raw)), |raw|))
  }

  /** An empty tree makes `LoadHits` fail; the guarded version loads nothing. */
  lemma EmptyTreeFails(b: Builder)
    ensures LoadHits(b, Some([])) == Err(EmptyHitSet)
    ensures LoadHitsGuarded(b, Some([])) == Ok((b.(hitData := []), 0))
  {
  }

  /**
    `EventBuild` with the evidently intended behaviour on an empty hit list:
    an empty event list instead of a null (or stale) one.
   */
  function EventBuildGuarded(b: Builder, rule: AdcRule): (r: Result<(Builder, nat)>)
    ensures r.Err? <==> !AllKnown(b.settings, b.hitData)
    ensures r.Ok? ==>
              && r.value.0.eventData.Some?
              && r.value.1 == |r.value.0.eventData.value|
              && r.value.0.(eventData := b.eventData) == b
  {
    if |b.hitData| == 0 then Ok((b.(eventData := Some([])), 0))
    else EventBuild(b, rule)
  }
}
