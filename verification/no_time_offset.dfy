/**
  The macro macro/gen_no_timeoffset.cpp: rewrite the settings document so
  that no channel has a time offset and module 2, channel 0 is the only
  event trigger. Every other key of every channel object is kept.
 */
module NoTimeOffset {
  import opened Results
  import opened ChannelSettings

  /** The one channel the macro makes the event trigger. */
  const TriggerModule: int := 2
  const TriggerChannel: int := 0

  /** The loop body for the object at module i, channel j. */
  function ResetEntry(o: JObject, i: int, j: int): (r: JObject)
    ensures TimeOffset in r && r[TimeOffset] == JReal(0.0)
    ensures IsEventTrigger in r && r[IsEventTrigger] == JBool(i == TriggerModule && j == TriggerChannel)
    ensures forall k :: k != TimeOffset && k != IsEventTrigger ==> (k in r <==> k in o)
    ensures forall k :: k in o && k != TimeOffset && k != IsEventTrigger ==> r[k] == o[k]
  {
    var cleared := o[TimeOffset := JReal(0.0)][IsEventTrigger := JBool(false)];
    if i == TriggerModule && j == TriggerChannel then cleared[IsEventTrigger := JBool(true)] else cleared
  }

  /** Both loops over the document: every channel object of every module. */
  function ResetGrid(g: JGrid): (r: JGrid)
    ensures |r| == |g|
    ensures forall i :: 0 <= i < |g| ==> |r[i]| == |g[i]|
  {
    seq(|g|, i requires 0 <= i < |g| =>
      seq(|g[i]|, j requires 0 <= j < |g[i]| => ResetEntry(g[i][j], i, j)))
  }

  /**
    The macro on the settings file: `None` stands for a file that cannot be
    opened, which is left alone (still absent); otherwise the file is
    rewritten with the reset document.
   */
  function GenNoTimeOffset(file: Option<JGrid>): (r: Option<JGrid>)
    ensures r.None? <==> file.None?
  {
    match file
    case None => None
    case Some(g) => Some(ResetGrid(g))
  }

  /**
    Each object of the rewritten document has time offset 0 and is a
    trigger exactly at module 2, channel 0; its other keys are those of the
    original object with their original values.
   */
  lemma ResetGridEntries(g: JGrid, i: int, j: int)
    requires 0 <= i < |g| && 0 <= j < |g[i]|
    ensures var o, r := g[i][j], ResetGrid(g)[i][j];
      && r[TimeOffset] == JReal(0.0)
      && r[IsEventTrigger] == JBool(i == 2 && j == 0)
      && (forall k :: k != TimeOffset && k != IsEventTrigger ==> (k in r <==> k in o))
      && (forall k :: k in o && k != TimeOffset && k != IsEventTrigger ==> r[k] == o[k])
  {
  }

  /** Resetting a channel object twice is resetting it once. */
  lemma ResetEntryIdempotent(o: JObject, i: int, j: int)
    ensures ResetEntry(ResetEntry(o, i, j), i, j) == ResetEntry(o, i, j)
  {
    var once := ResetEntry(o, i, j);
    var twice := ResetEntry(once, i, j);
    assert forall k :: k in twice <==> k in once;
    assert forall k :: k in twice ==> twice[k] == once[k];
  }

  /** Running the macro twice leaves the file as running it once. */
  lemma GenNoTimeOffsetIdempotent(file: Option<JGrid>)
    ensures GenNoTimeOffset(GenNoTimeOffset(file)) == GenNoTimeOffset(file)
  {
    if file.Some? {
      var once := ResetGrid(file.value);
      var twice := ResetGrid(once);
      forall i | 0 <= i < |once|
        ensures twice[i] == once[i]
      {
        forall j | 0 <= j < |once[i]|
          ensures twice[i][j] == once[i][j]
        {
          ResetEntryIdempotent(file.value[i][j], i, j);
        }
      }
      assert twice == once;
    }
  }

  /**
    A channel object that decoded before the rewrite decodes afterwards to
    the same record with time offset 0 and the trigger flag set exactly at
    module 2, channel 0.
   */
  lemma ResetEntryDecodes(o: JObject, i: int, j: int, s: ChSettings)
    requires Decode(o) == Ok(s)
    ensures Decode(ResetEntry(o, i, j))
            == Ok(s.(timeOffset := 0.0, isEventTrigger := i == TriggerModule && j == TriggerChannel))
  {
    var r := ResetEntry(o, i, j);
    var t := s.(timeOffset := 0.0, isEventTrigger := i == TriggerModule && j == TriggerChannel);
    DecodeReadsAs(o, s);
    ResetReadsAs(o, r, s, t);
    DecodeReadsAs(r, t);
  }

  /**
    An object that agrees with o except for the time offset and trigger
    flag reads as o's record with those two fields replaced.
   */
  lemma ResetReadsAs(o: JObject, r: JObject, s: ChSettings, t: ChSettings)
    requires ReadsAs(o, s)
    requires t.(timeOffset := s.timeOffset, isEventTrigger := s.isEventTrigger) == s
    requires TimeOffset in r && r[TimeOffset] == JReal(t.timeOffset)
    requires IsEventTrigger in r && r[IsEventTrigger] == JBool(t.isEventTrigger)
    requires forall k :: k != TimeOffset && k != IsEventTrigger ==> (k in r <==> k in o)
    requires forall k :: k in o && k != TimeOffset && k != IsEventTrigger ==> r[k] == o[k]
    ensures ReadsAs(r, t)
  {
  }

  /**
    Reading the rewritten file gives the settings read from the original,
    with every time offset 0 and module 2, channel 0 the only trigger.
   */
  lemma GenNoTimeOffsetSettings(g: JGrid, grid: SettingsGrid)
    requires GetChSettings(Some(g)) == Ok(grid)
    ensures GetChSettings(GenNoTimeOffset(Some(g))).Ok?
    ensures var reset := GetChSettings(GenNoTimeOffset(Some(g))).value;
      && |reset| == |grid|
      && (forall i :: 0 <= i < |grid| ==> |reset[i]| == |grid[i]|)
      && forall i, j :: 0 <= i < |grid| && 0 <= j < |grid[i]| ==>
           reset[i][j] == grid[i][j].(timeOffset := 0.0, isEventTrigger := i == 2 && j == 0)
  {
    var r := ResetGrid(g);
    forall i, j | 0 <= i < |r| && 0 <= j < |r[i]|
      ensures Decode(r[i][j]) == Ok(grid[i][j].(timeOffset := 0.0, isEventTrigger := i == 2 && j == 0))
    {
      ResetEntryDecodes(g[i][j], i, j, grid[i][j]);
    }
  }
}
