/**
  The body of one worker thread of main.cpp: for each file it takes from
  the queue, build a fresh event builder, load the hits, build the events,
  move the event list out and hand it to the worker's writer, adding the
  event count to the shared total.

  Two versions are modelled: the loop body as written (anchor-energy ADC,
  and a missing or empty file makes it fail) and the corrected one that
  the rest of the model relies on.
 */
module Worker {
  import opened Results
  import opened EventData
  import opened ChannelSettings
  import opened Classification
  import opened TimestampRepair
  import opened EventBuilding
  import opened FileWriting

  /** One input file: its name, and its hits; `None` when the file or its tree cannot be opened. */
  datatype InputFile = InputFile(name: string, hits: Option<seq<Hit>>)

  /** What a worker carries from one file to the next: its writer and the event total. */
  datatype Progress = Progress(writer: Writer, eveCount: nat)

  /** The worker after handing `events` to its writer and adding their number to the total. */
  function Deliver(p: Progress, events: seq<Event>): (q: Progress)
    ensures q.writer.pending == p.writer.pending + events
    ensures q.writer.(pending := p.writer.pending) == p.writer
    ensures q.eveCount == p.eveCount + |events|
  {
    Progress(p.writer.(pending := p.writer.pending + events), p.eveCount + |events|)
  }

  /** Handing over two batches is handing over their concatenation. */
  lemma DeliverTwice(p: Progress, a: seq<Event>, b: seq<Event>)
    ensures Deliver(Deliver(p, a), b) == Deliver(p, a + b)
  {
    assert p.writer.pending + a + b == p.writer.pending + (a + b);
  }

  /** The parameters every builder of the run is constructed with. */
  datatype RunParams = RunParams(settings: SettingsGrid, timeWindow: int, onlyFission: bool)

  function RunConfig(rp: RunParams, rule: AdcRule): Config
  {
    Config(ScanParams(rp.settings, rp.timeWindow), rp.onlyFission, rule)
  }

  /** The hits the builder works on: none for a missing or empty file, else the repaired and sorted ones. */
  function PreparedHits(source: Option<seq<Hit>>): seq<Hit>
  {
    match source
    case None => []
    case Some(raw) => if |raw| == 0 then [] else CheckHitData(raw)
  }

  /** The events one file yields under the event-building rules. */
  function FileEvents(rp: RunParams, rule: AdcRule, source: Option<seq<Hit>>): seq<Event>
  {
    BuildFrom(PreparedHits(source), RunConfig(rp, rule), 0)
  }

  /** The overflow repair and the sort only move timestamps, so every channel stays known. */
  lemma PreparedHitsKnown(settings: SettingsGrid, source: Option<seq<Hit>>)
    requires source.Some? ==> AllKnown(settings, source.value)
    ensures AllKnown(settings, PreparedHits(source))
  {
    if source.Some? && |source.value| > 0 {
      var raw := source.value;
      var repaired := Repair(raw);
      var sorted := CheckHitData(raw);
      forall k | 0 <= k < |sorted|
        ensures Known(settings, sorted[k])
      {
        assert sorted[k] in multiset(repaired);
        var m :| 0 <= m < |repaired| && repaired[m] == sorted[k];
        assert repaired[m].(timestamp := raw[m].timestamp) == raw[m];
        assert Known(settings, raw[m]);
      }
    }
  }

  /**
    One pass of the worker loop as main.cpp writes it. The builder's ADC
    sums read the anchor's energy. A file that cannot be opened leaves the
    builder with no event list, and `SetData` then receives a null `unique_ptr`;
    an empty tree makes `LoadHits` throw.
   */
  function ProcessFileAsWritten(rp: RunParams, f: InputFile, p: Progress): (r: Result<Progress>)
    ensures r.Ok? ==> f.hits.Some? && |f.hits.value| > 0 && AllKnown(rp.settings, f.hits.value)
  {
    var b := NewBuilder(f.name, rp.timeWindow, rp.onlyFission, rp.settings);
    var loaded :- LoadHits(b, f.hits);
    var built :- EventBuild(loaded.0, AnchorEnergy);
    HandOver(p, built.0, built.1)
  }

  /**
    The tail of the loop body: move the event list out of the builder, hand
    it to the writer and add the builder's event count to the total.
   */
  function HandOver(p: Progress, built: Builder, n: nat): (r: Result<Progress>)
    ensures r.Err? <==> built.eventData.None?
    ensures r.Err? ==> r.error == NullBatch
  {
    var (data, _) := GetEventData(built);
    var w :- SetData(p.writer, data);
    Ok(Progress(w, p.eveCount + n))
  }

  /** A builder holding `n` events hands exactly those to the writer. */
  lemma HandOverDelivers(p: Progress, built: Builder, n: nat)
    requires built.eventData.Some? && n == |built.eventData.value|
    ensures HandOver(p, built, n) == Ok(Deliver(p, built.eventData.value))
  {
  }

  /** A file that cannot be opened gets as far as the writer, which receives a null batch. */
  lemma MissingFileNullBatch(rp: RunParams, f: InputFile, p: Progress)
    requires f.hits.None?
    ensures ProcessFileAsWritten(rp, f, p) == Err(NullBatch)
  {
  }

  /** An empty tree makes the loop body fail in `LoadHits`. */
  lemma EmptyTreeStopsWorker(rp: RunParams, f: InputFile, p: Progress)
    requires f.hits == Some([])
    ensures ProcessFileAsWritten(rp, f, p) == Err(EmptyHitSet)
  {
  }

  /**
    On a readable, non-empty file whose channels are all configured, the
    loop body as written hands the file's events, with anchor-energy ADC
    sums, to the writer and adds their number to the total.
   */
  lemma ProcessFileAsWrittenEvents(rp: RunParams, f: InputFile, p: Progress)
    requires f.hits.Some? && |f.hits.value| > 0 && AllKnown(rp.settings, f.hits.value)
    ensures ProcessFileAsWritten(rp, f, p) == Ok(Deliver(p, FileEvents(rp, AnchorEnergy, f.hits)))
  {
    var b := NewBuilder(f.name, rp.timeWindow, rp.onlyFission, rp.settings);
    var loaded := b.(hitData := PreparedHits(f.hits));
    LoadsPrepared(b, f.hits.value);
    PreparedHitsKnown(rp.settings, f.hits);
    var events := FileEvents(rp, AnchorEnergy, f.hits);
    BuildsFileEvents(loaded, AnchorEnergy);
    assert BuilderConfig(loaded, AnchorEnergy) == RunConfig(rp, AnchorEnergy);
    var built := loaded.(eventData := Some(events));
    HandOverDelivers(p, built, |events|);
  }

  /**
    When no two hits of a file share a timestamp after the repair, the
    events built from any time-ordered arrangement of them, which is all
    `std::sort` promises, are the file's events.
   */
  lemma FileEventsAnySort(rp: RunParams, rule: AdcRule, raw: seq<Hit>, sorted: seq<Hit>)
    requires |raw| > 0
    requires SortedByTime(sorted) && DistinctTimes(sorted)
    requires multiset(sorted) == multiset(Repair(raw))
    ensures BuildFrom(sorted, RunConfig(rp, rule), 0) == FileEvents(rp, rule, Some(raw))
  {
    CheckHitDataAnySort(raw, sorted);
  }

  /** A readable, non-empty file with known channels loads as its prepared hits. */
  lemma LoadsPrepared(b: Builder, raw: seq<Hit>)
    requires |raw| > 0 && AllKnown(b.settings, raw)
    ensures LoadHits(b, Some(raw)) == Ok((b.(hitData := PreparedHits(Some(raw))), |raw|))
  {
  }

  /** A non-empty hit list with known channels builds the events of its anchors. */
  lemma BuildsFileEvents(b: Builder, rule: AdcRule)
    requires |b.hitData| > 0 && AllKnown(b.settings, b.hitData)
    ensures var events := BuildFrom(b.hitData, BuilderConfig(b, rule), 0);
      EventBuild(b, rule) == Ok((b.(eventData := Some(events)), |events|))
  {
  }

  /**
    The loop body with the evidently intended behaviour: a file that cannot
    be opened or holds no hits contributes no events, and the ADC sums read
    each member's own energy. Only an unconfigured channel stops the worker.
   */
  function ProcessFile(rp: RunParams, f: InputFile, p: Progress): (r: Result<Progress>)
    ensures r.Err? <==> f.hits.Some? && !AllKnown(rp.settings, f.hits.value)
    ensures r.Err? ==> r.error.UnknownChannel?
    ensures r.Ok? ==> r.value == Deliver(p, FileEvents(rp, MemberEnergy, f.hits))
  {
    var b := NewBuilder(f.name, rp.timeWindow, rp.onlyFission, rp.settings);
    var loaded :- LoadHitsGuarded(b, f.hits);
    PreparedHitsKnown(rp.settings, f.hits);
    assert loaded.0.hitData == PreparedHits(f.hits);
    var built := EventBuildGuarded(loaded.0, MemberEnergy).value;
    HandOverDelivers(p, built.0, built.1);
    HandOver(p, built.0, built.1)
  }

  /** A missing file and an empty tree are skipped by the corrected loop body. */
  lemma UnreadableFileSkipped(rp: RunParams, f: InputFile, p: Progress)
    requires f.hits.None? || f.hits == Some([])
    ensures ProcessFile(rp, f, p) == Ok(p)
  {
    assert p.writer.pending + [] == p.writer.pending;
  }

  /** Every file's channels are configured. */
  predicate FilesKnown(settings: SettingsGrid, files: seq<InputFile>)
  {
    forall k :: 0 <= k < |files| ==> files[k].hits.Some? ==> AllKnown(settings, files[k].hits.value)
  }

  /** The events of a sequence of files, file after file. */
  function AllEvents(rp: RunParams, files: seq<InputFile>): seq<Event>
  {
    if files == [] then [] else FileEvents(rp, MemberEnergy, files[0].hits) + AllEvents(rp, files[1..])
  }

  /**
    A worker's loop over the files it takes, in order. An exception ends
    the program, so the first failure ends the run.
   */
  function RunWorker(rp: RunParams, files: seq<InputFile>, p: Progress): Result<Progress>
    decreases |files|
  {
    if files == [] then Ok(p)
    else
      var p' :- ProcessFile(rp, files[0], p);
      RunWorker(rp, files[1..], p')
  }

  /** The first file's channels and the rest's together make up the whole list's. */
  lemma FilesKnownCons(settings: SettingsGrid, files: seq<InputFile>)
    requires files != []
    ensures FilesKnown(settings, files) <==>
              (files[0].hits.Some? ==> AllKnown(settings, files[0].hits.value))
              && FilesKnown(settings, files[1..])
  {
    assert forall k :: 0 < k < |files| ==> files[k] == files[1..][k - 1];
  }

  /** A worker fails exactly when one of its files has an unconfigured channel. */
  lemma {:induction false} RunWorkerOkIff(rp: RunParams, files: seq<InputFile>, p: Progress)
    ensures RunWorker(rp, files, p).Ok? <==> FilesKnown(rp.settings, files)
    decreases |files|
  {
    if files != [] {
      FilesKnownCons(rp.settings, files);
      var first := ProcessFile(rp, files[0], p);
      if first.Ok? {
        RunWorkerOkIff(rp, files[1..], first.value);
      }
    }
  }

  /**
    A worker whose files are all configured hands the writer the events of
    all its files in the order it took them, adds their number to the
    total, and changes nothing else.
   */
  lemma {:induction false} RunWorkerDelivers(rp: RunParams, files: seq<InputFile>, p: Progress)
    requires FilesKnown(rp.settings, files)
    ensures RunWorker(rp, files, p) == Ok(Deliver(p, AllEvents(rp, files)))
    decreases |files|
  {
    if files == [] {
      assert p.writer.pending + [] == p.writer.pending;
    } else {
      FilesKnownCons(rp.settings, files);
      var head := FileEvents(rp, MemberEnergy, files[0].hits);
      var first := Deliver(p, head);
      assert RunWorker(rp, files, p) == RunWorker(rp, files[1..], first);
      RunWorkerDelivers(rp, files[1..], first);
      DeliverTwice(p, head, AllEvents(rp, files[1..]));
    }
  }

  /**
    What one worker thread leaves in its output: after the final drain the
    written rows are the rows of all events of its files, in the order it
    took them.
   */
  lemma WorkerWritesAllEvents(rp: RunParams, files: seq<InputFile>)
    requires FilesKnown(rp.settings, files)
    ensures RunWorker(rp, files, Progress(NewWriter(), 0)).Ok?
    ensures var done := RunWorker(rp, files, Progress(NewWriter(), 0)).value;
      && DrainStep(done.writer).written == FlattenAll(AllEvents(rp, files))
      && done.eveCount == |AllEvents(rp, files)|
  {
    RunWorkerDelivers(rp, files, Progress(NewWriter(), 0));
    assert NewWriter().pending + AllEvents(rp, files) == AllEvents(rp, files);
  }
}
