/**
  `TFileWriter` (src/TFileWriter.cpp) as a sequential abstraction: batches
  of events are appended to a pending buffer, and each drain step moves the
  whole buffer out and writes one flat row per event.
 */
module FileWriting {
  import opened Results
  import opened EventData

  /** The five per-hit branches of the output tree, index-aligned. */
  datatype Columns = Columns(
    modules: seq<u8>,
    channels: seq<u8>,
    timestamps: seq<int>,
    energies: seq<u16>,
    energiesShort: seq<u16>)

  /** One filled tree entry: the event's scalar branches and its hit columns. */
  datatype Row = Row(
    isFissionEvent: bool,
    triggerID: u8,
    siFrontMultiplicity: u8,
    siBackMultiplicity: u8,
    siMultiplicity: u8,
    gammaMultiplicity: u8,
    neutronMultiplicity: u8,
    columns: Columns)

  predicate Aligned(c: Columns)
  {
    && |c.channels| == |c.modules|
    && |c.timestamps| == |c.modules|
    && |c.energies| == |c.modules|
    && |c.energiesShort| == |c.modules|
  }

  function EmptyColumns(): (c: Columns)
    ensures Aligned(c) && |c.modules| == 0
  {
    Columns([], [], [], [], [])
  }

  /** The `push_back` of one hit's fields onto each column. */
  function PushHit(c: Columns, h: Hit): Columns
  {
    Columns(c.modules + [h.mod], c.channels + [h.channel], c.timestamps + [h.timestamp],
            c.energies + [h.energy], c.energiesShort + [h.energyShort])
  }

  /** The inner loop over an event's hits, in order. */
  function PushHits(c: Columns, hits: seq<Hit>): Columns
    decreases |hits|
  {
    if hits == [] then c else PushHits(PushHit(c, hits[0]), hits[1..])
  }

  /** Entry n of every column holds the matching field of hit h. */
  predicate HoldsHit(c: Columns, n: int, h: Hit)
    requires 0 <= n < |c.modules| && Aligned(c)
  {
    && c.modules[n] == h.mod
    && c.channels[n] == h.channel
    && c.timestamps[n] == h.timestamp
    && c.energies[n] == h.energy
    && c.energiesShort[n] == h.energyShort
  }

  /**
    Pushing hits onto aligned columns keeps them aligned, keeps the old
    entries, and puts the k-th hit's fields at old length + k.
   */
  lemma {:induction false} PushHitsSpec(c: Columns, hits: seq<Hit>)
    requires Aligned(c)
    ensures var r := PushHits(c, hits);
      && Aligned(r)
      && |r.modules| == |c.modules| + |hits|
      && r.modules[..|c.modules|] == c.modules
      && r.channels[..|c.modules|] == c.channels
      && r.timestamps[..|c.modules|] == c.timestamps
      && r.energies[..|c.modules|] == c.energies
      && r.energiesShort[..|c.modules|] == c.energiesShort
      && (forall k :: 0 <= k < |hits| ==> HoldsHit(r, |c.modules| + k, hits[k]))
    decreases |hits|
  {
    if hits != [] {
      var c' := PushHit(c, hits[0]);
      PushHitsSpec(c', hits[1..]);
      var r := PushHits(c, hits);
      assert r == PushHits(c', hits[1..]);
      var n := |c.modules|;
      assert r.modules[..n] == r.modules[..n + 1][..n] == c'.modules[..n] == c.modules;
      assert r.channels[..n] == r.channels[..n + 1][..n] == c'.channels[..n] == c.channels;
      assert r.timestamps[..n] == r.timestamps[..n + 1][..n] == c'.timestamps[..n] == c.timestamps;
      assert r.energies[..n] == r.energies[..n + 1][..n] == c'.energies[..n] == c.energies;
      assert r.energiesShort[..n] == r.energiesShort[..n + 1][..n] == c'.energiesShort[..n] == c.energiesShort;
      forall k | 0 <= k < |hits|
        ensures HoldsHit(r, n + k, hits[k])
      {
        if k == 0 {
          assert r.modules[n] == r.modules[..n + 1][n] == c'.modules[n];
          assert r.channels[n] == r.channels[..n + 1][n] == c'.channels[n];
          assert r.timestamps[n] == r.timestamps[..n + 1][n] == c'.timestamps[n];
          assert r.energies[n] == r.energies[..n + 1][n] == c'.energies[n];
          assert r.energiesShort[n] == r.energiesShort[..n + 1][n] == c'.energiesShort[n];
        } else {
          assert hits[k] == hits[1..][k - 1];
          assert n + k == |c'.modules| + (k - 1);
        }
      }
    }
  }

  /**
    The branch variables `WriteData` fills for one event. `prev` is what
    the variables held after the previous event; the columns are cleared
    before the hits are pushed.
   */
  function FillRow(prev: Row, e: Event): Row
  {
    var cleared := prev.columns.(modules := [], channels := [], timestamps := [],
                                 energies := [], energiesShort := []);
    Row(e.isFissionEvent, e.triggerID, e.siFrontMultiplicity, e.siBackMultiplicity,
        e.siMultiplicity, e.gammaMultiplicity, e.neutronMultiplicity,
        PushHits(cleared, e.hitData))
  }

  /** The rows filled for a drained batch, the branch variables carried from one event to the next. */
  function FillRows(prev: Row, events: seq<Event>): (rows: seq<Row>)
    ensures |rows| == |events|
    decreases |events|
  {
    if events == [] then []
    else
      var row := FillRow(prev, events[0]);
      [row] + FillRows(row, events[1..])
  }

  /** The flat row of one event on its own. */
  function Flatten(e: Event): (r: Row)
    ensures Aligned(r.columns) && |r.columns.modules| == |e.hitData|
    ensures forall k :: 0 <= k < |e.hitData| ==> HoldsHit(r.columns, k, e.hitData[k])
    ensures r.isFissionEvent == e.isFissionEvent && r.triggerID == e.triggerID
    ensures r.siFrontMultiplicity == e.siFrontMultiplicity && r.siBackMultiplicity == e.siBackMultiplicity
    ensures r.siMultiplicity == e.siMultiplicity
    ensures r.gammaMultiplicity == e.gammaMultiplicity && r.neutronMultiplicity == e.neutronMultiplicity
  {
    PushHitsSpec(EmptyColumns(), e.hitData);
    Row(e.isFissionEvent, e.triggerID, e.siFrontMultiplicity, e.siBackMultiplicity,
        e.siMultiplicity, e.gammaMultiplicity, e.neutronMultiplicity,
        PushHits(EmptyColumns(), e.hitData))
  }

  /** The event a row stands for: the columns zipped back into hits. */
  function Unflatten(r: Row): (e: Event)
    requires Aligned(r.columns)
    ensures |e.hitData| == |r.columns.modules|
  {
    var c := r.columns;
    Event(r.isFissionEvent, r.triggerID, r.siFrontMultiplicity, r.siBackMultiplicity,
          r.siMultiplicity, r.gammaMultiplicity, r.neutronMultiplicity,
          seq(|c.modules|, k requires 0 <= k < |c.modules| =>
            Hit(c.modules[k], c.channels[k], c.timestamps[k], c.energies[k], c.energiesShort[k])))
  }

  /** Flattening loses nothing: the event can be read back from its row. */
  lemma UnflattenFlatten(e: Event)
    ensures Unflatten(Flatten(e)) == e
  {
    var back := Unflatten(Flatten(e));
    assert forall k :: 0 <= k < |e.hitData| ==> back.hitData[k] == e.hitData[k];
    assert back.hitData == e.hitData;
  }

  function FlattenAll(events: seq<Event>): (rows: seq<Row>)
    ensures |rows| == |events|
    ensures forall k :: 0 <= k < |events| ==> rows[k] == Flatten(events[k])
  {
    seq(|events|, k requires 0 <= k < |events| => Flatten(events[k]))
  }

  lemma FlattenAllAppend(a: seq<Event>, b: seq<Event>)
    ensures FlattenAll(a + b) == FlattenAll(a) + FlattenAll(b)
  {
    assert forall k :: 0 <= k < |a + b| ==> FlattenAll(a + b)[k] == (FlattenAll(a) + FlattenAll(b))[k];
  }

  /**
    Clearing the columns before each event means nothing leaks from one
    event into the next: whatever the branch variables held, each filled row
    is the event's own flat row.
   */
  lemma {:induction false} FillRowsFlatten(prev: Row, events: seq<Event>)
    ensures FillRows(prev, events) == FlattenAll(events)
    decreases |events|
  {
    if events != [] {
      var row := FillRow(prev, events[0]);
      assert prev.columns.(modules := [], channels := [], timestamps := [], energies := [], energiesShort := [])
             == EmptyColumns();
      assert row == Flatten(events[0]);
      FillRowsFlatten(row, events[1..]);
      assert FlattenAll(events) == [Flatten(events[0])] + FlattenAll(events[1..]);
    }
  }

  /**
    The writer: the events waiting in the pending buffer, the rows filled
    so far, and the branch variables left by the last filled row.
   */
  datatype Writer = Writer(pending: seq<Event>, written: seq<Row>, branches: Row)

  function NewWriter(): (w: Writer)
    ensures w.pending == [] && w.written == []
  {
    Writer([], [], Row(false, 0, 0, 0, 0, 0, 0, EmptyColumns()))
  }

  /**
    `SetData`: the batch is appended to the pending buffer in order. A null
    batch (a null `unique_ptr`) is dereferenced by the program; the model reports it.
   */
  function SetData(w: Writer, data: Option<seq<Event>>): (r: Result<Writer>)
    ensures r.Err? <==> data.None?
    ensures r.Err? ==> r.error == NullBatch
    ensures r.Ok? ==> r.value.pending == w.pending + data.value
    ensures r.Ok? ==> r.value.written == w.written && r.value.branches == w.branches
  {
    match data
    case None => Err(NullBatch)
    case Some(batch) => Ok(w.(pending := w.pending + batch))
  }

  /**
    One pass of the `WriteData` loop: if anything is pending, the whole
    buffer is copied out and cleared, and one row is filled per event in
    buffer order; otherwise nothing happens.
   */
  function DrainStep(w: Writer): (r: Writer)
    ensures r.pending == []
    ensures r.written == w.written + FlattenAll(w.pending)
  {
    if |w.pending| == 0 then
      assert FlattenAll(w.pending) == [];
      w
    else
      var rows := FillRows(w.branches, w.pending);
      FillRowsFlatten(w.branches, w.pending);
      Writer([], w.written + rows, rows[|rows| - 1])
  }

  /** The writer's operations in the order they take effect. */
  datatype Op = Submit(data: Option<seq<Event>>) | Drain

  /** One operation: a `SetData` call or a drain step. */
  function Step(w: Writer, op: Op): Result<Writer>
  {
    match op
    case Submit(data) => SetData(w, data)
    case Drain => Ok(DrainStep(w))
  }

  function Apply(w: Writer, ops: seq<Op>): Result<Writer>
    decreases |ops|
  {
    if ops == [] then Ok(w)
    else
      var w' :- Step(w, ops[0]);
      Apply(w', ops[1..])
  }

  /** The events one operation submits. */
  function SubmittedBy(op: Op): seq<Event>
  {
    match op
    case Submit(Some(batch)) => batch
    case _ => []
  }

  /** All events submitted by a sequence of operations, in submission order. */
  function Submitted(ops: seq<Op>): seq<Event>
  {
    if ops == [] then []
    else
      SubmittedBy(ops[0]) + Submitted(ops[1..])
  }

  /** No operation submits a null batch. */
  predicate NonNull(ops: seq<Op>)
  {
    forall k :: 0 <= k < |ops| ==> !(ops[k].Submit? && ops[k].data.None?)
  }

  /** One non-null operation keeps the ledger, whatever is submitted afterwards. */
  lemma StepLedger(w: Writer, op: Op, later: seq<Event>)
    requires !(op.Submit? && op.data.None?)
    ensures Step(w, op).Ok?
    ensures var w' := Step(w, op).value;
      w'.written + FlattenAll(w'.pending + later)
        == w.written + FlattenAll(w.pending + SubmittedBy(op) + later)
  {
    match op
    case Submit(data) =>
    case Drain =>
      assert w.pending + SubmittedBy(op) + later == w.pending + later;
      assert [] + later == later;
      FlattenAllAppend(w.pending, later);
  }

  /**
    The writer's ledger: at every point, the rows written followed by the
    rows of the pending events are the rows of everything submitted, in
    order. Nothing is lost, duplicated or reordered.
   */
  lemma {:induction false} ApplyLedger(w: Writer, ops: seq<Op>)
    requires NonNull(ops)
    ensures Apply(w, ops).Ok?
    ensures var r := Apply(w, ops).value;
      r.written + FlattenAll(r.pending) == w.written + FlattenAll(w.pending + Submitted(ops))
    decreases |ops|
  {
    if ops == [] {
      assert w.pending + Submitted(ops) == w.pending;
    } else {
      assert NonNull(ops[1..]) by {
        forall k | 0 <= k < |ops[1..]|
          ensures !(ops[1..][k].Submit? && ops[1..][k].data.None?)
        {
          assert ops[1..][k] == ops[k + 1];
        }
      }
      StepLedger(w, ops[0], Submitted(ops[1..]));
      var w' := Step(w, ops[0]).value;
      ApplyLedger(w', ops[1..]);
      assert w.pending + Submitted(ops) == w.pending + SubmittedBy(ops[0]) + Submitted(ops[1..]);
    }
  }

  /**
    `Write`: the final drain. Starting from a fresh writer, once the buffer
    is drained the written rows are exactly the rows of all submitted
    events, in submission order.
   */
  lemma WrittenAfterFinish(ops: seq<Op>)
    requires NonNull(ops)
    ensures Apply(NewWriter(), ops).Ok?
    ensures DrainStep(Apply(NewWriter(), ops).value).written == FlattenAll(Submitted(ops))
  {
    ApplyLedger(NewWriter(), ops);
    assert NewWriter().pending + Submitted(ops) == Submitted(ops);
  }
}
