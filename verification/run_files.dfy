/**
  The run set-up of main.cpp: selecting one input file per version of a
  run from a directory listing, choosing the number of workers, and the
  shared file queue the workers pop from.
 */
module RunFiles {
  import opened Results
  import opened EventData
  import opened ChannelSettings

  function DigitChar(d: int): (ch: char)
    requires 0 <= d < 10
    ensures '0' <= ch <= '9'
  {
    (48 + d) as char
  }

  function DigitValue(ch: char): int
  {
    ch as int - 48
  }

  predicate AllDigits(s: string)
  {
    forall k :: 0 <= k < |s| ==> '0' <= s[k] <= '9'
  }

  /** `std::to_string` of an unsigned number: its decimal digits, without leading zeros. */
  function DecimalString(n: nat): (s: string)
    ensures 0 < |s| && AllDigits(s)
    ensures s[0] == '0' ==> n == 0 && |s| == 1
    decreases n
  {
    if n < 10 then [DigitChar(n)] else DecimalString(n / 10) + [DigitChar(n % 10)]
  }

  /** The number a string of decimal digits denotes. */
  function DecimalValue(s: string): nat
    requires AllDigits(s)
    decreases |s|
  {
    if s == [] then 0 else DecimalValue(s[..|s| - 1]) * 10 + DigitValue(s[|s| - 1])
  }

  /** The decimal rendering is read back as the same number. */
  lemma {:induction false} DecimalRoundTrip(n: nat)
    ensures DecimalValue(DecimalString(n)) == n
    decreases n
  {
    if n >= 10 {
      DecimalRoundTrip(n / 10);
      var s := DecimalString(n);
      assert s[..|s| - 1] == DecimalString(n / 10);
    }
  }

  /** Different numbers render differently, so different versions have different keys. */
  lemma DecimalInjective(a: nat, b: nat)
    requires DecimalString(a) == DecimalString(b)
    ensures a == b
  {
    DecimalRoundTrip(a);
    DecimalRoundTrip(b);
  }

  /** The substring `GetFileList` looks for: `run{N}_{v}_`. */
  function SearchKey(run: nat, version: nat): string
  {
    "run" + DecimalString(run) + "_" + DecimalString(version) + "_"
  }

  /** Within one run, different versions have different search keys. */
  lemma SearchKeyInjective(run: nat, a: nat, b: nat)
    requires SearchKey(run, a) == SearchKey(run, b)
    ensures a == b
  {
    var prefix := "run" + DecimalString(run) + "_";
    var ka, kb := SearchKey(run, a), SearchKey(run, b);
    assert ka == prefix + DecimalString(a) + "_";
    assert kb == prefix + DecimalString(b) + "_";
    assert ka[|prefix|..|ka| - 1] == DecimalString(a);
    assert kb[|prefix|..|kb| - 1] == DecimalString(b);
    DecimalInjective(a, b);
  }

  /** `key` occurs in `s` at offset `at`. */
  predicate OccursAt(s: string, key: string, at: int)
  {
    0 <= at && at + |key| <= |s| && s[at..at + |key|] == key
  }

  /** `s.find(key) != npos`. */
  function Contains(s: string, key: string): bool
    decreases |s|
  {
    if |s| < |key| then false
    else if s[..|key|] == key then true
    else Contains(s[1..], key)
  }

  lemma {:induction false} ContainsIff(s: string, key: string)
    ensures Contains(s, key) <==> exists at :: OccursAt(s, key, at)
    decreases |s|
  {
    if |s| >= |key| && s[..|key|] != key {
      ContainsIff(s[1..], key);
      if exists at :: OccursAt(s[1..], key, at) {
        var at :| OccursAt(s[1..], key, at);
        assert s[at + 1..at + 1 + |key|] == s[1..][at..at + |key|];
        assert OccursAt(s, key, at + 1);
      }
      if exists at :: OccursAt(s, key, at) {
        var at :| OccursAt(s, key, at);
        assert at != 0;
        assert s[1..][at - 1..at - 1 + |key|] == s[at..at + |key|];
        assert OccursAt(s[1..], key, at - 1);
      }
    } else if |s| >= |key| {
      assert OccursAt(s, key, 0);
    }
  }

  /** The index of the first listing entry containing `key`, from index i on. */
  function FirstMatch(listing: seq<string>, key: string, i: nat): (r: Option<nat>)
    requires i <= |listing|
    ensures r.Some? ==> i <= r.value < |listing| && Contains(listing[r.value], key)
    ensures r.Some? ==> forall k :: i <= k < r.value ==> !Contains(listing[k], key)
    ensures r.None? ==> forall k :: i <= k < |listing| ==> !Contains(listing[k], key)
    decreases |listing| - i
  {
    if i == |listing| then None
    else if Contains(listing[i], key) then Some(i)
    else FirstMatch(listing, key, i + 1)
  }

  /** The file chosen for one version, if any entry matches its key. */
  function FileForVersion(listing: seq<string>, run: nat, version: nat): Option<string>
  {
    match FirstMatch(listing, SearchKey(run, version), 0)
    case Some(k) => Some(listing[k])
    case None => None
  }

  /** The outer loop over versions v..end (inclusive). */
  function FilesFrom(listing: seq<string>, run: nat, v: nat, end: nat): (files: seq<string>)
    ensures |files| <= if v <= end then end - v + 1 else 0
    decreases end + 1 - v
  {
    if v > end then []
    else
      (match FileForVersion(listing, run, v) case Some(f) => [f] case None => [])
      + FilesFrom(listing, run, v + 1, end)
  }

  /**
    `GetFileList`: nothing when the directory does not exist; otherwise, for
    each version from `start` to `end`, the first entry (in directory order)
    whose path contains `run{N}_{v}_`.
   */
  function GetFileList(dirExists: bool, listing: seq<string>, run: u32, start: u32, end: u32): (files: seq<string>)
    ensures !dirExists ==> files == []
    ensures start > end ==> files == []
    ensures |files| <= if start <= end then end - start + 1 else 0
  {
    if !dirExists then [] else FilesFrom(listing, run, start, end)
  }

  /** The versions in v..end that have a matching entry, ascending. */
  function MatchedVersions(listing: seq<string>, run: nat, v: nat, end: nat): (vs: seq<nat>)
    ensures forall k :: 0 <= k < |vs| ==> v <= vs[k] <= end && FileForVersion(listing, run, vs[k]).Some?
    ensures forall k, l :: 0 <= k < l < |vs| ==> vs[k] < vs[l]
    ensures forall u :: v <= u <= end && FileForVersion(listing, run, u).Some? ==> u in vs
    decreases end + 1 - v
  {
    if v > end then []
    else if FileForVersion(listing, run, v).Some? then [v] + MatchedVersions(listing, run, v + 1, end)
    else MatchedVersions(listing, run, v + 1, end)
  }

  /**
    The selected files are, in ascending version order, one per version
    with a match: the first listing entry that contains that version's key.
   */
  lemma {:induction false} FilesFromVersions(listing: seq<string>, run: nat, v: nat, end: nat)
    ensures var files, vs := FilesFrom(listing, run, v, end), MatchedVersions(listing, run, v, end);
      && |files| == |vs|
      && forall k :: 0 <= k < |files| ==> FileForVersion(listing, run, vs[k]) == Some(files[k])
    decreases end + 1 - v
  {
    if v <= end {
      FilesFromVersions(listing, run, v + 1, end);
      var rest, restVs := FilesFrom(listing, run, v + 1, end), MatchedVersions(listing, run, v + 1, end);
      match FileForVersion(listing, run, v)
      case Some(f) =>
        assert FilesFrom(listing, run, v, end) == [f] + rest;
        assert MatchedVersions(listing, run, v, end) == [v] + restVs;
      case None =>
        assert FilesFrom(listing, run, v, end) == rest;
        assert MatchedVersions(listing, run, v, end) == restVs;
    }
  }

  /** Every chosen file is a listing entry that contains its version's key, and no earlier entry does. */
  lemma FileForVersionSpec(listing: seq<string>, run: nat, version: nat)
    ensures var key := SearchKey(run, version);
      match FileForVersion(listing, run, version)
      case Some(f) =>
        && (exists k :: 0 <= k < |listing| && listing[k] == f
                        && forall m :: 0 <= m < k ==> !Contains(listing[m], key))
        && exists at :: OccursAt(f, key, at)
      case None => forall k :: 0 <= k < |listing| ==> !Contains(listing[k], key)
  {
    var key := SearchKey(run, version);
    match FirstMatch(listing, key, 0)
    case Some(k) =>
      ContainsIff(listing[k], key);
    case None =>
  }

  /** `std::min` as main.cpp computes the worker count. */
  function WorkerCount(hardwareThreads: nat, nFiles: nat): nat
  {
    if nFiles < hardwareThreads then nFiles else hardwareThreads
  }

  /**
    The checks of main.cpp before any worker starts: no files ends the run,
    then an empty settings grid ends it; otherwise one worker per hardware
    thread, but never more workers than files.
   */
  function PlanRun(hardwareThreads: nat, files: seq<string>, settings: SettingsGrid): (r: Result<nat>)
    ensures |files| == 0 ==> r == Err(NoFiles)
    ensures |files| > 0 && |settings| == 0 ==> r == Err(NoChannelSettings)
    ensures r.Ok? <==> |files| > 0 && |settings| > 0
    ensures r.Ok? ==> r.value <= hardwareThreads && r.value <= |files|
    ensures r.Ok? ==> r.value == hardwareThreads || r.value == |files|
  {
    if |files| == 0 then Err(NoFiles)
    else if |settings| == 0 then Err(NoChannelSettings)
    else Ok(WorkerCount(hardwareThreads, |files|))
  }

  /** One queue step: take the head, or report an empty queue (the worker then stops). */
  function PopFront(queue: seq<string>): (r: Option<(string, seq<string>)>)
    ensures r.None? <==> |queue| == 0
    ensures r.Some? ==> [r.value.0] + r.value.1 == queue
  {
    if |queue| == 0 then None else Some((queue[0], queue[1..]))
  }

  /** A file handed to a worker. */
  datatype Take = Take(worker: nat, file: string)

  function TakenFiles(takes: seq<Take>): (files: seq<string>)
    ensures |files| == |takes|
    ensures forall k :: 0 <= k < |takes| ==> files[k] == takes[k].file
  {
    seq(|takes|, k requires 0 <= k < |takes| => takes[k].file)
  }

  /**
    The queue as the workers drain it: `schedule` is the order in which
    workers get the lock; each gets the current head, if any.
   */
  function Dispatch(queue: seq<string>, schedule: seq<nat>): (r: (seq<Take>, seq<string>))
    decreases |schedule|
  {
    if schedule == [] then ([], queue)
    else
      match PopFront(queue)
      case None => ([], queue)
      case Some((f, rest)) =>
        var (takes, left) := Dispatch(rest, schedule[1..]);
        ([Take(schedule[0], f)] + takes, left)
  }

  /**
    Whatever the interleaving, the files are handed out in queue order, each
    exactly once: the taken files followed by what is left is the queue,
    and the k-th lock holder gets the k-th file while files remain.
   */
  lemma {:induction false} DispatchInOrder(queue: seq<string>, schedule: seq<nat>)
    ensures var (takes, left) := Dispatch(queue, schedule);
      && TakenFiles(takes) + left == queue
      && |takes| == (if |schedule| < |queue| then |schedule| else |queue|)
      && forall k :: 0 <= k < |takes| ==> takes[k].worker == schedule[k]
    decreases |schedule|
  {
    if schedule != [] && |queue| > 0 {
      DispatchInOrder(queue[1..], schedule[1..]);
      var (takes, left) := Dispatch(queue[1..], schedule[1..]);
      var all := [Take(schedule[0], queue[0])] + takes;
      assert Dispatch(queue, schedule) == (all, left);
      assert TakenFiles(all) == [queue[0]] + TakenFiles(takes);
      assert queue == [queue[0]] + queue[1..];
      forall k | 1 <= k < |all|
        ensures all[k].worker == schedule[k]
      {
        assert all[k] == takes[k - 1];
      }
    }
  }

  /** With at least as many lock acquisitions as files, every file is taken. */
  lemma DispatchTakesAll(queue: seq<string>, schedule: seq<nat>)
    requires |schedule| >= |queue|
    ensures TakenFiles(Dispatch(queue, schedule).0) == queue
    ensures Dispatch(queue, schedule).1 == []
  {
    DispatchInOrder(queue, schedule);
    var (takes, left) := Dispatch(queue, schedule);
    assert |TakenFiles(takes) + left| == |TakenFiles(takes)| + |left|;
  }
}
