/**
  Per-channel settings (include/TChSettings.hpp): the record, its defaults,
  the template grid the program writes out, and the mapping of a parsed
  settings document onto a module x channel grid of records.

  JSON is abstract here: a settings document is an array of modules, each
  an array of channel objects, each a map from key to value. Text parsing
  and serialisation are not modelled.
 */
module ChannelSettings {
  import opened EventData
  import opened Results

  /** The kinds of JSON value a channel object can hold. */
  datatype JValue = JBool(b: bool) | JInt(i: int) | JReal(r: real) | JText(s: string) | JNull

  /**
    Keys of a channel object: the twenty setting names the program reads
    and writes, or any other name (a key the program does not know).
   */
  datatype Key =
    | IsEventTrigger | DetectorID | Module | Channel | HasAC | CoincidenceID
    | ACModule | ACChannel | Phi | Theta | Distance | TimeOffset | ThresholdADC
    | X | Y | Z | P0 | P1 | P2 | P3
    | Other(name: string)

  /** The key as it is spelled in the settings file. */
  function KeyName(k: Key): string
  {
    match k
    case IsEventTrigger => "IsEventTrigger"
    case DetectorID => "DetectorID"
    case Module => "Module"
    case Channel => "Channel"
    case HasAC => "HasAC"
    case CoincidenceID => "CoincidenceID"
    case ACModule => "ACModule"
    case ACChannel => "ACChannel"
    case Phi => "Phi"
    case Theta => "Theta"
    case Distance => "Distance"
    case TimeOffset => "TimeOffset"
    case ThresholdADC => "ThresholdADC"
    case X => "x"
    case Y => "y"
    case Z => "z"
    case P0 => "p0"
    case P1 => "p1"
    case P2 => "p2"
    case P3 => "p3"
    case Other(name) => name
  }

  type JObject = map<Key, JValue>

  /** A settings document: modules, each a sequence of channel objects. */
  type JGrid = seq<seq<JObject>>

  datatype ChSettings = ChSettings(
    isEventTrigger: bool,
    coincidenceID: u32,
    detectorID: i32,
    mod: u32,
    ch: u32,
    timeOffset: real,
    thresholdADC: u32,
    hasAC: bool,
    acMod: u32,
    acCh: u32,
    phi: real,
    theta: real,
    distance: real,
    x: real,
    y: real,
    z: real,
    p0: real,
    p1: real,
    p2: real,
    p3: real)

  /** Settings indexed first by module, then by channel. */
  type SettingsGrid = seq<seq<ChSettings>>

  /** Default template size: 10 modules of 16 channels. */
  const DefaultModules: u32 := 10
  const DefaultChannels: u32 := 16

  /** The anti-coincidence module and channel the template writes. */
  const TemplateAC: u32 := 128

  /** The in-class field initialisers of `TChSettings`. */
  function DefaultChSettings(): (s: ChSettings)
    ensures !s.isEventTrigger && !s.hasAC
    ensures s.detectorID == 0 && s.coincidenceID == 0 && s.thresholdADC == 0
    ensures s.mod == 0 && s.ch == 0 && s.acMod == 0 && s.acCh == 0
    ensures s.timeOffset == 0.0
    ensures s.phi == 0.0 && s.theta == 0.0 && s.distance == 0.0
    ensures s.x == 0.0 && s.y == 0.0 && s.z == 0.0
    ensures s.p0 == 0.0 && s.p1 == 1.0 && s.p2 == 0.0 && s.p3 == 0.0
  {
    ChSettings(false, 0, 0, 0, 0, 0.0, 0, false, 0, 0, 0.0, 0.0, 0.0, 0.0, 0.0, 0.0, 0.0, 1.0, 0.0, 0.0)
  }

  /** The record a template entry at (module, channel) stands for. */
  function TemplateRecord(mod: u32, channel: u32): ChSettings
  {
    DefaultChSettings().(mod := mod, ch := channel, acMod := TemplateAC, acCh := TemplateAC)
  }

  /**
    A record as a channel object: booleans as JSON booleans, the integer
    fields as JSON integers and the `double` fields as JSON floats, which is
    how the program's template writes each key.
   */
  function Encode(s: ChSettings): (o: JObject)
    ensures forall k :: k in o <==> IsSettingsKey(k)
    ensures forall k :: k in o ==> o[k] == FieldValue(s, k)
  {
    map k | k in SettingsKeys() :: FieldValue(s, k)
  }

  /** The value `Encode` stores under each key of the record. */
  function FieldValue(s: ChSettings, k: Key): JValue
  {
    match k
    case IsEventTrigger => JBool(s.isEventTrigger)
    case DetectorID => JInt(s.detectorID)
    case Module => JInt(s.mod)
    case Channel => JInt(s.ch)
    case HasAC => JBool(s.hasAC)
    case CoincidenceID => JInt(s.coincidenceID)
    case ACModule => JInt(s.acMod)
    case ACChannel => JInt(s.acCh)
    case Phi => JReal(s.phi)
    case Theta => JReal(s.theta)
    case Distance => JReal(s.distance)
    case TimeOffset => JReal(s.timeOffset)
    case ThresholdADC => JInt(s.thresholdADC)
    case X => JReal(s.x)
    case Y => JReal(s.y)
    case Z => JReal(s.z)
    case P0 => JReal(s.p0)
    case P1 => JReal(s.p1)
    case P2 => JReal(s.p2)
    case P3 => JReal(s.p3)
    case Other(_) => JNull
  }

  /** The twenty keys the program reads and writes. */
  predicate IsSettingsKey(k: Key)
  {
    !k.Other?
  }

  function SettingsKeys(): (r: set<Key>)
    ensures forall k :: k in r <==> IsSettingsKey(k)
  {
    {IsEventTrigger, DetectorID, Module, Channel, HasAC, CoincidenceID,
     ACModule, ACChannel, Phi, Theta, Distance, TimeOffset, ThresholdADC,
     X, Y, Z, P0, P1, P2, P3}
  }

  /** The channel object the template writes at (module, channel). */
  function TemplateEntry(mod: u32, channel: u32): (o: JObject)
    ensures forall k :: k in o <==> IsSettingsKey(k)
  {
    Encode(TemplateRecord(mod, channel))
  }

  /** The values of a template entry, key by key. */
  lemma TemplateEntryValues(mod: u32, channel: u32)
    ensures var o := TemplateEntry(mod, channel);
      && o[Module] == JInt(mod) && o[Channel] == JInt(channel)
      && o[IsEventTrigger] == JBool(false) && o[HasAC] == JBool(false)
      && o[DetectorID] == JInt(0) && o[CoincidenceID] == JInt(0) && o[ThresholdADC] == JInt(0)
      && o[TimeOffset] == JReal(0.0)
      && o[ACModule] == JInt(128) && o[ACChannel] == JInt(128)
      && o[P0] == JReal(0.0) && o[P1] == JReal(1.0) && o[P2] == JReal(0.0) && o[P3] == JReal(0.0)
  {
    EncodeStores(TemplateRecord(mod, channel));
  }

  /**
    `GenerateTemplate(nMods, nChs)`: a grid of nMods modules of nChs default
    channel objects each (writing it to chSettings.json is left out).
   */
  function GenerateTemplate(nMods: u32, nChs: u32): (g: JGrid)
    ensures |g| == nMods
    ensures forall i :: 0 <= i < |g| ==> |g[i]| == nChs
    ensures forall i :: 0 <= i < |g| ==> g[i] == TemplateRow(i, nChs)
  {
    seq(nMods, i requires 0 <= i < nMods => TemplateRow(i, nChs))
  }

  /** One module of the template: nChs channel objects. */
  function TemplateRow(mod: u32, nChs: u32): (row: seq<JObject>)
    ensures |row| == nChs
    ensures forall j :: 0 <= j < nChs ==> row[j] == TemplateEntry(mod, j)
  {
    seq(nChs, j requires 0 <= j < nChs => TemplateEntry(mod, j))
  }

  /** `GenerateTemplate()` with its default arguments. */
  function GenerateDefaultTemplate(): (g: JGrid)
    ensures |g| == 10 && forall i :: 0 <= i < |g| ==> |g[i]| == 16
  {
    GenerateTemplate(DefaultModules, DefaultChannels)
  }

  /** `static_cast` of a `double` to an integer type: truncation toward zero. */
  function TruncateTowardZero(r: real): (n: int)
    ensures 0.0 <= r ==> 0 <= n && n as real <= r < n as real + 1.0
    ensures r < 0.0 ==> n <= 0 && n as real - 1.0 < r <= n as real
  {
    if r >= 0.0 then r.Floor else -((-r).Floor)
  }

  /**
    A JSON number (or boolean, which nlohmann also converts) as an integer
    before narrowing to the field's width; `None` for any other kind.
   */
  function NumberAsInt(v: JValue): Option<int>
  {
    match v
    case JInt(i) => Some(i)
    case JReal(r) => Some(TruncateTowardZero(r))
    case JBool(b) => Some(if b then 1 else 0)
    case _ => None
  }

  /**
    A JSON number as a `double`. Unlike the integer conversion, nlohmann's
    conversion to its own floating type rejects a boolean.
   */
  function NumberAsReal(v: JValue): Option<real>
  {
    match v
    case JInt(i) => Some(i as real)
    case JReal(r) => Some(r)
    case _ => None
  }

  function GetBool(o: JObject, key: Key): (r: Result<bool>)
    ensures r.Ok? <==> key in o && o[key].JBool?
    ensures r.Ok? ==> o[key] == JBool(r.value)
  {
    if key !in o then Err(MissingKey(KeyName(key)))
    else if o[key].JBool? then Ok(o[key].b)
    else Err(WrongType(KeyName(key)))
  }

  function GetU32(o: JObject, key: Key): (r: Result<u32>)
    ensures r.Ok? <==> key in o && (o[key].JInt? || o[key].JReal? || o[key].JBool?)
    ensures key in o && o[key].JInt? ==> r == Ok(ToU32(o[key].i))
    ensures key in o && o[key].JBool? ==> r == Ok(if o[key].b then 1 else 0)
  {
    if key !in o then Err(MissingKey(KeyName(key)))
    else match NumberAsInt(o[key])
      case Some(n) => Ok(ToU32(n))
      case None => Err(WrongType(KeyName(key)))
  }

  function GetI32(o: JObject, key: Key): (r: Result<i32>)
    ensures r.Ok? <==> key in o && (o[key].JInt? || o[key].JReal? || o[key].JBool?)
    ensures key in o && o[key].JInt? ==> r == Ok(ToI32(o[key].i))
    ensures key in o && o[key].JBool? ==> r == Ok(if o[key].b then 1 else 0)
  {
    if key !in o then Err(MissingKey(KeyName(key)))
    else match NumberAsInt(o[key])
      case Some(n) => Ok(ToI32(n))
      case None => Err(WrongType(KeyName(key)))
  }

  function GetReal(o: JObject, key: Key): (r: Result<real>)
    ensures r.Ok? <==> key in o && (o[key].JInt? || o[key].JReal?)
    ensures key in o && o[key].JReal? ==> r == Ok(o[key].r)
    ensures key in o && o[key].JInt? ==> r == Ok(o[key].i as real)
  {
    if key !in o then Err(MissingKey(KeyName(key)))
    else match NumberAsReal(o[key])
      case Some(x) => Ok(x)
      case None => Err(WrongType(KeyName(key)))
  }

  /**
    One channel object as a record, reading the keys in the program's order;
    the first missing or mistyped key is the error.
   */
  function Decode(o: JObject): (r: Result<ChSettings>)
    ensures r.Ok? ==> forall k :: IsSettingsKey(k) ==> k in o
    ensures r.Err? ==> r.error.MissingKey? || r.error.WrongType?
  {
    var isEventTrigger :- GetBool(o, IsEventTrigger);
    var coincidenceID :- GetU32(o, CoincidenceID);
    var detectorID :- GetI32(o, DetectorID);
    var modNo :- GetU32(o, Module);
    var channel :- GetU32(o, Channel);
    var timeOffset :- GetReal(o, TimeOffset);
    var hasAC :- GetBool(o, HasAC);
    var acMod :- GetU32(o, ACModule);
    var acCh :- GetU32(o, ACChannel);
    var phi :- GetReal(o, Phi);
    var theta :- GetReal(o, Theta);
    var thresholdADC :- GetU32(o, ThresholdADC);
    var distance :- GetReal(o, Distance);
    var x :- GetReal(o, X);
    var y :- GetReal(o, Y);
    var z :- GetReal(o, Z);
    var p0 :- GetReal(o, P0);
    var p1 :- GetReal(o, P1);
    var p2 :- GetReal(o, P2);
    var p3 :- GetReal(o, P3);
    Ok(ChSettings(isEventTrigger, coincidenceID, detectorID, modNo, channel, timeOffset,
                  thresholdADC, hasAC, acMod, acCh, phi, theta, distance, x, y, z, p0, p1, p2, p3))
  }

  /** Decoding an encoded record gives the record back. */
  lemma DecodeEncode(s: ChSettings)
    ensures Decode(Encode(s)) == Ok(s)
  {
    EncodeStores(s);
    StoredReadsAs(Encode(s), s);
    DecodeReadsAs(Encode(s), s);
  }

  /** The object holds every field of s under its key, as `Encode` writes it. */
  predicate Stores(o: JObject, s: ChSettings)
  {
    StoresFlags(o, s) && StoresChannels(o, s) && StoresGeometry(o, s) && StoresCalibration(o, s)
  }

  /** The object holds the trigger flag, the ids and the time offset of s. */
  predicate StoresFlags(o: JObject, s: ChSettings)
  {
    && IsEventTrigger in o && o[IsEventTrigger] == JBool(s.isEventTrigger)
    && CoincidenceID in o && o[CoincidenceID] == JInt(s.coincidenceID)
    && DetectorID in o && o[DetectorID] == JInt(s.detectorID)
    && TimeOffset in o && o[TimeOffset] == JReal(s.timeOffset)
    && ThresholdADC in o && o[ThresholdADC] == JInt(s.thresholdADC)
  }

  /** The object holds the channel and its anti-coincidence partner of s. */
  predicate StoresChannels(o: JObject, s: ChSettings)
  {
    && Module in o && o[Module] == JInt(s.mod)
    && Channel in o && o[Channel] == JInt(s.ch)
    && HasAC in o && o[HasAC] == JBool(s.hasAC)
    && ACModule in o && o[ACModule] == JInt(s.acMod)
    && ACChannel in o && o[ACChannel] == JInt(s.acCh)
  }

  /** The object holds the detector position of s. */
  predicate StoresGeometry(o: JObject, s: ChSettings)
  {
    && Phi in o && o[Phi] == JReal(s.phi)
    && Theta in o && o[Theta] == JReal(s.theta)
    && Distance in o && o[Distance] == JReal(s.distance)
    && X in o && o[X] == JReal(s.x)
    && Y in o && o[Y] == JReal(s.y)
  }

  /** The object holds the remaining position and the calibration of s. */
  predicate StoresCalibration(o: JObject, s: ChSettings)
  {
    && Z in o && o[Z] == JReal(s.z)
    && P0 in o && o[P0] == JReal(s.p0)
    && P1 in o && o[P1] == JReal(s.p1)
    && P2 in o && o[P2] == JReal(s.p2)
    && P3 in o && o[P3] == JReal(s.p3)
  }

  /** Every settings key is present and holds the matching field of s. */
  ghost predicate HoldsFields(o: JObject, s: ChSettings)
  {
    forall k :: IsSettingsKey(k) ==> k in o && o[k] == FieldValue(s, k)
  }

  lemma EncodeHoldsFields(s: ChSettings)
    ensures HoldsFields(Encode(s), s)
  {
  }

  lemma EncodeStores(s: ChSettings)
    ensures Stores(Encode(s), s)
  {
    var o := Encode(s);
    EncodeHoldsFields(s);
    HoldsStoresFlags(o, s);
    HoldsStoresChannels(o, s);
    HoldsStoresGeometry(o, s);
    HoldsStoresCalibration(o, s);
  }

  lemma HoldsStoresFlags(o: JObject, s: ChSettings)
    requires HoldsFields(o, s)
    ensures StoresFlags(o, s)
  {
  }

  lemma HoldsStoresChannels(o: JObject, s: ChSettings)
    requires HoldsFields(o, s)
    ensures StoresChannels(o, s)
  {
  }

  lemma HoldsStoresGeometry(o: JObject, s: ChSettings)
    requires HoldsFields(o, s)
    ensures StoresGeometry(o, s)
  {
  }

  lemma HoldsStoresCalibration(o: JObject, s: ChSettings)
    requires HoldsFields(o, s)
    ensures StoresCalibration(o, s)
  {
  }

  /** An object that stores the fields of s reads as s. */
  lemma StoredReadsAs(o: JObject, s: ChSettings)
    requires Stores(o, s)
    ensures ReadsAs(o, s)
  {
  }

  /** Every key of the object reads as the matching field of s. */
  predicate ReadsAs(o: JObject, s: ChSettings)
  {
    && GetBool(o, IsEventTrigger) == Ok(s.isEventTrigger)
    && GetU32(o, CoincidenceID) == Ok(s.coincidenceID)
    && GetI32(o, DetectorID) == Ok(s.detectorID)
    && GetU32(o, Module) == Ok(s.mod)
    && GetU32(o, Channel) == Ok(s.ch)
    && GetReal(o, TimeOffset) == Ok(s.timeOffset)
    && GetBool(o, HasAC) == Ok(s.hasAC)
    && GetU32(o, ACModule) == Ok(s.acMod)
    && GetU32(o, ACChannel) == Ok(s.acCh)
    && GetReal(o, Phi) == Ok(s.phi)
    && GetReal(o, Theta) == Ok(s.theta)
    && GetU32(o, ThresholdADC) == Ok(s.thresholdADC)
    && GetReal(o, Distance) == Ok(s.distance)
    && GetReal(o, X) == Ok(s.x)
    && GetReal(o, Y) == Ok(s.y)
    && GetReal(o, Z) == Ok(s.z)
    && GetReal(o, P0) == Ok(s.p0)
    && GetReal(o, P1) == Ok(s.p1)
    && GetReal(o, P2) == Ok(s.p2)
    && GetReal(o, P3) == Ok(s.p3)
  }

  /** An object decodes to s exactly when each of its keys reads as s's field. */
  lemma DecodeReadsAs(o: JObject, s: ChSettings)
    ensures Decode(o) == Ok(s) <==> ReadsAs(o, s)
  {
  }

  /** A boolean in a floating field is a type error, so the channel object does not read. */
  lemma BooleanInFloatingFieldRejected(o: JObject, k: Key)
    requires k in {TimeOffset, Phi, Theta, Distance, X, Y, Z, P0, P1, P2, P3}
    requires k in o && o[k].JBool?
    ensures Decode(o).Err?
  {
  }

  /** One module's channel objects as records, in order. */
  function DecodeRow(row: seq<JObject>): (r: Result<seq<ChSettings>>)
    ensures r.Ok? <==> forall j :: 0 <= j < |row| ==> Decode(row[j]).Ok?
    ensures r.Ok? ==> |r.value| == |row|
    ensures r.Ok? ==> forall j :: 0 <= j < |row| ==> Decode(row[j]) == Ok(r.value[j])
  {
    if row == [] then Ok([])
    else
      var first :- Decode(row[0]);
      var rest :- DecodeRow(row[1..]);
      Ok([first] + rest)
  }

  function DecodeGrid(g: JGrid): (r: Result<SettingsGrid>)
    ensures r.Ok? <==> forall i :: 0 <= i < |g| ==> DecodeRow(g[i]).Ok?
    ensures r.Ok? ==> |r.value| == |g|
    ensures r.Ok? ==> forall i :: 0 <= i < |g| ==> DecodeRow(g[i]) == Ok(r.value[i])
  {
    if g == [] then Ok([])
    else
      var first :- DecodeRow(g[0]);
      var rest :- DecodeGrid(g[1..]);
      Ok([first] + rest)
  }

  /**
    `GetChSettings(fileName)`: `None` stands for a file that cannot be
    opened, which yields an empty grid; otherwise one record per channel
    object, in the document's nesting and order.
   */
  function GetChSettings(file: Option<JGrid>): (r: Result<SettingsGrid>)
    ensures file.None? ==> r == Ok([])
    ensures file.Some? && r.Ok? ==>
              |r.value| == |file.value|
              && forall i :: 0 <= i < |file.value| ==> |r.value[i]| == |file.value[i]|
    ensures file.Some? && r.Ok? ==>
              forall i, j :: 0 <= i < |file.value| && 0 <= j < |file.value[i]| ==>
                Decode(file.value[i][j]) == Ok(r.value[i][j])
    ensures file.Some? ==>
              (r.Ok? <==> forall i, j :: 0 <= i < |file.value| && 0 <= j < |file.value[i]| ==>
                            Decode(file.value[i][j]).Ok?)
  {
    match file
    case None => Ok([])
    case Some(g) => DecodeGrid(g)
  }

  /** The records a template grid stands for. */
  function TemplateGrid(nMods: u32, nChs: u32): SettingsGrid
  {
    seq(nMods, i requires 0 <= i < nMods =>
      seq(nChs, j requires 0 <= j < nChs => TemplateRecord(i, j)))
  }

  lemma TemplateEntryReadsBack(mod: u32, channel: u32)
    ensures Decode(TemplateEntry(mod, channel)) == Ok(TemplateRecord(mod, channel))
  {
    DecodeEncode(TemplateRecord(mod, channel));
  }

  /** A row whose objects decode one by one to `want` decodes to `want`. */
  lemma DecodeRowEach(row: seq<JObject>, want: seq<ChSettings>)
    requires |row| == |want|
    requires forall j :: 0 <= j < |row| ==> Decode(row[j]) == Ok(want[j])
    ensures DecodeRow(row) == Ok(want)
  {
    var got := DecodeRow(row).value;
    forall j | 0 <= j < |row|
      ensures got[j] == want[j]
    {
      assert Decode(row[j]) == Ok(want[j]);
      assert Decode(row[j]) == Ok(got[j]);
    }
    assert got == want;
  }

  lemma TemplateRowReadsBack(mod: u32, nChs: u32)
    ensures DecodeRow(TemplateRow(mod, nChs))
            == Ok(seq(nChs, j requires 0 <= j < nChs => TemplateRecord(mod, j)))
  {
    var row := TemplateRow(mod, nChs);
    var want := seq(nChs, j requires 0 <= j < nChs => TemplateRecord(mod, j));
    forall j | 0 <= j < nChs
      ensures Decode(row[j]) == Ok(want[j])
    {
      TemplateEntryReadsBack(mod, j);
    }
    DecodeRowEach(row, want);
  }

  /** Reading back a generated template gives the template records. */
  lemma TemplateReadsBack(nMods: u32, nChs: u32)
    ensures GetChSettings(Some(GenerateTemplate(nMods, nChs))) == Ok(TemplateGrid(nMods, nChs))
  {
    var g := GenerateTemplate(nMods, nChs);
    forall i | 0 <= i < nMods
      ensures DecodeRow(g[i]) == Ok(TemplateGrid(nMods, nChs)[i])
    {
      TemplateRowReadsBack(i, nChs);
    }
    var got := DecodeGrid(g).value;
    assert forall i :: 0 <= i < nMods ==> got[i] == TemplateGrid(nMods, nChs)[i];
    assert got == TemplateGrid(nMods, nChs);
  }

  /** `fSettings.at(module).at(channel)`: `None` where `.at()` would throw. */
  function Lookup(settings: SettingsGrid, mod: int, channel: int): (r: Option<ChSettings>)
    ensures r.Some? <==> 0 <= mod < |settings| && 0 <= channel < |settings[mod]|
    ensures r.Some? ==> r.value == settings[mod][channel]
  {
    if 0 <= mod < |settings| && 0 <= channel < |settings[mod]| then Some(settings[mod][channel])
    else None
  }
}
