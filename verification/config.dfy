/** The coordinate cache: the conversion load_config applies to the decoded cache file,
    the encoding save_config writes, and the choice between cached and compiled-in
    coordinates made at start-up (main.py lines 95-128 and 305-354).

    Reading and writing the file and the JSON text syntax are not modelled: the file is
    given as already decoded (or as missing, or as undecodable). */
module Config {

  datatype Option<T> = None | Some(value: T)

  /** A JSON value as the decoder hands it over. Object members are in insertion
      order, repeats included: only the top-level object is collapsed into a dict
      (MemberTable), so nested objects that differ only in an overwritten repeated key
      are different values here. */
  datatype Json =
    | JNull
    | JBool(b: bool)
    | JInt(i: int)
    | JFloat(f: real)
    | JString(s: string)
    | JArray(items: seq<Json>)
    | JObject(members: seq<(string, Json)>)

  /** Numbers, booleans and null: the values Python's `tuple()` cannot iterate. */
  predicate IsScalar(j: Json) {
    j.JNull? || j.JBool? || j.JInt? || j.JFloat?
  }

  /** A cache entry after conversion: a tuple (a button or a region), a deployment line
      (a list of two tuples), or the decoded value kept as it was. */
  datatype Entry = Tuple(items: seq<Json>) | Line(start: seq<Json>, end: seq<Json>) | Kept(json: Json)

  /** The state of the cache file when the program starts. */
  datatype CacheFile = Missing | Undecodable | Decoded(doc: Json)

  /** What load_config gives back: None, a converted table, or an exception it does not
      catch, which ends the program. */
  datatype LoadResult = NoConfig | Loaded(entries: map<string, Entry>) | Crashed

  // ---------------------------------------------------------------------------
  // Python's tuple() on a decoded value

  /** The keys of an object in first-occurrence order, the order a dict iterates them. */
  function DistinctKeys(members: seq<(string, Json)>): (keys: seq<string>)
    ensures forall i, j :: 0 <= i < j < |keys| ==> keys[i] != keys[j]
    ensures forall i :: 0 <= i < |members| ==> members[i].0 in keys
    ensures forall k :: k in keys ==> exists i :: 0 <= i < |members| && members[i].0 == k
    decreases |members|
  {
    if |members| == 0 then []
    else
      var n := |members| - 1;
      var keys := DistinctKeys(members[..n]);
      assert forall i :: 0 <= i < n ==> members[..n][i] == members[i];
      if members[n].0 in keys then keys else keys + [members[n].0]
  }

  /** `tuple(j)`: a list gives its items, a string its characters, an object its keys;
      a scalar raises TypeError (None). */
  function TupleOf(j: Json): (r: Option<seq<Json>>)
    ensures r.None? <==> IsScalar(j)
  {
    match j
    case JArray(items) => Some(items)
    case JString(s) => Some(seq(|s|, i requires 0 <= i < |s| => JString([s[i]])))
    case JObject(members) =>
      var keys := DistinctKeys(members);
      Some(seq(|keys|, i requires 0 <= i < |keys| => JString(keys[i])))
    case _ => None
  }

  // ---------------------------------------------------------------------------
  // Conversion and encoding of one value

  /** The conversion of one decoded value: a two-item list whose first item is not a
      list becomes a tuple, so does a four-item list, a two-item list whose first item
      is a list becomes a list of two tuples, anything else is kept. */
  function ConvertEntry(v: Json): (r: Option<Entry>)
    ensures r.None? <==> v.JArray? && |v.items| == 2 && v.items[0].JArray? && IsScalar(v.items[1])
    ensures r.Some? ==> WellFormed(r.value)
    ensures (r.Some? && !(v.JArray? && |v.items| == 2 && v.items[0].JArray? && (v.items[1].JString? || v.items[1].JObject?)))
              ==> Encode(r.value) == v
  {
    match v
    case JArray(xs) =>
      if |xs| == 2 && !xs[0].JArray? then Some(Tuple(xs))
      else if |xs| == 4 then Some(Tuple(xs))
      else if |xs| == 2 && xs[0].JArray? then
        match TupleOf(xs[1])
        case None => None
        case Some(end) => Some(Line(xs[0].items, end))
      else Some(Kept(v))
    case _ => Some(Kept(v))
  }

  /** How save_config writes an entry: tuples and lists both become JSON arrays. */
  function Encode(e: Entry): Json {
    match e
    case Tuple(items) => JArray(items)
    case Line(start, end) => JArray([JArray(start), JArray(end)])
    case Kept(j) => j
  }

  /** The entries conversion can produce. */
  predicate WellFormed(e: Entry) {
    match e
    case Tuple(xs) => (|xs| == 2 && !xs[0].JArray?) || |xs| == 4
    case Line(_, _) => true
    case Kept(j) => !(j.JArray? && (|j.items| == 2 || |j.items| == 4))
  }

  /** Saving an entry and loading it back gives the same entry exactly when the entry
      is one conversion can produce; in particular, loading, saving and loading again
      changes nothing. */
  lemma ReloadStable(e: Entry)
    ensures ConvertEntry(Encode(e)) == Some(e) <==> WellFormed(e)
  {
    match e
    case Tuple(xs) =>
    case Line(start, end) =>
      assert Encode(e).items[1] == JArray(end);
    case Kept(j) =>
  }

  // ---------------------------------------------------------------------------
  // The whole file

  /** The dict json.load builds from an object's members: a repeated key keeps its
      last value. */
  function MemberTable(members: seq<(string, Json)>): (t: map<string, Json>)
    ensures forall k :: k in t <==> exists i :: 0 <= i < |members| && members[i].0 == k
    decreases |members|
  {
    if |members| == 0 then map[]
    else
      var n := |members| - 1;
      var t := MemberTable(members[..n])[members[n].0 := members[n].1];
      assert forall i :: 0 <= i < n ==> members[..n][i] == members[i];
      t
  }

  /** No value of the table makes conversion raise. */
  predicate Convertible(t: map<string, Json>) {
    forall k :: k in t ==> ConvertEntry(t[k]).Some?
  }

  /** load_config: a missing or undecodable file gives None; a decoded object has every
      value converted, keeping its key set; a decoded value that is not an object, or a
      value that conversion cannot handle, raises out of load_config. */
  function Load(file: CacheFile): (r: LoadResult)
    ensures r.NoConfig? <==> !file.Decoded?
    ensures r.Loaded? ==> file.doc.JObject? && r.entries.Keys == MemberTable(file.doc.members).Keys
    ensures r.Loaded? ==> forall k :: k in r.entries ==>
              WellFormed(r.entries[k]) && Some(r.entries[k]) == ConvertEntry(MemberTable(file.doc.members)[k])
    ensures file.Decoded? && file.doc.JObject? ==>
              (r.Crashed? <==> !Convertible(MemberTable(file.doc.members)))
  {
    match file
    case Missing => NoConfig
    case Undecodable => NoConfig
    case Decoded(doc) =>
      match doc
      case JObject(members) =>
        var t := MemberTable(members);
        if Convertible(t) then Loaded(map k | k in t :: ConvertEntry(t[k]).value)
        else Crashed
      case _ => Crashed
  }

  /** The object save_config writes for a table, with its keys in the given order. */
  function Save(keys: seq<string>, cfg: map<string, Entry>): Json
    requires forall i :: 0 <= i < |keys| ==> keys[i] in cfg
  {
    JObject(seq(|keys|, i requires 0 <= i < |keys| => (keys[i], Encode(cfg[keys[i]]))))
  }

  lemma {:induction false} SavedMembers(keys: seq<string>, cfg: map<string, Entry>)
    requires forall i :: 0 <= i < |keys| ==> keys[i] in cfg
    ensures MemberTable(Save(keys, cfg).members) == map k | k in keys :: Encode(cfg[k])
    decreases |keys|
  {
    var ms := Save(keys, cfg).members;
    if |keys| > 0 {
      var n := |keys| - 1;
      assert ms[..n] == Save(keys[..n], cfg).members;
      SavedMembers(keys[..n], cfg);
      assert forall k :: k in keys <==> k in keys[..n] || k == keys[n];
    }
  }

  /** Save then load: a table of entries conversion can produce is read back exactly,
      whatever order the keys are written in. */
  lemma SaveLoadRoundTrip(keys: seq<string>, cfg: map<string, Entry>)
    requires forall k :: k in cfg <==> k in keys
    requires forall k :: k in cfg ==> WellFormed(cfg[k])
    ensures Load(Decoded(Save(keys, cfg))) == Loaded(cfg)
  {
    SavedMembers(keys, cfg);
    var t := MemberTable(Save(keys, cfg).members);
    forall k | k in t ensures ConvertEntry(t[k]) == Some(cfg[k]) {
      ReloadStable(cfg[k]);
    }
    ConvertedTable(t, cfg);
  }

  lemma ConvertedTable(t: map<string, Json>, cfg: map<string, Entry>)
    requires t.Keys == cfg.Keys
    requires forall k :: k in t ==> ConvertEntry(t[k]) == Some(cfg[k])
    ensures Convertible(t)
    ensures (map k | k in t :: ConvertEntry(t[k]).value) == cfg
  {
  }

  // ---------------------------------------------------------------------------
  // Coordinates used by the bot

  function Point(x: int, y: int): Entry {
    Tuple([JInt(x), JInt(y)])
  }

  function Rect(left: int, top: int, right: int, bottom: int): Entry {
    Tuple([JInt(left), JInt(top), JInt(right), JInt(bottom)])
  }

  function Drag(x0: int, y0: int, x1: int, y1: int): Entry {
    Line([JInt(x0), JInt(y0)], [JInt(x1), JInt(y1)])
  }

  /** The kind of coordinate the setup wizard records under each key. */
  datatype Shape = RegionShape | ButtonShape | LineShape

  /** Every coordinate key with the kind the setup wizard records for it. */
  const Shapes: map<string, Shape> := map[
    "gold" := RegionShape, "elixir" := RegionShape, "dark_elixir" := RegionShape,
    "ext_gold" := RegionShape, "ext_elixir" := RegionShape, "ext_delixir" := RegionShape,
    "select_troop_btn" := ButtonShape, "end_battle_btn" := ButtonShape,
    "confirm_end_btn" := ButtonShape, "return_lobby_btn" := ButtonShape,
    "attack_btn" := ButtonShape, "find_match_btn" := ButtonShape, "next_btn" := ButtonShape,
    "deploy_line1" := LineShape, "deploy_line2" := LineShape,
    "deploy_line3" := LineShape, "deploy_line4" := LineShape]

  /** The compiled-in coordinates. */
  const Defaults: map<string, Entry> := map[
    "gold" := Rect(211, 148, 320, 176),
    "elixir" := Rect(211, 191, 330, 226),
    "dark_elixir" := Rect(210, 236, 291, 265),
    "ext_gold" := Rect(825, 440, 1028, 490),
    "ext_elixir" := Rect(825, 500, 1028, 550),
    "ext_delixir" := Rect(825, 570, 1028, 615),
    "select_troop_btn" := Point(435, 943),
    "end_battle_btn" := Point(227, 799),
    "confirm_end_btn" := Point(1148, 634),
    "return_lobby_btn" := Point(1000, 868),
    "attack_btn" := Point(230, 916),
    "find_match_btn" := Point(380, 720),
    "next_btn" := Point(1740, 777),
    "deploy_line1" := Drag(571, 725, 880, 60),
    "deploy_line2" := Drag(1080, 60, 1630, 445),
    "deploy_line3" := Drag(1600, 570, 1260, 850),
    "deploy_line4" := Drag(710, 840, 380, 580)]

  predicate AllInts(xs: seq<Json>) {
    forall i :: 0 <= i < |xs| ==> xs[i].JInt?
  }

  /** An entry of the form the setup wizard writes for a coordinate of the given kind:
      four integers for a region, two for a button, two pairs for a deployment line. */
  predicate HasShape(e: Entry, shape: Shape) {
    match shape
    case RegionShape => e.Tuple? && |e.items| == 4 && AllInts(e.items)
    case ButtonShape => e.Tuple? && |e.items| == 2 && AllInts(e.items)
    case LineShape => e.Line? && |e.start| == 2 && |e.end| == 2 && AllInts(e.start) && AllInts(e.end)
  }

  /** A table the setup wizard could have written: only coordinate keys, each with the
      shape recorded for it. */
  predicate Calibrated(cfg: map<string, Entry>) {
    forall k :: k in cfg ==> k in Shapes && HasShape(cfg[k], Shapes[k])
  }

  lemma DefaultKeys()
    ensures Defaults.Keys == Shapes.Keys
  {
  }

  /** The compiled-in coordinates cover every key with the right shape. */
  lemma DefaultsCalibrated()
    ensures Defaults.Keys == Shapes.Keys
    ensures Calibrated(Defaults)
  {
    DefaultKeys();
    forall k | k in Defaults
      ensures k in Shapes && HasShape(Defaults[k], Shapes[k])
    {
      match Shapes[k]
      case RegionShape =>
        assert Defaults[k].Tuple? && |Defaults[k].items| == 4;
      case ButtonShape =>
        assert Defaults[k].Tuple? && |Defaults[k].items| == 2;
      case LineShape =>
        assert Defaults[k].Line?;
    }
  }

  /** The coordinates the bot runs with (lines 305-354): the defaults when there is no
      cache or an empty one, otherwise the cached entry for each key it holds and the
      default for each key it lacks. An uncaught exception in load_config means the
      bot never runs (None). */
  function Startup(loaded: LoadResult): (r: Option<map<string, Entry>>)
    ensures r.Some? <==> !loaded.Crashed?
    ensures r.Some? ==> r.value.Keys == Defaults.Keys
    ensures r.Some? ==> forall k :: k in Defaults ==>
              r.value[k] == (if loaded.Loaded? && k in loaded.entries then loaded.entries[k] else Defaults[k])
  {
    match loaded
    case Crashed => None
    case NoConfig => Some(Defaults)
    case Loaded(cached) =>
      if cached == map[] then Some(Defaults)
      else Some(map k | k in Defaults :: if k in cached then cached[k] else Defaults[k])
  }

  /** A missing or undecodable cache file means every coordinate is its default; no
      part of the file is used. */
  lemma UnreadableFileUsesDefaults(file: CacheFile)
    requires !file.Decoded?
    ensures Startup(Load(file)) == Some(Defaults)
  {
  }

  /** Calibration round trip: when the wizard has recorded every coordinate, saving the
      table and starting the bot again runs it with exactly the recorded coordinates. */
  lemma CalibrationRoundTrip(keys: seq<string>, cfg: map<string, Entry>)
    requires Calibrated(cfg) && cfg.Keys == Defaults.Keys
    requires forall k :: k in cfg <==> k in keys
    ensures Startup(Load(Decoded(Save(keys, cfg)))) == Some(cfg)
  {
    forall k | k in cfg ensures WellFormed(cfg[k]) {
      ShapedWellFormed(cfg[k], Shapes[k]);
    }
    SaveLoadRoundTrip(keys, cfg);
    StartupComplete(cfg);
  }

  /** A cached table holding every coordinate key is used as it is. */
  lemma StartupComplete(cfg: map<string, Entry>)
    requires cfg.Keys == Defaults.Keys
    ensures Startup(Loaded(cfg)) == Some(cfg)
  {
    var r := Startup(Loaded(cfg)).value;
    assert r.Keys == cfg.Keys;
    forall k | k in r
      ensures r[k] == cfg[k]
    {
      assert k in Defaults && k in cfg;
    }
    assert r == cfg;
  }

  /** Whatever the wizard records is an entry conversion can produce. */
  lemma ShapedWellFormed(e: Entry, shape: Shape)
    requires HasShape(e, shape)
    ensures WellFormed(e)
  {
  }

  /** Decodable content the conversion cannot take is not caught: a deployment line
      whose second item is a number makes tuple() raise, and so does a cache holding a
      list instead of an object; in both cases the bot stops at start-up. */
  lemma UncaughtShapes()
    ensures Load(Decoded(JObject([("deploy_line1", JArray([JArray([JInt(571), JInt(725)]), JInt(880)]))]))) == Crashed
    ensures Load(Decoded(JArray([JInt(211), JInt(148)]))) == Crashed
  {
    var t := MemberTable([("deploy_line1", JArray([JArray([JInt(571), JInt(725)]), JInt(880)]))]);
    assert "deploy_line1" in t;
  }
}
