/**
 * The static map data (src/data_static.rs): the solar systems, the stargate
 * map and the wormhole jump-mass table read out of the `combine.js` JSON.
 * Fetching and parsing the file are not modelled: the reader starts from the
 * parsed JSON value. Parsing a security string as `f32` is a parameter.
 */
module DataStatic {
  import opened Wrappers
  import opened Ints
  import opened Json
  import opened Seqs
  import opened Text
  import Attr

  /** A solar system as the static data names it. */
  datatype System = System(id: u32, name: string, security: real, classNumber: Option<u16>)

  /** A stargate link, as stored: both ends in the 30000000-based id space. */
  datatype Gate = Gate(fromSystem: u32, toSystem: u32)

  datatype StaticData = StaticData(systems: seq<System>, gates: seq<Gate>, wormholeJumpMass: map<string, u32>)

  // ---------------------------------------------------------------- equality and order

  /** `PartialEq for System`: two systems are equal when their ids are. */
  predicate SystemEq(a: System, b: System)
  {
    a.id == b.id
  }

  datatype Ordering = Less | Equal | Greater

  /** `Ord for System`: by name alone. */
  function Compare(a: System, b: System): Ordering
  {
    if StrLess(a.name, b.name) then Less
    else if a.name == b.name then Equal
    else Greater
  }

  /** System equality is an equivalence that looks at the id only. */
  lemma SystemEqEquivalence(a: System, b: System, c: System)
    ensures SystemEq(a, a)
    ensures SystemEq(a, b) ==> SystemEq(b, a)
    ensures SystemEq(a, b) && SystemEq(b, c) ==> SystemEq(a, c)
    ensures SystemEq(a, b) <==> a.id == b.id
  {
  }

  /** The order is a total order on names: `Equal` exactly for equal names, `Less` and `Greater` mirror each other. */
  lemma CompareSpec(a: System, b: System)
    ensures Compare(a, b) == Equal <==> a.name == b.name
    ensures Compare(a, b) == Less <==> StrLess(a.name, b.name)
    ensures Compare(a, b) == Greater <==> StrLess(b.name, a.name)
    ensures Compare(a, b) == Less <==> Compare(b, a) == Greater
  {
    StrLessIrreflexive(a.name);
    if a.name != b.name {
      StrLessTotal(a.name, b.name);
    }
    if StrLess(a.name, b.name) {
      StrLessAsymmetric(a.name, b.name);
    }
    if StrLess(b.name, a.name) {
      StrLessAsymmetric(b.name, a.name);
    }
  }

  lemma CompareTransitive(a: System, b: System, c: System)
    requires Compare(a, b) == Less && Compare(b, c) == Less
    ensures Compare(a, c) == Less
  {
    StrLessTransitive(a.name, b.name, c.name);
  }

  /**
   * The order and the equality disagree: two systems with different ids and
   * the same name compare `Equal` yet are not equal, so `Ord` is not
   * consistent with `Eq`.
   */
  lemma OrderIgnoresId(a: System, id: u32)
    requires id != a.id
    ensures Compare(a, a.(id := id)) == Equal && !SystemEq(a, a.(id := id))
  {
    StrLessIrreflexive(a.name);
  }

  // ---------------------------------------------------------------- systems

  /** The placeholder systems the reader drops: one fixed name, and five-byte names beginning with `V-` or `AD`. */
  predicate Excluded(name: string)
  {
    || name == "No System Name"
    || (StartsWith(name, "V-") && Utf8Len(name) == 5)
    || (StartsWith(name, "AD") && Utf8Len(name) == 5)
  }

  /** The `class` field: absent or not a string gives no class; a string must parse as `u16`. */
  function ClassOf(field: Json): Result<Option<u16>, ()>
  {
    match AsStr(field)
    case None => Ok(None)
    case Some(v) =>
      match ParseUnsigned(v, U16_LIMIT)
      case None => Err(())
      case Some(c) => Ok(Some(c))
  }

  /** One entry of `systems`: the checks in the order they run, then the name filter. */
  function SystemVerdict(key: string, value: Json, parseF32: string -> Option<real>): Verdict<System>
  {
    match ParseUnsigned(key, U32_LIMIT)
    case None => Fail("System key not an integer: " + key)
    case Some(id) =>
      match AsStr(Get(value, "name"))
      case None => Fail("System " + Decimal(id) + " has no name")
      case Some(name) =>
        match AsStr(Get(value, "security"))
        case None => Fail("System " + Decimal(id) + " has no security")
        case Some(sec) =>
          match parseF32(sec)
          case None => Fail("System " + Decimal(id) + " security is not floating point")
          case Some(security) =>
            match ClassOf(Get(value, "class"))
            case Err(_) => Fail("System " + Decimal(id) + " class is not an integer")
            case Ok(classNumber) =>
              if Excluded(name) then Skip else Keep(System(id, name, security, classNumber))
  }

  function SystemClassifier(parseF32: string -> Option<real>): ((string, Json)) -> Verdict<System>
  {
    (entry: (string, Json)) => SystemVerdict(entry.0, entry.1, parseF32)
  }

  /** The systems loop (src/data_static.rs:66-86) as a whole. */
  function Systems(systemsData: seq<(string, Json)>, parseF32: string -> Option<real>): Result<seq<System>, string>
  {
    Collect(systemsData, SystemClassifier(parseF32))
  }

  /** The entry `(key, value)` describes the system `s`: every field is present and parses to `s`'s. */
  predicate Describes(key: string, value: Json, parseF32: string -> Option<real>, s: System)
  {
    && ParseUnsigned(key, U32_LIMIT) == Some(s.id)
    && AsStr(Get(value, "name")) == Some(s.name)
    && AsStr(Get(value, "security")).Some?
    && parseF32(AsStr(Get(value, "security")).value) == Some(s.security)
    && (if AsStr(Get(value, "class")).Some?
        then ParseUnsigned(AsStr(Get(value, "class")).value, U16_LIMIT) == Some(s.classNumber.GetOr(0)) && s.classNumber.Some?
        else s.classNumber.None?)
  }

  /** The entry describes some system. */
  ghost predicate DescribesSome(key: string, value: Json, parseF32: string -> Option<real>)
  {
    exists s :: Describes(key, value, parseF32, s)
  }

  /**
   * An entry fails exactly when it describes no system; an entry describing
   * `s` is skipped when `s`'s name is excluded and keeps `s` otherwise.
   */
  lemma {:induction false} SystemVerdictSpec(key: string, value: Json, parseF32: string -> Option<real>)
    ensures SystemVerdict(key, value, parseF32).Fail? <==> !DescribesSome(key, value, parseF32)
    ensures forall s :: Describes(key, value, parseF32, s) ==>
      SystemVerdict(key, value, parseF32) == if Excluded(s.name) then Skip else Keep(s)
  {
    var v := SystemVerdict(key, value, parseF32);
    if !v.Fail? {
      var id := ParseUnsigned(key, U32_LIMIT).value;
      var name := AsStr(Get(value, "name")).value;
      var security := parseF32(AsStr(Get(value, "security")).value).value;
      var classNumber := ClassOf(Get(value, "class")).value;
      assert Describes(key, value, parseF32, System(id, name, security, classNumber));
    }
  }

  /** The first failing check decides the message: the key, then the name, the security, its parse, and the class. */
  lemma SystemErrors(key: string, value: Json, parseF32: string -> Option<real>)
    ensures ParseUnsigned(key, U32_LIMIT).None? ==>
      SystemVerdict(key, value, parseF32) == Fail("System key not an integer: " + key)
    ensures ParseUnsigned(key, U32_LIMIT).Some? && AsStr(Get(value, "name")).None? ==>
      SystemVerdict(key, value, parseF32) == Fail("System " + Decimal(ParseUnsigned(key, U32_LIMIT).value) + " has no name")
    ensures ParseUnsigned(key, U32_LIMIT).Some? && AsStr(Get(value, "name")).Some? && AsStr(Get(value, "security")).None? ==>
      SystemVerdict(key, value, parseF32) == Fail("System " + Decimal(ParseUnsigned(key, U32_LIMIT).value) + " has no security")
  {
  }

  /** The systems loop succeeds exactly when every entry describes a system. */
  lemma SystemsOutcome(systemsData: seq<(string, Json)>, parseF32: string -> Option<real>)
    ensures Systems(systemsData, parseF32).Ok? <==>
      forall i :: 0 <= i < |systemsData| ==> DescribesSome(systemsData[i].0, systemsData[i].1, parseF32)
  {
    var classify := SystemClassifier(parseF32);
    CollectOutcome(systemsData, classify);
    forall i | 0 <= i < |systemsData|
      ensures classify(systemsData[i]).Fail? <==> !DescribesSome(systemsData[i].0, systemsData[i].1, parseF32)
    {
      assert classify(systemsData[i]) == SystemVerdict(systemsData[i].0, systemsData[i].1, parseF32);
      SystemVerdictSpec(systemsData[i].0, systemsData[i].1, parseF32);
    }
  }

  /**
   * A successful systems loop lists, in entry order, exactly the described
   * systems whose names are not excluded.
   */
  lemma SystemsKept(systemsData: seq<(string, Json)>, parseF32: string -> Option<real>)
    requires Systems(systemsData, parseF32).Ok?
    ensures forall k :: 0 <= k < |Systems(systemsData, parseF32).value| ==>
      && !Excluded(Systems(systemsData, parseF32).value[k].name)
      && exists i :: 0 <= i < |systemsData| && Describes(systemsData[i].0, systemsData[i].1, parseF32, Systems(systemsData, parseF32).value[k])
    ensures forall i, s :: 0 <= i < |systemsData| && Describes(systemsData[i].0, systemsData[i].1, parseF32, s) && !Excluded(s.name) ==>
      s in Systems(systemsData, parseF32).value
  {
    var classify := SystemClassifier(parseF32);
    var systems := Systems(systemsData, parseF32).value;
    CollectKept(systemsData, classify);
    forall k | 0 <= k < |systems|
      ensures !Excluded(systems[k].name)
      ensures exists i :: 0 <= i < |systemsData| && Describes(systemsData[i].0, systemsData[i].1, parseF32, systems[k])
    {
      var i :| 0 <= i < |systemsData| && classify(systemsData[i]) == Keep(systems[k]);
      KeptDescribed(systemsData[i].0, systemsData[i].1, parseF32, systems[k]);
    }
    forall i, s | 0 <= i < |systemsData| && Describes(systemsData[i].0, systemsData[i].1, parseF32, s) && !Excluded(s.name)
      ensures s in systems
    {
      SystemVerdictSpec(systemsData[i].0, systemsData[i].1, parseF32);
      assert classify(systemsData[i]) == Keep(s);
    }
  }

  /** A kept system is described by its entry and has a name that is not excluded. */
  lemma KeptDescribed(key: string, value: Json, parseF32: string -> Option<real>, s: System)
    requires SystemVerdict(key, value, parseF32) == Keep(s)
    ensures Describes(key, value, parseF32, s) && !Excluded(s.name)
  {
  }

  // ---------------------------------------------------------------- gates

  /** The stargate ids in the map are offsets from 30000000; the sum is a `u32` addition without overflow checks. */
  function SystemOffset(n: u32): (r: u32)
    ensures n < U32_LIMIT - 30000000 ==> r == 30000000 + n
  {
    WrappingAddU32(30000000, n)
  }

  /** One destination of a `map.shortest` entry. */
  function TargetVerdict(from: u32, entry: (string, Json)): Verdict<Gate>
  {
    match ParseUnsigned(entry.0, U32_LIMIT)
    case None => Fail("Map to system not an integer: " + entry.0)
    case Some(t) => Keep(Gate(from, SystemOffset(t)))
  }

  function TargetClassifier(from: u32): ((string, Json)) -> Verdict<Gate>
  {
    (entry: (string, Json)) => TargetVerdict(from, entry)
  }

  /** The gates of one `map.shortest` entry (src/data_static.rs:89-96). */
  function EntryGates(entry: (string, Json), debugFormat: Json -> string): Result<seq<Gate>, string>
  {
    match ParseUnsigned(entry.0, U32_LIMIT)
    case None => Err("Map from system not an integer: " + entry.0)
    case Some(f) =>
      match AsObject(entry.1)
      case None => Err("Map to systems is not an object " + debugFormat(entry.1))
      case Some(targets) => Collect(targets, TargetClassifier(SystemOffset(f)))
  }

  /** The gates loop (src/data_static.rs:88-97): each entry's gates in turn, or the first error. */
  function Gates(gatesData: seq<(string, Json)>, debugFormat: Json -> string): Result<seq<Gate>, string>
  {
    CollectMany(gatesData, EntryExpander(debugFormat))
  }

  function EntryExpander(debugFormat: Json -> string): ((string, Json)) -> Result<seq<Gate>, string>
  {
    (entry: (string, Json)) => EntryGates(entry, debugFormat)
  }

  /** The `map.shortest` entry `entry` lists a destination `target` that is a link `g`. */
  predicate Lists(entry: (string, Json), target: (string, Json), g: Gate)
  {
    && ParseUnsigned(entry.0, U32_LIMIT).Some?
    && ParseUnsigned(target.0, U32_LIMIT).Some?
    && g == Gate(SystemOffset(ParseUnsigned(entry.0, U32_LIMIT).value), SystemOffset(ParseUnsigned(target.0, U32_LIMIT).value))
  }

  /** A well-formed entry: its key is an integer and its value an object whose keys are integers. */
  predicate WellFormedEntry(entry: (string, Json))
  {
    && ParseUnsigned(entry.0, U32_LIMIT).Some?
    && entry.1.Object?
    && forall j :: 0 <= j < |entry.1.members| ==> ParseUnsigned(entry.1.members[j].0, U32_LIMIT).Some?
  }

  /** The number of destinations listed under the entries. */
  function TargetTotal(gatesData: seq<(string, Json)>): nat
  {
    if gatesData == [] then 0
    else
      var last := gatesData[|gatesData| - 1];
      TargetTotal(gatesData[..|gatesData| - 1]) + if last.1.Object? then |last.1.members| else 0
  }

  /**
   * One entry's gates: it succeeds exactly when the entry is well formed, and
   * then gives one link per destination, in order, each the one it lists.
   */
  lemma EntryGatesSpec(entry: (string, Json), debugFormat: Json -> string)
    ensures EntryGates(entry, debugFormat).Ok? <==> WellFormedEntry(entry)
    ensures EntryGates(entry, debugFormat).Ok? ==>
      && |EntryGates(entry, debugFormat).value| == |entry.1.members|
      && forall j :: 0 <= j < |entry.1.members| ==> Lists(entry, entry.1.members[j], EntryGates(entry, debugFormat).value[j])
  {
    if ParseUnsigned(entry.0, U32_LIMIT).Some? && entry.1.Object? {
      var from := SystemOffset(ParseUnsigned(entry.0, U32_LIMIT).value);
      var targets := entry.1.members;
      var classify := TargetClassifier(from);
      CollectOutcome(targets, classify);
      if Collect(targets, classify).Ok? {
        CollectEvery(targets, classify);
      }
    }
  }

  /** The gates loop succeeds exactly when every entry is well formed. */
  lemma GatesOutcome(gatesData: seq<(string, Json)>, debugFormat: Json -> string)
    ensures Gates(gatesData, debugFormat).Ok? <==> forall i :: 0 <= i < |gatesData| ==> WellFormedEntry(gatesData[i])
  {
    CollectManyOutcome(gatesData, EntryExpander(debugFormat));
    forall i | 0 <= i < |gatesData|
      ensures EntryExpander(debugFormat)(gatesData[i]).Ok? <==> WellFormedEntry(gatesData[i])
    {
      EntryGatesSpec(gatesData[i], debugFormat);
    }
  }

  /** A successful gates loop holds one link per listed destination. */
  lemma {:induction false} GatesCount(gatesData: seq<(string, Json)>, debugFormat: Json -> string)
    requires Gates(gatesData, debugFormat).Ok?
    ensures |Gates(gatesData, debugFormat).value| == TargetTotal(gatesData)
  {
    if gatesData != [] {
      var n := |gatesData| - 1;
      GatesCount(gatesData[..n], debugFormat);
      EntryGatesSpec(gatesData[n], debugFormat);
    }
  }

  /** Some entry of `gatesData` lists a destination that is the link `g`. */
  ghost predicate Listed(gatesData: seq<(string, Json)>, g: Gate)
  {
    exists i, j :: 0 <= i < |gatesData| && gatesData[i].1.Object? && 0 <= j < |gatesData[i].1.members|
      && Lists(gatesData[i], gatesData[i].1.members[j], g)
  }

  lemma ListedPrefix(gatesData: seq<(string, Json)>, n: nat, g: Gate)
    requires n <= |gatesData| && Listed(gatesData[..n], g)
    ensures Listed(gatesData, g)
  {
    var prefix := gatesData[..n];
    var i, j :| 0 <= i < |prefix| && prefix[i].1.Object? && 0 <= j < |prefix[i].1.members| && Lists(prefix[i], prefix[i].1.members[j], g);
    assert prefix[i] == gatesData[i];
  }

  /** Every link of a successful gates loop is one that some entry lists. */
  lemma {:induction false} GatesOrigin(gatesData: seq<(string, Json)>, debugFormat: Json -> string)
    requires Gates(gatesData, debugFormat).Ok?
    ensures forall k :: 0 <= k < |Gates(gatesData, debugFormat).value| ==> Listed(gatesData, Gates(gatesData, debugFormat).value[k])
  {
    if gatesData != [] {
      var n := |gatesData| - 1;
      GatesOrigin(gatesData[..n], debugFormat);
      EntryGatesSpec(gatesData[n], debugFormat);
      var gates := Gates(gatesData[..n], debugFormat).value;
      var more := EntryGates(gatesData[n], debugFormat).value;
      var all := Gates(gatesData, debugFormat).value;
      assert all == gates + more;
      forall k | 0 <= k < |all|
        ensures Listed(gatesData, all[k])
      {
        if k < |gates| {
          assert all[k] == gates[k];
          ListedPrefix(gatesData, n, gates[k]);
        } else {
          assert all[k] == more[k - |gates|];
          assert Lists(gatesData[n], gatesData[n].1.members[k - |gates|], all[k]);
        }
      }
    }
  }

  // ---------------------------------------------------------------- wormhole jump masses

  /** One `wormholes` entry: the `jump` mass in kilograms, which must be a `u64`, scaled to thousands of tonnes, which must fit in a `u32`. */
  function JumpVerdict(entry: (string, Json)): Verdict<(string, u32)>
  {
    match AsU64(Get(entry.1, "jump"))
    case None => Fail("Wormhole " + entry.0 + " missing jump value")
    case Some(jump) =>
      if jump / 1000000 < U32_LIMIT then Keep((entry.0, jump / 1000000))
      else Fail("Wormhole " + entry.0 + " jump value does not fit in u32")
  }

  function JumpClassifier(): ((string, Json)) -> Verdict<(string, u32)>
  {
    (entry: (string, Json)) => JumpVerdict(entry)
  }

  /** The wormhole loop (src/data_static.rs:99-104): the inserts in entry order, a later type overriding an earlier one. */
  function JumpTable(wormholeData: seq<(string, Json)>): Result<map<string, u32>, string>
  {
    match Collect(wormholeData, JumpClassifier())
    case Err(e) => Err(e)
    case Ok(entries) => Ok(Attr.InsertAll(entries))
  }

  /** The three size-class entries inserted last (src/data_static.rs:106-108). */
  function WithSizeClasses(table: map<string, u32>): map<string, u32>
  {
    table["SML" := 5]["MED" := 62]["LRG" := 375]
  }

  /** The entry's jump mass, in kilograms, is `m` thousand tonnes after integer division. */
  predicate JumpMassIs(entry: (string, Json), m: u32)
  {
    && AsU64(Get(entry.1, "jump")).Some?
    && m * 1000000 <= AsU64(Get(entry.1, "jump")).value < (m + 1) * 1000000
  }

  /**
   * The table is built exactly when every entry has a jump value that fits;
   * its keys are then the types listed, and each maps to the mass of the last
   * entry of that type.
   */
  lemma JumpTableSpec(wormholeData: seq<(string, Json)>)
    ensures JumpTable(wormholeData).Ok? <==>
      forall i :: 0 <= i < |wormholeData| ==>
        AsU64(Get(wormholeData[i].1, "jump")).Some? && AsU64(Get(wormholeData[i].1, "jump")).value < U32_LIMIT * 1000000
    ensures JumpTable(wormholeData).Ok? ==>
      forall t :: t in JumpTable(wormholeData).value <==> exists i :: 0 <= i < |wormholeData| && wormholeData[i].0 == t
    ensures JumpTable(wormholeData).Ok? ==>
      forall t :: t in JumpTable(wormholeData).value ==>
        exists i :: (0 <= i < |wormholeData| && wormholeData[i].0 == t && JumpMassIs(wormholeData[i], JumpTable(wormholeData).value[t])
          && forall j :: i < j < |wormholeData| ==> wormholeData[j].0 != t)
  {
    var classify := JumpClassifier();
    CollectOutcome(wormholeData, classify);
    if JumpTable(wormholeData).Ok? {
      var entries := Collect(wormholeData, classify).value;
      CollectEvery(wormholeData, classify);
      assert forall i :: 0 <= i < |wormholeData| ==> entries[i].0 == wormholeData[i].0 && JumpMassIs(wormholeData[i], entries[i].1);
      var table := JumpTable(wormholeData).value;
      forall t
        ensures t in table <==> exists i :: 0 <= i < |wormholeData| && wormholeData[i].0 == t
      {
        Attr.InsertAllKeys(entries, t);
      }
      forall t | t in table
        ensures exists i :: (0 <= i < |wormholeData| && wormholeData[i].0 == t && JumpMassIs(wormholeData[i], table[t])
          && forall j :: i < j < |wormholeData| ==> wormholeData[j].0 != t)
      {
        Attr.InsertAllLast(entries, t);
      }
    }
  }

  /** The size classes always hold their fixed masses; every other key keeps the value read from the file. */
  lemma WithSizeClassesSpec(table: map<string, u32>)
    ensures WithSizeClasses(table)["SML"] == 5 && WithSizeClasses(table)["MED"] == 62 && WithSizeClasses(table)["LRG"] == 375
    ensures WithSizeClasses(table).Keys == table.Keys + {"SML", "MED", "LRG"}
    ensures forall t :: t in table && t != "SML" && t != "MED" && t != "LRG" ==> WithSizeClasses(table)[t] == table[t]
  {
  }

  // ---------------------------------------------------------------- the whole reader

  /** `get_static_data` from the parsed JSON on: the three sections, then the three loops, then the size classes. */
  function StaticDataOf(json: Json, parseF32: string -> Option<real>, debugFormat: Json -> string): Result<StaticData, string>
  {
    match AsObject(Get(json, "systems"))
    case None => Err("Systems missing from combine.js")
    case Some(systemsData) =>
      match AsObject(Get(Get(json, "map"), "shortest"))
      case None => Err("Map missing from combine.js")
      case Some(gatesData) =>
        match AsObject(Get(json, "wormholes"))
        case None => Err("Wormholes missing from combine.js")
        case Some(wormholeData) =>
          match Systems(systemsData, parseF32)
          case Err(e) => Err(e)
          case Ok(systems) =>
            match Gates(gatesData, debugFormat)
            case Err(e) => Err(e)
            case Ok(gates) =>
              match JumpTable(wormholeData)
              case Err(e) => Err(e)
              case Ok(table) => Ok(StaticData(systems, gates, WithSizeClasses(table)))
  }

  /**
   * A successful read found the three sections, its systems are those their
   * entries describe minus the excluded names, it has one gate per listed
   * destination, and its jump-mass table holds the size classes.
   */
  lemma StaticDataSpec(json: Json, parseF32: string -> Option<real>, debugFormat: Json -> string)
    requires StaticDataOf(json, parseF32, debugFormat).Ok?
    ensures Get(json, "systems").Object? && Get(Get(json, "map"), "shortest").Object? && Get(json, "wormholes").Object?
    ensures forall s :: s in StaticDataOf(json, parseF32, debugFormat).value.systems ==>
      !Excluded(s.name) && exists i :: (0 <= i < |Get(json, "systems").members|
        && Describes(Get(json, "systems").members[i].0, Get(json, "systems").members[i].1, parseF32, s))
    ensures |StaticDataOf(json, parseF32, debugFormat).value.gates| == TargetTotal(Get(Get(json, "map"), "shortest").members)
    ensures {"SML", "MED", "LRG"} <= StaticDataOf(json, parseF32, debugFormat).value.wormholeJumpMass.Keys
  {
    var systemsData := Get(json, "systems").members;
    SystemsKept(systemsData, parseF32);
    GatesCount(Get(Get(json, "map"), "shortest").members, debugFormat);
    var systems := StaticDataOf(json, parseF32, debugFormat).value.systems;
    forall s | s in systems
      ensures !Excluded(s.name) && exists i :: 0 <= i < |systemsData| && Describes(systemsData[i].0, systemsData[i].1, parseF32, s)
    {
      var k :| 0 <= k < |systems| && systems[k] == s;
    }
  }

  /** A missing section is reported before anything else is read, in the order systems, map, wormholes. */
  lemma MissingSections(json: Json, parseF32: string -> Option<real>, debugFormat: Json -> string)
    ensures !Get(json, "systems").Object? ==> StaticDataOf(json, parseF32, debugFormat) == Err("Systems missing from combine.js")
    ensures Get(json, "systems").Object? && !Get(Get(json, "map"), "shortest").Object? ==>
      StaticDataOf(json, parseF32, debugFormat) == Err("Map missing from combine.js")
    ensures Get(json, "systems").Object? && Get(Get(json, "map"), "shortest").Object? && !Get(json, "wormholes").Object? ==>
      StaticDataOf(json, parseF32, debugFormat) == Err("Wormholes missing from combine.js")
  {
  }

  // ---------------------------------------------------------------- the loops

  /** The systems loop. */
  method ReadSystems(systemsData: seq<(string, Json)>, parseF32: string -> Option<real>) returns (r: Result<seq<System>, string>)
    ensures r == Systems(systemsData, parseF32)
  {
    var systems: seq<System> := [];
    for i := 0 to |systemsData|
      invariant Collect(systemsData[..i], SystemClassifier(parseF32)) == Ok(systems)
    {
      var (key, value) := systemsData[i];
      var verdict := SystemVerdict(key, value, parseF32);
      assert verdict == SystemClassifier(parseF32)(systemsData[i]);
      CollectStep(systemsData, SystemClassifier(parseF32), i, systems);
      match verdict {
        case Fail(e) =>
          CollectFailurePersists(systemsData, SystemClassifier(parseF32), i + 1);
          return Err(e);
        case Skip =>
        case Keep(s) =>
          systems := systems + [s];
      }
    }
    assert systemsData[..|systemsData|] == systemsData;
    return Ok(systems);
  }

  /** The inner gates loop over one entry's destinations. */
  method ReadTargets(from: u32, targets: seq<(string, Json)>) returns (r: Result<seq<Gate>, string>)
    ensures r == Collect(targets, TargetClassifier(from))
  {
    var gates: seq<Gate> := [];
    for j := 0 to |targets|
      invariant Collect(targets[..j], TargetClassifier(from)) == Ok(gates)
    {
      var verdict := TargetVerdict(from, targets[j]);
      assert verdict == TargetClassifier(from)(targets[j]);
      CollectStep(targets, TargetClassifier(from), j, gates);
      match verdict {
        case Fail(e) =>
          CollectFailurePersists(targets, TargetClassifier(from), j + 1);
          return Err(e);
        case Skip =>
        case Keep(g) =>
          gates := gates + [g];
      }
    }
    assert targets[..|targets|] == targets;
    return Ok(gates);
  }

  /** The outer gates loop. */
  method ReadGates(gatesData: seq<(string, Json)>, debugFormat: Json -> string) returns (r: Result<seq<Gate>, string>)
    ensures r == Gates(gatesData, debugFormat)
  {
    var gates: seq<Gate> := [];
    for i := 0 to |gatesData|
      invariant Gates(gatesData[..i], debugFormat) == Ok(gates)
    {
      var (fromKey, value) := gatesData[i];
      CollectManyStep(gatesData, EntryExpander(debugFormat), i, gates);
      var parsed := ParseUnsigned(fromKey, U32_LIMIT);
      if parsed.None? {
        CollectManyFailurePersists(gatesData, EntryExpander(debugFormat), i + 1);
        return Err("Map from system not an integer: " + fromKey);
      }
      var from := SystemOffset(parsed.value);
      if !value.Object? {
        CollectManyFailurePersists(gatesData, EntryExpander(debugFormat), i + 1);
        return Err("Map to systems is not an object " + debugFormat(value));
      }
      var more := ReadTargets(from, value.members);
      if more.Err? {
        CollectManyFailurePersists(gatesData, EntryExpander(debugFormat), i + 1);
        return Err(more.error);
      }
      gates := gates + more.value;
    }
    assert gatesData[..|gatesData|] == gatesData;
    return Ok(gates);
  }

  /** The wormhole loop: fills the table as it goes. */
  method ReadJumpMasses(wormholeData: seq<(string, Json)>) returns (r: Result<map<string, u32>, string>)
    ensures r == JumpTable(wormholeData)
  {
    var table: map<string, u32> := map[];
    ghost var entries: seq<(string, u32)> := [];
    for i := 0 to |wormholeData|
      invariant Collect(wormholeData[..i], JumpClassifier()) == Ok(entries)
      invariant table == Attr.InsertAll(entries)
    {
      var verdict := JumpVerdict(wormholeData[i]);
      assert verdict == JumpClassifier()(wormholeData[i]);
      CollectStep(wormholeData, JumpClassifier(), i, entries);
      match verdict {
        case Fail(e) =>
          CollectFailurePersists(wormholeData, JumpClassifier(), i + 1);
          return Err(e);
        case Skip =>
        case Keep(entry) =>
          assert (entries + [entry])[..|entries|] == entries;
          entries := entries + [entry];
          table := table[entry.0 := entry.1];
      }
    }
    assert wormholeData[..|wormholeData|] == wormholeData;
    return Ok(table);
  }

  /** `get_static_data` from the parsed JSON on. */
  method GetStaticData(json: Json, parseF32: string -> Option<real>, debugFormat: Json -> string) returns (r: Result<StaticData, string>)
    ensures r == StaticDataOf(json, parseF32, debugFormat)
  {
    var systemsSection := Get(json, "systems");
    if !systemsSection.Object? {
      return Err("Systems missing from combine.js");
    }
    var gatesSection := Get(Get(json, "map"), "shortest");
    if !gatesSection.Object? {
      return Err("Map missing from combine.js");
    }
    var wormholeSection := Get(json, "wormholes");
    if !wormholeSection.Object? {
      return Err("Wormholes missing from combine.js");
    }
    var systems := ReadSystems(systemsSection.members, parseF32);
    if systems.Err? {
      return Err(systems.error);
    }
    var gates := ReadGates(gatesSection.members, debugFormat);
    if gates.Err? {
      return Err(gates.error);
    }
    var table := ReadJumpMasses(wormholeSection.members);
    if table.Err? {
      return Err(table.error);
    }
    var jumpMass := table.value;
    jumpMass := jumpMass["SML" := 5];
    jumpMass := jumpMass["MED" := 62];
    jumpMass := jumpMass["LRG" := 375];
    return Ok(StaticData(systems.value, gates.value, jumpMass));
  }
}
