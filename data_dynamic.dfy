/**
 * The earlier, one-shot reader of the Tripwire wormhole feed
 * (src/data_dynamic.rs). It reads a single `refresh.php` reply with no
 * as-of marker; its rules for one record are those of Tripwire, with its own
 * error messages and with code 10 standing for Trig space. The HTTP exchange
 * is left out: `json` is the decoded reply, `now` the current time and
 * `parseTime` the "%Y-%m-%d %H:%M:%S" parser.
 */
module DataDynamic {
  import opened Wrappers
  import opened Ints
  import opened Json
  import opened FeedRules
  import opened Seqs

  /** Where a wormhole leads: a known system, or only the class of an unknown one. */
  datatype SystemOrClass =
    | SpecificSystem(id: u32)
    | Nullsec | Lowsec | Highsec
    | Class1 | Class2 | Class3 | Class4 | Class5 | Class6 | Class13
    | Trig
    | Unknown

  /** The classes that the codes 0 to 10 stand for, in code order. */
  const CodedClasses: seq<SystemOrClass> :=
    [Nullsec, Lowsec, Highsec, Class1, Class2, Class3, Class4, Class5, Class6, Class13, Trig]

  /** `SystemOrClass::from(Option<u32>)`: no code is Unknown, 0 to 10 are classes, anything larger a system id. */
  function SystemOrClassFrom(item: Option<u32>): (r: SystemOrClass)
    ensures item.None? <==> r == Unknown
    ensures item.Some? && item.value < 11 ==> r == CodedClasses[item.value]
    ensures item.Some? && item.value >= 11 <==> r.SpecificSystem?
    ensures r.SpecificSystem? ==> item == Some(r.id)
  {
    match item
    case None => Unknown
    case Some(0) => Nullsec
    case Some(1) => Lowsec
    case Some(2) => Highsec
    case Some(3) => Class1
    case Some(4) => Class2
    case Some(5) => Class3
    case Some(6) => Class4
    case Some(7) => Class5
    case Some(8) => Class6
    case Some(9) => Class13
    case Some(10) => Trig
    case Some(v) => SpecificSystem(v)
  }

  /** One normalised wormhole, seen from the side whose signature is `fromSignature`. */
  datatype TripwireWormhole = TripwireWormhole(
    fromSystem: u32,
    toSystem: SystemOrClass,
    fromSignature: Option<string>,
    toSignature: Option<string>,
    wormholeType: Option<string>,
    lifetime: int,
    life: WormholeLife,
    mass: WormholeMass)

  /** Classification of one record of `json["wormholes"]`, in the order the source makes its checks. */
  function ClassifyRecord(json: Json, wormholeId: string, wormhole: Json, now: int, parseTime: string -> Option<int>): (v: Verdict<TripwireWormhole>)
    ensures AsStr(Get(wormhole, "initialID")).None? ==> v == Fail("initialID missing from wormhole " + wormholeId)
    ensures (AsStr(Get(wormhole, "initialID")).Some? && AsStr(Get(wormhole, "secondaryID")).None?) ==>
      v == Fail("secondaryID missing from wormhole " + wormholeId)
    ensures (AsStr(Get(wormhole, "initialID")).Some? && AsStr(Get(wormhole, "secondaryID")).Some? &&
             SystemIdOf(SignatureField(json, AsStr(Get(wormhole, "initialID")).value, "systemID")).None?) ==>
      v == Skip
  {
    match AsStr(Get(wormhole, "initialID"))
    case None => Fail("initialID missing from wormhole " + wormholeId)
    case Some(initialId) =>
      match AsStr(Get(wormhole, "secondaryID"))
      case None => Fail("secondaryID missing from wormhole " + wormholeId)
      case Some(secondaryId) =>
        match SystemIdOf(SignatureField(json, initialId, "systemID"))
        case None => Skip
        case Some(fromSystem) =>
          var toSystem := SystemOrClassFrom(SystemIdOf(SignatureField(json, secondaryId, "systemID")));
          var fromSignature := NormaliseSignature(SignatureField(json, initialId, "signatureID"));
          var toSignature := NormaliseSignature(SignatureField(json, secondaryId, "signatureID"));
          match AsStr(SignatureField(json, initialId, "lifeTime"))
          case None => Fail("lifeTime missing from wormhole " + wormholeId)
          case Some(lifetimeStr) =>
            ClassifyStatus(wormholeId, wormhole, fromSystem, toSystem, fromSignature, toSignature, parseTime(lifetimeStr), now)
  }

  /**
   * The checks that follow the lifetime lookup: its format, then life and mass
   * (failing the read on an unknown status even for a record that is too
   * old), then the drop rules.
   */
  function ClassifyStatus(wormholeId: string, wormhole: Json, fromSystem: u32, toSystem: SystemOrClass,
                          fromSignature: Option<string>, toSignature: Option<string>, lifetime: Option<int>, now: int): (v: Verdict<TripwireWormhole>)
    ensures lifetime.None? ==> v == Fail("lifeTime wrong datetime format for wormhole " + wormholeId)
    ensures (lifetime.Some? && LifeOf(AsStr(Get(wormhole, "life")), now - lifetime.value).Err?) ==> v.Fail?
    ensures (lifetime.Some? && MassOf(AsStr(Get(wormhole, "mass"))).Err?) ==> v.Fail?
    ensures v.Fail? <==>
      lifetime.None? || LifeOf(AsStr(Get(wormhole, "life")), now - lifetime.value).Err? || MassOf(AsStr(Get(wormhole, "mass"))).Err?
    ensures (lifetime.Some? && LifeOf(AsStr(Get(wormhole, "life")), now - lifetime.value).Ok? && MassOf(AsStr(Get(wormhole, "mass"))).Ok?) ==>
      (v.Keep? <==> Retained(now - lifetime.value, fromSignature, toSignature, NormaliseType(Get(wormhole, "type"))))
    ensures v.Keep? ==>
      && v.item.fromSystem == fromSystem && v.item.toSystem == toSystem
      && v.item.fromSignature == fromSignature && v.item.toSignature == toSignature
      && Some(v.item.lifetime) == lifetime
      && v.item.wormholeType == NormaliseType(Get(wormhole, "type"))
      && LifeOf(AsStr(Get(wormhole, "life")), now - v.item.lifetime) == Ok(v.item.life)
      && MassOf(AsStr(Get(wormhole, "mass"))) == Ok(v.item.mass)
      && Retained(now - v.item.lifetime, fromSignature, toSignature, v.item.wormholeType)
  {
    var wormholeType := NormaliseType(Get(wormhole, "type"));
    match lifetime
    case None => Fail("lifeTime wrong datetime format for wormhole " + wormholeId)
    case Some(lifetime) =>
      var age := now - lifetime;
      match LifeOf(AsStr(Get(wormhole, "life")), age)
      case Err(Unrecognised) => Fail("life is not stable or critical for wormhole " + wormholeId)
      case Err(Absent) => Fail("life missing from wormhole " + wormholeId)
      case Ok(life) =>
        match MassOf(AsStr(Get(wormhole, "mass")))
        case Err(Unrecognised) => Fail("mass is not stable, destab or critical for wormhole " + wormholeId)
        case Err(Absent) => Fail("mass is missing from wormhole " + wormholeId)
        case Ok(mass) =>
          if !Retained(age, fromSignature, toSignature, wormholeType) then Skip
          else Keep(TripwireWormhole(fromSystem, toSystem, fromSignature, toSignature, wormholeType, lifetime, life, mass))
  }

  /**
   * The expiry rule keeps a record that is exactly 24 hours old and drops
   * one a nanosecond older.
   */
  lemma DayOldKept(now: int)
    ensures var w := Object([("life", Str("critical")), ("mass", Str("stable"))]);
      ClassifyStatus("1", w, 31000001, Unknown, Some("ABC"), None, Some(now - ExpiryAge), now).Keep?
    ensures var w := Object([("life", Str("critical")), ("mass", Str("stable"))]);
      ClassifyStatus("1", w, 31000001, Unknown, Some("ABC"), None, Some(now - ExpiryAge - 1), now).Skip?
  {
  }

  /** The drop rules and the end-of-life rule, as facts about one kept record. */
  lemma KeptFacts(json: Json, wormholeId: string, wormhole: Json, now: int, parseTime: string -> Option<int>)
    requires ClassifyRecord(json, wormholeId, wormhole, now, parseTime).Keep?
    ensures var w := ClassifyRecord(json, wormholeId, wormhole, now, parseTime).item;
      && now - w.lifetime <= ExpiryAge
      && (w.fromSignature.Some? || w.toSignature.Some?)
      && w.wormholeType != Some("GATE") && w.fromSignature != Some("GAT") && w.toSignature != Some("GAT")
      && (now - w.lifetime >= EolAge ==> w.life == EOL)
      && Some(w.fromSystem) == SystemIdOf(SignatureField(json, AsStr(Get(wormhole, "initialID")).value, "systemID"))
  {
    var initialId := AsStr(Get(wormhole, "initialID")).value;
    var secondaryId := AsStr(Get(wormhole, "secondaryID")).value;
    var lifetimeStr := AsStr(SignatureField(json, initialId, "lifeTime")).value;
    var fromSystem := SystemIdOf(SignatureField(json, initialId, "systemID")).value;
    var toSystem := SystemOrClassFrom(SystemIdOf(SignatureField(json, secondaryId, "systemID")));
    var fromSignature := NormaliseSignature(SignatureField(json, initialId, "signatureID"));
    var toSignature := NormaliseSignature(SignatureField(json, secondaryId, "signatureID"));
    assert ClassifyRecord(json, wormholeId, wormhole, now, parseTime)
      == ClassifyStatus(wormholeId, wormhole, fromSystem, toSystem, fromSignature, toSignature, parseTime(lifetimeStr), now);
  }

  /** `ClassifyRecord` as a function of one `(id, record)` entry. */
  function Classifier(json: Json, now: int, parseTime: string -> Option<int>): ((string, Json)) -> Verdict<TripwireWormhole>
  {
    (record: (string, Json)) => ClassifyRecord(json, record.0, record.1, now, parseTime)
  }

  lemma ClassifierApplies(json: Json, now: int, parseTime: string -> Option<int>, record: (string, Json))
    ensures Classifier(json, now, parseTime)(record) == ClassifyRecord(json, record.0, record.1, now, parseTime)
  {
  }

  /** The whole read as a function of the reply. */
  function Read(json: Json, now: int, parseTime: string -> Option<int>): Result<seq<TripwireWormhole>, string>
  {
    match AsObject(Get(json, "wormholes"))
    case None => Err("Wormholes not present in refresh.php")
    case Some(wormholes) => Collect(wormholes, Classifier(json, now, parseTime))
  }

  /**
   * A read succeeds exactly when the reply has a `wormholes` object none of
   * whose records fails; a failing read reports the first failing record.
   */
  lemma ReadOutcome(json: Json, now: int, parseTime: string -> Option<int>)
    ensures !Get(json, "wormholes").Object? ==> Read(json, now, parseTime) == Err("Wormholes not present in refresh.php")
    ensures Get(json, "wormholes").Object? ==>
      var wormholes := Get(json, "wormholes").members;
      && (Read(json, now, parseTime).Ok? <==>
            forall i :: 0 <= i < |wormholes| ==> !ClassifyRecord(json, wormholes[i].0, wormholes[i].1, now, parseTime).Fail?)
      && (Read(json, now, parseTime).Err? ==>
            exists i :: 0 <= i < |wormholes|
              && ClassifyRecord(json, wormholes[i].0, wormholes[i].1, now, parseTime) == Fail(Read(json, now, parseTime).error))
  {
    if Get(json, "wormholes").Object? {
      var wormholes := Get(json, "wormholes").members;
      var classify := Classifier(json, now, parseTime);
      CollectOutcome(wormholes, classify);
      assert forall i :: 0 <= i < |wormholes| ==>
        classify(wormholes[i]) == ClassifyRecord(json, wormholes[i].0, wormholes[i].1, now, parseTime);
    }
  }

  /**
   * Every wormhole a successful read returns is at most 24 hours old, has a
   * signature on at least one side, is not a gate, and is end-of-life once it
   * is 20 hours old; the result holds exactly the records kept on their own.
   */
  lemma ReadOutput(json: Json, now: int, parseTime: string -> Option<int>)
    requires Read(json, now, parseTime).Ok?
    ensures forall w :: w in Read(json, now, parseTime).value ==>
      && now - w.lifetime <= ExpiryAge
      && (w.fromSignature.Some? || w.toSignature.Some?)
      && w.wormholeType != Some("GATE") && w.fromSignature != Some("GAT") && w.toSignature != Some("GAT")
      && (now - w.lifetime >= EolAge ==> w.life == EOL)
    ensures forall i :: 0 <= i < |Get(json, "wormholes").members| ==>
      var record := Get(json, "wormholes").members[i];
      ClassifyRecord(json, record.0, record.1, now, parseTime).Keep? ==>
        ClassifyRecord(json, record.0, record.1, now, parseTime).item in Read(json, now, parseTime).value
    ensures forall w :: w in Read(json, now, parseTime).value ==>
      exists i :: 0 <= i < |Get(json, "wormholes").members|
        && ClassifyRecord(json, Get(json, "wormholes").members[i].0, Get(json, "wormholes").members[i].1, now, parseTime) == Keep(w)
  {
    var wormholes := AsObject(Get(json, "wormholes")).value;
    var classify := Classifier(json, now, parseTime);
    var data := Read(json, now, parseTime).value;
    CollectKept(wormholes, classify);
    forall w | w in data
      ensures now - w.lifetime <= ExpiryAge && (w.fromSignature.Some? || w.toSignature.Some?)
      ensures w.wormholeType != Some("GATE") && w.fromSignature != Some("GAT") && w.toSignature != Some("GAT")
      ensures now - w.lifetime >= EolAge ==> w.life == EOL
    {
      var k :| 0 <= k < |data| && data[k] == w;
      var i :| 0 <= i < |wormholes| && classify(wormholes[i]) == Keep(w);
      ClassifierApplies(json, now, parseTime, wormholes[i]);
      KeptFacts(json, wormholes[i].0, wormholes[i].1, now, parseTime);
    }
  }

  /** `get_tripwire`: the loop over the records, with the same early exits as the source. */
  method GetTripwire(json: Json, now: int, parseTime: string -> Option<int>) returns (r: Result<seq<TripwireWormhole>, string>)
    ensures r == Read(json, now, parseTime)
  {
    var wormholes: seq<(string, Json)>;
    match AsObject(Get(json, "wormholes")) {
      case None =>
        return Err("Wormholes not present in refresh.php");
      case Some(w) =>
        wormholes := w;
    }
    var data: seq<TripwireWormhole> := [];
    ghost var classify := Classifier(json, now, parseTime);
    var i := 0;
    while i < |wormholes|
      invariant 0 <= i <= |wormholes|
      invariant Collect(wormholes[..i], classify) == Ok(data)
    {
      var (wormholeId, wormhole) := wormholes[i];
      var verdict := ClassifyRecord(json, wormholeId, wormhole, now, parseTime);
      ClassifierApplies(json, now, parseTime, wormholes[i]);
      CollectStep(wormholes, classify, i, data);
      match verdict {
        case Fail(e) =>
          CollectFailurePersists(wormholes, classify, i + 1);
          return Err(e);
        case Skip =>
        case Keep(w) =>
          data := data + [w];
      }
      i := i + 1;
    }
    assert wormholes[..i] == wormholes;
    r := Ok(data);
  }
}
