/**
 * The incremental reader of the Tripwire wormhole feed (src/tripwire.rs). The
 * HTTP exchange is left out: `json` is the decoded reply, `now` the current time
 * and `parseTime` the "%Y-%m-%d %H:%M:%S" parser, all given by the caller.
 */
module Tripwire {
  import opened Wrappers
  import opened Ints
  import opened Json
  import opened FeedRules
  import opened Seqs
  import Text

  /** Where a wormhole leads: a known system, or only the class of an unknown one. */
  datatype SystemOrClass =
    | SpecificSystem(id: u32)
    | Nullsec | Lowsec | Highsec
    | Class1 | Class2 | Class3 | Class4 | Class5 | Class6 | Class13
    | Pochven
    | Unknown

  /** The classes that the codes 0 to 10 stand for, in code order. */
  const CodedClasses: seq<SystemOrClass> :=
    [Nullsec, Lowsec, Highsec, Class1, Class2, Class3, Class4, Class5, Class6, Class13, Pochven]

  /** `SystemOrClass::from(Option<u32>)`: no code is Unknown, 0 to 10 are classes, anything larger a system id. */
  function SystemOrClassFrom(item: Option<u32>): (r: SystemOrClass)
    ensures item.None? <==> r == Unknown
    ensures item.Some? && item.value < 11 ==> r == CodedClasses[item.value]
    ensures item.Some? && item.value >= 11 <==> r.SpecificSystem?
    ensures r.SpecificSystem? ==> item == Some(r.id)
  {
    match item
    case None => Unknown
    case Some(0) => Nullsec
    case Some(1) => Lowsec
    case Some(2) => Highsec
    case Some(3) => Class1
    case Some(4) => Class2
    case Some(5) => Class3
    case Some(6) => Class4
    case Some(7) => Class5
    case Some(8) => Class6
    case Some(9) => Class13
    case Some(10) => Pochven
    case Some(v) => SpecificSystem(v)
  }

  /** The code a destination came from; the inverse of SystemOrClassFrom. */
  function CodeOf(s: SystemOrClass): (r: Option<u32>)
  {
    match s
    case Unknown => None
    case Nullsec => Some(0)
    case Lowsec => Some(1)
    case Highsec => Some(2)
    case Class1 => Some(3)
    case Class2 => Some(4)
    case Class3 => Some(5)
    case Class4 => Some(6)
    case Class5 => Some(7)
    case Class6 => Some(8)
    case Class13 => Some(9)
    case Pochven => Some(10)
    case SpecificSystem(v) => Some(v)
  }

  /** No information is lost: distinct codes give distinct destinations. */
  lemma SystemOrClassFromInjective(item: Option<u32>)
    ensures CodeOf(SystemOrClassFrom(item)) == item
  {
  }

  /** One normalised wormhole, seen from the side whose signature is `fromSignature`. */
  datatype TripwireWormhole = TripwireWormhole(
    fromSystem: u32,
    toSystem: SystemOrClass,
    fromSignature: Option<string>,
    toSignature: Option<string>,
    wormholeType: Option<string>,
    lifetime: int,
    life: WormholeLife,
    mass: WormholeMass)

  /** One successful refresh: the wormholes and the as-of marker to send with the next request. */
  datatype TripwireRefresh = TripwireRefresh(wormholes: seq<TripwireWormhole>, signatureCount: nat, signatureTime: int)

  /** `NaiveDateTime::MIN`, -262144-01-01 00:00:00, as nanoseconds from the Unix epoch. */
  const MinTime: int := -8_334_632_851_200_000_000_000

  /** `PartialEq for TripwireRefresh`: two refreshes are equal when their markers are, whatever their wormholes. */
  predicate RefreshEq(a: TripwireRefresh, b: TripwireRefresh)
  {
    a.signatureTime == b.signatureTime && a.signatureCount == b.signatureCount
  }

  /** RefreshEq is an equivalence relation that ignores the wormhole lists. */
  lemma RefreshEqEquivalence(a: TripwireRefresh, b: TripwireRefresh, c: TripwireRefresh, ws: seq<TripwireWormhole>)
    ensures RefreshEq(a, a)
    ensures RefreshEq(a, b) ==> RefreshEq(b, a)
    ensures RefreshEq(a, b) && RefreshEq(b, c) ==> RefreshEq(a, c)
    ensures RefreshEq(a, a.(wormholes := ws))
    ensures RefreshEq(a, b) <==> a.signatureCount == b.signatureCount && a.signatureTime == b.signatureTime
  {
  }

  /** The marker sent with a request: the previous refresh's, or zero and the earliest time on the first call. */
  function RequestMarker(previous: Option<TripwireRefresh>): (m: (nat, int))
    ensures previous.Some? ==> m == (previous.value.signatureCount, previous.value.signatureTime)
    ensures previous.None? ==> m == (0, MinTime)
  {
    match previous
    case Some(p) => (p.signatureCount, p.signatureTime)
    case None => (0, MinTime)
  }

  /** The modification time of one signature entry, when it is a string the parser accepts. */
  function ModifiedTime(entry: Json, parseTime: string -> Option<int>): Option<int>
  {
    match AsStr(Get(entry, "modifiedTime"))
    case Some(t) => parseTime(t)
    case None => None
  }

  /** ModifiedTime as a function of one `(id, entry)` pair. */
  function EntryTime(parseTime: string -> Option<int>): ((string, Json)) -> Option<int>
  {
    (entry: (string, Json)) => ModifiedTime(entry.1, parseTime)
  }

  /** The latest parseable modification time among the signature entries, if there is one. */
  function LatestModified(signatures: seq<(string, Json)>, parseTime: string -> Option<int>): Option<int>
  {
    MaxDefined(signatures, EntryTime(parseTime))
  }

  /** Classification of one record of `json["wormholes"]`, in the order the source makes its checks. */
  function ClassifyRecord(json: Json, wormholeId: string, wormhole: Json, now: int, parseTime: string -> Option<int>): (v: Verdict<TripwireWormhole>)
    ensures AsStr(Get(wormhole, "initialID")).None? ==> v == Fail("Tripwire initialID missing from wormhole " + wormholeId)
    ensures (AsStr(Get(wormhole, "initialID")).Some? && AsStr(Get(wormhole, "secondaryID")).None?) ==>
      v == Fail("Tripwire secondaryID missing from wormhole " + wormholeId)
    ensures (AsStr(Get(wormhole, "initialID")).Some? && AsStr(Get(wormhole, "secondaryID")).Some? &&
             SystemIdOf(SignatureField(json, AsStr(Get(wormhole, "initialID")).value, "systemID")).None?) ==>
      v == Skip
  {
    match AsStr(Get(wormhole, "initialID"))
    case None => Fail("Tripwire initialID missing from wormhole " + wormholeId)
    case Some(initialId) =>
      match AsStr(Get(wormhole, "secondaryID"))
      case None => Fail("Tripwire secondaryID missing from wormhole " + wormholeId)
      case Some(secondaryId) =>
        match SystemIdOf(SignatureField(json, initialId, "systemID"))
        case None => Skip
        case Some(fromSystem) =>
          var toSystem := SystemOrClassFrom(SystemIdOf(SignatureField(json, secondaryId, "systemID")));
          var fromSignature := NormaliseSignature(SignatureField(json, initialId, "signatureID"));
          var toSignature := NormaliseSignature(SignatureField(json, secondaryId, "signatureID"));
          match AsStr(SignatureField(json, initialId, "lifeTime"))
          case None => Fail("Tripwire wormhole lifeTime missing from " + wormholeId)
          case Some(lifetimeStr) =>
            ClassifyStatus(wormholeId, wormhole, fromSystem, toSystem, fromSignature, toSignature, parseTime(lifetimeStr), now)
  }

  /** A kept record carries the normalised fields of its two signature entries and of itself. */
  lemma KeptRecord(json: Json, wormholeId: string, wormhole: Json, now: int, parseTime: string -> Option<int>)
    requires ClassifyRecord(json, wormholeId, wormhole, now, parseTime).Keep?
    ensures AsStr(Get(wormhole, "initialID")).Some? && AsStr(Get(wormhole, "secondaryID")).Some?
    ensures
      var initialId := AsStr(Get(wormhole, "initialID")).value;
      var w := ClassifyRecord(json, wormholeId, wormhole, now, parseTime).item;
      && Linked(json, initialId, AsStr(Get(wormhole, "secondaryID")).value, w)
      && SignatureField(json, initialId, "lifeTime").Str?
      && Classified(wormhole, now, parseTime(SignatureField(json, initialId, "lifeTime").s), w)
  {
    var initialId := AsStr(Get(wormhole, "initialID")).value;
    var secondaryId := AsStr(Get(wormhole, "secondaryID")).value;
    var lifetimeStr := AsStr(SignatureField(json, initialId, "lifeTime")).value;
    var fromSystem := SystemIdOf(SignatureField(json, initialId, "systemID")).value;
    var toSystem := SystemOrClassFrom(SystemIdOf(SignatureField(json, secondaryId, "systemID")));
    var fromSignature := NormaliseSignature(SignatureField(json, initialId, "signatureID"));
    var toSignature := NormaliseSignature(SignatureField(json, secondaryId, "signatureID"));
    assert ClassifyRecord(json, wormholeId, wormhole, now, parseTime)
      == ClassifyStatus(wormholeId, wormhole, fromSystem, toSystem, fromSignature, toSignature, parseTime(lifetimeStr), now);
  }

  /** The fields that come from the two signature entries a record links. */
  predicate Linked(json: Json, initialId: string, secondaryId: string, w: TripwireWormhole)
  {
    && Some(w.fromSystem) == SystemIdOf(SignatureField(json, initialId, "systemID"))
    && w.toSystem == SystemOrClassFrom(SystemIdOf(SignatureField(json, secondaryId, "systemID")))
    && w.fromSignature == NormaliseSignature(SignatureField(json, initialId, "signatureID"))
    && w.toSignature == NormaliseSignature(SignatureField(json, secondaryId, "signatureID"))
  }

  /** The fields that come from the record itself and its age, and the drop rules it passed. */
  predicate Classified(wormhole: Json, now: int, lifetime: Option<int>, w: TripwireWormhole)
  {
    && lifetime == Some(w.lifetime)
    && w.wormholeType == NormaliseType(Get(wormhole, "type"))
    && LifeOf(AsStr(Get(wormhole, "life")), now - w.lifetime) == Ok(w.life)
    && MassOf(AsStr(Get(wormhole, "mass"))) == Ok(w.mass)
    && Retained(now - w.lifetime, w.fromSignature, w.toSignature, w.wormholeType)
  }

  /**
   * The checks that follow the lifetime lookup: its format, then life and mass
   * (failing the refresh on an unknown status even for a record that is too
   * old), then the drop rules.
   */
  function ClassifyStatus(wormholeId: string, wormhole: Json, fromSystem: u32, toSystem: SystemOrClass,
                          fromSignature: Option<string>, toSignature: Option<string>, lifetime: Option<int>, now: int): (v: Verdict<TripwireWormhole>)
    ensures lifetime.None? ==> v == Fail("Tripwire wormhole lifeTime wrong datetime format for " + wormholeId)
    ensures (lifetime.Some? && LifeOf(AsStr(Get(wormhole, "life")), now - lifetime.value).Err?) ==> v.Fail?
    ensures (lifetime.Some? && MassOf(AsStr(Get(wormhole, "mass"))).Err?) ==> v.Fail?
    ensures v.Fail? <==>
      lifetime.None? || LifeOf(AsStr(Get(wormhole, "life")), now - lifetime.value).Err? || MassOf(AsStr(Get(wormhole, "mass"))).Err?
    ensures (lifetime.Some? && LifeOf(AsStr(Get(wormhole, "life")), now - lifetime.value).Ok? && MassOf(AsStr(Get(wormhole, "mass"))).Ok?) ==>
      (v.Keep? <==> Retained(now - lifetime.value, fromSignature, toSignature, NormaliseType(Get(wormhole, "type"))))
    ensures v.Keep? ==>
      && v.item.fromSystem == fromSystem && v.item.toSystem == toSystem
      && v.item.fromSignature == fromSignature && v.item.toSignature == toSignature
      && Classified(wormhole, now, lifetime, v.item)
  {
    var wormholeType := NormaliseType(Get(wormhole, "type"));
    match lifetime
    case None => Fail("Tripwire wormhole lifeTime wrong datetime format for " + wormholeId)
    case Some(lifetime) =>
      var age := now - lifetime;
      match LifeOf(AsStr(Get(wormhole, "life")), age)
      case Err(Unrecognised) => Fail("Tripwire wormhole life is not stable or critical for " + wormholeId)
      case Err(Absent) => Fail("Tripwire wormhole life missing from " + wormholeId)
      case Ok(life) =>
        match MassOf(AsStr(Get(wormhole, "mass")))
        case Err(Unrecognised) => Fail("Tripwire wormhole mass is not stable, destab or critical for " + wormholeId)
        case Err(Absent) => Fail("Tripwire wormhole mass is missing from " + wormholeId)
        case Ok(mass) =>
          if !Retained(age, fromSignature, toSignature, wormholeType) then Skip
          else Keep(TripwireWormhole(fromSystem, toSystem, fromSignature, toSignature, wormholeType, lifetime, life, mass))
  }

  /**
   * The expiry rule keeps a record that is exactly 24 hours old and drops
   * one a nanosecond older.
   */
  lemma DayOldKept(now: int)
    ensures var w := Object([("life", Str("critical")), ("mass", Str("stable"))]);
      ClassifyStatus("1", w, 31000001, Unknown, Some("ABC"), None, Some(now - ExpiryAge), now).Keep?
    ensures var w := Object([("life", Str("critical")), ("mass", Str("stable"))]);
      ClassifyStatus("1", w, 31000001, Unknown, Some("ABC"), None, Some(now - ExpiryAge - 1), now).Skip?
  {
  }

  /** The records in order: the kept wormholes, or the message of the first record that fails. */
  function Normalise(json: Json, records: seq<(string, Json)>, now: int, parseTime: string -> Option<int>): Result<seq<TripwireWormhole>, string>
  {
    Collect(records, Classifier(json, now, parseTime))
  }

  /** `ClassifyRecord` as a function of one `(id, record)` entry. */
  function Classifier(json: Json, now: int, parseTime: string -> Option<int>): ((string, Json)) -> Verdict<TripwireWormhole>
  {
    (record: (string, Json)) => ClassifyRecord(json, record.0, record.1, now, parseTime)
  }

  /** The whole refresh as a function of the previous result and the reply. */
  function Refresh(previous: Option<TripwireRefresh>, json: Json, now: int, parseTime: string -> Option<int>): Result<TripwireRefresh, string>
  {
    match AsObject(Get(json, "signatures"))
    case None =>
      (match previous
       case None => Err("Tripwire signatures not present in initial refresh")
       case Some(p) => Ok(TripwireRefresh([], p.signatureCount, p.signatureTime)))
    case Some(signatures) =>
      var signatureTime := LatestModified(signatures, parseTime).GetOr(MinTime);
      var signatureCount := |signatures|;
      match AsObject(Get(json, "wormholes"))
      case None => Err("Tripwire wormholes not present")
      case Some(wormholes) =>
        match Normalise(json, wormholes, now, parseTime)
        case Err(e) => Err(e)
        case Ok(data) => Ok(TripwireRefresh(data, signatureCount, signatureTime))
  }

  /**
   * Every wormhole a successful refresh returns is at most 24 hours old, has a
   * signature on at least one side, is not a gate, and is end-of-life once it
   * is 20 hours old, whatever its reported status.
   */
  lemma RefreshOutput(previous: Option<TripwireRefresh>, json: Json, now: int, parseTime: string -> Option<int>)
    requires Refresh(previous, json, now, parseTime).Ok?
    ensures forall w :: w in Refresh(previous, json, now, parseTime).value.wormholes ==>
      && now - w.lifetime <= ExpiryAge
      && (w.fromSignature.Some? || w.toSignature.Some?)
      && w.wormholeType != Some("GATE") && w.fromSignature != Some("GAT") && w.toSignature != Some("GAT")
      && (now - w.lifetime >= EolAge ==> w.life == EOL)
  {
    var r := Refresh(previous, json, now, parseTime).value;
    if AsObject(Get(json, "signatures")).Some? {
      var wormholes := AsObject(Get(json, "wormholes")).value;
      CollectKept(wormholes, Classifier(json, now, parseTime));
      forall w | w in r.wormholes
        ensures now - w.lifetime <= ExpiryAge && (w.fromSignature.Some? || w.toSignature.Some?)
        ensures w.wormholeType != Some("GATE") && w.fromSignature != Some("GAT") && w.toSignature != Some("GAT")
        ensures now - w.lifetime >= EolAge ==> w.life == EOL
      {
        var k :| 0 <= k < |r.wormholes| && r.wormholes[k] == w;
        var i :| 0 <= i < |wormholes| && ClassifyRecord(json, wormholes[i].0, wormholes[i].1, now, parseTime) == Keep(w);
        KeptFacts(json, wormholes[i].0, wormholes[i].1, now, parseTime);
      }
    }
  }

  /** The drop rules and the end-of-life rule, as facts about one kept record. */
  lemma KeptFacts(json: Json, wormholeId: string, wormhole: Json, now: int, parseTime: string -> Option<int>)
    requires ClassifyRecord(json, wormholeId, wormhole, now, parseTime).Keep?
    ensures var w := ClassifyRecord(json, wormholeId, wormhole, now, parseTime).item;
      && now - w.lifetime <= ExpiryAge
      && (w.fromSignature.Some? || w.toSignature.Some?)
      && w.wormholeType != Some("GATE") && w.fromSignature != Some("GAT") && w.toSignature != Some("GAT")
      && (now - w.lifetime >= EolAge ==> w.life == EOL)
  {
    KeptRecord(json, wormholeId, wormhole, now, parseTime);
  }

  /**
   * A reply without a `signatures` object means "no changes": with a previous
   * result it gives no wormholes and the previous marker (so it compares equal
   * to the previous result); on the first call it is an error.
   */
  lemma NoChangeReply(previous: Option<TripwireRefresh>, json: Json, now: int, parseTime: string -> Option<int>)
    requires !Get(json, "signatures").Object?
    ensures previous.None? ==> Refresh(previous, json, now, parseTime) == Err("Tripwire signatures not present in initial refresh")
    ensures previous.Some? ==>
      && Refresh(previous, json, now, parseTime).Ok?
      && Refresh(previous, json, now, parseTime).value.wormholes == []
      && RefreshEq(Refresh(previous, json, now, parseTime).value, previous.value)
  {
  }

  /**
   * With a `signatures` object, the new marker counts its entries and carries
   * the latest parseable modification time, or the earliest time when none parses.
   */
  lemma RefreshMarker(previous: Option<TripwireRefresh>, json: Json, now: int, parseTime: string -> Option<int>)
    requires Get(json, "signatures").Object?
    requires Refresh(previous, json, now, parseTime).Ok?
    ensures var signatures := Get(json, "signatures").members;
      var r := Refresh(previous, json, now, parseTime).value;
      && r.signatureCount == |signatures|
      && (forall i :: 0 <= i < |signatures| && ModifiedTime(signatures[i].1, parseTime).Some? ==>
            ModifiedTime(signatures[i].1, parseTime).value <= r.signatureTime)
      && ((exists i :: 0 <= i < |signatures| && ModifiedTime(signatures[i].1, parseTime) == Some(r.signatureTime))
          || (r.signatureTime == MinTime && forall i :: 0 <= i < |signatures| ==> ModifiedTime(signatures[i].1, parseTime).None?))
  {
    MaxDefinedSpec(Get(json, "signatures").members, EntryTime(parseTime));
  }

  /**
   * `get_tripwire`: the loop over the wormhole records pushes each kept record
   * and returns at the first failing one.
   */
  method GetTripwire(previous: Option<TripwireRefresh>, json: Json, now: int, parseTime: string -> Option<int>)
    returns (r: Result<TripwireRefresh, string>)
    ensures r == Refresh(previous, json, now, parseTime)
  {
    var signatures: seq<(string, Json)>;
    match AsObject(Get(json, "signatures")) {
      case None =>
        if previous.None? {
          return Err("Tripwire signatures not present in initial refresh");
        }
        return Ok(TripwireRefresh([], previous.value.signatureCount, previous.value.signatureTime));
      case Some(s) =>
        signatures := s;
    }
    var signatureTime := LatestModified(signatures, parseTime).GetOr(MinTime);
    var signatureCount := |signatures|;
    var wormholes: seq<(string, Json)>;
    match AsObject(Get(json, "wormholes")) {
      case None =>
        return Err("Tripwire wormholes not present");
      case Some(w) =>
        wormholes := w;
    }
    var data := NormaliseWormholes(json, wormholes, now, parseTime);
    match data {
      case Err(e) =>
        return Err(e);
      case Ok(d) =>
        r := Ok(TripwireRefresh(d, signatureCount, signatureTime));
    }
  }

  /** The loop over `json["wormholes"]`: push each kept record, leave on the first failing one. */
  method NormaliseWormholes(json: Json, wormholes: seq<(string, Json)>, now: int, parseTime: string -> Option<int>)
    returns (r: Result<seq<TripwireWormhole>, string>)
    ensures r == Normalise(json, wormholes, now, parseTime)
  {
    var data: seq<TripwireWormhole> := [];
    var i := 0;
    while i < |wormholes|
      invariant 0 <= i <= |wormholes|
      invariant Normalise(json, wormholes[..i], now, parseTime) == Ok(data)
    {
      var (wormholeId, wormhole) := wormholes[i];
      var verdict := ClassifyRecord(json, wormholeId, wormhole, now, parseTime);
      assert verdict == Classifier(json, now, parseTime)(wormholes[i]);
      CollectStep(wormholes, Classifier(json, now, parseTime), i, data);
      match verdict {
        case Fail(e) =>
          CollectFailurePersists(wormholes, Classifier(json, now, parseTime), i + 1);
          return Err(e);
        case Skip =>
        case Keep(w) =>
          data := data + [w];
      }
      i := i + 1;
    }
    assert wormholes[..i] == wormholes;
    r := Ok(data);
  }
}
