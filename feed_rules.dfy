/**
 * The record-classification rules that both revisions of the wormhole-feed
 * reader apply in the same way (src/tripwire.rs:136-173 and
 * src/data_dynamic.rs:100-137): life from status and age, mass from status,
 * signature and type normalisation, and the drop rules. The revisions differ
 * only in their error messages, which each reader adds itself.
 *
 * Times are integers counting nanoseconds; an age is `now` minus the
 * signature's recorded creation time.
 */
module FeedRules {
  import opened Wrappers
  import opened Ints
  import opened Json
  import Text

  datatype WormholeLife = Stable | EOL

  datatype WormholeMass = Stable | Destab | VOC

  const NanosPerHour: int := 3_600_000_000_000

  /** A wormhole reported stable turns end-of-life at this age (20 hours). */
  const EolAge: int := 20 * NanosPerHour

  /** A wormhole older than this (24 hours) is assumed gone. */
  const ExpiryAge: int := 24 * NanosPerHour

  /** Why a status field was refused: a value other than the known ones, or no string at all. */
  datatype StatusError = Unrecognised | Absent

  /** `match wormhole["life"].as_str()`: "stable" is end-of-life from 20 hours on, "critical" always. */
  function LifeOf(status: Option<string>, age: int): (r: Result<WormholeLife, StatusError>)
    ensures r.Ok? <==> status == Some("stable") || status == Some("critical")
    ensures r == Ok(EOL) <==> status == Some("critical") || (status == Some("stable") && age >= EolAge)
    ensures r == Ok(WormholeLife.Stable) <==> status == Some("stable") && age < EolAge
    ensures r == Err(Absent) <==> status.None?
  {
    match status
    case Some("stable") => if age < EolAge then Ok(WormholeLife.Stable) else Ok(EOL)
    case Some("critical") => Ok(EOL)
    case Some(_) => Err(Unrecognised)
    case None => Err(Absent)
  }

  /** `match wormhole["mass"].as_str()`: a direct three-way mapping. */
  function MassOf(status: Option<string>): (r: Result<WormholeMass, StatusError>)
    ensures r == Ok(WormholeMass.Stable) <==> status == Some("stable")
    ensures r == Ok(Destab) <==> status == Some("destab")
    ensures r == Ok(VOC) <==> status == Some("critical")
    ensures r == Err(Absent) <==> status.None?
  {
    match status
    case Some("stable") => Ok(WormholeMass.Stable)
    case Some("destab") => Ok(Destab)
    case Some("critical") => Ok(VOC)
    case Some(_) => Err(Unrecognised)
    case None => Err(Absent)
  }

  /** A signature field: "???" (unscanned) and a non-string mean no signature; others are upper-cased. */
  function NormaliseSignature(field: Json): (r: Option<string>)
    ensures r.None? <==> !field.Str? || field.s == "???"
    ensures r.Some? ==> r.value == Text.Upper(field.s)
  {
    match AsStr(field)
    case Some("???") => None
    case Some(v) => Some(Text.Upper(v))
    case None => None
  }

  /** The type field: "????" (unknown), the empty string and a non-string mean no type; others are kept as given. */
  function NormaliseType(field: Json): (r: Option<string>)
    ensures r.None? <==> !field.Str? || field.s == "????" || field.s == ""
    ensures r.Some? ==> r.value == field.s
  {
    match AsStr(field)
    case Some("????") => None
    case Some("") => None
    case Some(v) => Some(v)
    case None => None
  }

  /**
   * The checks after classification: a record older than 24 hours is gone, one
   * with no signature on either side is an artifact, and a gate (type "GATE" or a
   * side labelled "GAT") is already in the static map.
   */
  predicate Retained(age: int, fromSignature: Option<string>, toSignature: Option<string>, wormholeType: Option<string>)
  {
    && !(age > ExpiryAge)
    && !(fromSignature.None? && toSignature.None?)
    && !(wormholeType == Some("GATE") || fromSignature == Some("GAT") || toSignature == Some("GAT"))
  }

  /** The signature named "gat" in any letter case is a gate after normalisation. */
  lemma GateSignatureAnyCase(field: Json)
    requires field.Str? && |field.s| == 3 && Text.LowerChar(field.s[0]) == 'g'
    requires Text.LowerChar(field.s[1]) == 'a' && Text.LowerChar(field.s[2]) == 't'
    ensures NormaliseSignature(field) == Some("GAT")
  {
    var u := Text.Upper(field.s);
    assert u[0] == 'G' && u[1] == 'A' && u[2] == 'T';
    assert u == "GAT";
  }

  /** An entry of the `signatures` object: `json["signatures"][id][field]`. */
  function SignatureField(json: Json, id: string, field: string): Json
  {
    Get(Get(Get(json, "signatures"), id), field)
  }

  /** A system id field: a decimal string that fits `u32`. */
  function SystemIdOf(field: Json): (r: Option<u32>)
    ensures r.Some? ==> field.Str? && Text.IsUnsignedLiteral(field.s)
    ensures field.Str? && !Text.IsUnsignedLiteral(field.s) ==> r.None?
  {
    match AsStr(field)
    case Some(v) =>
      (match Text.ParseUnsigned(v, U32_LIMIT)
       case Some(n) => Some(n)
       case None => None)
    case None => None
  }

  /** The decimal rendering of any `u32` id reads back as that id. */
  lemma SystemIdOfDecimal(n: u32)
    ensures SystemIdOf(Str(Text.Decimal(n))) == Some(n)
  {
    Text.ParseDecimal(n, U32_LIMIT);
  }
}
