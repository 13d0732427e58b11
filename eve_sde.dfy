/** The static-topology record shared by the extractor and the planner (tools/eve_sde/src/lib.rs). */
module EveSde {
  import opened Wrappers
  import opened Ints

  /** Space classes, each with the byte the data file stores for it. */
  datatype Class =
    | C1 | C2 | C3 | C4 | C5 | C6
    | Highsec | Lowsec | Nullsec
    | Thera | C13
    | DrifterSentinel | DrifterBarbican | DrifterVidette | DrifterConflux | DrifterRedoubt
    | Pochven | Zarzakh

  /** `class as u8`: the enum's discriminant. */
  function ClassCode(c: Class): (b: u8)
    ensures b in ClassCodes
  {
    match c
    case C1 => 1
    case C2 => 2
    case C3 => 3
    case C4 => 4
    case C5 => 5
    case C6 => 6
    case Highsec => 7
    case Lowsec => 8
    case Nullsec => 9
    case Thera => 12
    case C13 => 13
    case DrifterSentinel => 14
    case DrifterBarbican => 15
    case DrifterVidette => 16
    case DrifterConflux => 17
    case DrifterRedoubt => 18
    case Pochven => 25
    case Zarzakh => 50
  }

  /** The bytes that name a class. */
  const ClassCodes: set<u8> := {1, 2, 3, 4, 5, 6, 7, 8, 9, 12, 13, 14, 15, 16, 17, 18, 25, 50}

  /** `Class::try_from(u8)`, derived by `TryFromPrimitive`: defined exactly on the discriminants. */
  function ClassTryFrom(b: u8): (r: Option<Class>)
    ensures r.Some? <==> b in ClassCodes
    ensures r.Some? ==> ClassCode(r.value) == b
  {
    match b
    case 1 => Some(C1)
    case 2 => Some(C2)
    case 3 => Some(C3)
    case 4 => Some(C4)
    case 5 => Some(C5)
    case 6 => Some(C6)
    case 7 => Some(Highsec)
    case 8 => Some(Lowsec)
    case 9 => Some(Nullsec)
    case 12 => Some(Thera)
    case 13 => Some(C13)
    case 14 => Some(DrifterSentinel)
    case 15 => Some(DrifterBarbican)
    case 16 => Some(DrifterVidette)
    case 17 => Some(DrifterConflux)
    case 18 => Some(DrifterRedoubt)
    case 25 => Some(Pochven)
    case 50 => Some(Zarzakh)
    case _ => None
  }

  /** Converting a class to its byte and back gives the class. */
  lemma ClassRoundTrip(c: Class)
    ensures ClassTryFrom(ClassCode(c)) == Some(c)
  {
  }

  /** No two classes share a byte. */
  lemma ClassCodesDistinct(c1: Class, c2: Class)
    ensures ClassCode(c1) == ClassCode(c2) ==> c1 == c2
  {
    ClassRoundTrip(c1);
    ClassRoundTrip(c2);
  }

  /**
   * One solar system (the source calls `spaceClass` just `class`). `security` is ten times the true-security value, rounded;
   * each gate link is listed in `neighbours` of one of its two systems only.
   */
  datatype System = System(id: u32, name: string, security: i8, spaceClass: Class, neighbours: seq<u32>)

  /** The serialised form (`Serialize_tuple`, `Serialize_repr`): the fields in order, the class as its byte. */
  function ToTuple(s: System): (u32, string, i8, u8, seq<u32>)
  {
    (s.id, s.name, s.security, ClassCode(s.spaceClass), s.neighbours)
  }

  /** Deserialisation of the tuple form; it fails on a byte that names no class. */
  function FromTuple(t: (u32, string, i8, u8, seq<u32>)): (r: Option<System>)
    ensures r.Some? <==> t.3 in ClassCodes
  {
    match ClassTryFrom(t.3)
    case Some(c) => Some(System(t.0, t.1, t.2, c, t.4))
    case None => None
  }

  /** Serialising and deserialising a system gives it back, and a tuple that deserialises serialises back to itself. */
  lemma TupleRoundTrip(s: System, t: (u32, string, i8, u8, seq<u32>))
    ensures FromTuple(ToTuple(s)) == Some(s)
    ensures FromTuple(t).Some? ==> ToTuple(FromTuple(t).value) == t
  {
    ClassRoundTrip(s.spaceClass);
  }

  /** No link is listed on both of its sides: if `b` lists `a`, `a` does not list `b`. */
  ghost predicate NeighboursOneSided(systems: seq<System>)
  {
    forall i, j :: 0 <= i < |systems| && 0 <= j < |systems| && systems[j].id in systems[i].neighbours
      ==> systems[i].id !in systems[j].neighbours
  }
}
