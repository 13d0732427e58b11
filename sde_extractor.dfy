/**
 * The static-data extractor (tools/eve_sde_cli): choosing the region,
 * constellation and solar-system files of the archive, resolving a system's
 * class through its constellation and region, and pairing the two ends of
 * every stargate link into a one-sided neighbour list.
 */
module SdeExtractor {
  import opened Wrappers
  import opened Ints
  import opened Seqs
  import opened EveSde

  // ---------------------------------------------------------------------
  // Archive layout
  // ---------------------------------------------------------------------

  /** A path in the archive, as its components. */
  type Path = seq<string>

  /** `Path::starts_with`: `base` is a leading run of whole components of `p`. */
  predicate PathStartsWith(p: Path, base: Path)
  {
    |base| <= |p| && p[..|base|] == base
  }

  /** `Path::file_name`, for a path that has one. */
  function FileName(p: Path): string
    requires |p| > 0
  {
    p[|p| - 1]
  }

  /** `Path::parent`. */
  function Parent(p: Path): Path
    requires |p| > 0
  {
    p[..|p| - 1]
  }

  /** The abyssal and void universes and the three development regions. */
  predicate ExcludedRegion(p: Path)
  {
    || PathStartsWith(p, ["sde", "fsd", "universe", "abyssal"])
    || PathStartsWith(p, ["sde", "fsd", "universe", "void"])
    || PathStartsWith(p, ["sde", "fsd", "universe", "eve", "UUA-F4"])
    || PathStartsWith(p, ["sde", "fsd", "universe", "eve", "A821-A"])
    || PathStartsWith(p, ["sde", "fsd", "universe", "eve", "J7HZ-F"])
  }

  /** An archive entry: its index and its path. */
  type Entry = (nat, Path)

  /** The region filter: a `region.staticdata` file outside the excluded trees gives its index and directory. */
  function RegionRoot(e: Entry): Option<(nat, Path)>
  {
    if ExcludedRegion(e.1) then None
    else if |e.1| > 0 && FileName(e.1) == "region.staticdata" then Some((e.0, Parent(e.1)))
    else None
  }

  /** The constellation filter within the region directory `region`. */
  function ConstellationRoot(region: Path): Entry -> Option<(nat, Path)>
  {
    (e: Entry) =>
      if !PathStartsWith(e.1, region) then None
      else if |e.1| > 0 && FileName(e.1) == "constellation.staticdata" then Some((e.0, Parent(e.1)))
      else None
  }

  /** The solar-system filter within the constellation directory `constellation`. */
  function SystemFile(constellation: Path): Entry -> Option<nat>
  {
    (e: Entry) =>
      if !PathStartsWith(e.1, constellation) then None
      else if |e.1| > 0 && FileName(e.1) == "solarsystem.staticdata" then Some(e.0)
      else None
  }

  function RegionFilter(): Entry -> Option<(nat, Path)>
  {
    (e: Entry) => RegionRoot(e)
  }

  function Regions(files: seq<Entry>): seq<(nat, Path)>
  {
    FilterMap(files, RegionFilter())
  }

  function ConstellationsIn(files: seq<Entry>, region: Path): seq<(nat, Path)>
  {
    FilterMap(files, ConstellationRoot(region))
  }

  function SystemsIn(files: seq<Entry>, constellation: Path): seq<nat>
  {
    FilterMap(files, SystemFile(constellation))
  }

  /** A constellation file's index with the indices of its system files. */
  type ConstellationLayout = (nat, seq<nat>)

  function ConstellationLayouts(files: seq<Entry>, region: Path): seq<ConstellationLayout>
  {
    var cs := ConstellationsIn(files, region);
    seq(|cs|, j requires 0 <= j < |cs| => (cs[j].0, SystemsIn(files, cs[j].1)))
  }

  /** The nested index lists the extractor walks: regions, their constellations, their systems. */
  function Layout(files: seq<Entry>): seq<(nat, seq<ConstellationLayout>)>
  {
    var rs := Regions(files);
    seq(|rs|, i requires 0 <= i < |rs| => (rs[i].0, ConstellationLayouts(files, rs[i].1)))
  }

  /** A region root file: a `region.staticdata` outside the excluded trees. */
  predicate IsRegionFile(p: Path)
  {
    !ExcludedRegion(p) && |p| > 0 && FileName(p) == "region.staticdata"
  }

  /** A constellation root file under the region directory `region`. */
  predicate IsConstellationFile(region: Path, p: Path)
  {
    PathStartsWith(p, region) && |p| > 0 && FileName(p) == "constellation.staticdata"
  }

  /** A solar-system file under the constellation directory `constellation`. */
  predicate IsSystemFile(constellation: Path, p: Path)
  {
    PathStartsWith(p, constellation) && |p| > 0 && FileName(p) == "solarsystem.staticdata"
  }

  /**
   * The regions are exactly the `region.staticdata` files outside the
   * abyssal, void and development trees, each with its directory.
   */
  lemma RegionsSpec(files: seq<Entry>)
    ensures forall k :: 0 <= k < |files| && IsRegionFile(files[k].1) ==> (files[k].0, Parent(files[k].1)) in Regions(files)
    ensures forall r :: r in Regions(files) ==>
      exists k :: 0 <= k < |files| && IsRegionFile(files[k].1) && r == (files[k].0, Parent(files[k].1))
  {
    var f := RegionFilter();
    forall k | 0 <= k < |files| && IsRegionFile(files[k].1)
      ensures (files[k].0, Parent(files[k].1)) in Regions(files)
    {
      assert f(files[k]) == Some((files[k].0, Parent(files[k].1)));
      FilterMapHas(files, f, k);
    }
    forall r | r in Regions(files)
      ensures exists k :: 0 <= k < |files| && IsRegionFile(files[k].1) && r == (files[k].0, Parent(files[k].1))
    {
      FilterMapOrigin(files, f, r);
      var k :| 0 <= k < |files| && f(files[k]) == Some(r);
      assert IsRegionFile(files[k].1);
    }
  }

  /** A region's constellations are exactly the `constellation.staticdata` files under its directory. */
  lemma ConstellationsSpec(files: seq<Entry>, region: Path)
    ensures forall k :: 0 <= k < |files| && IsConstellationFile(region, files[k].1) ==>
      (files[k].0, Parent(files[k].1)) in ConstellationsIn(files, region)
    ensures forall c :: c in ConstellationsIn(files, region) ==>
      exists k :: 0 <= k < |files| && IsConstellationFile(region, files[k].1) && c == (files[k].0, Parent(files[k].1))
  {
    var f := ConstellationRoot(region);
    FilterMapSpec(files, f);
    forall k | 0 <= k < |files| && IsConstellationFile(region, files[k].1)
      ensures (files[k].0, Parent(files[k].1)) in ConstellationsIn(files, region)
    {
      assert f(files[k]) == Some((files[k].0, Parent(files[k].1)));
    }
    forall c | c in ConstellationsIn(files, region)
      ensures exists k :: 0 <= k < |files| && IsConstellationFile(region, files[k].1) && c == (files[k].0, Parent(files[k].1))
    {
      var k :| 0 <= k < |files| && f(files[k]) == Some(c);
      assert IsConstellationFile(region, files[k].1);
    }
  }

  /** A constellation's systems are exactly the `solarsystem.staticdata` files under its directory. */
  lemma SystemsSpec(files: seq<Entry>, constellation: Path)
    ensures forall k :: 0 <= k < |files| && IsSystemFile(constellation, files[k].1) ==> files[k].0 in SystemsIn(files, constellation)
    ensures forall s :: s in SystemsIn(files, constellation) ==>
      exists k :: 0 <= k < |files| && IsSystemFile(constellation, files[k].1) && s == files[k].0
  {
    var f := SystemFile(constellation);
    FilterMapSpec(files, f);
    forall k | 0 <= k < |files| && IsSystemFile(constellation, files[k].1)
      ensures files[k].0 in SystemsIn(files, constellation)
    {
      assert f(files[k]) == Some(files[k].0);
    }
    forall s | s in SystemsIn(files, constellation)
      ensures exists k :: 0 <= k < |files| && IsSystemFile(constellation, files[k].1) && s == files[k].0
    {
      var k :| 0 <= k < |files| && f(files[k]) == Some(s);
      assert IsSystemFile(constellation, files[k].1);
    }
  }

  // ---------------------------------------------------------------------
  // Class resolution
  // ---------------------------------------------------------------------

  /** The byte `ResolveClass` converts: the first one present along the fallback chain. */
  predicate ResolvesTo(system: Option<u8>, constellation: Option<u8>, region: Option<u8>, name: string, b: u8)
  {
    || system == Some(b)
    || (system.None? && constellation == Some(b))
    || (system.None? && constellation.None? && region == Some(b))
    || (system.None? && constellation.None? && region.None? && name == "Zarzakh" && b == 50)
  }

  /**
   * The class byte of a system: its own, else its constellation's, else its
   * region's, else Zarzakh's for the system of that name; then the byte is
   * converted. Both `expect` panics are modelled as errors with their messages.
   */
  function ResolveClass(system: Option<u8>, constellation: Option<u8>, region: Option<u8>, name: string): (r: Result<Class, string>)
    ensures r.Ok? ==> ResolvesTo(system, constellation, region, name, ClassCode(r.value))
    ensures forall b :: ResolvesTo(system, constellation, region, name, b) ==>
      (r.Ok? <==> b in ClassCodes) && (b !in ClassCodes ==> r == Err("Unexpected class"))
    ensures r == Err("No class for system") <==> system.None? && constellation.None? && region.None? && name != "Zarzakh"
  {
    var raw :=
      if system.Some? then system
      else if constellation.Some? then constellation
      else if region.Some? then region
      else if name == "Zarzakh" then Some(ClassCode(Zarzakh))
      else None;
    match raw
    case None => Err("No class for system")
    case Some(b) =>
      match ClassTryFrom(b)
      case None => Err("Unexpected class")
      case Some(c) => Ok(c)
  }

  // ---------------------------------------------------------------------
  // Gate pairing
  // ---------------------------------------------------------------------

  /** A stargate of a system: its own id and the id of the gate it leads to. */
  datatype Stargate = Stargate(gate: u32, destination: u32)

  /** A stargate together with the system it belongs to. */
  datatype GateEnd = GateEnd(gate: u32, destination: u32, system: u32)

  /** One stargate against the map of gates still waiting for their partner. */
  function Step(pending: map<u32, u32>, t: GateEnd): map<u32, u32>
  {
    if t.destination in pending then pending - {t.destination} else pending[t.gate := t.system]
  }

  /** The neighbour one stargate contributes: the waiting system its destination gate belongs to, if any. */
  function Pushed(pending: map<u32, u32>, t: GateEnd): seq<u32>
  {
    if t.destination in pending then [pending[t.destination]] else []
  }

  /** The pending map after a run of stargates. */
  function Fold(pending: map<u32, u32>, ts: seq<GateEnd>): map<u32, u32>
  {
    if ts == [] then pending else Step(Fold(pending, ts[..|ts| - 1]), ts[|ts| - 1])
  }

  /** The neighbours a run of stargates contributes, in order. */
  function Found(pending: map<u32, u32>, ts: seq<GateEnd>): seq<u32>
  {
    if ts == [] then [] else Found(pending, ts[..|ts| - 1]) + Pushed(Fold(pending, ts[..|ts| - 1]), ts[|ts| - 1])
  }

  /** A system's stargates, tagged with the system's id. */
  function Ends(id: u32, stargates: seq<Stargate>): (r: seq<GateEnd>)
    ensures |r| == |stargates|
  {
    seq(|stargates|, i requires 0 <= i < |stargates| => GateEnd(stargates[i].gate, stargates[i].destination, id))
  }

  /** Folding over two runs is folding over the first, then over the second. */
  lemma {:induction false} FoldConcat(p: map<u32, u32>, a: seq<GateEnd>, b: seq<GateEnd>)
    ensures Fold(p, a + b) == Fold(Fold(p, a), b)
  {
    if b == [] {
      assert a + b == a;
    } else {
      var n := |b| - 1;
      assert (a + b)[..|a + b| - 1] == a + b[..n];
      FoldConcat(p, a, b[..n]);
    }
  }

  /**
   * The inner loop over one system's stargates: a stargate whose destination
   * gate is waiting yields that gate's system as a neighbour and removes the
   * entry; any other stargate starts waiting under its own gate id.
   */
  method LinkGates(pending: map<u32, u32>, id: u32, stargates: seq<Stargate>) returns (after: map<u32, u32>, neighbours: seq<u32>)
    ensures after == Fold(pending, Ends(id, stargates))
    ensures neighbours == Found(pending, Ends(id, stargates))
  {
    ghost var ends := Ends(id, stargates);
    after := pending;
    neighbours := [];
    for i := 0 to |stargates|
      invariant after == Fold(pending, ends[..i])
      invariant neighbours == Found(pending, ends[..i])
    {
      var stargate := stargates[i];
      assert ends[..i + 1][..i] == ends[..i];
      assert ends[..i + 1][i] == GateEnd(stargate.gate, stargate.destination, id);
      if stargate.destination in after {
        neighbours := neighbours + [after[stargate.destination]];
        after := after - {stargate.destination};
      } else {
        after := after[stargate.gate := id];
      }
    }
    assert ends[..|stargates|] == ends;
  }

  /**
   * Every gate id is used once, and every gate's destination is a gate that
   * leads back to it from another system: the shape of a complete stargate
   * network.
   */
  ghost predicate Paired(ts: seq<GateEnd>)
  {
    && (forall i, j :: 0 <= i < |ts| && 0 <= j < |ts| && i != j ==> ts[i].gate != ts[j].gate)
    && (forall i :: 0 <= i < |ts| ==> HasPartner(ts, i))
  }

  ghost predicate HasPartner(ts: seq<GateEnd>, i: nat)
    requires i < |ts|
  {
    exists j :: 0 <= j < |ts| && ts[j].gate == ts[i].destination && ts[j].destination == ts[i].gate && ts[j].system != ts[i].system
  }

  /** None of the first `n` stargates is the partner of stargate `i`. */
  predicate Unmatched(ts: seq<GateEnd>, n: nat, i: nat)
    requires n <= |ts| && i < |ts|
  {
    forall j :: 0 <= j < n ==> ts[j].gate != ts[i].destination
  }

  /** Gate `k` belongs to one of the first `n` stargates whose partner is not among them. */
  ghost predicate Waiting(ts: seq<GateEnd>, n: nat, k: u32)
    requires n <= |ts|
  {
    exists i :: 0 <= i < n && ts[i].gate == k && Unmatched(ts, n, i)
  }

  /**
   * After the first `n` stargates the pending map holds exactly the gates
   * whose partner has not been seen, each mapped to its own system.
   */
  ghost predicate PendingIs(ts: seq<GateEnd>, n: nat, p: map<u32, u32>)
    requires n <= |ts|
  {
    && (forall i :: 0 <= i < n && Unmatched(ts, n, i) ==> ts[i].gate in p && p[ts[i].gate] == ts[i].system)
    && (forall k :: k in p ==> Waiting(ts, n, k))
  }

  /**
   * Gate ids are used once, and a gate that a stargate leads to leads back
   * to it from another system. Gates whose partner is missing are allowed:
   * they are the ones the extractor reports.
   */
  ghost predicate Symmetric(ts: seq<GateEnd>)
  {
    && (forall i, j :: 0 <= i < |ts| && 0 <= j < |ts| && i != j ==> ts[i].gate != ts[j].gate)
    && (forall a, b :: 0 <= a < |ts| && 0 <= b < |ts| && ts[b].gate == ts[a].destination ==>
          ts[b].destination == ts[a].gate && ts[b].system != ts[a].system)
  }

  /** A complete network is symmetric. */
  lemma PairedSymmetric(ts: seq<GateEnd>)
    requires Paired(ts)
    ensures Symmetric(ts)
  {
    forall a, b | 0 <= a < |ts| && 0 <= b < |ts| && ts[b].gate == ts[a].destination
      ensures ts[b].destination == ts[a].gate && ts[b].system != ts[a].system
    {
      assert HasPartner(ts, a);
      var b' :| 0 <= b' < |ts| && ts[b'].gate == ts[a].destination && ts[b'].destination == ts[a].gate && ts[b'].system != ts[a].system;
      assert b' == b;
    }
  }

  /** A stargate whose partner is waiting takes it out of the map and yields its system. */
  lemma StepMatched(ts: seq<GateEnd>, n: nat, p: map<u32, u32>)
    requires Symmetric(ts) && n < |ts| && PendingIs(ts, n, p) && ts[n].destination in p
    ensures PendingIs(ts, n + 1, Step(p, ts[n]))
    ensures forall j :: 0 <= j < |ts| && ts[j].gate == ts[n].destination ==> j < n && Pushed(p, ts[n]) == [ts[j].system]
  {
    assert Waiting(ts, n, ts[n].destination);
    var i :| 0 <= i < n && ts[i].gate == ts[n].destination && Unmatched(ts, n, i);
    MatchedKeeps(ts, n, p, i);
    MatchedWaits(ts, n, p);
  }

  lemma MatchedKeeps(ts: seq<GateEnd>, n: nat, p: map<u32, u32>, i: nat)
    requires Symmetric(ts) && n < |ts| && PendingIs(ts, n, p)
    requires i < n && ts[i].gate == ts[n].destination && Unmatched(ts, n, i)
    ensures forall i' :: 0 <= i' < n + 1 && Unmatched(ts, n + 1, i') ==>
      ts[i'].gate in Step(p, ts[n]) && Step(p, ts[n])[ts[i'].gate] == ts[i'].system
    ensures forall j :: 0 <= j < |ts| && ts[j].gate == ts[n].destination ==> j < n && Pushed(p, ts[n]) == [ts[j].system]
  {
    assert ts[i].destination == ts[n].gate;
    forall i' | 0 <= i' < n + 1 && Unmatched(ts, n + 1, i')
      ensures ts[i'].gate in Step(p, ts[n]) && Step(p, ts[n])[ts[i'].gate] == ts[i'].system
    {
      assert ts[i].gate != ts[i'].destination;
      assert i' != n;
      assert Unmatched(ts, n, i');
      assert ts[n].gate != ts[i'].destination;
      assert i' != i;
    }
  }

  lemma MatchedWaits(ts: seq<GateEnd>, n: nat, p: map<u32, u32>)
    requires Symmetric(ts) && n < |ts| && PendingIs(ts, n, p) && ts[n].destination in p
    ensures forall k :: k in Step(p, ts[n]) ==> Waiting(ts, n + 1, k)
  {
    forall k | k in Step(p, ts[n])
      ensures Waiting(ts, n + 1, k)
    {
      assert k in p && k != ts[n].destination;
      var i :| 0 <= i < n && ts[i].gate == k && Unmatched(ts, n, i);
      assert ts[n].gate != ts[i].destination;
      assert Unmatched(ts, n + 1, i);
    }
  }

  /** A stargate whose partner is not waiting starts waiting itself and yields nothing. */
  lemma StepUnmatched(ts: seq<GateEnd>, n: nat, p: map<u32, u32>)
    requires Symmetric(ts) && n < |ts| && PendingIs(ts, n, p) && ts[n].destination !in p
    ensures PendingIs(ts, n + 1, Step(p, ts[n]))
    ensures forall j :: 0 <= j < |ts| && ts[j].gate == ts[n].destination ==> j > n && Pushed(p, ts[n]) == []
  {
    forall j | 0 <= j < |ts| && ts[j].gate == ts[n].destination
      ensures j > n
    {
      assert ts[j].destination == ts[n].gate;
      assert Unmatched(ts, n, j);
    }
    assert Unmatched(ts, n + 1, n);
    forall i' | 0 <= i' < n + 1 && Unmatched(ts, n + 1, i')
      ensures ts[i'].gate in Step(p, ts[n]) && Step(p, ts[n])[ts[i'].gate] == ts[i'].system
    {
      assert i' < n ==> Unmatched(ts, n, i');
    }
    forall k | k in Step(p, ts[n])
      ensures Waiting(ts, n + 1, k)
    {
      if k != ts[n].gate {
        var i :| 0 <= i < n && ts[i].gate == k && Unmatched(ts, n, i);
        assert ts[n].gate != ts[i].destination;
        assert Unmatched(ts, n + 1, i);
      }
    }
  }

  /** The invariant of the pairing loop holds after every prefix of a symmetric network. */
  lemma {:induction false} PendingAfter(ts: seq<GateEnd>, n: nat)
    requires Symmetric(ts) && n <= |ts|
    ensures PendingIs(ts, n, Fold(map[], ts[..n]))
  {
    if n > 0 {
      PendingAfter(ts, n - 1);
      assert ts[..n][..n - 1] == ts[..n - 1];
      var p := Fold(map[], ts[..n - 1]);
      assert Fold(map[], ts[..n]) == Step(p, ts[n - 1]);
      StepKeeps(ts, n - 1, p);
    }
  }

  /** One pairing step keeps the pending invariant, whether or not the stargate's partner is waiting. */
  lemma StepKeeps(ts: seq<GateEnd>, n: nat, p: map<u32, u32>)
    requires Symmetric(ts) && n < |ts| && PendingIs(ts, n, p)
    ensures PendingIs(ts, n + 1, Step(p, ts[n]))
  {
    if ts[n].destination in p {
      StepMatched(ts, n, p);
    } else {
      StepUnmatched(ts, n, p);
    }
  }

  /**
   * In a symmetric network the two gates of a link produce one neighbour entry:
   * the later gate's system lists the earlier gate's system, and the earlier
   * gate produces nothing.
   */
  lemma PairedPushes(ts: seq<GateEnd>, n: nat)
    requires Symmetric(ts) && n < |ts|
    ensures forall j :: 0 <= j < |ts| && ts[j].gate == ts[n].destination ==>
      Pushed(Fold(map[], ts[..n]), ts[n]) == if j < n then [ts[j].system] else []
  {
    PendingAfter(ts, n);
    var p := Fold(map[], ts[..n]);
    if ts[n].destination in p {
      StepMatched(ts, n, p);
    } else {
      StepUnmatched(ts, n, p);
    }
  }

  /**
   * After the whole run the pending map holds exactly the gates whose
   * partner never appeared, each mapped to its own system: the gates the
   * extractor reports.
   */
  lemma LeftoverExactly(ts: seq<GateEnd>)
    requires Symmetric(ts)
    ensures forall k :: k in Fold(map[], ts) <==> exists i :: 0 <= i < |ts| && ts[i].gate == k && Unmatched(ts, |ts|, i)
    ensures forall i :: 0 <= i < |ts| && Unmatched(ts, |ts|, i) ==> Fold(map[], ts)[ts[i].gate] == ts[i].system
  {
    PendingAfter(ts, |ts|);
    assert ts[..|ts|] == ts;
  }

  /** In a paired network no gate is left waiting at the end. */
  lemma PairedLeavesNothing(ts: seq<GateEnd>)
    requires Paired(ts)
    ensures Fold(map[], ts) == map[]
  {
    PairedSymmetric(ts);
    LeftoverExactly(ts);
    forall i | 0 <= i < |ts|
      ensures !Unmatched(ts, |ts|, i)
    {
      assert HasPartner(ts, i);
      var j :| 0 <= j < |ts| && ts[j].gate == ts[i].destination && ts[j].destination == ts[i].gate && ts[j].system != ts[i].system;
    }
    assert Fold(map[], ts).Keys == {};
  }

  // ---------------------------------------------------------------------
  // The extraction loop
  // ---------------------------------------------------------------------

  /**
   * One solar-system file with what the loop reads alongside it: its id, its
   * security already scaled and rounded, its stargates in iteration order,
   * and the class bytes of the system, its constellation and its region.
   */
  datatype SystemRecord = SystemRecord(
    id: u32,
    security: i8,
    stargates: seq<Stargate>,
    systemClass: Option<u8>,
    constellationClass: Option<u8>,
    regionClass: Option<u8>)

  /** All stargates of the records, in the order the loop visits them. */
  function Flatten(records: seq<SystemRecord>): seq<GateEnd>
  {
    if records == [] then []
    else
      var last := records[|records| - 1];
      Flatten(records[..|records| - 1]) + Ends(last.id, last.stargates)
  }

  /** The systems written so far and the gates still waiting. */
  type Progress = (seq<System>, map<u32, u32>)

  /**
   * The extraction loop over the records: look up the name, pair the
   * stargates, resolve the class, emit the system. A missing name or an
   * unresolvable class stops it with the panic's message.
   */
  function ExtractAll(names: map<u32, string>, records: seq<SystemRecord>): Result<Progress, string>
  {
    if records == [] then Ok(([], map[]))
    else
      match ExtractAll(names, records[..|records| - 1])
      case Err(e) => Err(e)
      case Ok(progress) => ExtractRecord(names, progress, records[|records| - 1])
  }

  /** One pass of the loop body. */
  function ExtractRecord(names: map<u32, string>, progress: Progress, r: SystemRecord): Result<Progress, string>
  {
    if r.id !in names then Err("System id doesn't match a name")
    else
      var ends := Ends(r.id, r.stargates);
      match ResolveClass(r.systemClass, r.constellationClass, r.regionClass, names[r.id])
      case Err(e) => Err(e)
      case Ok(c) =>
        Ok((progress.0 + [System(r.id, names[r.id], r.security, c, Found(progress.1, ends))], Fold(progress.1, ends)))
  }

  /** The record cannot be turned into a system: its name or its class is missing. */
  predicate Broken(names: map<u32, string>, r: SystemRecord)
  {
    r.id !in names || ResolveClass(r.systemClass, r.constellationClass, r.regionClass, names[r.id]).Err?
  }

  /** The loop succeeds exactly when no record is broken. */
  lemma {:induction false} ExtractOutcome(names: map<u32, string>, records: seq<SystemRecord>)
    ensures ExtractAll(names, records).Ok? <==> forall i :: 0 <= i < |records| ==> !Broken(names, records[i])
  {
    if records != [] {
      var n := |records| - 1;
      var prefix := records[..n];
      ExtractOutcome(names, prefix);
      ExtractStepOk(names, records);
      NoneBrokenStep(names, records, prefix);
    }
  }

  lemma NoneBrokenStep(names: map<u32, string>, records: seq<SystemRecord>, prefix: seq<SystemRecord>)
    requires records != [] && prefix == records[..|records| - 1]
    ensures (forall i :: 0 <= i < |records| ==> !Broken(names, records[i])) <==>
      (forall i :: 0 <= i < |prefix| ==> !Broken(names, prefix[i])) && !Broken(names, records[|records| - 1])
  {
    assert forall i :: 0 <= i < |prefix| ==> prefix[i] == records[i];
  }

  lemma ExtractStepOk(names: map<u32, string>, records: seq<SystemRecord>)
    requires records != []
    ensures ExtractAll(names, records).Ok? <==>
      ExtractAll(names, records[..|records| - 1]).Ok? && !Broken(names, records[|records| - 1])
  {
    var prefix := records[..|records| - 1];
    if ExtractAll(names, prefix).Ok? {
      var r := records[|records| - 1];
      assert ExtractRecord(names, ExtractAll(names, prefix).value, r).Ok? <==> !Broken(names, r);
    }
  }

  /** After a successful loop the pending map is the result of pairing all stargates in order. */
  lemma {:induction false} ExtractPending(names: map<u32, string>, records: seq<SystemRecord>)
    requires ExtractAll(names, records).Ok?
    ensures ExtractAll(names, records).value.1 == Fold(map[], Flatten(records))
  {
    if records != [] {
      var n := |records| - 1;
      var prefix := records[..n];
      ExtractPending(names, prefix);
      FoldConcat(map[], Flatten(prefix), Ends(records[n].id, records[n].stargates));
    }
  }

  /**
   * A successful loop writes one system per record, in order, with the
   * record's id, its name, its security and its resolved class; its
   * neighbours are those its stargates find waiting after all earlier
   * records' stargates.
   */
  lemma {:induction false} ExtractSystems(names: map<u32, string>, records: seq<SystemRecord>)
    requires ExtractAll(names, records).Ok?
    ensures |ExtractAll(names, records).value.0| == |records|
    ensures forall i :: 0 <= i < |records| ==> SystemFrom(names, records, i, ExtractAll(names, records).value.0[i])
  {
    if records != [] {
      var n := |records| - 1;
      var prefix := records[..n];
      ExtractSystems(names, prefix);
      ExtractLast(names, records);
      SystemsExtend(names, records, prefix, ExtractAll(names, prefix).value.0, ExtractAll(names, records).value.0);
    }
  }

  lemma SystemsExtend(names: map<u32, string>, records: seq<SystemRecord>, prefix: seq<SystemRecord>, before: seq<System>, out: seq<System>)
    requires |prefix| + 1 == |records| && prefix == records[..|prefix|]
    requires |before| == |prefix| && forall i :: 0 <= i < |prefix| ==> SystemFrom(names, prefix, i, before[i])
    requires |out| > 0 && out[..|out| - 1] == before && SystemFrom(names, records, |prefix|, out[|out| - 1])
    ensures |out| == |records| && forall i :: 0 <= i < |records| ==> SystemFrom(names, records, i, out[i])
  {
    forall i | 0 <= i < |prefix|
      ensures SystemFrom(names, records, i, out[i])
    {
      assert out[i] == before[i];
      SystemFromPrefix(names, records, prefix, i, out[i]);
    }
  }

  /** The last pass appends the system written for the last record. */
  lemma ExtractLast(names: map<u32, string>, records: seq<SystemRecord>)
    requires records != [] && ExtractAll(names, records).Ok?
    ensures ExtractAll(names, records[..|records| - 1]).Ok?
    ensures var out := ExtractAll(names, records).value.0;
      && out[..|out| - 1] == ExtractAll(names, records[..|records| - 1]).value.0
      && |out| > 0 && SystemFrom(names, records, |records| - 1, out[|out| - 1])
  {
    var n := |records| - 1;
    var prefix := records[..n];
    ExtractPending(names, prefix);
    assert prefix == records[..n];
  }

  lemma SystemFromPrefix(names: map<u32, string>, records: seq<SystemRecord>, prefix: seq<SystemRecord>, i: nat, s: System)
    requires |prefix| < |records| && prefix == records[..|prefix|] && i < |prefix|
    requires SystemFrom(names, prefix, i, s)
    ensures SystemFrom(names, records, i, s)
  {
    assert prefix[i] == records[i];
    assert prefix[..i] == records[..i];
  }

  /** `s` is the system the loop writes for record `i`. */
  ghost predicate SystemFrom(names: map<u32, string>, records: seq<SystemRecord>, i: nat, s: System)
    requires i < |records|
  {
    var r := records[i];
    && s.id == r.id && r.id in names && s.name == names[r.id]
    && s.security == r.security
    && ResolveClass(r.systemClass, r.constellationClass, r.regionClass, names[r.id]) == Ok(s.spaceClass)
    && s.neighbours == Found(Fold(map[], Flatten(records[..i])), Ends(r.id, r.stargates))
  }

  /**
   * In a complete stargate network nothing is left to report after the loop:
   * every gate met its partner.
   */
  lemma ExtractPairsAll(names: map<u32, string>, records: seq<SystemRecord>)
    requires ExtractAll(names, records).Ok? && Paired(Flatten(records))
    ensures ExtractAll(names, records).value.1 == map[]
  {
    ExtractPending(names, records);
    PairedLeavesNothing(Flatten(records));
  }

  /**
   * In a symmetric network the gates left after a successful loop are
   * exactly the stargates whose partner never appeared, each mapped to its
   * own system.
   */
  lemma ExtractLeftover(names: map<u32, string>, records: seq<SystemRecord>)
    requires ExtractAll(names, records).Ok? && Symmetric(Flatten(records))
    ensures var ts := Flatten(records);
      forall k :: k in ExtractAll(names, records).value.1 <==> exists i :: 0 <= i < |ts| && ts[i].gate == k && Unmatched(ts, |ts|, i)
    ensures var ts := Flatten(records);
      forall i :: 0 <= i < |ts| && Unmatched(ts, |ts|, i) ==> ExtractAll(names, records).value.1[ts[i].gate] == ts[i].system
  {
    ExtractPending(names, records);
    LeftoverExactly(Flatten(records));
  }

  /** No two records describe the same system. */
  predicate DistinctIds(records: seq<SystemRecord>)
  {
    forall a, b :: 0 <= a < b < |records| ==> records[a].id != records[b].id
  }

  /** Every stargate of the flattened run belongs to one of the records. */
  lemma {:induction false} FlattenSystems(records: seq<SystemRecord>, j: nat) returns (k: nat)
    requires j < |Flatten(records)|
    ensures k < |records| && Flatten(records)[j].system == records[k].id
  {
    var n := |records| - 1;
    var prefix := records[..n];
    if j < |Flatten(prefix)| {
      k := FlattenSystems(prefix, j);
      assert prefix[k] == records[k];
    } else {
      k := n;
    }
  }

  /** The stargates of the first `m` records lead the stargates of all of them. */
  lemma {:induction false} FlattenPrefix(records: seq<SystemRecord>, m: nat)
    requires m <= |records|
    ensures |Flatten(records[..m])| <= |Flatten(records)|
    ensures Flatten(records[..m]) == Flatten(records)[..|Flatten(records[..m])|]
  {
    if m == |records| {
      assert records[..m] == records;
    } else {
      var prefix := records[..|records| - 1];
      assert prefix[..m] == records[..m];
      FlattenPrefix(prefix, m);
    }
  }

  /** A neighbour found by a run of stargates is the one some stargate of the run pushed. */
  lemma {:induction false} FoundOrigin(pending: map<u32, u32>, ts: seq<GateEnd>, x: u32) returns (l: nat)
    requires x in Found(pending, ts)
    ensures l < |ts| && x in Pushed(Fold(pending, ts[..l]), ts[l])
  {
    var n := |ts| - 1;
    if x in Found(pending, ts[..n]) {
      l := FoundOrigin(pending, ts[..n], x);
      assert ts[..n][..l] == ts[..l];
    } else {
      l := n;
    }
  }

  /** What a stargate pushes is the system of an earlier stargate, in another system. */
  lemma PushedEarlier(ts: seq<GateEnd>, n: nat, x: u32) returns (j: nat)
    requires Symmetric(ts) && n < |ts| && x in Pushed(Fold(map[], ts[..n]), ts[n])
    ensures j < n && x == ts[j].system && ts[j].system != ts[n].system
  {
    PendingAfter(ts, n);
    var p := Fold(map[], ts[..n]);
    assert Waiting(ts, n, ts[n].destination);
    j :| 0 <= j < n && ts[j].gate == ts[n].destination && Unmatched(ts, n, j);
  }

  /** Where the two parts of a run sit inside a longer run it leads. */
  lemma SplitRun(ts: seq<GateEnd>, before: seq<GateEnd>, ends: seq<GateEnd>, l: nat)
    requires |before| + |ends| <= |ts| && before + ends == ts[..|before| + |ends|] && l < |ends|
    ensures before + ends[..l] == ts[..|before| + l] && ts[|before| + l] == ends[l]
    ensures forall j :: 0 <= j < |before| ==> ts[j] == before[j]
    ensures forall j :: |before| <= j < |before| + |ends| ==> ts[j] == ends[j - |before|]
  {
    assert forall j :: 0 <= j < |before| + |ends| ==> ts[j] == (before + ends)[j];
  }

  /**
   * In a symmetric network every neighbour the loop writes for record `i` is
   * the id of an earlier record.
   */
  lemma NeighbourEarlier(records: seq<SystemRecord>, i: nat, x: u32) returns (k: nat)
    requires Symmetric(Flatten(records)) && i < |records|
    requires x in Found(Fold(map[], Flatten(records[..i])), Ends(records[i].id, records[i].stargates))
    ensures k < i && x == records[k].id
  {
    var before := Flatten(records[..i]);
    var ends := Ends(records[i].id, records[i].stargates);
    var l := FoundOrigin(Fold(map[], before), ends, x);
    FlattenStep(records, i);
    FlattenPrefix(records, i + 1);
    var j := PushedRun(Flatten(records), before, ends, l, x);
    k := FlattenSystems(records[..i], j);
    assert records[..i][k] == records[k];
  }

  /**
   * A stargate of one system, run after `before` inside a symmetric
   * network, pushes the system of a stargate of `before`.
   */
  lemma PushedRun(ts: seq<GateEnd>, before: seq<GateEnd>, ends: seq<GateEnd>, l: nat, x: u32) returns (j: nat)
    requires Symmetric(ts) && |before| + |ends| <= |ts| && before + ends == ts[..|before| + |ends|] && l < |ends|
    requires forall m :: 0 <= m < |ends| ==> ends[m].system == ends[l].system
    requires x in Pushed(Fold(Fold(map[], before), ends[..l]), ends[l])
    ensures j < |before| && x == before[j].system
  {
    FoldConcat(map[], before, ends[..l]);
    SplitRun(ts, before, ends, l);
    j := PushedEarlier(ts, |before| + l, x);
  }

  /** The stargates of the first `i + 1` records: those of the first `i`, then record `i`'s. */
  lemma FlattenStep(records: seq<SystemRecord>, i: nat)
    requires i < |records|
    ensures Flatten(records[..i + 1]) == Flatten(records[..i]) + Ends(records[i].id, records[i].stargates)
  {
    assert records[..i + 1][..i] == records[..i];
  }

  /** After a successful loop over a symmetric network, every neighbour of a system is an earlier record's id. */
  lemma AllNeighboursEarlier(names: map<u32, string>, records: seq<SystemRecord>)
    requires ExtractAll(names, records).Ok? && Symmetric(Flatten(records))
    ensures |ExtractAll(names, records).value.0| == |records|
    ensures var out := ExtractAll(names, records).value.0;
      forall i, x :: 0 <= i < |out| && x in out[i].neighbours ==> exists k :: 0 <= k < i && records[k].id == x
  {
    var out := ExtractAll(names, records).value.0;
    ExtractSystems(names, records);
    forall i, x | 0 <= i < |out| && x in out[i].neighbours
      ensures exists k :: 0 <= k < i && records[k].id == x
    {
      assert SystemFrom(names, records, i, out[i]);
      var k := NeighbourEarlier(records, i, x);
    }
  }

  /**
   * In a symmetric network of distinct systems no link is listed on both
   * sides: the later system of a link lists the earlier one, never the
   * reverse.
   */
  lemma ExtractOneSided(names: map<u32, string>, records: seq<SystemRecord>)
    requires ExtractAll(names, records).Ok? && Symmetric(Flatten(records)) && DistinctIds(records)
    ensures NeighboursOneSided(ExtractAll(names, records).value.0)
  {
    var out := ExtractAll(names, records).value.0;
    AllNeighboursEarlier(names, records);
    ExtractSystems(names, records);
    forall i | 0 <= i < |out|
      ensures out[i].id == records[i].id
    {
      assert SystemFrom(names, records, i, out[i]);
    }
  }

  /**
   * The extractor's main loop, after the archive has been read: it returns
   * the systems to write and the gates whose partner never appeared (which
   * the extractor reports), or the message of the first panic.
   */
  method Extract(names: map<u32, string>, records: seq<SystemRecord>) returns (r: Result<Progress, string>)
    ensures r == ExtractAll(names, records)
  {
    var gateToSystem: map<u32, u32> := map[];
    var systems: seq<System> := [];
    for i := 0 to |records|
      invariant ExtractAll(names, records[..i]) == Ok((systems, gateToSystem))
    {
      var record := records[i];
      assert records[..i + 1][..i] == records[..i];
      if record.id !in names {
        assert ExtractAll(names, records[..i + 1]).Err?;
        ExtractFailurePersists(names, records, i + 1);
        return Err("System id doesn't match a name");
      }
      var name := names[record.id];
      var neighbours;
      gateToSystem, neighbours := LinkGates(gateToSystem, record.id, record.stargates);
      var resolved := ResolveClass(record.systemClass, record.constellationClass, record.regionClass, name);
      if resolved.Err? {
        assert ExtractAll(names, records[..i + 1]) == Err(resolved.error);
        ExtractFailurePersists(names, records, i + 1);
        return Err(resolved.error);
      }
      systems := systems + [System(record.id, name, record.security, resolved.value, neighbours)];
    }
    assert records[..|records|] == records;
    return Ok((systems, gateToSystem));
  }

  lemma {:induction false} ExtractFailurePersists(names: map<u32, string>, records: seq<SystemRecord>, j: nat)
    requires j <= |records| && ExtractAll(names, records[..j]).Err?
    ensures ExtractAll(names, records) == ExtractAll(names, records[..j])
  {
    if j < |records| {
      var n := |records| - 1;
      assert records[..n][..j] == records[..j];
      ExtractFailurePersists(names, records[..n], j);
    } else {
      assert records[..j] == records;
    }
  }
}
