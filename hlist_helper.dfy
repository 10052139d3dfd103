/** The hlist object: its snapshot index and host main branch as state, and the queries that read them. */
module HlistHelper {
  import opened Failures
  import opened Nearest
  import opened CatalogIndex
  import opened Halos
  import opened MassFunction

  /** What extract_halos returns: both populations, and host_ind when get_host_ind is set. */
  datatype Extracted = Extracted(isolated: seq<Halo>, subhalos: seq<Halo>, hostIndex: Option<nat>)

  /** The two populations the mass-function queries can be taken over. */
  datatype Population = IsolatedHalos | Subhalos

  function Pick(e: Extracted, which: Population): seq<Halo> {
    match which
    case IsolatedHalos => e.isolated
    case Subhalos => e.subhalos
  }

  /** extract_halos(a) over dict d and main branch hmb, with `read` standing for readHlist on the stored file. */
  function ExtractAt(d: Index, hmb: seq<BranchRow>, a: real, getHostInd: bool, read: string -> seq<Halo>): (r: Result<Extracted>)
    ensures r.Ok? <==> a in d.files && hmb != []
    ensures a !in d.files ==> r == Err(MissingKey)
    ensures a in d.files && hmb == [] ==> r == Err(EmptyMainBranch)
    ensures r.Ok? ==> r.value.isolated == Isolated(read(d.files[a]))
    ensures r.Ok? ==> r.value.subhalos == WithUpid(read(d.files[a]), hmb[ArgMin(Scales(hmb), a)].id)
    ensures r.Ok? ==> r.value.hostIndex == if getHostInd then Some(ArgMin(Scales(hmb), a)) else None
  {
    if a !in d.files then Err(MissingKey)
    else
      match Classify(read(d.files[a]), hmb, a)
      case None => Err(EmptyMainBranch)
      case Some(p) => Ok(Extracted(p.isolated, p.subhalos, if getHostInd then Some(p.hostIndex) else None))
  }

  /** get_a(a): extract_halos at the key of d nearest to a. */
  function NearestAt(d: Index, hmb: seq<BranchRow>, a: real, getHostInd: bool, read: string -> seq<Halo>): (r: Result<Extracted>)
    requires WellFormed(d)
    ensures r.Ok? <==> d.files != map[] && hmb != []
    ensures d.files == map[] ==> r == Err(EmptyIndex)
    ensures d.files != map[] ==> r == ExtractAt(d, hmb, NearestKey(d, a).value, getHostInd, read)
  {
    match NearestKey(d, a)
    case None => Err(EmptyIndex)
    case Some(s) => ExtractAt(d, hmb, s, getHostInd, read)
  }

  /** get_z(z): get_a at the scale factor 1 / (1 + z); Python raises ZeroDivisionError for z == -1. */
  function RedshiftAt(d: Index, hmb: seq<BranchRow>, z: real, getHostInd: bool, read: string -> seq<Halo>): (r: Result<Extracted>)
    requires WellFormed(d)
    ensures 1.0 + z == 0.0 ==> r == Err(DivisionByZero)
    ensures 1.0 + z != 0.0 ==> r == NearestAt(d, hmb, 1.0 / (1.0 + z), getHostInd, read)
  {
    if 1.0 + z == 0.0 then Err(DivisionByZero) else NearestAt(d, hmb, 1.0 / (1.0 + z), getHostInd, read)
  }

  /** What the mass-function queries at redshift z compute for one population, before binning. */
  function PopulationAt(d: Index, hmb: seq<BranchRow>, z: real, which: Population, read: string -> seq<Halo>): (r: Result<seq<Halo>>)
    requires WellFormed(d)
    ensures r.Ok? <==> RedshiftAt(d, hmb, z, false, read).Ok?
    ensures r.Err? ==> r.error == RedshiftAt(d, hmb, z, false, read).error
    ensures r.Ok? ==> r.value == Pick(RedshiftAt(d, hmb, z, false, read).value, which)
  {
    match RedshiftAt(d, hmb, z, false, read)
    case Err(e) => Err(e)
    case Ok(p) => Ok(Pick(p, which))
  }

  class HList {
    var haloId: string
    var model: string
    var dict: Index
    var hmb: seq<BranchRow>
    var cdm: HList?

    /** The dict's insertion order lists each of its keys exactly once. */
    ghost predicate Valid()
      reads this
    {
      WellFormed(dict)
    }

    /** __init__ without the path: an empty dict, the given main branch, and a CDM companion for a non-CDM model. */
    constructor (haloId: string, model: string, hmb: seq<BranchRow>)
      ensures Valid()
      ensures this.haloId == haloId && this.model == model && this.hmb == hmb && dict == EmptyDict
      ensures model == "cdm" ==> cdm == null
      ensures model != "cdm" ==> cdm != null && fresh(cdm)
      ensures model != "cdm" ==> cdm.haloId == haloId && cdm.model == "cdm" && cdm.hmb == [] && cdm.dict == EmptyDict && cdm.cdm == null
      decreases if model == "cdm" then 0 else 1
    {
      this.haloId := haloId;
      this.model := model;
      this.dict := EmptyDict;
      this.hmb := hmb;
      if model == "cdm" {
        this.cdm := null;
      } else {
        this.cdm := new HList(haloId, "cdm", []);
      }
    }

    /** load_hlists over the sorted directory listing; true iff the new dict is non-empty. */
    method LoadHlists(names: seq<string>, parse: string -> Option<real>) returns (r: Result<bool>)
      requires Valid()
      requires SortedNames(names)
      modifies this`dict
      ensures Valid()
      ensures BuildIndex(names, parse).Err? ==> r == Err(UnparsableName) && dict == old(dict)
      ensures BuildIndex(names, parse).Ok? ==> dict == BuildIndex(names, parse).value && r == Ok(dict.files != map[])
      ensures r.Ok? ==> (r.value <==> names != [])
    {
      var built := BuildIndex(names, parse);
      match built {
        case Err(e) =>
          BuildIndexFails(names, parse);
          r := Err(e);
        case Ok(d) =>
          BuildIndexShape(names, parse);
          dict := d;
          r := Ok(d.files != map[]);
      }
    }

    /** load_hmb after the archive is unpickled: self.hmb = sim_data[halo_id][model][0]. */
    method LoadHmb(simData: map<string, map<string, seq<seq<BranchRow>>>>) returns (r: Outcome)
      modifies this`hmb
      ensures haloId !in simData || model !in simData[haloId] ==> r == Fail(MissingKey) && hmb == old(hmb)
      ensures haloId in simData && model in simData[haloId] && simData[haloId][model] == [] ==> r == Fail(MissingEntry) && hmb == old(hmb)
      ensures haloId in simData && model in simData[haloId] && simData[haloId][model] != [] ==> r == Pass && hmb == simData[haloId][model][0]
    {
      if haloId !in simData || model !in simData[haloId] {
        r := Fail(MissingKey);
      } else if simData[haloId][model] == [] {
        r := Fail(MissingEntry);
      } else {
        hmb := simData[haloId][model][0];
        r := Pass;
      }
    }

    /** extract_halos(a, get_host_ind) */
    method ExtractHalos(a: real, getHostInd: bool, read: string -> seq<Halo>) returns (r: Result<Extracted>)
      ensures r == ExtractAt(dict, hmb, a, getHostInd, read)
    {
      if a !in dict.files {
        return Err(MissingKey);
      }
      var halos := read(dict.files[a]);
      var isolated := Isolated(halos);
      if hmb == [] {
        return Err(EmptyMainBranch);
      }
      var hostInd := ArgMin(Scales(hmb), a);
      var subhalos := WithUpid(halos, hmb[hostInd].id);
      r := Ok(Extracted(isolated, subhalos, if getHostInd then Some(hostInd) else None));
    }

    /** get_a(a, get_host_ind) */
    method GetA(a: real, getHostInd: bool, read: string -> seq<Halo>) returns (r: Result<Extracted>)
      requires Valid()
      ensures r == NearestAt(dict, hmb, a, getHostInd, read)
    {
      if dict.order == [] {
        assert dict.files == map[] by { assert forall k :: k !in dict.files; }
        return Err(EmptyIndex);
      }
      var scale := dict.order[ArgMin(dict.order, a)];
      r := ExtractHalos(scale, getHostInd, read);
    }

    /** get_z(z, get_host_ind) */
    method GetZ(z: real, getHostInd: bool, read: string -> seq<Halo>) returns (r: Result<Extracted>)
      requires Valid()
      ensures r == RedshiftAt(dict, hmb, z, getHostInd, read)
    {
      if 1.0 + z == 0.0 {
        return Err(DivisionByZero);
      }
      r := GetA(1.0 / (1.0 + z), getHostInd, read);
    }

    /** The computation hmf and shmf share, over the chosen population. */
    method MassFunctionFor(which: Population, z: real, bins: seq<real>, returnMask: bool, read: string -> seq<Halo>, logMass: real -> real)
      returns (r: Result<MassFunction>)
      requires Valid()
      ensures match PopulationAt(dict, hmb, z, which, read)
        case Err(e) => r == Err(e)
        case Ok(pop) => r == MassFunctionOf(pop, bins, logMass, returnMask)
    {
      var pops := GetZ(z, false, read);
      match pops {
        case Err(e) => r := Err(e);
        case Ok(p) => r := MassFunctionOf(Pick(p, which), bins, logMass, returnMask);
      }
    }

    /** The computation hmf_plottables and shmf_plottables share, over the chosen population. */
    method PlottablesFor(which: Population, z: real, bins: seq<real>, read: string -> seq<Halo>, logMass: real -> real)
      returns (r: Result<Plot>)
      requires Valid()
      ensures match PopulationAt(dict, hmb, z, which, read)
        case Err(e) => r == Err(e)
        case Ok(pop) => r == PlottablesOf(pop, bins, logMass)
    {
      var pops := GetZ(z, false, read);
      match pops {
        case Err(e) => r := Err(e);
        case Ok(p) => r := PlottablesOf(Pick(p, which), bins, logMass);
      }
    }

    /** hmf(z, bins, return_masscut_idx): the mass function of the isolated halos. */
    method Hmf(z: real, bins: seq<real>, returnMask: bool, read: string -> seq<Halo>, logMass: real -> real)
      returns (r: Result<MassFunction>)
      requires Valid()
      ensures match PopulationAt(dict, hmb, z, IsolatedHalos, read)
        case Err(e) => r == Err(e)
        case Ok(pop) => r == MassFunctionOf(pop, bins, logMass, returnMask)
    {
      r := MassFunctionFor(IsolatedHalos, z, bins, returnMask, read, logMass);
    }

    /** hmf_plottables(z, bins) */
    method HmfPlottables(z: real, bins: seq<real>, read: string -> seq<Halo>, logMass: real -> real) returns (r: Result<Plot>)
      requires Valid()
      ensures match PopulationAt(dict, hmb, z, IsolatedHalos, read)
        case Err(e) => r == Err(e)
        case Ok(pop) => r == PlottablesOf(pop, bins, logMass)
    {
      r := PlottablesFor(IsolatedHalos, z, bins, read, logMass);
    }

    /** shmf(z, bins, return_masscut_idx): the mass function of the host's subhalos. */
    method Shmf(z: real, bins: seq<real>, returnMask: bool, read: string -> seq<Halo>, logMass: real -> real)
      returns (r: Result<MassFunction>)
      requires Valid()
      ensures match PopulationAt(dict, hmb, z, Subhalos, read)
        case Err(e) => r == Err(e)
        case Ok(pop) => r == MassFunctionOf(pop, bins, logMass, returnMask)
    {
      r := MassFunctionFor(Subhalos, z, bins, returnMask, read, logMass);
    }

    /** shmf_plottables(z, bins) */
    method ShmfPlottables(z: real, bins: seq<real>, read: string -> seq<Halo>, logMass: real -> real) returns (r: Result<Plot>)
      requires Valid()
      ensures match PopulationAt(dict, hmb, z, Subhalos, read)
        case Err(e) => r == Err(e)
        case Ok(pop) => r == PlottablesOf(pop, bins, logMass)
    {
      r := PlottablesFor(Subhalos, z, bins, read, logMass);
    }
  }
}
