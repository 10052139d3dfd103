/** The binned mass function of hmf/shmf and the "number above mass" curve of their *_plottables forms. */
module MassFunction {
  import opened Failures
  import opened Halos
  import opened Histograms

  /** The Hubble factor h the masses are divided by. */
  const LittleH: real := 0.7

  /** The mass and particle cut on Mvir / h. */
  const MassCut: real := 120000000.0

  predicate PassesCut(h: Halo)
    ensures PassesCut(h) <==> h.mvir > MassCut * LittleH
  {
    h.mvir / LittleH > MassCut
  }

  /** dist_ind_cdm = pop['Mvir'] / 0.7 > 1.2e8 */
  function CutMask(pop: seq<Halo>): (m: seq<bool>)
    ensures |m| == |pop|
    ensures forall i :: 0 <= i < |pop| ==> m[i] == PassesCut(pop[i])
  {
    seq(|pop|, i requires 0 <= i < |pop| => PassesCut(pop[i]))
  }

  /** The halos that pass the cut, in order. */
  function Selected(pop: seq<Halo>): (sel: seq<Halo>)
    ensures |sel| <= |pop|
    ensures forall h :: h in sel ==> h in pop && PassesCut(h)
  {
    CompressSound(pop, CutMask(pop), PassesCut);
    Compress(pop, CutMask(pop))
  }

  /** log10(pop['Mpeak'][dist_ind_cdm] / 0.7), with `logMass` standing for m -> log10(m / 0.7). */
  function SelectedLogMasses(pop: seq<Halo>, logMass: real -> real): (vs: seq<real>)
    ensures |vs| == |Selected(pop)|
    ensures forall i :: 0 <= i < |vs| ==> vs[i] == logMass(Selected(pop)[i].mpeak)
  {
    var sel := Selected(pop);
    seq(|sel|, i requires 0 <= i < |sel| => logMass(sel[i].mpeak))
  }

  /** Each halo is selected as often as it occurs in the population if it passes the cut, and never otherwise. */
  lemma SelectedCount(pop: seq<Halo>, h: Halo)
    ensures multiset(Selected(pop))[h] == if PassesCut(h) then multiset(pop)[h] else 0
  {
    CompressCount(pop, CutMask(pop), PassesCut, h);
  }

  /** np.linspace(5, 11, 10): ten evenly spaced edges from 5 to 11. */
  function DefaultBins(): (b: seq<real>)
    ensures |b| == 10 && b[0] == 5.0 && b[9] == 11.0
    ensures forall i :: 0 <= i < 9 ==> b[i + 1] - b[i] == 2.0 / 3.0
    ensures Monotonic(b)
  {
    seq(10, i requires 0 <= i < 10 => 5.0 + (i as real) * 2.0 / 3.0)
  }

  /** (values, cumulative_values, base), plus dist_ind_cdm when return_masscut_idx is set. */
  datatype MassFunction = MassFunction(values: seq<nat>, cumulative: seq<nat>, edges: seq<real>, cutMask: Option<seq<bool>>)

  /** (base[1:], N - cumulative_values) */
  datatype Plot = Plot(x: seq<real>, y: seq<int>)

  /** The body of hmf/shmf applied to one population. */
  function MassFunctionOf(pop: seq<Halo>, bins: seq<real>, logMass: real -> real, returnMask: bool): (r: Result<MassFunction>)
    ensures r.Ok? <==> Monotonic(bins)
    ensures r.Err? ==> r.error == BinsNotMonotonic
    ensures r.Ok? ==> |r.value.values| == NumBins(bins) && |r.value.cumulative| == NumBins(bins) && r.value.edges == bins
    ensures r.Ok? ==> r.value.cutMask == if returnMask then Some(CutMask(pop)) else None
  {
    match Histogram(SelectedLogMasses(pop, logMass), bins)
    case Err(e) => Err(e)
    case Ok(values) => Ok(MassFunction(values, CumSum(values), bins, if returnMask then Some(CutMask(pop)) else None))
  }

  /** numpy's base[1:], which is empty for empty edges. */
  function UpperEdges(bins: seq<real>): (x: seq<real>)
    ensures |x| == NumBins(bins)
    ensures forall i :: 0 <= i < |x| ==> x[i] == bins[i + 1]
  {
    if bins == [] then [] else bins[1..]
  }

  /** The body of hmf_plottables/shmf_plottables applied to one population. */
  function PlottablesOf(pop: seq<Halo>, bins: seq<real>, logMass: real -> real): (r: Result<Plot>)
    ensures r.Ok? <==> Monotonic(bins)
    ensures r.Err? ==> r.error == BinsNotMonotonic
    ensures r.Ok? ==> |r.value.x| == NumBins(bins) && |r.value.y| == NumBins(bins)
  {
    match Histogram(SelectedLogMasses(pop, logMass), bins)
    case Err(e) => Err(e)
    case Ok(values) => Ok(Plot(UpperEdges(bins), Complement(|Selected(pop)|, CumSum(values))))
  }

  /** Shape, counts and running sums of the mass function; it fails exactly when the edges decrease somewhere. */
  lemma MassFunctionSpec(pop: seq<Halo>, bins: seq<real>, logMass: real -> real, returnMask: bool)
    ensures MassFunctionOf(pop, bins, logMass, returnMask).Ok? <==> Monotonic(bins)
    ensures MassFunctionOf(pop, bins, logMass, returnMask).Err? ==> MassFunctionOf(pop, bins, logMass, returnMask).error == BinsNotMonotonic
    ensures MassFunctionOf(pop, bins, logMass, returnMask).Ok? ==>
      var r := MassFunctionOf(pop, bins, logMass, returnMask).value;
      var vs := SelectedLogMasses(pop, logMass);
      var n := NumBins(bins);
      && |r.values| == n && |r.cumulative| == n && r.edges == bins
      && (forall i :: 0 <= i < n ==> r.values[i] == CountIn(vs, bins[i], bins[i + 1], i == n - 1))
      && (forall k :: 0 <= k < n ==> r.cumulative[k] == Sum(r.values[..k + 1]))
      && (forall k :: 0 <= k < n ==> r.cumulative[k] == CountIn(vs, bins[0], bins[k + 1], k == n - 1))
      && (forall i, j :: 0 <= i <= j < n ==> r.cumulative[i] <= r.cumulative[j])
      && (n > 0 ==> r.cumulative[n - 1] == CountIn(vs, bins[0], bins[n], true) <= |Selected(pop)|)
      && (returnMask ==> r.cutMask == Some(CutMask(pop)))
      && (!returnMask ==> r.cutMask == None)
  {
    if Monotonic(bins) {
      var vs := SelectedLogMasses(pop, logMass);
      var values := Counts(vs, bins);
      forall k | 0 <= k < NumBins(bins)
        ensures CumSum(values)[k] == CountIn(vs, bins[0], bins[k + 1], k == NumBins(bins) - 1)
      {
        CumulativeCounts(vs, bins, k);
      }
      forall i, j | 0 <= i <= j < NumBins(bins) ensures CumSum(values)[i] <= CumSum(values)[j] {
        CumSumMonotone(values, i, j);
      }
    }
  }

  /** When the edges span every selected log-mass, the counts add up to the number of selected halos, and so does the last running sum. */
  lemma MassFunctionTotal(pop: seq<Halo>, bins: seq<real>, logMass: real -> real, returnMask: bool)
    requires Monotonic(bins) && |bins| >= 2
    requires forall i :: 0 <= i < |SelectedLogMasses(pop, logMass)| ==> bins[0] <= SelectedLogMasses(pop, logMass)[i] <= bins[|bins| - 1]
    ensures MassFunctionOf(pop, bins, logMass, returnMask).Ok?
    ensures Sum(MassFunctionOf(pop, bins, logMass, returnMask).value.values) == |Selected(pop)|
    ensures MassFunctionOf(pop, bins, logMass, returnMask).value.cumulative[|bins| - 2] == |Selected(pop)|
  {
    var vs := SelectedLogMasses(pop, logMass);
    var n := NumBins(bins);
    var values := Counts(vs, bins);
    assert MassFunctionOf(pop, bins, logMass, returnMask).value.values == values;
    CumulativeCounts(vs, bins, n - 1);
    MonotonicOrdered(bins, 0, n);
    CountPartition(vs, bins[0], bins[n], true);
    CountBelowNone(vs, bins[0]);
    CountAboveNone(vs, bins[n]);
    assert values[..n] == values;
  }

  /** x is the upper edges; y counts the selected halos not yet summed, never negative and never increasing. */
  lemma PlottablesSpec(pop: seq<Halo>, bins: seq<real>, logMass: real -> real)
    ensures PlottablesOf(pop, bins, logMass).Ok? <==> Monotonic(bins)
    ensures PlottablesOf(pop, bins, logMass).Ok? ==>
      var p := PlottablesOf(pop, bins, logMass).value;
      var vs := SelectedLogMasses(pop, logMass);
      var n := NumBins(bins);
      && |p.x| == n && |p.y| == n
      && (forall i :: 0 <= i < n ==> p.x[i] == bins[i + 1])
      && (forall i :: 0 <= i < n ==> p.y[i] == |Selected(pop)| - MassFunctionOf(pop, bins, logMass, false).value.cumulative[i])
      && (forall i :: 0 <= i < n ==> p.y[i] >= 0)
      && (forall i, j :: 0 <= i <= j < n ==> p.y[j] <= p.y[i])
      && (forall i :: 0 <= i < n ==> p.y[i] == CountBelow(vs, bins[0]) + CountAbove(vs, bins[i + 1], i == n - 1))
  {
    MassFunctionSpec(pop, bins, logMass, false);
    if Monotonic(bins) {
      var vs := SelectedLogMasses(pop, logMass);
      forall i | 0 <= i < NumBins(bins)
        ensures Complement(|vs|, CumSum(Counts(vs, bins)))[i] == CountBelow(vs, bins[0]) + CountAbove(vs, bins[i + 1], i == NumBins(bins) - 1)
      {
        ComplementCounts(vs, bins, i);
      }
    }
  }
}
