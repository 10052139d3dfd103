/** Halo records, the host main branch, boolean-mask selection and the isolated/subhalo split of extract_halos. */
module Halos {
  import opened Failures
  import opened Nearest

  /** One row of a snapshot's halo list (the fields the helper reads). */
  datatype Halo = Halo(id: int, upid: int, mvir: real, mpeak: real)

  /** One row of the host main branch: the host's catalog id at a scale factor. */
  datatype BranchRow = BranchRow(scale: real, id: int)

  /** The upid of a halo that has no host. */
  const NoHost: int := -1

  /** numpy boolean-mask indexing xs[mask]: the elements whose mask entry is true, in their order. */
  function Compress<T>(xs: seq<T>, mask: seq<bool>): (r: seq<T>)
    requires |mask| == |xs|
    ensures |r| <= |xs|
  {
    if xs == [] then []
    else Compress(xs[..|xs| - 1], mask[..|mask| - 1]) + (if mask[|mask| - 1] then [xs[|xs| - 1]] else [])
  }

  /** The indices at which mask is true, in increasing order. */
  function TruePositions(mask: seq<bool>): (p: seq<nat>)
    ensures forall i :: 0 <= i < |p| ==> p[i] < |mask| && mask[p[i]]
    ensures forall i, j :: 0 <= i < j < |p| ==> p[i] < p[j]
    ensures forall j :: 0 <= j < |mask| && mask[j] ==> j in p
  {
    if mask == [] then []
    else TruePositions(mask[..|mask| - 1]) + (if mask[|mask| - 1] then [|mask| - 1] else [])
  }

  /** xs[mask] is xs read at the true positions of mask, in order. */
  lemma {:induction false} CompressPicksPositions<T>(xs: seq<T>, mask: seq<bool>)
    requires |mask| == |xs|
    ensures |Compress(xs, mask)| == |TruePositions(mask)|
    ensures forall i :: 0 <= i < |TruePositions(mask)| ==> Compress(xs, mask)[i] == xs[TruePositions(mask)[i]]
  {
    if xs != [] {
      var n := |xs|;
      CompressPicksPositions(xs[..n - 1], mask[..n - 1]);
    }
  }

  /** When the mask is a predicate applied element-wise, xs[mask] keeps every copy of a satisfying element and nothing else. */
  lemma {:induction false} CompressCount<T>(xs: seq<T>, mask: seq<bool>, P: T -> bool, x: T)
    requires |mask| == |xs|
    requires forall i :: 0 <= i < |xs| ==> mask[i] == P(xs[i])
    ensures multiset(Compress(xs, mask))[x] == if P(x) then multiset(xs)[x] else 0
  {
    if xs != [] {
      var n := |xs|;
      CompressCount(xs[..n - 1], mask[..n - 1], P, x);
      assert xs == xs[..n - 1] + [xs[n - 1]];
    }
  }

  /** Everything xs[mask] keeps satisfies the predicate the mask was computed from. */
  lemma {:induction false} CompressSound<T>(xs: seq<T>, mask: seq<bool>, P: T -> bool)
    requires |mask| == |xs|
    requires forall i :: 0 <= i < |xs| ==> mask[i] == P(xs[i])
    ensures forall x :: x in Compress(xs, mask) ==> x in xs && P(x)
  {
    if xs != [] {
      CompressSound(xs[..|xs| - 1], mask[..|mask| - 1], P);
      assert forall x :: x in xs[..|xs| - 1] ==> x in xs;
    }
  }

  /** halos['upid'] == u */
  function UpidMask(halos: seq<Halo>, u: int): (m: seq<bool>)
    ensures |m| == |halos|
    ensures forall i :: 0 <= i < |halos| ==> m[i] == (halos[i].upid == u)
  {
    seq(|halos|, i requires 0 <= i < |halos| => halos[i].upid == u)
  }

  /** halos[halos['upid'] == u] */
  function WithUpid(halos: seq<Halo>, u: int): (r: seq<Halo>)
    ensures |r| <= |halos|
    ensures forall h :: h in r ==> h in halos && h.upid == u
  {
    CompressSound(halos, UpidMask(halos, u), (g: Halo) => g.upid == u);
    Compress(halos, UpidMask(halos, u))
  }

  /** The isolated population: halos without a host. */
  function Isolated(halos: seq<Halo>): (r: seq<Halo>)
    ensures |r| <= |halos|
    ensures forall h :: h in r ==> h in halos && h.upid == NoHost
  {
    WithUpid(halos, NoHost)
  }

  /** The halos with upid u are exactly the subsequence of halos at the positions whose upid is u, in order. */
  lemma WithUpidIsSubsequence(halos: seq<Halo>, u: int)
    ensures var p := TruePositions(UpidMask(halos, u));
      && |WithUpid(halos, u)| == |p|
      && (forall i :: 0 <= i < |p| ==> p[i] < |halos| && WithUpid(halos, u)[i] == halos[p[i]])
      && (forall i, j :: 0 <= i < j < |p| ==> p[i] < p[j])
      && (forall j :: 0 <= j < |halos| ==> (j in p <==> halos[j].upid == u))
  {
    CompressPicksPositions(halos, UpidMask(halos, u));
  }

  /** Each halo occurs in the selection as often as in the table when its upid is u, and never otherwise. */
  lemma WithUpidCount(halos: seq<Halo>, u: int, h: Halo)
    ensures multiset(WithUpid(halos, u))[h] == if h.upid == u then multiset(halos)[h] else 0
  {
    CompressCount(halos, UpidMask(halos, u), (g: Halo) => g.upid == u, h);
  }

  /** The two populations share no halo unless the host id is itself -1; a halo pointing elsewhere is in neither. */
  lemma PopulationsDisjoint(halos: seq<Halo>, hostId: int, h: Halo)
    ensures hostId != NoHost ==> !(h in Isolated(halos) && h in WithUpid(halos, hostId))
    ensures h.upid != NoHost && h.upid != hostId ==> h !in Isolated(halos) && h !in WithUpid(halos, hostId)
  {
    WithUpidCount(halos, NoHost, h);
    WithUpidCount(halos, hostId, h);
    assert h in Isolated(halos) <==> h in multiset(Isolated(halos));
    assert h in WithUpid(halos, hostId) <==> h in multiset(WithUpid(halos, hostId));
  }

  /** hmb['scale'] */
  function Scales(hmb: seq<BranchRow>): (s: seq<real>)
    ensures |s| == |hmb|
    ensures forall i :: 0 <= i < |hmb| ==> s[i] == hmb[i].scale
  {
    seq(|hmb|, i requires 0 <= i < |hmb| => hmb[i].scale)
  }

  /** The split of one snapshot: isolated halos, subhalos of the host, and the host's main-branch index. */
  datatype Populations = Populations(isolated: seq<Halo>, subhalos: seq<Halo>, hostIndex: nat)

  /** extract_halos after the snapshot is read: None when the main branch is empty, since argmin then raises. */
  function Classify(halos: seq<Halo>, hmb: seq<BranchRow>, a: real): (r: Option<Populations>)
    ensures r.None? <==> hmb == []
    ensures r.Some? ==> IsFirstNearest(Scales(hmb), a, r.value.hostIndex)
    ensures r.Some? ==> r.value.hostIndex < |hmb|
    ensures r.Some? ==> r.value.isolated == Isolated(halos)
    ensures r.Some? ==> r.value.subhalos == WithUpid(halos, hmb[r.value.hostIndex].id)
  {
    if hmb == [] then None
    else
      var hostInd := ArgMin(Scales(hmb), a);
      Some(Populations(Isolated(halos), WithUpid(halos, hmb[hostInd].id), hostInd))
  }
}
