/** Worked cases of the helper's queries on small concrete inputs. */
module Scenarios {
  import opened Failures
  import opened Nearest
  import opened CatalogIndex
  import opened Halos
  import opened HlistHelper

  const Snapshots := Index([0.33, 0.50, 0.98, 1.00],
    map[0.33 := "hlist_0.33000.list", 0.50 := "hlist_0.50000.list", 0.98 := "hlist_0.98000.list", 1.00 := "hlist_1.00000.list"])

  /** A request for scale 0.95 resolves to the snapshot at 0.98, and redshift 0 to the one at 1.00. */
  lemma NearestSnapshots()
    ensures NearestKey(Snapshots, 0.95) == Some(0.98)
    ensures NearestKey(Snapshots, 1.0 / (1.0 + 0.0)) == Some(1.00)
  {
    assert WellFormed(Snapshots);
    var r := NearestKey(Snapshots, 0.95);
    assert Dist(r.value, 0.95) <= Dist(0.98, 0.95);
    var s := NearestKey(Snapshots, 1.0);
    assert Dist(s.value, 1.0) <= Dist(1.00, 1.0);
  }

  /** upids [-1, -1, 7, 7, 99]: the first two halos are the isolated ones. */
  lemma SplitFiveIsolated(h0: Halo, h1: Halo, h2: Halo, h3: Halo, h4: Halo)
    requires h0.upid == -1 && h1.upid == -1 && h2.upid == 7 && h3.upid == 7 && h4.upid == 99
    ensures Isolated([h0, h1, h2, h3, h4]) == [h0, h1]
  {
    var hs := [h0, h1, h2, h3, h4];
    var m := UpidMask(hs, -1);
    assert m == [true, true, false, false, false];
    assert Compress(hs[..1], m[..1]) == [h0];
    assert Compress(hs[..2], m[..2]) == [h0, h1] by { assert hs[..2][..1] == hs[..1] && m[..2][..1] == m[..1]; }
    assert Compress(hs[..3], m[..3]) == [h0, h1] by { assert hs[..3][..2] == hs[..2] && m[..3][..2] == m[..2]; }
    assert Compress(hs[..4], m[..4]) == [h0, h1] by { assert hs[..4][..3] == hs[..3] && m[..4][..3] == m[..3]; }
    assert Compress(hs, m) == [h0, h1];
  }

  /** The same upids against host id 7: the middle two are its subhalos, and the last halo is in neither population. */
  lemma SplitFiveSubhalos(h0: Halo, h1: Halo, h2: Halo, h3: Halo, h4: Halo)
    requires h0.upid == -1 && h1.upid == -1 && h2.upid == 7 && h3.upid == 7 && h4.upid == 99
    ensures WithUpid([h0, h1, h2, h3, h4], 7) == [h2, h3]
  {
    var hs := [h0, h1, h2, h3, h4];
    var k := UpidMask(hs, 7);
    assert k == [false, false, true, true, false];
    assert Compress(hs[..1], k[..1]) == [];
    assert Compress(hs[..2], k[..2]) == [] by { assert hs[..2][..1] == hs[..1] && k[..2][..1] == k[..1]; }
    assert Compress(hs[..3], k[..3]) == [h2] by { assert hs[..3][..2] == hs[..2] && k[..3][..2] == k[..2]; }
    assert Compress(hs[..4], k[..4]) == [h2, h3] by { assert hs[..4][..3] == hs[..3] && k[..4][..3] == k[..3]; }
    assert Compress(hs, k) == [h2, h3] by { assert hs[..4] == hs[..|hs| - 1] && k[..4] == k[..|k| - 1]; }
  }
}
