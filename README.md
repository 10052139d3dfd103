# hlist helper — a Dafny model

This project models the `hlist` helper class in `scripts/hlistHelper.py`. Rockstar halo lists are files named
`hlist_<scale>.list`. The class does four things:

- It indexes one run's halo lists by cosmological scale factor (`load_hlists`).
- It resolves a requested scale factor or redshift to the nearest indexed snapshot (`get_a`, `get_z`).
- It splits that snapshot's halos into isolated halos (`upid == -1`) and subhalos of the host
  (`upid` equal to the host id at the main-branch row nearest in scale) (`extract_halos`).
- It derives binned mass functions of either population (`hmf`, `shmf`) and their
  "number above mass" curves (`hmf_plottables`, `shmf_plottables`).

Layout, one module per file:

- `failures.dfy` (`Failures`): `Option`, `Result`, `Outcome`, and one `Error` value for each exception the helper lets escape.
- `nearest.dfy` (`Nearest`): `np.argmin(np.abs(s - a))`, i.e. the first index at minimal distance.
- `catalog_index.dfy` (`CatalogIndex`): the filename-to-key parse and the dict comprehension of `load_hlists`.
  It includes Python's dict insertion order, and `get_a`'s choice of the nearest key.
- `halos.dfy` (`Halos`): halo records, main-branch rows, boolean-mask indexing, and the isolated/subhalo split.
- `histogram.dfy` (`Histograms`): `np.histogram` over explicit edges, `np.cumsum`, and the complementary counts.
- `mass_function.dfy` (`MassFunction`): the mass cut, the selected log-masses, and the bodies of `hmf`/`shmf` and of the `*_plottables` methods, each written once.
- `hlist_helper.dfy` (`HlistHelper`): class `HList`, which holds the state (`dict`, `hmb`, `halo_id`, `model`, the CDM companion).
  Its methods follow the Python methods one for one, plus the two shared bodies `MassFunctionFor` and `PlottablesFor`. They are specified by the functions beside the class.
- `scenarios.dfy` (`Scenarios`): worked cases: nearest-snapshot resolution and the five-halo split.

Modelling choices:

- Scale factors, masses and log-masses are Dafny `real`s.
- `os.listdir` and `np.sort` become a `seq<string>` input, which must already be sorted by code point.
- `float(name[6:-5])` becomes `ScaleField` (Python's slice, written out) followed by an abstract `parse: string -> Option<real>`.
  `None` stands for the `ValueError` that `float` raises.
- `readHlist` becomes a parameter `read: string -> seq<Halo>`.
- `log10(m / 0.7)` becomes a parameter `logMass: real -> real`.
- The unpickled `sim_data` archive is a parameter of `LoadHmb`.
- Exceptions become `Err` values:
  - `KeyError` from `self.dict[a]`;
  - `argmin` over an empty dict;
  - a host main branch with no rows: the default `hmb = []` (lines 12, 27, 33) is a list, so `self.hmb['scale']` (line 80) raises `TypeError`; an empty array would make `argmin` raise `ValueError`. Both become `EmptyMainBranch`;
  - `ZeroDivisionError` for `z == -1`;
  - numpy's `ValueError` for decreasing bin edges;
  - `ValueError` from `float` during `load_hlists`, which leaves the old dict in place.

Behaviour of the code that the model keeps:

- One unparsable filename aborts `load_hlists`. The method does not skip the file.
- Ties in the nearest-key search are pinned by the dict's insertion order: the first key in that order wins.
  A repeated key keeps the position of its first filename and holds its last filename.
- Bin edges may repeat. numpy only rejects edges that decrease.
- `y[i] = N - cumsum[i]` also counts the selected halos whose log-mass lies below `bins[0]`,
  which the histogram drops. `ComplementCounts` and `PlottablesSpec` state y exactly as
  "below `bins[0]` plus above the right edge of bin i".

## Model

| member | source | states |
|---|---|---|
| Nearest.Dist | scripts/hlistHelper.py:80 | definition of `np.abs(s - a)` for one element, here and at line 104: non-negative, one of the two differences, zero exactly at a; used by ArgMin |
| Nearest.ArgMin | scripts/hlistHelper.py:104 | the result is an index of s at minimal distance from a, with every earlier index strictly farther (numpy's first-minimum rule) |
| Nearest.ArgMinIsDetermined | scripts/hlistHelper.py:80 | any index that is first-nearest is the one argmin returns, so the host index and the chosen key are determined |
| CatalogIndex.LexLe | scripts/hlistHelper.py:46 | definition of code-point order on names; a prefix and a name with a smaller first character come first; characterised by LexLeAntisymmetric and LexLeTransitive |
| CatalogIndex.LexLeAntisymmetric | scripts/hlistHelper.py:46 | two names each at most the other are equal |
| CatalogIndex.LexLeTransitive | scripts/hlistHelper.py:46 | the order on names is transitive |
| CatalogIndex.AdjacentOrderedSorted | scripts/hlistHelper.py:46 | in a listing whose neighbours are ordered, every name is at most every later one |
| CatalogIndex.SortedNames | scripts/hlistHelper.py:46 | definition of a sorted listing (every name at most every later one); its neighbours are ordered, and SortedFromAdjacent gives the converse |
| CatalogIndex.SortedFromAdjacent | scripts/hlistHelper.py:46 | a listing whose neighbours are ordered is sorted |
| CatalogIndex.ScaleField | scripts/hlistHelper.py:45 | `name[6:-5]` has max(len-11, 0) characters, character i being name[6+i] |
| CatalogIndex.KeyOf | scripts/hlistHelper.py:45 | definition of `float(hlist[6:-5])` for one name: parse applied to the characters from offset 6 up to the last five, or to "" for a name of at most 11 characters; used by ScaleKeys |
| CatalogIndex.ScaleKeys | scripts/hlistHelper.py:44-47 | keys exist iff every filename's field parses; then one key per filename, in listing order |
| CatalogIndex.Insert | scripts/hlistHelper.py:44-45 | definition of `d[k] = v`: afterwards k maps to v and other keys are unchanged; a new key goes to the end of the order, an old key keeps its place; well-formedness is kept |
| CatalogIndex.Comprehend | scripts/hlistHelper.py:44-47 | definition of the dict comprehension; always well formed with at most one key per filename; characterised by ComprehendKeys, ComprehendHasKey, ComprehendLastWins, ComprehendFirstOrder |
| CatalogIndex.ComprehendKeyIn | scripts/hlistHelper.py:44-47 | a value is a key of the comprehension's dict exactly when some filename has it as key |
| CatalogIndex.ComprehendKeys | scripts/hlistHelper.py:44-47 | the comprehension's dict lists each key once in its order, its keys are exactly the filenames' keys, and it is empty only for no filenames |
| CatalogIndex.ComprehendHasKey | scripts/hlistHelper.py:44-47 | every filename's key ends up a key of the dict |
| CatalogIndex.ComprehendLastWins | scripts/hlistHelper.py:44-47 | a key maps to the last filename in the listing with that key |
| CatalogIndex.ComprehendFirstOrder | scripts/hlistHelper.py:44-47 | the dict's key order is the order of each key's first filename |
| CatalogIndex.BuildIndex | scripts/hlistHelper.py:44-47 | definition of `load_hlists`'s dict, succeeding iff every filename parses, failing with the parse error, otherwise well formed with at most one key per filename; characterised by the BuildIndex* lemmas |
| CatalogIndex.BuildIndexFails | scripts/hlistHelper.py:44-47 | building the index fails (with the parse error) exactly when some filename does not parse |
| CatalogIndex.BuildIndexShape | scripts/hlistHelper.py:44-49 | the built dict is well formed and is empty iff the listing is empty |
| CatalogIndex.BuildIndexHasKey | scripts/hlistHelper.py:44-47 | each filename's parsed key is a key of the built dict |
| CatalogIndex.BuildIndexKeyFromName | scripts/hlistHelper.py:44-47 | each key of the built dict is the parsed key of some filename |
| CatalogIndex.BuildIndexLastWins | scripts/hlistHelper.py:44-47 | when several filenames parse to one key, the dict keeps the last of them in sorted order |
| CatalogIndex.BuildIndexOrder | scripts/hlistHelper.py:44-47 | a key earlier in insertion order has a filename before every filename of a later key |
| CatalogIndex.BuildIndexSortedOrder | scripts/hlistHelper.py:44-47 | for a sorted listing, a key earlier in insertion order has a filename at most every filename of a later key, so dict order is the sorted order of each key's first filename |
| CatalogIndex.NearestKey | scripts/hlistHelper.py:103-104 | none iff the dict is empty; otherwise a key of the dict, no key strictly closer to a, every key before it in insertion order strictly farther |
| Halos.Compress | scripts/hlistHelper.py:78-81 | definition of boolean-mask indexing, never longer than its input; characterised by CompressPicksPositions, CompressCount, CompressSound |
| Halos.CompressSound | scripts/hlistHelper.py:78-81 | with an element-wise predicate as mask, everything `xs[mask]` keeps is an element of xs satisfying the predicate |
| Halos.TruePositions | scripts/hlistHelper.py:78 | the positions where a boolean mask is true, strictly increasing, all of them and only them |
| Halos.CompressPicksPositions | scripts/hlistHelper.py:78 | `xs[mask]` is xs read at the mask's true positions, in order |
| Halos.CompressCount | scripts/hlistHelper.py:78 | with an element-wise predicate as mask, `xs[mask]` keeps every copy of a satisfying element and no other element |
| Halos.UpidMask | scripts/hlistHelper.py:78 | `halos['upid'] == u` has one entry per halo, true exactly where the upid is u |
| Halos.WithUpid | scripts/hlistHelper.py:81 | definition of `halos[halos['upid'] == u]`: only halos of the table with upid u, no more than the table; characterised by WithUpidIsSubsequence and WithUpidCount |
| Halos.Isolated | scripts/hlistHelper.py:78 | definition of the isolated population: only halos of the table with upid -1 |
| Halos.WithUpidIsSubsequence | scripts/hlistHelper.py:78-81 | the halos with upid u are exactly the table's rows with upid u, in their original order |
| Halos.WithUpidCount | scripts/hlistHelper.py:78-81 | a halo occurs in the selection as often as in the table if its upid is u, otherwise not at all |
| Halos.PopulationsDisjoint | scripts/hlistHelper.py:78-81 | isolated halos and subhalos share no halo unless the host id is -1; a halo whose upid is neither -1 nor the host id is in neither |
| Halos.Scales | scripts/hlistHelper.py:80 | `hmb['scale']` has one entry per main-branch row, the row's scale |
| Halos.Classify | scripts/hlistHelper.py:78-84 | fails iff the main branch is empty; otherwise host_ind is the first row nearest in scale, isolated are the upid -1 halos, subhalos the halos whose upid is that row's id |
| Histograms.InBin | scripts/hlistHelper.py:118 | definition of numpy's bin rule: a value in a bin lies between its edges, every value in [lo, hi) is in it, and the right edge itself only when the bin is closed (the last bin); used by CountIn |
| Histograms.CountIn | scripts/hlistHelper.py:118 | a bin's count never exceeds the number of values |
| Histograms.CountBelowNone | scripts/hlistHelper.py:118 | no value lies below a threshold at most all of them |
| Histograms.CountAboveNone | scripts/hlistHelper.py:118 | no value lies strictly above a threshold at least all of them |
| Histograms.CountSplit | scripts/hlistHelper.py:118 | two adjacent bins together count what the bin spanning both counts |
| Histograms.CountPartition | scripts/hlistHelper.py:139 | every value lies below a bin, in it, or above it, and in exactly one of the three |
| Histograms.Monotonic | scripts/hlistHelper.py:118 | definition of the edge test under which `np.histogram` raises `ValueError` (some edge greater than the next); characterised by MonotonicOrdered, used by Histogram |
| Histograms.MonotonicOrdered | scripts/hlistHelper.py:118 | edges that never decrease between neighbours never decrease between any two positions |
| Histograms.Counts | scripts/hlistHelper.py:118 | definition of the per-bin counts: one per bin, none above the number of values; characterised by Histogram and CountSplit |
| Histograms.Histogram | scripts/hlistHelper.py:118 | fails iff some edge is greater than the next; otherwise len(bins)-1 counts, bin i counting values in [bins[i], bins[i+1]), the last bin closed on the right, values outside dropped |
| Histograms.CumSum | scripts/hlistHelper.py:119 | the running sum has one entry per count, entry i being the sum of counts 0..i |
| Histograms.CumSumStep | scripts/hlistHelper.py:119 | each running-sum entry is the previous one plus the current count |
| Histograms.CumSumMonotone | scripts/hlistHelper.py:119 | the running sum is non-decreasing |
| Histograms.CumulativeCounts | scripts/hlistHelper.py:118-119 | the running sum at bin k counts the values from bins[0] up to bin k's right edge (closed for the last bin) |
| Histograms.Complement | scripts/hlistHelper.py:139 | `N - cumulative_values` has one entry per bin, entry i being N minus the running sum at i |
| Histograms.ComplementCounts | scripts/hlistHelper.py:136-139 | N minus the running sum at bin k is the number of values below bins[0] plus those beyond bin k's right edge |
| MassFunction.PassesCut | scripts/hlistHelper.py:116 | definition of the mass and particle cut `Mvir/0.7 > 1.2e8`, i.e. Mvir above 1.2e8 times 0.7 |
| MassFunction.CutMask | scripts/hlistHelper.py:116 | the mass-cut mask has one entry per halo of the population, true exactly where Mvir/0.7 > 1.2e8 |
| MassFunction.Selected | scripts/hlistHelper.py:118 | definition of `halos[dist_ind_cdm]`: only halos of the population that pass the cut; characterised by SelectedCount |
| MassFunction.SelectedLogMasses | scripts/hlistHelper.py:118 | one log-mass per cut-passing halo, in order, each the log-mass of that halo's Mpeak |
| MassFunction.SelectedCount | scripts/hlistHelper.py:116-118 | a halo is histogrammed as often as it occurs in the population if it passes the cut, otherwise never |
| MassFunction.DefaultBins | scripts/hlistHelper.py:110 | the default edges are ten, from 5 to 11, spaced 2/3 apart, and acceptable to the histogram |
| MassFunction.UpperEdges | scripts/hlistHelper.py:139 | `base[1:]` holds one edge per bin, the right edge of bin i |
| MassFunction.MassFunctionOf | scripts/hlistHelper.py:116-124 | definition of the body of hmf/shmf: fails with the bin error iff edges decrease, otherwise one count and one running sum per bin, the edges are the bins, the mask returned exactly when asked; characterised by MassFunctionSpec |
| MassFunction.MassFunctionSpec | scripts/hlistHelper.py:116-124 | fails iff edges decrease; otherwise len(bins)-1 counts, cumulative[k] is the sum of counts 0..k and the number of selected log-masses in [bins[0], bins[k+1]), it is non-decreasing, the last equals the number in [bins[0], bins[-1]] and is at most the number selected, the edges are the bins, the mask is returned exactly when asked |
| MassFunction.MassFunctionTotal | scripts/hlistHelper.py:116-124 | when the edges span every selected log-mass, the counts sum to the number of selected halos and the last cumulative value equals it |
| MassFunction.PlottablesOf | scripts/hlistHelper.py:134-139 | definition of the body of the plottables: fails with the bin error iff edges decrease, otherwise one x and one y per bin; characterised by PlottablesSpec |
| MassFunction.PlottablesSpec | scripts/hlistHelper.py:134-139 | fails iff edges decrease; otherwise x = bins[1:], y has the same length, y[i] = N_selected - cumulative[i], y is non-negative and non-increasing, and y[i] counts the selected halos below bins[0] or beyond bin i's right edge |
| HlistHelper.Pick | scripts/hlistHelper.py:114-116 | definition of the choice after `halos, subhalos = self.get_z(z)`: the isolated halos for hmf and its plottables, the subhalos for shmf and its plottables (lines 147-149); used by PopulationAt |
| HlistHelper.ExtractAt | scripts/hlistHelper.py:77-86 | fails with KeyError iff a is not a key, else with an empty main branch; otherwise isolated are the upid -1 halos of the file under a, subhalos those with the host's id at the first nearest main-branch row, host_ind returned exactly when asked |
| HlistHelper.NearestAt | scripts/hlistHelper.py:103-106 | fails iff the dict or the main branch is empty, with an empty dict reported first; otherwise extract_halos at the nearest key of the dict |
| HlistHelper.RedshiftAt | scripts/hlistHelper.py:95 | get_z(z) fails with ZeroDivisionError for z = -1 and is otherwise exactly get_a(1/(1+z)) |
| HlistHelper.PopulationAt | scripts/hlistHelper.py:114 | the mass-function queries work on the population get_z(z) returns and fail exactly when it fails |
| HlistHelper.HList.constructor | scripts/hlistHelper.py:22-33 | an empty dict, the given main branch, and for a non-CDM model a fresh CDM companion with an empty main branch |
| HlistHelper.HList.LoadHlists | scripts/hlistHelper.py:37-49 | on a parse failure the old dict stays; otherwise the dict becomes the comprehension and the result is true iff it is non-empty, i.e. iff the listing is non-empty |
| HlistHelper.HList.LoadHmb | scripts/hlistHelper.py:66 | hmb becomes sim_data[halo_id][model][0], or stays as it was when a key or the entry is missing |
| HlistHelper.HList.ExtractHalos | scripts/hlistHelper.py:70-86 | returns what ExtractAt states for the current dict and main branch |
| HlistHelper.HList.GetA | scripts/hlistHelper.py:99-106 | returns what NearestAt states for the current dict and main branch |
| HlistHelper.HList.GetZ | scripts/hlistHelper.py:90-95 | returns what RedshiftAt states for the current dict and main branch |
| HlistHelper.HList.MassFunctionFor | scripts/hlistHelper.py:114-124 | the shared body of hmf/shmf: the error of get_z, or MassFunctionOf over the chosen population |
| HlistHelper.HList.PlottablesFor | scripts/hlistHelper.py:132-139 | the shared body of the plottables: the error of get_z, or PlottablesOf over the chosen population |
| HlistHelper.HList.Hmf | scripts/hlistHelper.py:110-124 | the mass function of the isolated population at z, or the error that stops it |
| HlistHelper.HList.HmfPlottables | scripts/hlistHelper.py:128-139 | the (x, y) curve of the isolated population at z, or the error that stops it |
| HlistHelper.HList.Shmf | scripts/hlistHelper.py:143-157 | the mass function of the subhalo population at z, or the error that stops it |
| HlistHelper.HList.ShmfPlottables | scripts/hlistHelper.py:161-172 | the (x, y) curve of the subhalo population at z, or the error that stops it |
| Scenarios.NearestSnapshots | scripts/hlistHelper.py:103-104 | with snapshots at 0.33, 0.50, 0.98 and 1.00, scale 0.95 resolves to 0.98 and redshift 0 to 1.00 |
| Scenarios.SplitFiveIsolated | scripts/hlistHelper.py:78 | upids -1, -1, 7, 7, 99 give the first two halos as isolated |
| Scenarios.SplitFiveSubhalos | scripts/hlistHelper.py:81 | the same upids with host id 7 give the middle two as subhalos, so the last is in neither population |

## Left out

- Path construction in `__init__` (lines 17-20) and the `PATH` passed to the CDM companion (line 33): this is `os.path.join` plumbing over fixed cluster paths. The constructor keeps only the state the queries read.
- `os.listdir` and the sort of the listing (line 46): the listing is an input that is already sorted by code point.
- `float()` on the filename field (line 45): it is the abstract `parse`, so the exact set of strings Python accepts is not modelled.
- `open`/`pickle.load` in `load_hmb` and the choice of archive by `high_res` (lines 58-64): the unpickled archive is an input.
- `readHlist` (line 77): an external reader; the table it returns is given by the `read` parameter.
- `log10` and IEEE floating point (lines 80, 95, 104, 116, 118 and their copies): the model uses exact reals, the `log10(m/0.7)` step is the `logMass` parameter, and the -inf/NaN that `log10` gives for non-positive masses are not modelled.
  This covers the subtraction and `abs` inside both `argmin`s and `1.0/(1.0+z)`. Rounding can change which key is nearest: with keys 0.1 and 0.3 and a = 0.2, the reals tie and the model picks 0.1, the first in order. In float64, |0.3 - 0.2| = 0.09999999999999998 is below 0.1, so the program picks 0.3.
- Python's optional and default arguments: `bins` is always passed, and `DefaultBins` gives the default edges.
- The `return_masscut_idx` and `get_host_ind` flags become an `Option` field in the result, not a tuple of varying length.
