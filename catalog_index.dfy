/** The snapshot index built by load_hlists: a dict from scale factor to filename, with Python's insertion order. */
module CatalogIndex {
  import opened Failures
  import opened Nearest

  /** Lexicographic order on code points, the order np.sort gives a listing of filenames. */
  predicate LexLe(a: string, b: string)
    ensures |a| <= |b| && a == b[..|a|] ==> LexLe(a, b)
    ensures |a| > 0 && |b| > 0 && a[0] < b[0] ==> LexLe(a, b)
  {
    |a| == 0 || (|b| > 0 && (a[0] < b[0] || (a[0] == b[0] && LexLe(a[1..], b[1..]))))
  }

  lemma {:induction false} LexLeAntisymmetric(a: string, b: string)
    requires LexLe(a, b) && LexLe(b, a)
    ensures a == b
  {
    if |a| > 0 {
      LexLeAntisymmetric(a[1..], b[1..]);
      assert a == [a[0]] + a[1..] && b == [b[0]] + b[1..];
    }
  }

  lemma {:induction false} LexLeTransitive(a: string, b: string, c: string)
    requires LexLe(a, b) && LexLe(b, c)
    ensures LexLe(a, c)
  {
    if |a| > 0 && a[0] == b[0] && b[0] == c[0] {
      LexLeTransitive(a[1..], b[1..], c[1..]);
    }
  }

  /** Neighbours in order make the whole listing ordered. */
  lemma {:induction false} AdjacentOrderedSorted(names: seq<string>, i: int, j: int)
    requires forall k :: 0 <= k < |names| - 1 ==> LexLe(names[k], names[k + 1])
    requires 0 <= i < j < |names|
    ensures LexLe(names[i], names[j])
  {
    if i < j - 1 {
      AdjacentOrderedSorted(names, i, j - 1);
      LexLeTransitive(names[i], names[j - 1], names[j]);
    }
  }

  /** The order np.sort leaves a listing in: every name is at most every later name. */
  ghost predicate SortedNames(names: seq<string>)
    ensures SortedNames(names) ==> forall k :: 0 <= k < |names| - 1 ==> LexLe(names[k], names[k + 1])
  {
    forall i, j :: 0 <= i < j < |names| ==> LexLe(names[i], names[j])
  }

  /** Ordered neighbours suffice: a listing whose adjacent names are ordered is sorted. */
  lemma SortedFromAdjacent(names: seq<string>)
    requires forall k :: 0 <= k < |names| - 1 ==> LexLe(names[k], names[k + 1])
    ensures SortedNames(names)
  {
    forall i, j | 0 <= i < j < |names| ensures LexLe(names[i], names[j]) {
      AdjacentOrderedSorted(names, i, j);
    }
  }

  /** Python's name[6:-5]: the characters from offset 6 up to the last five, or "" when the name has at most 11 characters. */
  function ScaleField(name: string): (f: string)
    ensures |f| == if |name| >= 11 then |name| - 11 else 0
    ensures forall i :: 0 <= i < |f| ==> f[i] == name[6 + i]
  {
    if |name| >= 11 then name[6..|name| - 5] else []
  }

  /** The key of one filename; `parse` stands for float(), None meaning it raised ValueError. */
  function KeyOf(name: string, parse: string -> Option<real>): (r: Option<real>)
    ensures |name| >= 11 ==> r == parse(name[6..|name| - 5])
    ensures |name| <= 11 ==> r == parse("")
  {
    assert |name| >= 11 ==> ScaleField(name) == name[6..|name| - 5];
    parse(ScaleField(name))
  }

  /** The keys of all names in order, or None when one of them does not parse. */
  function ScaleKeys(names: seq<string>, parse: string -> Option<real>): (r: Option<seq<real>>)
    ensures r.Some? <==> forall i :: 0 <= i < |names| ==> KeyOf(names[i], parse).Some?
    ensures r.Some? ==> |r.value| == |names|
    ensures r.Some? ==> forall i :: 0 <= i < |names| ==> KeyOf(names[i], parse) == Some(r.value[i])
  {
    if names == [] then Some([])
    else
      match ScaleKeys(names[..|names| - 1], parse)
      case None => None
      case Some(ks) =>
        match KeyOf(names[|names| - 1], parse)
        case None => None
        case Some(k) => Some(ks + [k])
  }

  /** A Python dict: its keys in insertion order, and the key-to-filename mapping. */
  datatype Index = Index(order: seq<real>, files: map<real, string>)

  const EmptyDict := Index([], map[])

  /** The order lists each key once, and lists exactly the keys of the mapping. */
  ghost predicate WellFormed(d: Index) {
    && (forall i, j :: 0 <= i < j < |d.order| ==> d.order[i] != d.order[j])
    && (forall k :: k in d.files <==> k in d.order)
  }

  /** d[k] = v: a new key goes to the end of the order; an existing key keeps its place and takes the new value. */
  function Insert(d: Index, k: real, v: string): (r: Index)
    ensures k in r.files && r.files[k] == v
    ensures forall j :: j != k ==> (j in r.files <==> j in d.files)
    ensures forall j :: j != k && j in d.files ==> r.files[j] == d.files[j]
    ensures k in d.files ==> r.order == d.order
    ensures k !in d.files ==> r.order == d.order + [k]
    ensures WellFormed(d) ==> WellFormed(r)
  {
    Index(if k in d.files then d.order else d.order + [k], d.files[k := v])
  }

  /** The dict comprehension {key: name for name in names}, evaluated left to right. */
  function Comprehend(names: seq<string>, keys: seq<real>): (d: Index)
    requires |names| == |keys|
    ensures WellFormed(d)
    ensures |d.order| <= |names|
  {
    if names == [] then EmptyDict
    else Insert(Comprehend(names[..|names| - 1], keys[..|keys| - 1]), keys[|keys| - 1], names[|names| - 1])
  }

  /** The position of the first occurrence of x in s. */
  function FirstIndex(s: seq<real>, x: real): (i: nat)
    requires x in s
    ensures i < |s| && s[i] == x
    ensures forall j :: 0 <= j < i ==> s[j] != x
  {
    if s[0] == x then 0 else 1 + FirstIndex(s[1..], x)
  }

  lemma {:induction false} FirstIndexExtend(s: seq<real>, y: real, x: real)
    requires x in s
    ensures FirstIndex(s + [y], x) == FirstIndex(s, x)
  {
    if s[0] != x {
      assert (s + [y])[1..] == s[1..] + [y];
      FirstIndexExtend(s[1..], y, x);
    }
  }

  lemma {:induction false} FirstIndexNew(s: seq<real>, x: real)
    requires x !in s
    ensures FirstIndex(s + [x], x) == |s|
  {
    if s != [] {
      assert (s + [x])[1..] == s[1..] + [x];
      FirstIndexNew(s[1..], x);
    }
  }

  /** A value is a key of the comprehension's dict exactly when some name has it as key. */
  lemma {:induction false} ComprehendKeyIn(names: seq<string>, keys: seq<real>, x: real)
    requires |names| == |keys|
    ensures x in Comprehend(names, keys).files <==> x in keys
  {
    if names != [] {
      var n := |names|;
      ComprehendKeyIn(names[..n - 1], keys[..n - 1], x);
      assert keys == keys[..n - 1] + [keys[n - 1]];
    }
  }

  /** The comprehension yields a well-formed dict whose keys are exactly the keys of the names. */
  lemma ComprehendKeys(names: seq<string>, keys: seq<real>)
    requires |names| == |keys|
    ensures WellFormed(Comprehend(names, keys))
    ensures forall k :: k in Comprehend(names, keys).files <==> k in keys
    ensures Comprehend(names, keys).files == map[] <==> names == []
  {
    forall k ensures k in Comprehend(names, keys).files <==> k in keys {
      ComprehendKeyIn(names, keys, k);
    }
    if names != [] {
      assert keys[|keys| - 1] in Comprehend(names, keys).files;
    }
  }

  lemma {:induction false} ComprehendHasKey(names: seq<string>, keys: seq<real>, i: int)
    requires |names| == |keys| && 0 <= i < |keys|
    ensures keys[i] in Comprehend(names, keys).files
  {
    if i < |names| - 1 {
      ComprehendHasKey(names[..|names| - 1], keys[..|keys| - 1], i);
    }
  }

  /** The filename stored under a key is the last name, in order, that has that key. */
  lemma {:induction false} ComprehendLastWins(names: seq<string>, keys: seq<real>, i: int)
    requires |names| == |keys| && 0 <= i < |keys|
    requires forall j :: i < j < |keys| ==> keys[j] != keys[i]
    ensures keys[i] in Comprehend(names, keys).files
    ensures Comprehend(names, keys).files[keys[i]] == names[i]
  {
    var n := |names|;
    if i < n - 1 {
      ComprehendLastWins(names[..n - 1], keys[..n - 1], i);
    }
  }

  /** Appending a key keeps the relative order of first occurrences already present. */
  lemma FirstOrderKept(pre: seq<real>, k: real, x: real, y: real)
    requires x in pre && y in pre && FirstIndex(pre, x) < FirstIndex(pre, y)
    ensures FirstIndex(pre + [k], x) < FirstIndex(pre + [k], y)
  {
    FirstIndexExtend(pre, k, x);
    FirstIndexExtend(pre, k, y);
  }

  /** A key new to the sequence first occurs after every key already present. */
  lemma FirstOrderAppended(pre: seq<real>, k: real, x: real)
    requires x in pre && k !in pre
    ensures FirstIndex(pre + [k], x) < FirstIndex(pre + [k], k)
  {
    FirstIndexExtend(pre, k, x);
    FirstIndexNew(pre, k);
  }

  /** Keys are ordered by the position of the first name that produced them. */
  lemma {:induction false} ComprehendFirstOrder(names: seq<string>, keys: seq<real>, p: int, q: int)
    requires |names| == |keys|
    requires 0 <= p < q < |Comprehend(names, keys).order|
    ensures Comprehend(names, keys).order[p] in keys && Comprehend(names, keys).order[q] in keys
    ensures FirstIndex(keys, Comprehend(names, keys).order[p]) < FirstIndex(keys, Comprehend(names, keys).order[q])
  {
    var n := |names|;
    var pre := keys[..n - 1];
    var k := keys[n - 1];
    var d0 := Comprehend(names[..n - 1], pre);
    var d := Comprehend(names, keys);
    assert d == Insert(d0, k, names[n - 1]);
    assert keys == pre + [k];
    var x, y := d.order[p], d.order[q];
    assert x == d0.order[p] && x in d0.order;
    ComprehendKeyIn(names[..n - 1], pre, x);
    ComprehendKeyIn(names[..n - 1], pre, k);
    if q < |d0.order| {
      assert y == d0.order[q];
      ComprehendFirstOrder(names[..n - 1], pre, p, q);
      FirstOrderKept(pre, k, x, y);
    } else {
      assert k !in d0.files && y == k;
      FirstOrderAppended(pre, k, x);
    }
  }

  /** load_hlists' comprehension over an (already sorted) listing: Err when float() raises on a name. */
  function BuildIndex(names: seq<string>, parse: string -> Option<real>): (r: Result<Index>)
    ensures r.Ok? <==> forall i :: 0 <= i < |names| ==> KeyOf(names[i], parse).Some?
    ensures r.Err? ==> r.error == UnparsableName
    ensures r.Ok? ==> WellFormed(r.value) && |r.value.order| <= |names|
  {
    match ScaleKeys(names, parse)
    case None => Err(UnparsableName)
    case Some(ks) => Ok(Comprehend(names, ks))
  }

  /** load_hlists succeeds exactly when every name parses; otherwise float()'s ValueError escapes. */
  lemma BuildIndexFails(names: seq<string>, parse: string -> Option<real>)
    ensures BuildIndex(names, parse).Ok? <==> forall i :: 0 <= i < |names| ==> KeyOf(names[i], parse).Some?
    ensures BuildIndex(names, parse).Err? ==> BuildIndex(names, parse).error == UnparsableName
  {
  }

  /** The built dict is well formed, and empty only for an empty listing. */
  lemma BuildIndexShape(names: seq<string>, parse: string -> Option<real>)
    requires BuildIndex(names, parse).Ok?
    ensures WellFormed(BuildIndex(names, parse).value)
    ensures BuildIndex(names, parse).value.files == map[] <==> names == []
  {
    ComprehendKeys(names, ScaleKeys(names, parse).value);
  }

  /** Every name's key is a key of the built dict. */
  lemma BuildIndexHasKey(names: seq<string>, parse: string -> Option<real>, i: int)
    requires BuildIndex(names, parse).Ok?
    requires 0 <= i < |names|
    ensures KeyOf(names[i], parse).Some?
    ensures KeyOf(names[i], parse).value in BuildIndex(names, parse).value.files
  {
    var ks := ScaleKeys(names, parse).value;
    assert KeyOf(names[i], parse) == Some(ks[i]);
    ComprehendHasKey(names, ks, i);
  }

  /** Every key of the built dict is the key of some name. */
  lemma BuildIndexKeyFromName(names: seq<string>, parse: string -> Option<real>, k: real)
    requires BuildIndex(names, parse).Ok?
    requires k in BuildIndex(names, parse).value.files
    ensures exists i :: 0 <= i < |names| && KeyOf(names[i], parse) == Some(k)
  {
    var ks := ScaleKeys(names, parse).value;
    ComprehendKeys(names, ks);
    var i := FirstIndex(ks, k);
    assert KeyOf(names[i], parse) == Some(k);
  }

  /** Two names with the same key: the later one in the listing is the one the dict keeps. */
  lemma BuildIndexLastWins(names: seq<string>, parse: string -> Option<real>, i: int)
    requires BuildIndex(names, parse).Ok?
    requires 0 <= i < |names|
    requires forall j :: i < j < |names| ==> KeyOf(names[j], parse) != KeyOf(names[i], parse)
    ensures KeyOf(names[i], parse).value in BuildIndex(names, parse).value.files
    ensures BuildIndex(names, parse).value.files[KeyOf(names[i], parse).value] == names[i]
  {
    var ks := ScaleKeys(names, parse).value;
    forall j | i < j < |ks| ensures ks[j] != ks[i] {
      assert KeyOf(names[j], parse) != KeyOf(names[i], parse);
    }
    ComprehendLastWins(names, ks, i);
  }

  /** A key comes before another in insertion order when some name with it precedes every name with the other. */
  lemma BuildIndexOrder(names: seq<string>, parse: string -> Option<real>, p: int, q: int, j: int)
    requires BuildIndex(names, parse).Ok?
    requires 0 <= p < q < |BuildIndex(names, parse).value.order|
    requires 0 <= j < |names| && KeyOf(names[j], parse) == Some(BuildIndex(names, parse).value.order[q])
    ensures exists i :: 0 <= i < j && KeyOf(names[i], parse) == Some(BuildIndex(names, parse).value.order[p])
  {
    var ks := ScaleKeys(names, parse).value;
    var d := Comprehend(names, ks);
    assert d == BuildIndex(names, parse).value;
    ComprehendFirstOrder(names, ks, p, q);
    var i := FirstIndex(ks, d.order[p]);
    assert ks[j] == d.order[q];
    assert FirstIndex(ks, d.order[q]) <= j;
    assert KeyOf(names[i], parse) == Some(d.order[p]);
  }

  /** In a sorted listing, a key earlier in insertion order has a filename at most every filename of a later key, so ties go to the key of the first filename in sorted order. */
  lemma BuildIndexSortedOrder(names: seq<string>, parse: string -> Option<real>, p: int, q: int, j: int)
    requires SortedNames(names)
    requires BuildIndex(names, parse).Ok?
    requires 0 <= p < q < |BuildIndex(names, parse).value.order|
    requires 0 <= j < |names| && KeyOf(names[j], parse) == Some(BuildIndex(names, parse).value.order[q])
    ensures exists i :: 0 <= i < |names| && KeyOf(names[i], parse) == Some(BuildIndex(names, parse).value.order[p]) && LexLe(names[i], names[j])
  {
    BuildIndexOrder(names, parse, p, q, j);
    var i :| 0 <= i < j && KeyOf(names[i], parse) == Some(BuildIndex(names, parse).value.order[p]);
    assert LexLe(names[i], names[j]);
  }

  /** get_a's choice of key: the key nearest to a, the first such key in insertion order on ties. */
  function NearestKey(d: Index, a: real): (r: Option<real>)
    requires WellFormed(d)
    ensures r.None? <==> d.files == map[]
    ensures r.Some? ==> r.value in d.files
    ensures r.Some? ==> forall k :: k in d.files ==> Dist(r.value, a) <= Dist(k, a)
    ensures r.Some? ==> forall p, q :: 0 <= p < q < |d.order| && d.order[q] == r.value ==> Dist(r.value, a) < Dist(d.order[p], a)
  {
    if d.order == [] then
      assert forall k :: k !in d.files;
      assert d.files == map[];
      None
    else
      assert d.order[0] in d.order;
      Some(d.order[ArgMin(d.order, a)])
  }
}
