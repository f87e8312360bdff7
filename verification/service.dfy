/**
 * The attribute cache of js/services/projectsService.js: the features kept
 * from a query, indexed by OBJECTID and by project type, ordered by
 * lower-cased project name; the Esri JSON normalisation that feeds it; the
 * geometry conversion of the single-project fetch; and the project-type
 * filter.
 */
module Service {
  import opened Values
  import opened Format
  import opened Memo

  // ---------------------------------------------------------------
  // Filtering
  // ---------------------------------------------------------------

  /** A feature is cached when its OBJECTID is neither null nor undefined. */
  predicate HasObjectId(f: Feature) {
    !IsNullish(ObjectIdOf(f))
  }

  /** `features.filter(f => f?.properties?.OBJECTID != null)` */
  function Kept(fs: seq<Feature>): seq<Feature>
    decreases |fs|
  {
    if fs == [] then []
    else (if HasObjectId(fs[0]) then [fs[0]] else []) + Kept(fs[1..])
  }

  /** Exactly the features with an OBJECTID are kept, in their order. */
  lemma {:induction false} KeptExactly(fs: seq<Feature>)
    ensures forall f :: f in Kept(fs) ==> f in fs && HasObjectId(f)
    ensures forall i :: 0 <= i < |fs| && HasObjectId(fs[i]) ==> fs[i] in Kept(fs)
    ensures |Kept(fs)| <= |fs|
    decreases |fs|
  {
    if fs != [] {
      KeptExactly(fs[1..]);
      forall i | 1 <= i < |fs| && HasObjectId(fs[i]) ensures fs[i] in Kept(fs) {
        assert fs[i] == fs[1..][i - 1];
      }
    }
  }

  lemma {:induction false} KeptConcat(a: seq<Feature>, b: seq<Feature>)
    ensures Kept(a + b) == Kept(a) + Kept(b)
    decreases |a|
  {
    if a != [] {
      assert (a + b)[1..] == a[1..] + b;
      KeptConcat(a[1..], b);
    } else {
      assert a + b == b;
    }
  }

  // ---------------------------------------------------------------
  // Indexes
  // ---------------------------------------------------------------

  /** `Number(p.OBJECTID)` */
  function IdKey(f: Feature): JsNum {
    ToNumber(ObjectIdOf(f))
  }

  /** `p.project_type || 'Unknown'` */
  function TypeKey(f: Feature): Value {
    Or(Get(f.properties, "project_type"), Str("Unknown"))
  }

  /** `_byId` after visiting `fs` in order: a later feature with the same number replaces an earlier one. */
  function IdIndex(fs: seq<Feature>): map<JsNum, Feature>
    decreases |fs|
  {
    if fs == [] then map[]
    else
      var last := fs[|fs| - 1];
      IdIndex(fs[..|fs| - 1])[IdKey(last) := last]
  }

  /** The id index has a key for exactly the numbers the features carry. */
  lemma {:induction false} IdIndexKeys(fs: seq<Feature>)
    ensures forall k :: k in IdIndex(fs) <==> exists i :: 0 <= i < |fs| && IdKey(fs[i]) == k
    decreases |fs|
  {
    if fs != [] {
      var n := |fs| - 1;
      var init := fs[..n];
      IdIndexKeys(init);
      assert IdIndex(fs) == IdIndex(init)[IdKey(fs[n]) := fs[n]];
      forall k | k in IdIndex(fs) ensures exists i :: 0 <= i < |fs| && IdKey(fs[i]) == k {
        if k != IdKey(fs[n]) {
          var i :| 0 <= i < |init| && IdKey(init[i]) == k;
          assert fs[i] == init[i];
        }
      }
      forall k | exists i :: 0 <= i < |fs| && IdKey(fs[i]) == k ensures k in IdIndex(fs) {
        var i :| 0 <= i < |fs| && IdKey(fs[i]) == k;
        if i < n {
          assert init[i] == fs[i];
        }
      }
    }
  }

  /** The entry for a number is the last feature carrying it: a later duplicate overwrites. */
  lemma {:induction false} IdIndexLast(fs: seq<Feature>, i: int)
    requires 0 <= i < |fs|
    requires forall j :: i < j < |fs| ==> IdKey(fs[j]) != IdKey(fs[i])
    ensures IdKey(fs[i]) in IdIndex(fs) && IdIndex(fs)[IdKey(fs[i])] == fs[i]
    decreases |fs|
  {
    var n := |fs| - 1;
    var init := fs[..n];
    assert IdIndex(fs) == IdIndex(init)[IdKey(fs[n]) := fs[n]];
    if i < n {
      assert init[i] == fs[i];
      assert IdKey(fs[n]) != IdKey(fs[i]);
      forall j | i < j < |init| ensures IdKey(init[j]) != IdKey(init[i]) {
        assert init[j] == fs[j];
      }
      IdIndexLast(init, i);
    }
  }

  /** The features of type `t`, in order. */
  function OfType(fs: seq<Feature>, t: Value): seq<Feature>
    decreases |fs|
  {
    if fs == [] then []
    else
      var last := fs[|fs| - 1];
      OfType(fs[..|fs| - 1], t) + (if TypeKey(last) == t then [last] else [])
  }

  lemma {:induction false} OfTypeMembers(fs: seq<Feature>, t: Value)
    ensures forall f :: f in OfType(fs, t) <==> f in fs && TypeKey(f) == t
    decreases |fs|
  {
    if fs != [] {
      var n := |fs| - 1;
      OfTypeMembers(fs[..n], t);
      assert fs == fs[..n] + [fs[n]];
    }
  }

  /** `_byType` after the loop: one bucket per type met, each in visiting order. */
  function Buckets(fs: seq<Feature>): map<Value, seq<Feature>>
    decreases |fs|
  {
    if fs == [] then map[]
    else
      var last := fs[|fs| - 1];
      var b := Buckets(fs[..|fs| - 1]);
      var t := TypeKey(last);
      b[t := (if t in b then b[t] else []) + [last]]
  }

  /** A bucket exists exactly for the types present, and holds exactly the features of its type. */
  lemma {:induction false} BucketsAreTypes(fs: seq<Feature>)
    ensures forall t :: t in Buckets(fs) <==> OfType(fs, t) != []
    ensures forall t :: t in Buckets(fs) ==> Buckets(fs)[t] == OfType(fs, t)
    decreases |fs|
  {
    if fs != [] {
      var n := |fs| - 1;
      BucketsAreTypes(fs[..n]);
    }
  }

  /** Each kept feature is in the bucket of its own type and in no other. */
  lemma ExactlyOneBucket(fs: seq<Feature>, f: Feature)
    requires f in fs
    ensures TypeKey(f) in Buckets(fs) && f in Buckets(fs)[TypeKey(f)]
    ensures forall t :: t in Buckets(fs) && f in Buckets(fs)[t] ==> t == TypeKey(f)
  {
    BucketsAreTypes(fs);
    OfTypeMembers(fs, TypeKey(f));
    forall t | t in Buckets(fs) && f in Buckets(fs)[t] ensures t == TypeKey(f) {
      OfTypeMembers(fs, t);
    }
  }

  // ---------------------------------------------------------------
  // Ordering by name
  // ---------------------------------------------------------------

  /** `(f?.properties?.project_name || '').toLowerCase()` */
  function NameKey(f: Feature): string {
    ToLower(ToStr(Or(Get(f.properties, "project_name"), Str(""))))
  }

  /** `toLowerCase` exists only on strings: a truthy name that is not one makes the key throw. */
  predicate NameKeyThrows(f: Feature) {
    var name := Get(f.properties, "project_name");
    Truthy(name) && !name.Str?
  }

  /**
   * Sorting throws exactly when there are two or more features and one of
   * them has such a name: with two or more, every element is compared.
   */
  predicate SortThrows(s: seq<Feature>) {
    |s| >= 2 && exists i :: 0 <= i < |s| && NameKeyThrows(s[i])
  }

  /**
   * A sort throws only on a name whose key throws, never with fewer than
   * two features, and does with a numeric name among two or more.
   */
  lemma SortThrowsOnlyOnBadNames(s: seq<Feature>)
    ensures (forall i :: 0 <= i < |s| ==> !NameKeyThrows(s[i])) ==> !SortThrows(s)
    ensures |s| < 2 ==> !SortThrows(s)
    ensures |s| >= 2 && Get(s[0].properties, "project_name") == Num(1) ==> SortThrows(s)
  {
    if |s| >= 2 && Get(s[0].properties, "project_name") == Num(1) {
      assert NameKeyThrows(s[0]);
    }
  }

  /** Code-unit lexicographic order, standing for `localeCompare(...) <= 0`. */
  predicate LexLessEq(a: string, b: string)
    decreases |a|
  {
    if a == [] then true
    else if b == [] then false
    else if a[0] != b[0] then a[0] < b[0]
    else LexLessEq(a[1..], b[1..])
  }

  lemma {:induction false} LexTotal(a: string, b: string)
    ensures LexLessEq(a, b) || LexLessEq(b, a)
    decreases |a|
  {
    if a != [] && b != [] && a[0] == b[0] {
      LexTotal(a[1..], b[1..]);
    }
  }

  lemma {:induction false} LexTrans(a: string, b: string, c: string)
    requires LexLessEq(a, b) && LexLessEq(b, c)
    ensures LexLessEq(a, c)
    decreases |a|
  {
    if a != [] && b != [] && c != [] && a[0] == b[0] && b[0] == c[0] {
      LexTrans(a[1..], b[1..], c[1..]);
    }
  }

  /** Each feature's name key is at most the next one's. */
  predicate Sorted(s: seq<Feature>)
    decreases |s|
  {
    |s| < 2 || (LexLessEq(NameKey(s[0]), NameKey(s[1])) && Sorted(s[1..]))
  }

  /** A sorted sequence is ordered pairwise, not only between neighbours. */
  lemma {:induction false} SortedPairwise(s: seq<Feature>, i: int, j: int)
    requires Sorted(s) && 0 <= i < j < |s|
    ensures LexLessEq(NameKey(s[i]), NameKey(s[j]))
    decreases j
  {
    var rest := s[1..];
    assert Sorted(rest) && LexLessEq(NameKey(s[0]), NameKey(s[1]));
    if i == 0 {
      if j > 1 {
        SortedPairwise(rest, 0, j - 1);
        assert rest[0] == s[1] && rest[j - 1] == s[j];
        LexTrans(NameKey(s[0]), NameKey(s[1]), NameKey(s[j]));
      }
    } else {
      SortedPairwise(rest, i - 1, j - 1);
      assert rest[i - 1] == s[i] && rest[j - 1] == s[j];
    }
  }

  /** Insert `x` before the first feature whose key is not below its own. */
  function Insert(x: Feature, t: seq<Feature>): seq<Feature>
    decreases |t|
  {
    if t == [] || LexLessEq(NameKey(x), NameKey(t[0])) then [x] + t
    else [t[0]] + Insert(x, t[1..])
  }

  lemma {:induction false} InsertSorted(x: Feature, t: seq<Feature>)
    requires Sorted(t)
    ensures var r := Insert(x, t);
      Sorted(r) && multiset(r) == multiset(t) + multiset{x}
      && |r| == |t| + 1 && (r[0] == x || r[0] == t[0])
    decreases |t|
  {
    if t == [] || LexLessEq(NameKey(x), NameKey(t[0])) {
      assert ([x] + t)[1..] == t;
    } else {
      LexTotal(NameKey(x), NameKey(t[0]));
      InsertSorted(x, t[1..]);
      var r := Insert(x, t[1..]);
      assert ([t[0]] + r)[1..] == r;
      assert t == [t[0]] + t[1..];
    }
  }

  /** `features.sort(byName)` */
  function SortByName(s: seq<Feature>): seq<Feature>
    decreases |s|
  {
    if s == [] then [] else Insert(s[0], SortByName(s[1..]))
  }

  /** The sort orders by name key and only reorders. */
  lemma {:induction false} SortByNameCorrect(s: seq<Feature>)
    ensures Sorted(SortByName(s)) && multiset(SortByName(s)) == multiset(s)
    decreases |s|
  {
    if s != [] {
      SortByNameCorrect(s[1..]);
      InsertSorted(s[0], SortByName(s[1..]));
      assert s == [s[0]] + s[1..];
    }
  }

  /** `_byType` after sorting every bucket. */
  function SortedBuckets(fs: seq<Feature>): map<Value, seq<Feature>> {
    var b := Buckets(fs);
    map t | t in b :: SortByName(b[t])
  }

  /** `_all` is ordered by name and holds exactly the kept features. */
  lemma AllSorted(kept: seq<Feature>)
    ensures Sorted(SortByName(kept)) && multiset(SortByName(kept)) == multiset(kept)
  {
    SortByNameCorrect(kept);
  }

  /**
   * Every sorted bucket is ordered by name, is a reordering of the kept
   * features of its type, and holds only features of `_all` of that type.
   */
  lemma SortedBucketAgrees(kept: seq<Feature>, t: Value)
    requires t in SortedBuckets(kept)
    ensures Sorted(SortedBuckets(kept)[t]) && multiset(SortedBuckets(kept)[t]) == multiset(OfType(kept, t))
    ensures forall f :: f in SortedBuckets(kept)[t] ==> f in SortByName(kept) && TypeKey(f) == t
  {
    var bucket := Buckets(kept)[t];
    assert SortedBuckets(kept)[t] == SortByName(bucket);
    BucketsAreTypes(kept);
    SortByNameCorrect(bucket);
    SortByNameCorrect(kept);
    OfTypeMembers(kept, t);
    forall f | f in SortByName(bucket) ensures f in SortByName(kept) && TypeKey(f) == t {
      assert f in multiset(SortByName(bucket));
      assert f in bucket;
      assert f in multiset(kept);
    }
  }

  /** Every feature of `_all` is in the sorted bucket of its type. */
  lemma FeatureInItsBucket(kept: seq<Feature>, f: Feature)
    requires f in SortByName(kept)
    ensures TypeKey(f) in SortedBuckets(kept) && f in SortedBuckets(kept)[TypeKey(f)]
  {
    SortByNameCorrect(kept);
    assert f in multiset(SortByName(kept));
    assert f in kept;
    ExactlyOneBucket(kept, f);
    var bucket := Buckets(kept)[TypeKey(f)];
    assert SortedBuckets(kept)[TypeKey(f)] == SortByName(bucket);
    SortByNameCorrect(bucket);
    assert f in multiset(bucket);
    assert f in multiset(SortByName(bucket));
  }

  // ---------------------------------------------------------------
  // Esri JSON
  // ---------------------------------------------------------------

  /** An Esri geometry: point coordinates when numeric, polyline paths, polygon rings. */
  datatype EsriGeometry = EsriGeometry(x: Option<real>, y: Option<real>, paths: Option<Coords>, rings: Option<Coords>)

  /** An Esri JSON feature: `{ attributes, geometry }`. */
  datatype EsriRecord = EsriRecord(attributes: Option<Props>, geometry: Option<EsriGeometry>)

  /** `{ type: 'Feature', properties: f?.attributes || {}, geometry: null }` */
  function AttributesOnly(r: EsriRecord): Feature {
    Feature(if r.attributes.Some? then r.attributes.value else map[], None)
  }

  function AttributesOnlyAll(rs: seq<EsriRecord>): seq<Feature>
    decreases |rs|
  {
    if rs == [] then [] else [AttributesOnly(rs[0])] + AttributesOnlyAll(rs[1..])
  }

  /** `normalizeEsriJsonToFeatures(esriJson)`, given `esriJson?.features` */
  function NormalizeEsriJson(features: Option<seq<EsriRecord>>): seq<Feature> {
    var rs := if features.Some? then features.value else [];
    Kept(AttributesOnlyAll(rs))
  }

  /**
   * Normalising keeps exactly the records with an OBJECTID, with their
   * attributes as properties and no geometry; a missing list gives none.
   */
  lemma NormalizeEsriJsonExactly(features: Option<seq<EsriRecord>>)
    ensures features.None? ==> NormalizeEsriJson(features) == []
    ensures forall f :: f in NormalizeEsriJson(features) ==> HasObjectId(f) && f.geometry.None?
    ensures features.Some? ==> forall i :: 0 <= i < |features.value| ==>
      (features.value[i].attributes.Some? && HasObjectId(Feature(features.value[i].attributes.value, None)))
      ==> Feature(features.value[i].attributes.value, None) in NormalizeEsriJson(features)
  {
    var rs := if features.Some? then features.value else [];
    AttributesOnlyAllShape(rs);
    KeptExactly(AttributesOnlyAll(rs));
  }

  lemma {:induction false} AttributesOnlyAllShape(rs: seq<EsriRecord>)
    ensures |AttributesOnlyAll(rs)| == |rs|
    ensures forall i :: 0 <= i < |rs| ==> AttributesOnlyAll(rs)[i] == AttributesOnly(rs[i])
    decreases |rs|
  {
    if rs != [] {
      AttributesOnlyAllShape(rs[1..]);
    }
  }

  /** The geometry conversion of `fetchProjectById`: point, else paths, else rings, else none. */
  function ToGeoJson(g: Option<EsriGeometry>): Option<Geometry> {
    if g.None? then None
    else if g.value.x.Some? && g.value.y.Some? then Some(Point([g.value.x.value, g.value.y.value]))
    else if g.value.paths.Some? then Some(MultiLineString(g.value.paths.value))
    else if g.value.rings.Some? then Some(Polygon(g.value.rings.value))
    else None
  }

  /** The Esri geometry a GeoJSON geometry comes from (for the three shapes converted). */
  function ToEsri(geo: Geometry): Option<EsriGeometry> {
    match geo
    case Point(p) => if |p| == 2 then Some(EsriGeometry(Some(p[0]), Some(p[1]), None, None)) else None
    case MultiLineString(lines) => Some(EsriGeometry(None, None, Some(lines), None))
    case Polygon(rings) => Some(EsriGeometry(None, None, None, Some(rings)))
    case OtherGeometry(_) => None
  }

  /** Converting an Esri geometry back gives the GeoJSON geometry it came from. */
  lemma GeoJsonRoundTrip(geo: Geometry)
    requires ToEsri(geo).Some?
    ensures ToGeoJson(ToEsri(geo)) == Some(geo)
  {
    if geo.Point? {
      assert [geo.position[0], geo.position[1]] == geo.position;
    }
  }

  /**
   * The order of the tests: numeric coordinates win over paths, paths
   * over rings, and a geometry with none of them converts to nothing.
   */
  lemma ToGeoJsonOrder(g: EsriGeometry)
    ensures g.x.Some? && g.y.Some? ==> ToGeoJson(Some(g)).value.Point?
    ensures !(g.x.Some? && g.y.Some?) && g.paths.Some? ==> ToGeoJson(Some(g)) == Some(MultiLineString(g.paths.value))
    ensures !(g.x.Some? && g.y.Some?) && g.paths.None? && g.rings.Some? ==> ToGeoJson(Some(g)) == Some(Polygon(g.rings.value))
    ensures ToGeoJson(Some(g)).None? <==> !(g.x.Some? && g.y.Some?) && g.paths.None? && g.rings.None?
  {
  }

  // ---------------------------------------------------------------
  // Single-project fetch
  // ---------------------------------------------------------------

  /** What the GeoJSON query gave: a throw, a non-OK status, or a body. */
  datatype GeoJsonReply = GeoThrew | GeoNotOk | GeoBody(geoError: bool, geoFeatures: Option<seq<Feature>>)

  /** What the Esri JSON query gave. */
  datatype EsriReply = EsriThrew | EsriNotOk | EsriBody(esriError: bool, esriFeatures: Option<seq<EsriRecord>>)

  /** The first attempt settles the answer when it returned a body without an error. */
  predicate FirstAttemptAnswers(r1: GeoJsonReply) {
    r1.GeoBody? && !r1.geoError
  }

  /**
   * `fetchProjectById`: no service URL gives null; a GeoJSON body without
   * error gives its first feature (or null); otherwise the Esri JSON
   * fallback gives its first record converted, or null on any failure.
   */
  function FetchProjectById(hasBase: bool, r1: GeoJsonReply, r2: EsriReply): Option<Feature> {
    if !hasBase then None
    else if FirstAttemptAnswers(r1) then
      (if r1.geoFeatures.Some? && |r1.geoFeatures.value| > 0 then Some(r1.geoFeatures.value[0]) else None)
    else if !r2.EsriBody? || r2.esriError then None
    else if r2.esriFeatures.None? || |r2.esriFeatures.value| == 0 then None
    else
      var f0 := r2.esriFeatures.value[0];
      Some(Feature(if f0.attributes.Some? then f0.attributes.value else map[], ToGeoJson(f0.geometry)))
  }

  /**
   * The fallback is consulted only when the first attempt did not answer;
   * a fallback feature keeps its attributes and carries the converted
   * geometry.
   */
  lemma FetchFallbackOnlyWhenNeeded(hasBase: bool, r1: GeoJsonReply, r2: EsriReply, r2': EsriReply)
    ensures FirstAttemptAnswers(r1) ==> FetchProjectById(hasBase, r1, r2) == FetchProjectById(hasBase, r1, r2')
    ensures !hasBase ==> FetchProjectById(hasBase, r1, r2).None?
    ensures hasBase && !FirstAttemptAnswers(r1) && FetchProjectById(hasBase, r1, r2).Some? ==>
      r2.EsriBody? && !r2.esriError && r2.esriFeatures.Some? && |r2.esriFeatures.value| > 0
      && FetchProjectById(hasBase, r1, r2).value.geometry == ToGeoJson(r2.esriFeatures.value[0].geometry)
  {
  }

  // ---------------------------------------------------------------
  // Project-type filter
  // ---------------------------------------------------------------

  /** `buildWhereForProjectType(projectType)` */
  function BuildWhereForProjectType(projectType: Value): string {
    if !Truthy(projectType) then "1=1" else EqualsLiteral("project_type", projectType)
  }

  /** A falsy type shows everything; any other type gives a filter that names exactly that type. */
  lemma BuildWhereForProjectTypeMeaning(projectType: Value)
    ensures !Truthy(projectType) ==> BuildWhereForProjectType(projectType) == "1=1"
    ensures Truthy(projectType) ==>
      ParseEqualsLiteral(BuildWhereForProjectType(projectType), "project_type") == Some(ToStr(projectType))
  {
    if Truthy(projectType) {
      EqualsLiteralRoundTrip("project_type", projectType);
    }
  }

  // ---------------------------------------------------------------
  // The cache
  // ---------------------------------------------------------------

  /** The loop of `buildIndexes`: `_byId.set(id, f)` and a push onto the type's bucket, per kept feature. */
  method IndexPass(kept: seq<Feature>) returns (ids: map<JsNum, Feature>, buckets: map<Value, seq<Feature>>)
    ensures ids == IdIndex(kept) && buckets == Buckets(kept)
  {
    ids := map[];
    buckets := map[];
    var i := 0;
    while i < |kept|
      invariant 0 <= i <= |kept|
      invariant ids == IdIndex(kept[..i])
      invariant buckets == Buckets(kept[..i])
    {
      var f := kept[i];
      IndexStep(kept, i);
      ids := ids[IdKey(f) := f];
      var t := TypeKey(f);
      if t !in buckets {
        buckets := buckets[t := []];
      }
      buckets := buckets[t := buckets[t] + [f]];
      i := i + 1;
    }
    assert kept[..|kept|] == kept;
  }

  lemma IndexStep(kept: seq<Feature>, i: int)
    requires 0 <= i < |kept|
    ensures IdIndex(kept[..i + 1]) == IdIndex(kept[..i])[IdKey(kept[i]) := kept[i]]
    ensures var b := Buckets(kept[..i]);
      Buckets(kept[..i + 1]) == b[TypeKey(kept[i]) := (if TypeKey(kept[i]) in b then b[TypeKey(kept[i])] else []) + [kept[i]]]
  {
    assert kept[..i + 1][..i] == kept[..i];
  }

  class ProjectsService {
    /** `_all` */
    var all: seq<Feature>
    /** `_byType` */
    var byType: map<Value, seq<Feature>>
    /** `_byId` */
    var byId: map<JsNum, Feature>
    /** `_cachePromise` */
    const cachePromise: PromiseMemo

    constructor ()
      ensures all == [] && byType == map[] && byId == map[]
      ensures fresh(cachePromise) && cachePromise.View() == MemoView(None, 0)
    {
      all := [];
      byType := map[];
      byId := map[];
      cachePromise := new PromiseMemo();
    }

    /**
     * `buildIndexes(features)`: filter, index in one pass, then sort `_all`
     * and every bucket; `thrown` when sorting `_all` throws, which leaves the
     * id index built and the buckets unsorted.
     */
    method BuildIndexes(features: Option<seq<Feature>>) returns (thrown: bool)
      modifies this
      ensures var kept := Kept(if features.Some? then features.value else []);
        (thrown <==> SortThrows(kept)) && byId == IdIndex(kept)
        && (!thrown ==> all == SortByName(kept) && byType == SortedBuckets(kept))
        && (thrown ==> byType == Buckets(kept))
    {
      var kept := Kept(if features.Some? then features.value else []);
      all := kept;
      var ids, buckets := IndexPass(kept);
      byId := ids;
      byType := buckets;
      if SortThrows(kept) {
        // `sortFeaturesByName(_all)` throws before any bucket is sorted
        return true;
      }
      all := SortByName(kept);
      byType := map t | t in buckets :: SortByName(buckets[t]);
      return false;
    }

    /**
     * The query response of `loadCacheViaRestFetch`: normalise, then index;
     * `thrown` when indexing throws, which rejects the load.
     */
    method CacheLoaded(features: Option<seq<EsriRecord>>) returns (thrown: bool)
      modifies this
      ensures var kept := NormalizeEsriJson(features);
        (thrown <==> SortThrows(kept)) && byId == IdIndex(kept)
        && (!thrown ==> all == SortByName(kept) && byType == SortedBuckets(kept))
        && (thrown ==> byType == Buckets(kept))
    {
      var feats := NormalizeEsriJson(features);
      assert Kept(feats) == feats by { KeptOfKept(AttributesOnlyAll(if features.Some? then features.value else [])); }
      thrown := BuildIndexes(Some(feats));
    }

    /** `loadProjectsOnce()`: the cached promise, or a new load that is cached. */
    method LoadProjectsOnce() returns (p: nat, started: bool)
      requires MemoValid(cachePromise.View())
      modifies cachePromise
      ensures MemoValid(cachePromise.View())
      ensures (cachePromise.View(), p) == LoadView(old(cachePromise.View()))
      ensures started <==> old(cachePromise.cached).None?
    {
      p, started := cachePromise.Load();
    }

    /** The load's `.catch`: forget the promise so the next call retries. */
    method LoadFailed()
      requires MemoValid(cachePromise.View())
      modifies cachePromise
      ensures MemoValid(cachePromise.View()) && cachePromise.View() == FailView(old(cachePromise.View()))
    {
      cachePromise.Fail();
    }

    /** `getCachedById(objectId)`: the feature indexed under `Number(objectId)`, or null. */
    function GetCachedById(objectId: Value): (r: Option<Feature>)
      reads this
      ensures r.Some? <==> ToNumber(objectId) in byId
    {
      var k := ToNumber(objectId);
      if k in byId then Some(byId[k]) else None
    }

    /** `getFeaturesForPane(paneConfig)`, given `paneConfig?.projectType` */
    function GetFeaturesForPane(projectType: Value): (r: seq<Feature>)
      reads this
      ensures !Truthy(projectType) ==> r == all
      ensures Truthy(projectType) && projectType !in byType ==> r == []
    {
      if !Truthy(projectType) then all
      else if projectType in byType then byType[projectType] else []
    }
  }

  lemma {:induction false} KeptOfKept(fs: seq<Feature>)
    ensures Kept(Kept(fs)) == Kept(fs)
    decreases |fs|
  {
    if fs != [] {
      KeptOfKept(fs[1..]);
      var head := if HasObjectId(fs[0]) then [fs[0]] else [];
      KeptConcat(head, Kept(fs[1..]));
    }
  }

  /**
   * After indexing, looking a number up gives the last kept feature with
   * that number, and nothing for a number no kept feature has.
   */
  lemma CachedByIdAfterIndexing(kept: seq<Feature>, objectId: Value)
    ensures var k := ToNumber(objectId);
      (k in IdIndex(kept) <==> exists i :: 0 <= i < |kept| && IdKey(kept[i]) == k)
      && forall i :: 0 <= i < |kept| && IdKey(kept[i]) == k && (forall j :: i < j < |kept| ==> IdKey(kept[j]) != k) ==>
           IdIndex(kept)[k] == kept[i]
  {
    IdIndexKeys(kept);
    forall i | 0 <= i < |kept| && IdKey(kept[i]) == ToNumber(objectId)
        && (forall j :: i < j < |kept| ==> IdKey(kept[j]) != ToNumber(objectId))
      ensures IdIndex(kept)[ToNumber(objectId)] == kept[i]
    {
      IdIndexLast(kept, i);
    }
  }
}
