/**
 * SSUShaderBase: a component whose attributed fields mirror the properties
 * and keywords of a material. Start copies the material's values into the
 * fields and sets the keywords; ApplyMaterialChanges, run from Update or
 * LateUpdate as UpdateType says, writes to the material only the properties
 * whose value changed since they were last written, and only the keywords
 * that changed, and reports every property change to its listeners.
 */
module SSUShaderBase {
  import opened Wrappers
  import opened SSUValues
  import opened SSUReflection

  /** SSUUpdateType: None, Update, LateUpdate. */
  datatype SSUUpdateType = NoSync | SyncInUpdate | SyncInLateUpdate

  /** The boxed value of a component field; VNull is a null reference, VOther an object of a type with no setter. */
  datatype FieldValue =
    | VBool(b: bool)
    | VFloat(f: real)
    | VInt(i: int)
    | VEnum(ordinal: int)
    | VColor(c: Vec4)
    | VVector2(x: real, y: real)
    | VVector4(v: Vec4)
    | VTexture(tex: TexRef)
    | VNull
    | VOther(id: nat)

  /** A field holds a value of its declared type; only reference-typed fields may be null. */
  predicate Conforms(kind: FieldKind, v: FieldValue) {
    match kind
    case KBool => v.VBool?
    case KFloat => v.VFloat?
    case KInt => v.VInt?
    case KEnum => v.VEnum?
    case KColor => v.VColor?
    case KVector2 => v.VVector2?
    case KVector4 => v.VVector4?
    case KTexture => v.VTexture? || v.VNull?
    case KOther => v.VOther? || v.VNull?
  }

  /** A value stored in a material property. */
  datatype MatValue =
    | MFloat(f: real)
    | MInt(i: int)
    | MColor(c: Vec4)
    | MVector(v: Vec4)
    | MTexture(tex: Option<TexRef>)

  /** A call that changes a material: a Set* of a property, or EnableKeyword / DisableKeyword. */
  datatype MatWrite = SetProperty(name: string, value: MatValue) | SetKeyword(keyword: string, enabled: bool)

  /** One OnSSUPropertyChanged notification: the name, the previously cached value (null if none) and the new one. */
  datatype Change = Change(name: string, previous: FieldValue, value: FieldValue)

  /** ApplyToMaterial dereferences a null value while formatting its warning: a NullReferenceException. */
  datatype SyncError = NullFieldValue

  /**
   * ApplyToMaterial's type dispatch: the value a field value is written as
   * (bool as the float 1 or 0, an enum as its integer, a Vector2 padded with
   * two zeros), nothing for a type it does not recognise, and an exception
   * for null.
   */
  function MaterialValueOf(v: FieldValue): (r: Result<Option<MatValue>, SyncError>)
    ensures r.Err? <==> v.VNull?
    ensures r.Ok? && r.value.None? <==> v.VOther?
    ensures v.VBool? ==> r == Ok(Some(MFloat(if v.b then 1.0 else 0.0)))
    ensures v.VEnum? ==> r == Ok(Some(MInt(v.ordinal)))
    ensures v.VVector2? ==> r == Ok(Some(MVector(Vec4(v.x, v.y, 0.0, 0.0))))
    ensures v.VFloat? ==> r == Ok(Some(MFloat(v.f)))
    ensures v.VInt? ==> r == Ok(Some(MInt(v.i)))
    ensures v.VColor? ==> r == Ok(Some(MColor(v.c)))
    ensures v.VVector4? ==> r == Ok(Some(MVector(v.v)))
    ensures v.VTexture? ==> r == Ok(Some(MTexture(Some(v.tex))))
  {
    match v
    case VBool(b) => Ok(Some(MFloat(if b then 1.0 else 0.0)))
    case VColor(c) => Ok(Some(MColor(c)))
    case VEnum(e) => Ok(Some(MInt(e)))
    case VFloat(f) => Ok(Some(MFloat(f)))
    case VInt(i) => Ok(Some(MInt(i)))
    case VTexture(t) => Ok(Some(MTexture(Some(t))))
    case VVector2(x, y) => Ok(Some(MVector(Vec4(x, y, 0.0, 0.0))))
    case VVector4(v4) => Ok(Some(MVector(v4)))
    case VOther(_) => Ok(None)
    case VNull => Err(NullFieldValue)
  }

  /**
   * What InitializeProperties reads from the material for a field of the
   * given kind: float, Color, Vector4, Vector2 (the first two components)
   * and non-null textures; nothing for the other kinds.
   */
  function ReadField(kind: FieldKind, m: MatValue): (r: Option<FieldValue>)
    ensures r.Some? ==> Conforms(kind, r.value) && !r.value.VNull?
    ensures r.None? <==> kind !in {KFloat, KColor, KVector4, KVector2, KTexture}
                         || (kind == KTexture && !(m.MTexture? && m.tex.Some?))
  {
    match kind
    case KFloat => Some(VFloat(if m.MFloat? then m.f else 0.0))
    case KColor => Some(VColor(if m.MColor? then m.c else Vec4(0.0, 0.0, 0.0, 0.0)))
    case KVector4 => Some(VVector4(if m.MVector? then m.v else Vec4(0.0, 0.0, 0.0, 0.0)))
    case KVector2 =>
      var v := if m.MVector? then m.v else Vec4(0.0, 0.0, 0.0, 0.0);
      Some(VVector2(v.x, v.y))
    case KTexture => if m.MTexture? && m.tex.Some? then Some(VTexture(m.tex.value)) else None
    case _ => None
  }

  /**
   * Reading a property into its field and writing the field back gives the
   * material value again, except for a Vector2 field, which loses the last
   * two components of the vector.
   */
  lemma ReadThenWrite(kind: FieldKind, m: MatValue)
    requires (kind == KFloat && m.MFloat?) || (kind == KColor && m.MColor?) || (kind == KVector4 && m.MVector?)
             || (kind == KVector2 && m.MVector?) || (kind == KTexture && m.MTexture? && m.tex.Some?)
    ensures ReadField(kind, m).Some?
    ensures kind != KVector2 ==> MaterialValueOf(ReadField(kind, m).value) == Ok(Some(m))
    ensures kind == KVector2 ==> MaterialValueOf(ReadField(kind, m).value) == Ok(Some(MVector(Vec4(m.v.x, m.v.y, 0.0, 0.0))))
  {
  }

  // ---------------------------------------------------------------------
  // Property synchronisation, as a function of the state it works on
  // ---------------------------------------------------------------------

  /** The material's property values and its write log, the value cache and the notifications sent. */
  datatype PropSync = PropSync(mat: map<string, MatValue>, log: seq<MatWrite>, cache: map<string, FieldValue>, changes: seq<Change>)

  /** Where property synchronisation stopped: its state, and the exception that ended it early, if any. */
  datatype PropOutcome = PropOutcome(state: PropSync, error: Option<SyncError>)

  /**
   * The visit of one property: skipped when the material lacks it, and when
   * the cached value equals the field value; otherwise written (if the type
   * is recognised), cached and notified with the previous cached value.
   */
  function SyncProperty(name: string, v: FieldValue, s: PropSync): Result<PropSync, SyncError> {
    if name !in s.mat then Ok(s)
    else if name in s.cache && s.cache[name] == v then Ok(s)
    else
      var previous := if name in s.cache then s.cache[name] else VNull;
      match MaterialValueOf(v)
      case Err(e) => Err(e)
      case Ok(w) =>
        var mat := if w.Some? then s.mat[name := w.value] else s.mat;
        var log := if w.Some? then s.log + [SetProperty(name, w.value)] else s.log;
        Ok(PropSync(mat, log, s.cache[name := v], s.changes + [Change(name, previous, v)]))
  }

  /** Every property refers to one of the fields. */
  predicate PropsInRange(props: seq<PropRef>, n: nat) {
    forall k :: 0 <= k < |props| ==> props[k].field < n
  }

  /** The visits of properties i, i + 1, ... in order; an exception ends them. */
  function SyncFrom(props: seq<PropRef>, i: nat, values: seq<FieldValue>, s: PropSync): PropOutcome
    requires PropsInRange(props, |values|)
    decreases |props| - i
  {
    if i >= |props| then PropOutcome(s, None)
    else
      match SyncProperty(props[i].fullName, values[props[i].field], s)
      case Err(e) => PropOutcome(s, Some(e))
      case Ok(s') => SyncFrom(props, i + 1, values, s')
  }

  /** What a single visit does, case by case. */
  lemma SyncPropertyCases(name: string, v: FieldValue, s: PropSync)
    ensures name !in s.mat ==> SyncProperty(name, v, s) == Ok(s)
    ensures name in s.cache && s.cache[name] == v ==> SyncProperty(name, v, s) == Ok(s)
    ensures name in s.mat && (name !in s.cache || s.cache[name] != v) ==>
              && (SyncProperty(name, v, s).Err? <==> v.VNull?)
              && (!v.VNull? ==>
                    var s' := SyncProperty(name, v, s).value;
                    && s'.cache == s.cache[name := v]
                    && s'.changes == s.changes + [Change(name, if name in s.cache then s.cache[name] else VNull, v)]
                    && (v.VOther? ==> s'.mat == s.mat && s'.log == s.log)
                    && (!v.VOther? ==> s'.mat == s.mat[name := MaterialValueOf(v).value.value]
                                       && s'.log == s.log + [SetProperty(name, MaterialValueOf(v).value.value)]))
  {
  }

  /** Property names are pairwise distinct. */
  predicate DistinctNames(props: seq<PropRef>) {
    forall k1, k2 :: 0 <= k1 < k2 < |props| ==> props[k1].fullName != props[k2].fullName
  }

  /** Every property from i on that the material has is cached with its field's current value. */
  predicate Settled(props: seq<PropRef>, i: nat, values: seq<FieldValue>, s: PropSync)
    requires PropsInRange(props, |values|)
  {
    forall k :: i <= k < |props| && props[k].fullName in s.mat ==>
      props[k].fullName in s.cache && s.cache[props[k].fullName] == values[props[k].field]
  }

  /** A visit keeps the set of material properties, and touches the cache only at its own name. */
  lemma SyncPropertyFrame(name: string, v: FieldValue, s: PropSync)
    requires SyncProperty(name, v, s).Ok?
    ensures SyncProperty(name, v, s).value.mat.Keys == s.mat.Keys
    ensures forall n :: n != name ==>
              (n in SyncProperty(name, v, s).value.cache <==> n in s.cache)
              && (n in s.cache ==> SyncProperty(name, v, s).value.cache[n] == s.cache[n])
    ensures name in s.mat ==>
              name in SyncProperty(name, v, s).value.cache && SyncProperty(name, v, s).value.cache[name] == v
  {
  }

  /** The properties from i on keep the set of material properties and touch the cache only at their own names. */
  lemma {:induction false} SyncFromFrame(props: seq<PropRef>, i: nat, values: seq<FieldValue>, s: PropSync, n: string)
    requires PropsInRange(props, |values|)
    requires forall k :: i <= k < |props| ==> props[k].fullName != n
    ensures SyncFrom(props, i, values, s).state.mat.Keys == s.mat.Keys
    ensures n in SyncFrom(props, i, values, s).state.cache <==> n in s.cache
    ensures n in s.cache ==> SyncFrom(props, i, values, s).state.cache[n] == s.cache[n]
    decreases |props| - i
  {
    if i < |props| {
      var r := SyncProperty(props[i].fullName, values[props[i].field], s);
      if r.Ok? {
        SyncPropertyFrame(props[i].fullName, values[props[i].field], s);
        SyncFromFrame(props, i + 1, values, r.value, n);
      }
    }
  }

  /** A synchronisation that completes leaves every property it visited settled. */
  lemma {:induction false} SyncSettles(props: seq<PropRef>, i: nat, values: seq<FieldValue>, s: PropSync)
    requires PropsInRange(props, |values|) && DistinctNames(props)
    requires SyncFrom(props, i, values, s).error.None?
    ensures Settled(props, i, values, SyncFrom(props, i, values, s).state)
    decreases |props| - i
  {
    if i < |props| {
      var name := props[i].fullName;
      var r := SyncProperty(name, values[props[i].field], s);
      var s' := r.value;
      var f := SyncFrom(props, i + 1, values, s').state;
      SyncSettles(props, i + 1, values, s');
      SyncPropertyFrame(name, values[props[i].field], s);
      SyncFromFrame(props, i + 1, values, s', name);
      if name in f.mat {
        assert name in s.mat;
        assert name in s'.cache && s'.cache[name] == values[props[i].field];
      }
    }
  }

  /** Settled properties are all skipped: nothing is written, cached or notified. */
  lemma {:induction false} SettledSyncIsNoOp(props: seq<PropRef>, i: nat, values: seq<FieldValue>, s: PropSync)
    requires PropsInRange(props, |values|)
    requires Settled(props, i, values, s)
    ensures SyncFrom(props, i, values, s) == PropOutcome(s, None)
    decreases |props| - i
  {
    if i < |props| {
      assert SyncProperty(props[i].fullName, values[props[i].field], s) == Ok(s);
      SettledSyncIsNoOp(props, i + 1, values, s);
    }
  }

  /**
   * With distinct property names, synchronising twice with no field change
   * in between: the second pass writes nothing, caches nothing new and
   * sends no notification.
   */
  lemma SyncIdempotent(props: seq<PropRef>, values: seq<FieldValue>, s: PropSync)
    requires PropsInRange(props, |values|) && DistinctNames(props)
    requires SyncFrom(props, 0, values, s).error.None?
    ensures SyncFrom(props, 0, values, SyncFrom(props, 0, values, s).state)
              == PropOutcome(SyncFrom(props, 0, values, s).state, None)
  {
    SyncSettles(props, 0, values, s);
    SettledSyncIsNoOp(props, 0, values, SyncFrom(props, 0, values, s).state);
  }

  /** A null value is never cached: reaching it while the material has the property always throws. */
  lemma {:induction false} NullNeverCached(props: seq<PropRef>, i: nat, values: seq<FieldValue>, s: PropSync)
    requires PropsInRange(props, |values|)
    requires forall n :: n in s.cache ==> !s.cache[n].VNull?
    ensures forall n :: n in SyncFrom(props, i, values, s).state.cache ==> !SyncFrom(props, i, values, s).state.cache[n].VNull?
    ensures forall k :: i <= k < |props| && props[k].fullName in s.mat && values[props[k].field].VNull? ==>
              SyncFrom(props, i, values, s).error == Some(NullFieldValue)
    decreases |props| - i
  {
    if i < |props| {
      var r := SyncProperty(props[i].fullName, values[props[i].field], s);
      if r.Ok? {
        NullNeverCached(props, i + 1, values, r.value);
        SyncPropertyFrame(props[i].fullName, values[props[i].field], s);
      }
    }
  }

  // ---------------------------------------------------------------------
  // Keyword synchronisation
  // ---------------------------------------------------------------------

  /** The material's enabled keywords and its write log, and the keyword cache. */
  datatype KwSync = KwSync(keywords: set<string>, log: seq<MatWrite>, cache: map<string, bool>)

  /** The state a keyword field asks for: the field itself if it is a bool, otherwise the attribute's initial state. */
  function KeywordValue(kw: KeywordRef, fields: seq<Field>, values: seq<FieldValue>): bool
    requires kw.field < |fields| == |values|
  {
    var v := values[kw.field];
    if fields[kw.field].kind == KBool && v.VBool? then v.b else kw.attr.InitialState
  }

  /** EnableKeyword or DisableKeyword. */
  function SetKeywordIn(s: KwSync, name: string, value: bool): (r: KwSync)
    ensures r.keywords == if value then s.keywords + {name} else s.keywords - {name}
    ensures r.log == s.log + [SetKeyword(name, value)] && r.cache == s.cache
  {
    KwSync(if value then s.keywords + {name} else s.keywords - {name}, s.log + [SetKeyword(name, value)], s.cache)
  }

  /** The keyword visit of ApplyMaterialChanges: a missing cache entry counts as the opposite of the value. */
  function SyncKeyword(name: string, value: bool, s: KwSync): KwSync {
    var previous := if name in s.cache then s.cache[name] else !value;
    if previous != value then
      var w := SetKeywordIn(s, name, value);
      w.(cache := w.cache[name := value])
    else s
  }

  /** Every keyword refers to one of the fields. */
  predicate KeywordsInRange(kws: seq<KeywordRef>, n: nat) {
    forall k :: 0 <= k < |kws| ==> kws[k].field < n
  }

  function SyncKeywordsFrom(kws: seq<KeywordRef>, i: nat, fields: seq<Field>, values: seq<FieldValue>, s: KwSync): KwSync
    requires |fields| == |values| && KeywordsInRange(kws, |values|)
    decreases |kws| - i
  {
    if i >= |kws| then s
    else
      var kw := kws[i];
      var value := KeywordValue(kw, fields, values);
      SyncKeywordsFrom(kws, i + 1, fields, values, SyncKeyword(kw.attr.KeywordName, value, s))
  }

  /** InitializeKeywords: every keyword is set, cached or not, and the cache is left alone. */
  function InitKeywordsFrom(kws: seq<KeywordRef>, i: nat, fields: seq<Field>, values: seq<FieldValue>, s: KwSync): KwSync
    requires |fields| == |values| && KeywordsInRange(kws, |values|)
    decreases |kws| - i
  {
    if i >= |kws| then s
    else
      var kw := kws[i];
      var value := KeywordValue(kw, fields, values);
      InitKeywordsFrom(kws, i + 1, fields, values, SetKeywordIn(s, kw.attr.KeywordName, value))
  }

  /** The keyword writes of a pass from keyword i on: one per keyword, in order. */
  function KeywordWrites(kws: seq<KeywordRef>, i: nat, fields: seq<Field>, values: seq<FieldValue>): seq<MatWrite>
    requires |fields| == |values| && KeywordsInRange(kws, |values|)
    decreases |kws| - i
  {
    if i >= |kws| then []
    else
      var kw := kws[i];
      [SetKeyword(kw.attr.KeywordName, KeywordValue(kw, fields, values))]
        + KeywordWrites(kws, i + 1, fields, values)
  }

  /** Keyword names are pairwise distinct. */
  predicate DistinctKeywords(kws: seq<KeywordRef>) {
    forall k1, k2 :: 0 <= k1 < k2 < |kws| ==> kws[k1].attr.KeywordName != kws[k2].attr.KeywordName
  }

  /** No keyword from i on is cached. */
  predicate NoneCached(kws: seq<KeywordRef>, i: nat, cache: map<string, bool>) {
    forall k :: i <= k < |kws| ==> kws[k].attr.KeywordName !in cache
  }

  /** InitializeKeywords writes every keyword, in order, and fills no cache entry. */
  lemma {:induction false} InitWritesEveryKeyword(kws: seq<KeywordRef>, i: nat, fields: seq<Field>, values: seq<FieldValue>, s: KwSync)
    requires |fields| == |values| && KeywordsInRange(kws, |values|)
    ensures InitKeywordsFrom(kws, i, fields, values, s).log == s.log + KeywordWrites(kws, i, fields, values)
    ensures InitKeywordsFrom(kws, i, fields, values, s).cache == s.cache
    decreases |kws| - i
  {
    if i < |kws| {
      var kw := kws[i];
      var value := KeywordValue(kw, fields, values);
      var s' := SetKeywordIn(s, kw.attr.KeywordName, value);
      InitWritesEveryKeyword(kws, i + 1, fields, values, s');
      assert KeywordWrites(kws, i, fields, values) == [SetKeyword(kw.attr.KeywordName, value)] + KeywordWrites(kws, i + 1, fields, values);
      assert s'.log + KeywordWrites(kws, i + 1, fields, values) == s.log + KeywordWrites(kws, i, fields, values);
    }
  }

  /**
   * The first synchronisation of keywords nobody cached writes every one of
   * them, in order, whatever the material already holds (InitializeKeywords
   * included).
   */
  lemma {:induction false} FirstKeywordSyncWritesAll(kws: seq<KeywordRef>, i: nat, fields: seq<Field>, values: seq<FieldValue>, s: KwSync)
    requires |fields| == |values| && KeywordsInRange(kws, |values|)
    requires DistinctKeywords(kws) && NoneCached(kws, i, s.cache)
    ensures SyncKeywordsFrom(kws, i, fields, values, s).log == s.log + KeywordWrites(kws, i, fields, values)
    decreases |kws| - i
  {
    if i < |kws| {
      var kw := kws[i];
      var value := KeywordValue(kw, fields, values);
      var s' := SyncKeyword(kw.attr.KeywordName, value, s);
      assert s'.cache == s.cache[kw.attr.KeywordName := value];
      assert NoneCached(kws, i + 1, s'.cache);
      FirstKeywordSyncWritesAll(kws, i + 1, fields, values, s');
      assert s'.log == s.log + [SetKeyword(kw.attr.KeywordName, value)];
      assert KeywordWrites(kws, i, fields, values) == [SetKeyword(kw.attr.KeywordName, value)] + KeywordWrites(kws, i + 1, fields, values);
    }
  }

  /** Every keyword from i on is cached with the value its field asks for. */
  predicate KeywordsSettled(kws: seq<KeywordRef>, i: nat, fields: seq<Field>, values: seq<FieldValue>, cache: map<string, bool>)
    requires |fields| == |values| && KeywordsInRange(kws, |values|)
  {
    forall k :: i <= k < |kws| ==>
      kws[k].attr.KeywordName in cache
      && cache[kws[k].attr.KeywordName] == KeywordValue(kws[k], fields, values)
  }

  /** A keyword pass caches every keyword it visits with its value (names distinct). */
  lemma {:induction false} KeywordSyncSettles(kws: seq<KeywordRef>, i: nat, fields: seq<Field>, values: seq<FieldValue>, s: KwSync)
    requires |fields| == |values| && KeywordsInRange(kws, |values|) && DistinctKeywords(kws)
    ensures KeywordsSettled(kws, i, fields, values, SyncKeywordsFrom(kws, i, fields, values, s).cache)
    ensures forall n :: (forall k :: i <= k < |kws| ==> kws[k].attr.KeywordName != n) ==>
              (n in SyncKeywordsFrom(kws, i, fields, values, s).cache <==> n in s.cache)
              && (n in s.cache ==> SyncKeywordsFrom(kws, i, fields, values, s).cache[n] == s.cache[n])
    decreases |kws| - i
  {
    if i < |kws| {
      var kw := kws[i];
      var value := KeywordValue(kw, fields, values);
      var s' := SyncKeyword(kw.attr.KeywordName, value, s);
      KeywordSyncSettles(kws, i + 1, fields, values, s');
      assert kw.attr.KeywordName in s'.cache && s'.cache[kw.attr.KeywordName] == value;
    }
  }

  /** A pass over settled keywords writes nothing. */
  lemma {:induction false} SettledKeywordSyncIsNoOp(kws: seq<KeywordRef>, i: nat, fields: seq<Field>, values: seq<FieldValue>, s: KwSync)
    requires |fields| == |values| && KeywordsInRange(kws, |values|)
    requires KeywordsSettled(kws, i, fields, values, s.cache)
    ensures SyncKeywordsFrom(kws, i, fields, values, s) == s
    decreases |kws| - i
  {
    if i < |kws| {
      SettledKeywordSyncIsNoOp(kws, i + 1, fields, values, s);
    }
  }

  /** Synchronising keywords twice with no field change in between: the second pass changes nothing. */
  lemma KeywordSyncIdempotent(kws: seq<KeywordRef>, fields: seq<Field>, values: seq<FieldValue>, s: KwSync)
    requires |fields| == |values| && KeywordsInRange(kws, |values|) && DistinctKeywords(kws)
    ensures var once := SyncKeywordsFrom(kws, 0, fields, values, s);
            SyncKeywordsFrom(kws, 0, fields, values, once) == once
  {
    KeywordSyncSettles(kws, 0, fields, values, s);
    SettledKeywordSyncIsNoOp(kws, 0, fields, values, SyncKeywordsFrom(kws, 0, fields, values, s));
  }

  // ---------------------------------------------------------------------
  // Initialisation of the fields from the material
  // ---------------------------------------------------------------------

  /** Property k is read into its field: the material has the property and the field's kind is one that is read. */
  predicate ReadsInto(props: seq<PropRef>, k: nat, fields: seq<Field>, mat: map<string, MatValue>)
    requires k < |props| && props[k].field < |fields|
  {
    props[k].fullName in mat && ReadField(fields[props[k].field].kind, mat[props[k].fullName]).Some?
  }

  /** Some property from i on is read into field j. */
  predicate FieldRead(props: seq<PropRef>, i: nat, fields: seq<Field>, mat: map<string, MatValue>, j: nat)
    requires PropsInRange(props, |fields|)
  {
    exists k :: i <= k < |props| && props[k].field == j && ReadsInto(props, k, fields, mat)
  }

  /**
   * InitializeProperties from property i on: a property the material has is
   * read into its field when its kind is read. With each field reported at
   * most once, every such field ends up holding the value read from the
   * material, and every other field keeps its value.
   */
  function InitFrom(props: seq<PropRef>, i: nat, fields: seq<Field>, mat: map<string, MatValue>, values: seq<FieldValue>): (r: seq<FieldValue>)
    requires |fields| == |values| && PropsInRange(props, |values|)
    ensures |r| == |values|
    ensures Increasing(props) ==>
              forall k :: i <= k < |props| && ReadsInto(props, k, fields, mat) ==>
                r[props[k].field] == ReadField(fields[props[k].field].kind, mat[props[k].fullName]).value
    ensures Increasing(props) ==>
              forall j :: 0 <= j < |values| && !FieldRead(props, i, fields, mat, j) ==> r[j] == values[j]
    decreases |props| - i
  {
    if i >= |props| then values
    else
      var p := props[i];
      var read := if p.fullName in mat then ReadField(fields[p.field].kind, mat[p.fullName]) else None;
      var values' := if read.Some? then values[p.field := read.value] else values;
      InitFrom(props, i + 1, fields, mat, values')
  }

  /** Well-typed fields stay well-typed through initialisation, and fields of kinds that are not read keep their values. */
  lemma {:induction false} InitKeepsKinds(props: seq<PropRef>, i: nat, fields: seq<Field>, mat: map<string, MatValue>, values: seq<FieldValue>)
    requires |fields| == |values| && PropsInRange(props, |values|)
    requires forall j :: 0 <= j < |fields| ==> Conforms(fields[j].kind, values[j])
    ensures forall j :: 0 <= j < |fields| ==> Conforms(fields[j].kind, InitFrom(props, i, fields, mat, values)[j])
    ensures forall j :: 0 <= j < |fields| && fields[j].kind in {KBool, KInt, KEnum, KOther} ==>
              InitFrom(props, i, fields, mat, values)[j] == values[j]
    decreases |props| - i
  {
    if i < |props| {
      var p := props[i];
      var read := if p.fullName in mat then ReadField(fields[p.field].kind, mat[p.fullName]) else None;
      var values' := if read.Some? then values[p.field := read.value] else values;
      InitKeepsKinds(props, i + 1, fields, mat, values');
    }
  }

  // ---------------------------------------------------------------------
  // A whole ApplyMaterialChanges call
  // ---------------------------------------------------------------------

  /** What ApplyMaterialChanges leaves: the exception, if any, the material, the two caches and the notifications sent. */
  datatype Applied = Applied(err: Option<SyncError>, mat: map<string, MatValue>, keywords: set<string>, log: seq<MatWrite>,
                             lastValues: map<string, FieldValue>, lastKeywords: map<string, bool>, changes: seq<Change>)

  /**
   * ApplyMaterialChanges from a given state: the property pass over the
   * reported properties, then, unless it threw, the keyword pass on the
   * material it left. After an exception the keywords and their cache are
   * untouched.
   */
  function ApplyChanges(fields: seq<Field>, values: seq<FieldValue>, ps: PropSync,
                        keywords: set<string>, lastKeywords: map<string, bool>): (r: Applied)
    requires |values| == |fields|
    ensures r.mat.Keys == ps.mat.Keys
    ensures r.err.Some? ==> r.keywords == keywords && r.lastKeywords == lastKeywords
    ensures r.err.None? && DistinctNames(ShaderProperties(fields)) ==>
              Settled(ShaderProperties(fields), 0, values, PropSync(r.mat, r.log, r.lastValues, r.changes))
  {
    var props := ShaderProperties(fields);
    var o := SyncFrom(props, 0, values, ps);
    SyncFromFrame(props, 0, values, ps, "");
    assert o.error.None? && DistinctNames(props) ==> Settled(props, 0, values, o.state) by {
      if o.error.None? && DistinctNames(props) {
        SyncSettles(props, 0, values, ps);
      }
    }
    if o.error.Some? then Applied(o.error, o.state.mat, keywords, o.state.log, o.state.cache, lastKeywords, o.state.changes)
    else
      var k := SyncKeywordsFrom(Keywords(fields), 0, fields, values, KwSync(keywords, o.state.log, lastKeywords));
      Applied(None, o.state.mat, k.keywords, k.log, o.state.cache, k.cache, o.state.changes)
  }

  /**
   * With distinct property and keyword names, a second ApplyMaterialChanges
   * with no field change in between writes nothing, caches nothing new and
   * sends no notification.
   */
  lemma ApplyChangesIdempotent(fields: seq<Field>, values: seq<FieldValue>, ps: PropSync,
                               keywords: set<string>, lastKeywords: map<string, bool>)
    requires |values| == |fields|
    requires DistinctNames(ShaderProperties(fields)) && DistinctKeywords(Keywords(fields))
    requires ApplyChanges(fields, values, ps, keywords, lastKeywords).err.None?
    ensures var a := ApplyChanges(fields, values, ps, keywords, lastKeywords);
            ApplyChanges(fields, values, PropSync(a.mat, a.log, a.lastValues, a.changes), a.keywords, a.lastKeywords) == a
  {
    var props := ShaderProperties(fields);
    var kws := Keywords(fields);
    var a := ApplyChanges(fields, values, ps, keywords, lastKeywords);
    var o := SyncFrom(props, 0, values, ps);
    SyncSettles(props, 0, values, ps);
    var ps2 := PropSync(a.mat, a.log, a.lastValues, a.changes);
    assert Settled(props, 0, values, ps2);
    SettledSyncIsNoOp(props, 0, values, ps2);
    var k0 := KwSync(keywords, o.state.log, lastKeywords);
    KeywordSyncSettles(kws, 0, fields, values, k0);
    var k := SyncKeywordsFrom(kws, 0, fields, values, k0);
    SettledKeywordSyncIsNoOp(kws, 0, fields, values, k);
  }

  // ---------------------------------------------------------------------
  // The material and the component
  // ---------------------------------------------------------------------

  /** A material: its property values (the keys are the properties its shader declares), keywords and writes. */
  class Material {
    var values: map<string, MatValue>
    var keywords: set<string>
    var log: seq<MatWrite>

    constructor (values: map<string, MatValue>, keywords: set<string>)
      ensures this.values == values && this.keywords == keywords && log == []
    {
      this.values := values;
      this.keywords := keywords;
      log := [];
    }

    predicate HasProperty(name: string)
      reads this
    {
      name in values
    }
  }

  class ShaderComponent {
    const fields: seq<Field>
    var values: seq<FieldValue>
    const UpdateType: SSUUpdateType
    const SSUMaterial: Material?
    var lastValues: map<string, FieldValue>
    var lastKeywords: map<string, bool>
    /** The notifications OnSSUPropertyChanged has received. */
    var changes: seq<Change>

    ghost predicate Valid()
      reads this
    {
      && |values| == |fields|
      && forall j :: 0 <= j < |fields| ==> Conforms(fields[j].kind, values[j])
    }

    constructor (fields: seq<Field>, values: seq<FieldValue>, updateType: SSUUpdateType, material: Material?)
      requires |values| == |fields| && forall j :: 0 <= j < |fields| ==> Conforms(fields[j].kind, values[j])
      ensures Valid()
      ensures this.fields == fields && this.values == values && UpdateType == updateType && SSUMaterial == material
      ensures lastValues == map[] && lastKeywords == map[] && changes == []
    {
      this.fields := fields;
      this.values := values;
      UpdateType := updateType;
      SSUMaterial := material;
      lastValues := map[];
      lastKeywords := map[];
      changes := [];
    }

    /** The state property synchronisation works on. */
    function PropState(): PropSync
      requires SSUMaterial != null
      reads this, SSUMaterial
    {
      PropSync(SSUMaterial.values, SSUMaterial.log, lastValues, changes)
    }

    /** The component and material state ApplyMaterialChanges leaves, with the exception it ended with. */
    function AppliedState(err: Option<SyncError>): Applied
      requires SSUMaterial != null
      reads this, SSUMaterial
    {
      Applied(err, SSUMaterial.values, SSUMaterial.keywords, SSUMaterial.log, lastValues, lastKeywords, changes)
    }

    /** The state keyword synchronisation works on. */
    function KwState(): KwSync
      requires SSUMaterial != null
      reads this, SSUMaterial
    {
      KwSync(SSUMaterial.keywords, SSUMaterial.log, lastKeywords)
    }

    /** InitializeProperties: each property the material has is read into its field, by the field's kind. */
    method InitializeProperties()
      requires Valid()
      modifies this`values
      ensures Valid()
      ensures SSUMaterial == null ==> values == old(values)
      ensures SSUMaterial != null ==>
                values == InitFrom(ShaderProperties(fields), 0, fields, SSUMaterial.values, old(values))
      ensures SSUMaterial != null ==>
                var props := ShaderProperties(fields);
                && (forall k :: 0 <= k < |props| && ReadsInto(props, k, fields, SSUMaterial.values) ==>
                      values[props[k].field] == ReadField(fields[props[k].field].kind, SSUMaterial.values[props[k].fullName]).value)
                && (forall j :: 0 <= j < |fields| && !FieldRead(props, 0, fields, SSUMaterial.values, j) ==>
                      values[j] == old(values)[j])
    {
      if SSUMaterial == null {
        return;
      }
      var props := ForEachShaderProperty(fields);
      InitKeepsKinds(props, 0, fields, SSUMaterial.values, values);
      var i := 0;
      while i < |props|
        invariant 0 <= i <= |props| && |values| == |fields|
        invariant InitFrom(props, i, fields, SSUMaterial.values, values)
                  == InitFrom(props, 0, fields, SSUMaterial.values, old(values))
      {
        var p := props[i];
        if SSUMaterial.HasProperty(p.fullName) {
          var value := ReadField(fields[p.field].kind, SSUMaterial.values[p.fullName]);
          if value.Some? {
            values := values[p.field := value.value];
          }
        }
        i := i + 1;
      }
    }

    /** InitializeKeywords: every keyword is enabled or disabled as its field says, without caching. */
    method InitializeKeywords()
      requires Valid()
      modifies SSUMaterial
      ensures SSUMaterial != null ==>
                KwState() == InitKeywordsFrom(Keywords(fields), 0, fields, values, old(KwState()))
                && SSUMaterial.values == old(SSUMaterial.values)
    {
      if SSUMaterial == null {
        return;
      }
      var kws := ForEachKeyword(fields);
      var i := 0;
      while i < |kws|
        invariant 0 <= i <= |kws|
        invariant InitKeywordsFrom(kws, i, fields, values, KwState()) == InitKeywordsFrom(kws, 0, fields, values, old(KwState()))
        invariant SSUMaterial.values == old(SSUMaterial.values)
      {
        var kw := kws[i];
        var value := KeywordValue(kw, fields, values);
        SetMaterialKeyword(kw.attr.KeywordName, value);
        i := i + 1;
      }
    }

    /** Start: the fields are read from the material, then the keywords are set from the fields. */
    method Start()
      requires Valid()
      modifies this`values, SSUMaterial
      ensures Valid()
      ensures SSUMaterial == null ==> values == old(values)
      ensures SSUMaterial != null ==>
                && values == InitFrom(ShaderProperties(fields), 0, fields, old(SSUMaterial.values), old(values))
                && KwState() == InitKeywordsFrom(Keywords(fields), 0, fields, values, old(KwState()))
                && SSUMaterial.values == old(SSUMaterial.values)
    {
      InitializeProperties();
      InitializeKeywords();
    }

    /** EnableKeyword / DisableKeyword on the material. */
    method SetMaterialKeyword(name: string, value: bool)
      requires SSUMaterial != null
      modifies SSUMaterial`keywords, SSUMaterial`log
      ensures KwState() == SetKeywordIn(old(KwState()), name, value)
      ensures SSUMaterial.values == old(SSUMaterial.values)
    {
      if value {
        SSUMaterial.keywords := SSUMaterial.keywords + {name};
      } else {
        SSUMaterial.keywords := SSUMaterial.keywords - {name};
      }
      SSUMaterial.log := SSUMaterial.log + [SetKeyword(name, value)];
    }

    /** ApplyToMaterial: the type dispatch, then the setter; a null value throws before anything is written. */
    method ApplyToMaterial(name: string, value: FieldValue) returns (err: Option<SyncError>)
      requires SSUMaterial != null
      modifies SSUMaterial`values, SSUMaterial`log
      ensures err == if MaterialValueOf(value).Err? then Some(MaterialValueOf(value).error) else None
      ensures MaterialValueOf(value).Ok? && MaterialValueOf(value).value.Some? ==>
                && SSUMaterial.values == old(SSUMaterial.values)[name := MaterialValueOf(value).value.value]
                && SSUMaterial.log == old(SSUMaterial.log) + [SetProperty(name, MaterialValueOf(value).value.value)]
      ensures !(MaterialValueOf(value).Ok? && MaterialValueOf(value).value.Some?) ==>
                SSUMaterial.values == old(SSUMaterial.values) && SSUMaterial.log == old(SSUMaterial.log)
    {
      err := None;
      var w: MatValue;
      match value {
        case VBool(b) => w := MFloat(if b then 1.0 else 0.0);
        case VColor(c) => w := MColor(c);
        case VEnum(e) => w := MInt(e);
        case VFloat(f) => w := MFloat(f);
        case VInt(i) => w := MInt(i);
        case VTexture(t) => w := MTexture(Some(t));
        case VVector2(x, y) => w := MVector(Vec4(x, y, 0.0, 0.0));
        case VVector4(v) => w := MVector(v);
        case VOther(_) => return;   // a warning is logged, nothing is written
        case VNull => return Some(NullFieldValue);
      }
      SSUMaterial.values := SSUMaterial.values[name := w];
      SSUMaterial.log := SSUMaterial.log + [SetProperty(name, w)];
    }

    /** The property half of ApplyMaterialChanges. */
    method SyncProperties(props: seq<PropRef>) returns (err: Option<SyncError>)
      requires SSUMaterial != null && Valid() && PropsInRange(props, |values|)
      modifies this`lastValues, this`changes, SSUMaterial`values, SSUMaterial`log
      ensures PropOutcome(PropState(), err) == SyncFrom(props, 0, values, old(PropState()))
    {
      var i := 0;
      while i < |props|
        invariant 0 <= i <= |props|
        invariant SyncFrom(props, i, values, PropState()) == SyncFrom(props, 0, values, old(PropState()))
      {
        var p := props[i];
        if SSUMaterial.HasProperty(p.fullName) {
          var value := values[p.field];
          if p.fullName !in lastValues || lastValues[p.fullName] != value {
            var previous := if p.fullName in lastValues then lastValues[p.fullName] else VNull;
            ghost var s := PropState();
            err := ApplyToMaterial(p.fullName, value);
            if err.Some? {
              assert SyncProperty(p.fullName, value, s) == Err(NullFieldValue);
              assert SyncFrom(props, i, values, s) == PropOutcome(s, Some(NullFieldValue));
              assert PropState() == s && err == Some(NullFieldValue);
              return;
            }
            lastValues := lastValues[p.fullName := value];
            changes := changes + [Change(p.fullName, previous, value)];
          }
        }
        i := i + 1;
      }
      err := None;
    }

    /** The keyword half of ApplyMaterialChanges. */
    method SyncKeywords(kws: seq<KeywordRef>)
      requires SSUMaterial != null && Valid() && KeywordsInRange(kws, |values|)
      modifies this`lastKeywords, SSUMaterial`keywords, SSUMaterial`log
      ensures KwState() == SyncKeywordsFrom(kws, 0, fields, values, old(KwState()))
    {
      var i := 0;
      while i < |kws|
        invariant 0 <= i <= |kws|
        invariant SyncKeywordsFrom(kws, i, fields, values, KwState()) == SyncKeywordsFrom(kws, 0, fields, values, old(KwState()))
      {
        var kw := kws[i];
        var name := kw.attr.KeywordName;
        var value := KeywordValue(kw, fields, values);
        var previous := if name in lastKeywords then lastKeywords[name] else !value;
        if previous != value {
          SetMaterialKeyword(name, value);
          lastKeywords := lastKeywords[name := value];
        }
        i := i + 1;
      }
    }

    /**
     * ApplyMaterialChanges: the properties are synchronised, then the
     * keywords; an exception from a property stops the whole call. A null
     * material makes it a no-op.
     */
    method ApplyMaterialChanges() returns (err: Option<SyncError>)
      requires Valid()
      modifies this`lastValues, this`lastKeywords, this`changes, SSUMaterial
      ensures SSUMaterial == null ==>
                err.None? && lastValues == old(lastValues) && lastKeywords == old(lastKeywords) && changes == old(changes)
      ensures SSUMaterial != null ==>
                AppliedState(err) == ApplyChanges(fields, values, old(PropState()), old(SSUMaterial.keywords), old(lastKeywords))
    {
      if SSUMaterial == null {
        return None;
      }
      var props := ForEachShaderProperty(fields);
      err := SyncProperties(props);
      if err.Some? {
        return;
      }
      var kws := ForEachKeyword(fields);
      SyncKeywords(kws);
    }

    /** The MonoBehaviour Update: synchronises only when UpdateType is Update. */
    method Update() returns (err: Option<SyncError>)
      requires Valid()
      modifies this`lastValues, this`lastKeywords, this`changes, SSUMaterial
      ensures UpdateType != SyncInUpdate ==>
                err.None? && lastValues == old(lastValues) && lastKeywords == old(lastKeywords) && changes == old(changes)
                && (SSUMaterial != null ==> PropState() == old(PropState()) && KwState() == old(KwState()))
      ensures UpdateType == SyncInUpdate && SSUMaterial == null ==>
                err.None? && lastValues == old(lastValues) && lastKeywords == old(lastKeywords) && changes == old(changes)
      ensures UpdateType == SyncInUpdate && SSUMaterial != null ==>
                AppliedState(err) == ApplyChanges(fields, values, old(PropState()), old(SSUMaterial.keywords), old(lastKeywords))
    {
      err := None;
      if UpdateType == SyncInUpdate {
        err := ApplyMaterialChanges();
      }
    }

    /** The MonoBehaviour LateUpdate: synchronises only when UpdateType is LateUpdate. */
    method LateUpdate() returns (err: Option<SyncError>)
      requires Valid()
      modifies this`lastValues, this`lastKeywords, this`changes, SSUMaterial
      ensures UpdateType != SyncInLateUpdate ==>
                err.None? && lastValues == old(lastValues) && lastKeywords == old(lastKeywords) && changes == old(changes)
                && (SSUMaterial != null ==> PropState() == old(PropState()) && KwState() == old(KwState()))
      ensures UpdateType == SyncInLateUpdate && SSUMaterial == null ==>
                err.None? && lastValues == old(lastValues) && lastKeywords == old(lastKeywords) && changes == old(changes)
      ensures UpdateType == SyncInLateUpdate && SSUMaterial != null ==>
                AppliedState(err) == ApplyChanges(fields, values, old(PropState()), old(SSUMaterial.keywords), old(lastKeywords))
    {
      err := None;
      if UpdateType == SyncInLateUpdate {
        err := ApplyMaterialChanges();
      }
    }
  }
}
