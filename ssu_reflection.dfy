/**
 * SSUShaderReflectionUtility: the walk over a shader component's fields, in
 * declaration order, that pairs each attributed field with the name of the
 * shader property it drives. Reflection is replaced by an explicit sequence
 * of field descriptors carrying the attributes.
 */
module SSUReflection {
  import opened Wrappers

  /** The declared type of a component field. */
  datatype FieldKind = KBool | KFloat | KInt | KEnum | KColor | KVector2 | KVector4 | KTexture | KOther

  /** [SSUProperty(name, ignoreGroups)]. */
  datatype PropAttr = PropAttr(ShaderPropertyName: string, IgnoreGroups: bool)

  /** [SSUKeyword(name, initialState)]. */
  datatype KeywordAttr = KeywordAttr(KeywordName: string, InitialState: bool)

  /** A field of the component with the attributes on it; `group` is the prefix of [SSUPropertyGroup]. */
  datatype Field = Field(
    name: string,
    kind: FieldKind,
    group: Option<string>,
    prop: Option<PropAttr>,
    keyword: Option<KeywordAttr>)

  /** A property reported by the walk: its full shader name and the index of its field. */
  datatype PropRef = PropRef(fullName: string, field: nat)

  /** A keyword reported by the keyword walk: the index of its field and the attribute. */
  datatype KeywordRef = KeywordRef(field: nat, attr: KeywordAttr)

  /**
   * The properties reported from field i on, given the prefix and the
   * ignore-groups flag in force. A group field changes the prefix and is not
   * reported while groups are honoured; a property with IgnoreGroups switches
   * groups off for good and clears the prefix.
   */
  function ResolveFrom(fields: seq<Field>, i: nat, prefix: string, ignore: bool): seq<PropRef>
    decreases |fields| - i
  {
    if i >= |fields| then []
    else
      var f := fields[i];
      if f.group.Some? && !ignore then ResolveFrom(fields, i + 1, f.group.value, ignore)
      else if f.prop.None? then ResolveFrom(fields, i + 1, prefix, ignore)
      else
        var a := f.prop.value;
        var ignore' := ignore || a.IgnoreGroups;
        var prefix' := if a.IgnoreGroups then "" else prefix;
        var fullName := if ignore' then "_" + a.ShaderPropertyName else "_" + prefix' + a.ShaderPropertyName;
        [PropRef(fullName, i)] + ResolveFrom(fields, i + 1, prefix', ignore')
  }

  /**
   * The properties ForEachShaderProperty reports: exactly the reported
   * fields, in field order, each under its expected name.
   */
  function ShaderProperties(fields: seq<Field>): (r: seq<PropRef>)
    ensures FromPropertyFields(fields, r, 0) && Increasing(r)
    ensures NamedAsExpected(fields, r)
    ensures CoversReported(fields, r, 0)
  {
    ResolvedFields(fields, 0, "", false);
    ResolvedInOrder(fields, 0, "", false);
    ResolvedNames(fields, 0, "", false);
    ResolveFrom(fields, 0, "", false)
  }

  /** The keywords ForEachKeyword reports, in order: every field with a keyword attribute. */
  function KeywordsFrom(fields: seq<Field>, i: nat): seq<KeywordRef>
    decreases |fields| - i
  {
    if i >= |fields| then []
    else if fields[i].keyword.Some? then [KeywordRef(i, fields[i].keyword.value)] + KeywordsFrom(fields, i + 1)
    else KeywordsFrom(fields, i + 1)
  }

  function Keywords(fields: seq<Field>): (r: seq<KeywordRef>)
    ensures KeywordsFromFields(fields, r, 0)
  {
    KeywordsExact(fields, 0);
    KeywordsFrom(fields, 0)
  }

  /** ForEachShaderProperty: the loop threading the current prefix and the ignore-groups flag. */
  method ForEachShaderProperty(fields: seq<Field>) returns (props: seq<PropRef>)
    ensures props == ShaderProperties(fields)
  {
    ghost var all := ResolveFrom(fields, 0, "", false);
    var currentPrefix := "";
    var ignoreGroups := false;
    props := [];
    var i := 0;
    while i < |fields|
      invariant 0 <= i <= |fields|
      invariant props + ResolveFrom(fields, i, currentPrefix, ignoreGroups) == all
    {
      var field := fields[i];
      if field.group.Some? && !ignoreGroups {
        currentPrefix := field.group.value;
      } else if field.prop.Some? {
        var propAttr := field.prop.value;
        if propAttr.IgnoreGroups {
          ignoreGroups := true;
          currentPrefix := "";
        }
        var fullPropName := if ignoreGroups then "_" + propAttr.ShaderPropertyName
                            else "_" + currentPrefix + propAttr.ShaderPropertyName;
        props := props + [PropRef(fullPropName, i)];
      }
      i := i + 1;
    }
    assert props == all;
  }

  /** ForEachKeyword: every field carrying a keyword attribute, in declaration order. */
  method ForEachKeyword(fields: seq<Field>) returns (kws: seq<KeywordRef>)
    ensures kws == Keywords(fields)
  {
    kws := [];
    var i := 0;
    while i < |fields|
      invariant 0 <= i <= |fields|
      invariant kws + KeywordsFrom(fields, i) == Keywords(fields)
    {
      if fields[i].keyword.Some? {
        kws := kws + [KeywordRef(i, fields[i].keyword.value)];
      }
      i := i + 1;
    }
  }

  /** A property field with IgnoreGroups and no group attribute: it switches group prefixes off for good. */
  predicate SwitchesGroupsOff(f: Field) {
    f.group.None? && f.prop.Some? && f.prop.value.IgnoreGroups
  }

  /**
   * Groups are ignored once some earlier field switched them off. A group
   * field never does, even with IgnoreGroups: while groups are honoured it
   * only sets the prefix.
   */
  predicate GroupsIgnoredBefore(fields: seq<Field>, n: nat) {
    exists j :: 0 <= j < n && j < |fields| && SwitchesGroupsOff(fields[j])
  }

  /** The prefix of the last group field before field n, or "" when there is none. */
  function LastGroupPrefix(fields: seq<Field>, n: nat): (r: string)
    requires n <= |fields|
    ensures (r == "" && forall j :: 0 <= j < n ==> fields[j].group.None?)
            || exists j :: 0 <= j < n && fields[j].group == Some(r) && forall m :: j < m < n ==> fields[m].group.None?
  {
    if n == 0 then ""
    else if fields[n - 1].group.Some? then fields[n - 1].group.value
    else LastGroupPrefix(fields, n - 1)
  }

  /** Field i is reported: it carries a property attribute, and no group attribute unless groups are ignored by then. */
  predicate Reported(fields: seq<Field>, i: nat) {
    i < |fields| && fields[i].prop.Some? && (fields[i].group.None? || GroupsIgnoredBefore(fields, i))
  }

  /**
   * The name a reported field gets: "_" and its shader property name once
   * groups are ignored (by this field or an earlier one), otherwise "_", the
   * prefix of the last group field above it, and its shader property name.
   */
  function ExpectedName(fields: seq<Field>, i: nat): string
    requires i < |fields| && fields[i].prop.Some?
  {
    if GroupsIgnoredBefore(fields, i + 1) then "_" + fields[i].prop.value.ShaderPropertyName
    else "_" + LastGroupPrefix(fields, i) + fields[i].prop.value.ShaderPropertyName
  }

  /** Every entry names a reported field, under its expected name. */
  predicate NamedAsExpected(fields: seq<Field>, rs: seq<PropRef>) {
    forall k :: 0 <= k < |rs| ==> Reported(fields, rs[k].field) && rs[k].fullName == ExpectedName(fields, rs[k].field)
  }

  /** Every reported field at or after i has an entry. */
  predicate CoversReported(fields: seq<Field>, rs: seq<PropRef>, i: nat) {
    forall j :: i <= j < |fields| && Reported(fields, j) ==> exists k :: 0 <= k < |rs| && rs[k].field == j
  }

  /** Every reported entry names a field at or after i that carries a property attribute. */
  predicate FromPropertyFields(fields: seq<Field>, rs: seq<PropRef>, i: nat) {
    forall k :: 0 <= k < |rs| ==> i <= rs[k].field < |fields| && fields[rs[k].field].prop.Some?
  }

  /** Fields are reported in increasing order, so each at most once. */
  predicate Increasing(rs: seq<PropRef>) {
    forall k1, k2 :: 0 <= k1 < k2 < |rs| ==> rs[k1].field < rs[k2].field
  }

  /** Every reported name is "_" and the shader property name, with no prefix. */
  predicate Unprefixed(fields: seq<Field>, rs: seq<PropRef>) {
    forall k :: 0 <= k < |rs| ==>
      && rs[k].field < |fields| && fields[rs[k].field].prop.Some?
      && rs[k].fullName == "_" + fields[rs[k].field].prop.value.ShaderPropertyName
  }

  /** Every field at or after i with a property attribute is reported. */
  predicate CoversPropertyFields(fields: seq<Field>, rs: seq<PropRef>, i: nat) {
    forall j :: i <= j < |fields| && fields[j].prop.Some? ==> exists k :: 0 <= k < |rs| && rs[k].field == j
  }

  /** No reported field carries a group attribute. */
  predicate NoGroupFields(fields: seq<Field>, rs: seq<PropRef>) {
    forall k :: 0 <= k < |rs| ==> rs[k].field < |fields| && fields[rs[k].field].group.None?
  }

  /** Every reported property comes from a field at or after i that carries a property attribute. */
  lemma {:induction false} ResolvedFields(fields: seq<Field>, i: nat, prefix: string, ignore: bool)
    ensures FromPropertyFields(fields, ResolveFrom(fields, i, prefix, ignore), i)
    decreases |fields| - i
  {
    if i < |fields| {
      var f := fields[i];
      if f.group.Some? && !ignore {
        ResolvedFields(fields, i + 1, f.group.value, ignore);
      } else if f.prop.None? {
        ResolvedFields(fields, i + 1, prefix, ignore);
      } else {
        var a := f.prop.value;
        var ignore' := ignore || a.IgnoreGroups;
        var prefix' := if a.IgnoreGroups then "" else prefix;
        ResolvedFields(fields, i + 1, prefix', ignore');
        var rs := ResolveFrom(fields, i, prefix, ignore);
        var rest := ResolveFrom(fields, i + 1, prefix', ignore');
        forall k | 0 < k < |rs| ensures rs[k] == rest[k - 1] { }
      }
    }
  }

  /** Properties are reported in field order, each field at most once. */
  lemma {:induction false} ResolvedInOrder(fields: seq<Field>, i: nat, prefix: string, ignore: bool)
    ensures Increasing(ResolveFrom(fields, i, prefix, ignore))
    decreases |fields| - i
  {
    if i < |fields| {
      var f := fields[i];
      if f.group.Some? && !ignore {
        ResolvedInOrder(fields, i + 1, f.group.value, ignore);
      } else if f.prop.None? {
        ResolvedInOrder(fields, i + 1, prefix, ignore);
      } else {
        var a := f.prop.value;
        var ignore' := ignore || a.IgnoreGroups;
        var prefix' := if a.IgnoreGroups then "" else prefix;
        ResolvedInOrder(fields, i + 1, prefix', ignore');
        ResolvedFields(fields, i + 1, prefix', ignore');
        var rs := ResolveFrom(fields, i, prefix, ignore);
        var rest := ResolveFrom(fields, i + 1, prefix', ignore');
        assert rs == [rs[0]] + rest && rs[0].field == i;
        ConsIncreasing(fields, rs[0], rest, i);
      }
    }
  }

  /** An entry for field i put before increasing entries from fields after i keeps the order increasing. */
  lemma ConsIncreasing(fields: seq<Field>, r: PropRef, rest: seq<PropRef>, i: nat)
    requires r.field == i && Increasing(rest) && FromPropertyFields(fields, rest, i + 1)
    ensures Increasing([r] + rest)
  {
    var rs := [r] + rest;
    forall k1, k2 | 0 <= k1 < k2 < |rs| ensures rs[k1].field < rs[k2].field {
      assert rs[k2] == rest[k2 - 1];
      if k1 > 0 {
        assert rs[k1] == rest[k1 - 1];
      }
    }
  }

  /** One more field: groups are ignored after it exactly when they were before it or it switches them off. */
  lemma GroupsIgnoredStep(fields: seq<Field>, i: nat)
    requires i < |fields|
    ensures GroupsIgnoredBefore(fields, i + 1) <==> GroupsIgnoredBefore(fields, i) || SwitchesGroupsOff(fields[i])
  {
    if GroupsIgnoredBefore(fields, i + 1) && !SwitchesGroupsOff(fields[i]) {
      var j :| 0 <= j < i + 1 && j < |fields| && SwitchesGroupsOff(fields[j]);
      assert j < i;
    }
    if SwitchesGroupsOff(fields[i]) {
      assert 0 <= i < i + 1;
    }
  }

  /**
   * The walk reports exactly the reported fields from i on, each under its
   * expected name, provided the flag it carries says whether groups are
   * ignored by field i and, while they are not, the prefix it carries is
   * that of the last group field before i.
   */
  lemma {:induction false} ResolvedNames(fields: seq<Field>, i: nat, prefix: string, ignore: bool)
    requires i <= |fields|
    requires ignore <==> GroupsIgnoredBefore(fields, i)
    requires !ignore ==> prefix == LastGroupPrefix(fields, i)
    ensures NamedAsExpected(fields, ResolveFrom(fields, i, prefix, ignore))
    ensures CoversReported(fields, ResolveFrom(fields, i, prefix, ignore), i)
    decreases |fields| - i
  {
    if i < |fields| {
      var f := fields[i];
      GroupsIgnoredStep(fields, i);
      if f.group.Some? && !ignore {
        ResolvedNames(fields, i + 1, f.group.value, ignore);
        SkipUnreported(fields, ResolveFrom(fields, i + 1, f.group.value, ignore), i);
      } else if f.prop.None? {
        ResolvedNames(fields, i + 1, prefix, ignore);
        SkipUnreported(fields, ResolveFrom(fields, i + 1, prefix, ignore), i);
      } else {
        var a := f.prop.value;
        var ignore' := ignore || a.IgnoreGroups;
        var prefix' := if a.IgnoreGroups then "" else prefix;
        ResolvedNames(fields, i + 1, prefix', ignore');
        var rest := ResolveFrom(fields, i + 1, prefix', ignore');
        var fullName := if ignore' then "_" + a.ShaderPropertyName else "_" + prefix' + a.ShaderPropertyName;
        assert ResolveFrom(fields, i, prefix, ignore) == [PropRef(fullName, i)] + rest;
        ConsNamed(fields, PropRef(fullName, i), rest, i);
      }
    }
  }

  /** A field that is not reported adds no entry and needs none. */
  lemma SkipUnreported(fields: seq<Field>, rest: seq<PropRef>, i: nat)
    requires i < |fields| && !Reported(fields, i) && CoversReported(fields, rest, i + 1)
    ensures CoversReported(fields, rest, i)
  {
  }

  /** The entry of reported field i, under its expected name, put before the entries from i + 1 on. */
  lemma ConsNamed(fields: seq<Field>, r: PropRef, rest: seq<PropRef>, i: nat)
    requires r.field == i && Reported(fields, i) && r.fullName == ExpectedName(fields, i)
    requires NamedAsExpected(fields, rest) && CoversReported(fields, rest, i + 1)
    ensures NamedAsExpected(fields, [r] + rest)
    ensures CoversReported(fields, [r] + rest, i)
  {
    var rs := [r] + rest;
    forall k | 0 < k < |rs| ensures rs[k] == rest[k - 1] { }
    forall j | i <= j < |fields| && Reported(fields, j)
      ensures exists k :: 0 <= k < |rs| && rs[k].field == j
    {
      if j == i {
        assert rs[0].field == j;
      } else {
        var k :| 0 <= k < |rest| && rest[k].field == j;
        assert rs[k + 1].field == j;
      }
    }
  }

  /**
   * Once groups are ignored they stay ignored: every property reported from
   * then on gets the unprefixed name.
   */
  lemma {:induction false} IgnoreGroupsSticky(fields: seq<Field>, i: nat, prefix: string)
    ensures Unprefixed(fields, ResolveFrom(fields, i, prefix, true))
    decreases |fields| - i
  {
    if i < |fields| {
      var f := fields[i];
      if f.prop.None? {
        IgnoreGroupsSticky(fields, i + 1, prefix);
      } else {
        var prefix' := if f.prop.value.IgnoreGroups then "" else prefix;
        IgnoreGroupsSticky(fields, i + 1, prefix');
        var rs := ResolveFrom(fields, i, prefix, true);
        var rest := ResolveFrom(fields, i + 1, prefix', true);
        assert rs == [PropRef("_" + f.prop.value.ShaderPropertyName, i)] + rest;
        forall k | 0 < k < |rs| ensures rs[k] == rest[k - 1] { }
      }
    }
  }

  /** Once groups are ignored, every later field with a property attribute is reported, group attribute or not. */
  lemma {:induction false} IgnoredGroupsReportAll(fields: seq<Field>, i: nat, prefix: string)
    ensures CoversPropertyFields(fields, ResolveFrom(fields, i, prefix, true), i)
    decreases |fields| - i
  {
    if i < |fields| {
      var f := fields[i];
      if f.prop.None? {
        IgnoredGroupsReportAll(fields, i + 1, prefix);
      } else {
        var prefix' := if f.prop.value.IgnoreGroups then "" else prefix;
        IgnoredGroupsReportAll(fields, i + 1, prefix');
        var rs := ResolveFrom(fields, i, prefix, true);
        var rest := ResolveFrom(fields, i + 1, prefix', true);
        assert rs == [PropRef("_" + f.prop.value.ShaderPropertyName, i)] + rest;
        forall j | i <= j < |fields| && fields[j].prop.Some?
          ensures exists k :: 0 <= k < |rs| && rs[k].field == j
        {
          if j == i {
            assert rs[0].field == j;
          } else {
            var k :| 0 <= k < |rest| && rest[k].field == j;
            assert rs[k + 1].field == j;
          }
        }
      }
    }
  }

  /**
   * While groups are honoured, a field carrying a group attribute is never
   * reported, even when it also carries a property attribute: it only sets
   * the prefix.
   */
  lemma {:induction false} GroupFieldsNotReported(fields: seq<Field>, i: nat, prefix: string)
    requires forall j :: i <= j < |fields| && fields[j].prop.Some? ==> !fields[j].prop.value.IgnoreGroups
    ensures NoGroupFields(fields, ResolveFrom(fields, i, prefix, false))
    decreases |fields| - i
  {
    if i < |fields| {
      var f := fields[i];
      if f.group.Some? {
        GroupFieldsNotReported(fields, i + 1, f.group.value);
      } else if f.prop.None? {
        GroupFieldsNotReported(fields, i + 1, prefix);
      } else {
        GroupFieldsNotReported(fields, i + 1, prefix);
        var rs := ResolveFrom(fields, i, prefix, false);
        var rest := ResolveFrom(fields, i + 1, prefix, false);
        assert rs == [PropRef("_" + prefix + f.prop.value.ShaderPropertyName, i)] + rest;
        forall k | 0 < k < |rs| ensures rs[k] == rest[k - 1] { }
      }
    }
  }

  /** Every keyword entry names a field at or after i whose keyword attribute it carries. */
  predicate KeywordsFromFields(fields: seq<Field>, ks: seq<KeywordRef>, i: nat) {
    forall k :: 0 <= k < |ks| ==> i <= ks[k].field < |fields| && fields[ks[k].field].keyword == Some(ks[k].attr)
  }

  /** Every field at or after i with a keyword attribute has an entry. */
  predicate CoversKeywordFields(fields: seq<Field>, ks: seq<KeywordRef>, i: nat) {
    forall j :: i <= j < |fields| && fields[j].keyword.Some? ==> exists k :: 0 <= k < |ks| && ks[k].field == j
  }

  /** Keyword entries are in strictly increasing field order, so each field appears at most once. */
  predicate KeywordsIncreasing(ks: seq<KeywordRef>) {
    forall k1, k2 :: 0 <= k1 < k2 < |ks| ==> ks[k1].field < ks[k2].field
  }

  /** Keywords are exactly the fields with a keyword attribute, in increasing field order. */
  lemma {:induction false} KeywordsExact(fields: seq<Field>, i: nat)
    ensures KeywordsFromFields(fields, KeywordsFrom(fields, i), i)
    ensures CoversKeywordFields(fields, KeywordsFrom(fields, i), i)
    ensures KeywordsIncreasing(KeywordsFrom(fields, i))
    decreases |fields| - i
  {
    if i < |fields| {
      KeywordsExact(fields, i + 1);
      if fields[i].keyword.Some? {
        var h := KeywordRef(i, fields[i].keyword.value);
        assert KeywordsFrom(fields, i) == [h] + KeywordsFrom(fields, i + 1);
        ConsKeywords(fields, h, KeywordsFrom(fields, i + 1), i);
      }
    }
  }

  /** The entry of keyword field i put before the exact entries from i + 1 on gives the exact entries from i on. */
  lemma ConsKeywords(fields: seq<Field>, h: KeywordRef, rest: seq<KeywordRef>, i: nat)
    requires i < |fields| && h.field == i && fields[i].keyword == Some(h.attr)
    requires KeywordsFromFields(fields, rest, i + 1) && CoversKeywordFields(fields, rest, i + 1) && KeywordsIncreasing(rest)
    ensures KeywordsFromFields(fields, [h] + rest, i)
    ensures CoversKeywordFields(fields, [h] + rest, i)
    ensures KeywordsIncreasing([h] + rest)
  {
    var ks := [h] + rest;
    forall k | 0 < k < |ks| ensures ks[k] == rest[k - 1] { }
    ConsCoversKeywords(fields, h, rest, i);
  }

  /** The coverage part of ConsKeywords. */
  lemma ConsCoversKeywords(fields: seq<Field>, h: KeywordRef, rest: seq<KeywordRef>, i: nat)
    requires i < |fields| && h.field == i
    requires CoversKeywordFields(fields, rest, i + 1)
    ensures CoversKeywordFields(fields, [h] + rest, i)
  {
    var ks := [h] + rest;
    forall j | i <= j < |fields| && fields[j].keyword.Some?
      ensures exists k :: 0 <= k < |ks| && ks[k].field == j
    {
      if j == i {
        assert ks[0].field == j;
      } else {
        var k :| 0 <= k < |rest| && rest[k].field == j;
        assert ks[k + 1].field == j;
      }
    }
  }

  /** The fields of SSUShader, the "Frozen" effect, in declaration order. */
  function SSUShaderFields(): seq<Field> {
    [ Field("Fade", KFloat, Some("Frozen"), Some(PropAttr("Fade", false)), None),
      Field("Tint", KColor, None, Some(PropAttr("Tint", false)), None),
      Field("Contrast", KFloat, None, Some(PropAttr("Contrast", false)), None),
      Field("SnowColor", KColor, Some("FrozenSnow"), Some(PropAttr("Color", false)), None),
      Field("SnowContrast", KFloat, None, Some(PropAttr("Contrast", false)), None),
      Field("SnowDensity", KFloat, None, Some(PropAttr("Density", false)), None),
      Field("SnowScale", KVector2, None, Some(PropAttr("Scale", false)), None),
      Field("HighlightColor", KColor, Some("FrozenHighlight"), Some(PropAttr("Color", false)), None),
      Field("HighlightContrast", KFloat, None, Some(PropAttr("Contrast", false)), None),
      Field("HighlightDensity", KFloat, None, Some(PropAttr("Density", false)), None),
      Field("HighlightSpeed", KVector2, None, Some(PropAttr("Speed", false)), None),
      Field("HighlightScale", KVector2, None, Some(PropAttr("Scale", false)), None),
      Field("HighlightDistortion", KVector2, None, Some(PropAttr("Distortion", false)), None),
      Field("HighlightDistortionSpeed", KVector2, None, Some(PropAttr("DistortionSpeed", false)), None),
      Field("HighlightDistortionScale", KVector2, None, Some(PropAttr("DistortionScale", false)), None) ]
  }

  /** While groups are honoured, a group field only sets the prefix. */
  lemma GroupStep(fs: seq<Field>, i: nat, prefix: string)
    requires i < |fs| && fs[i].group.Some?
    ensures ResolveFrom(fs, i, prefix, false) == ResolveFrom(fs, i + 1, fs[i].group.value, false)
  {
  }

  /** While groups are honoured, a property field without IgnoreGroups is reported under the current prefix. */
  lemma PropertyStep(fs: seq<Field>, i: nat, prefix: string)
    requires i < |fs| && fs[i].group.None? && fs[i].prop.Some? && !fs[i].prop.value.IgnoreGroups
    ensures ResolveFrom(fs, i, prefix, false) ==
              [PropRef("_" + prefix + fs[i].prop.value.ShaderPropertyName, i)] + ResolveFrom(fs, i + 1, prefix, false)
  {
  }

  /** Three property fields in a row, while groups are honoured, are reported under the current prefix. */
  lemma ThreePropertySteps(fs: seq<Field>, i: nat, prefix: string)
    requires i + 3 <= |fs|
    requires forall j :: i <= j < i + 3 ==> fs[j].group.None? && fs[j].prop.Some? && !fs[j].prop.value.IgnoreGroups
    ensures ResolveFrom(fs, i, prefix, false) ==
              [ PropRef("_" + prefix + fs[i].prop.value.ShaderPropertyName, i),
                PropRef("_" + prefix + fs[i + 1].prop.value.ShaderPropertyName, i + 1),
                PropRef("_" + prefix + fs[i + 2].prop.value.ShaderPropertyName, i + 2) ]
              + ResolveFrom(fs, i + 3, prefix, false)
  {
    PropertyStep(fs, i + 2, prefix);
    PropertyStep(fs, i + 1, prefix);
    PropertyStep(fs, i, prefix);
  }

  /** The "FrozenHighlight" group of SSUShader, fields 8 to 14. */
  lemma HighlightGroupResolution()
    ensures ResolveFrom(SSUShaderFields(), 8, "FrozenHighlight", false) ==
      [ PropRef("_" + "FrozenHighlight" + "Contrast", 8), PropRef("_" + "FrozenHighlight" + "Density", 9),
        PropRef("_" + "FrozenHighlight" + "Speed", 10), PropRef("_" + "FrozenHighlight" + "Scale", 11),
        PropRef("_" + "FrozenHighlight" + "Distortion", 12), PropRef("_" + "FrozenHighlight" + "DistortionSpeed", 13),
        PropRef("_" + "FrozenHighlight" + "DistortionScale", 14) ]
  {
    var fs := SSUShaderFields();
    var h := "FrozenHighlight";
    assert ResolveFrom(fs, 15, h, false) == [];
    PropertyStep(fs, 14, h);
    PropertyStep(fs, 13, h);
    PropertyStep(fs, 12, h);
    PropertyStep(fs, 11, h);
    PropertyStep(fs, 10, h);
    PropertyStep(fs, 9, h);
    PropertyStep(fs, 8, h);
  }

  /** The "FrozenSnow" group of SSUShader, fields 4 to 6, then the next group. */
  lemma SnowGroupResolution()
    ensures ResolveFrom(SSUShaderFields(), 4, "FrozenSnow", false) ==
      [ PropRef("_" + "FrozenSnow" + "Contrast", 4), PropRef("_" + "FrozenSnow" + "Density", 5),
        PropRef("_" + "FrozenSnow" + "Scale", 6) ]
      + ResolveFrom(SSUShaderFields(), 8, "FrozenHighlight", false)
  {
    var fs := SSUShaderFields();
    var s := "FrozenSnow";
    GroupStep(fs, 7, s);
    ThreePropertySteps(fs, 4, s);
  }

  /** The "Frozen" group of SSUShader, fields 0 to 2, then the next groups. */
  lemma FrozenGroupResolution()
    ensures ResolveFrom(SSUShaderFields(), 0, "", false) ==
      [ PropRef("_" + "Frozen" + "Tint", 1), PropRef("_" + "Frozen" + "Contrast", 2) ]
      + ResolveFrom(SSUShaderFields(), 4, "FrozenSnow", false)
  {
    var fs := SSUShaderFields();
    var z := "Frozen";
    GroupStep(fs, 3, z);
    PropertyStep(fs, 2, z);
    PropertyStep(fs, 1, z);
    GroupStep(fs, 0, "");
  }

  /**
   * The names SSUShader's fields resolve to: the three group-opening fields
   * (Fade, SnowColor, HighlightColor) are never reported, and the others get
   * the prefix of the group above them.
   */
  lemma SSUShaderResolution()
    ensures ShaderProperties(SSUShaderFields()) == SSUShaderNames()
  {
    SSUShaderWalk();
  }

  /** The walk over SSUShader's fields, group by group. */
  lemma SSUShaderWalk()
    ensures ResolveFrom(SSUShaderFields(), 0, "", false) == SSUShaderNames()
  {
    HighlightGroupResolution();
    SnowGroupResolution();
    FrozenGroupResolution();
  }

  /** SSUShader's twelve material property names, with the fields they come from. */
  function SSUShaderNames(): seq<PropRef> {
    [ PropRef("_" + "Frozen" + "Tint", 1), PropRef("_" + "Frozen" + "Contrast", 2),
      PropRef("_" + "FrozenSnow" + "Contrast", 4), PropRef("_" + "FrozenSnow" + "Density", 5), PropRef("_" + "FrozenSnow" + "Scale", 6),
      PropRef("_" + "FrozenHighlight" + "Contrast", 8), PropRef("_" + "FrozenHighlight" + "Density", 9),
      PropRef("_" + "FrozenHighlight" + "Speed", 10), PropRef("_" + "FrozenHighlight" + "Scale", 11),
      PropRef("_" + "FrozenHighlight" + "Distortion", 12), PropRef("_" + "FrozenHighlight" + "DistortionSpeed", 13),
      PropRef("_" + "FrozenHighlight" + "DistortionScale", 14) ]
  }
}
