/**
 * RuntimeConfigApplier.MergeConfigs: builds a new configuration whose every
 * public field is the base value or the override value, as the field's merge
 * mode (from its ConfigField attribute, or synthesised from the class's
 * RuntimeConfig attribute) and the force flag decide.
 */
module RuntimeConfigApplier {
  import opened Wrappers

  datatype CopyMode = Direct | Instantiate | Custom
  datatype MergeMode = ReplaceIfDefault | AlwaysReplace

  /** A ConfigField attribute: target name (null means the member's own), copy mode, strategy, merge mode. */
  datatype ConfigFieldAttr = ConfigFieldAttr(
    TargetFieldName: Option<string>,
    Mode: CopyMode,
    StrategyType: Option<string>,
    MergeMode: MergeMode,
    IgnoreOnApply: bool)

  /** The class-level RuntimeConfig attribute: its default copy and merge modes. */
  datatype RuntimeConfigAttr = RuntimeConfigAttr(DefaultCopyMode: CopyMode, DefaultMergeMode: MergeMode)

  /** A field value: null, a string, an object reference, an enum constant, or any other value type. */
  datatype ConfigValue = Null | Str(s: string) | Ref(id: nat) | EnumValue(ordinal: int) | Struct(contents: int)

  /**
   * The categories IsValueOverridable tests, in its order: string, a Unity
   * object type, an enum, another value type (with its default value), any
   * other reference type.
   */
  datatype FieldType = TString | TUnityObject | TEnum | TValueType(defaultValue: ConfigValue) | TReference

  /** A public instance field of the configuration type. */
  datatype ConfigMember = ConfigMember(name: string, ftype: FieldType, attr: Option<ConfigFieldAttr>)

  /**
   * ResolveConfigFieldAttribute: the member's own attribute; otherwise, when
   * the class has a RuntimeConfig attribute, one synthesised from its
   * defaults with the member's name as target; otherwise null.
   */
  function ResolveConfigFieldAttribute(member: ConfigMember, classAttr: Option<RuntimeConfigAttr>): (r: Option<ConfigFieldAttr>)
    ensures member.attr.Some? ==> r == member.attr
    ensures member.attr.None? && classAttr.Some? ==>
              r == Some(ConfigFieldAttr(Some(member.name), classAttr.value.DefaultCopyMode, None,
                                        classAttr.value.DefaultMergeMode, false))
    ensures r.None? <==> member.attr.None? && classAttr.None?
  {
    if member.attr.None? && classAttr.Some? then
      Some(ConfigFieldAttr(Some(member.name), classAttr.value.DefaultCopyMode, None, classAttr.value.DefaultMergeMode, false))
    else member.attr
  }

  /**
   * IsValueOverridable: true when the current value counts as set (so
   * ReplaceIfDefault keeps it). A null string counts as set.
   */
  function IsValueOverridable(ftype: FieldType, current: ConfigValue): (r: bool)
    ensures !r <==> || (ftype == TString && current == Str(""))
                    || (ftype == TUnityObject && current == Null)
                    || ftype == TEnum
                    || (ftype.TValueType? && current == ftype.defaultValue)
                    || (ftype == TReference && current == Null)
  {
    match ftype
    case TString => !current.Str? || current.s != ""
    case TUnityObject => current != Null
    case TEnum => false
    case TValueType(d) => current != d
    case TReference => current != Null
  }

  /** The merge-mode switch: AlwaysReplace replaces, ReplaceIfDefault replaces a value that is not set. */
  function ShouldReplace(mode: MergeMode, ftype: FieldType, baseValue: ConfigValue): bool {
    match mode
    case AlwaysReplace => true
    case ReplaceIfDefault => !IsValueOverridable(ftype, baseValue)
  }

  /** The value one field of the merged configuration receives. */
  function MergedValue(attr: ConfigFieldAttr, ftype: FieldType, baseValue: ConfigValue, overrideValue: ConfigValue, forceOverride: bool): (r: ConfigValue)
    ensures r == baseValue || r == overrideValue
  {
    if forceOverride || ShouldReplace(attr.MergeMode, ftype, baseValue) then overrideValue else baseValue
  }

  /**
   * The merge rule field by field: force takes the override, AlwaysReplace
   * takes the override, ReplaceIfDefault takes it exactly when the base is
   * not set, and every other case keeps the base.
   */
  lemma MergeRule(attr: ConfigFieldAttr, ftype: FieldType, baseValue: ConfigValue, overrideValue: ConfigValue, forceOverride: bool)
    requires baseValue != overrideValue
    ensures forceOverride ==> MergedValue(attr, ftype, baseValue, overrideValue, forceOverride) == overrideValue
    ensures attr.MergeMode == AlwaysReplace ==> MergedValue(attr, ftype, baseValue, overrideValue, forceOverride) == overrideValue
    ensures !forceOverride && attr.MergeMode == ReplaceIfDefault ==>
              (MergedValue(attr, ftype, baseValue, overrideValue, forceOverride) == overrideValue <==> !IsValueOverridable(ftype, baseValue))
  {
  }

  /** Under ReplaceIfDefault a null string base is kept, and an empty one replaced; any enum base is replaced. */
  lemma StringAndEnumBases(attr: ConfigFieldAttr, overrideValue: ConfigValue, e: int)
    requires attr.MergeMode == ReplaceIfDefault
    ensures MergedValue(attr, TString, Null, overrideValue, false) == Null
    ensures MergedValue(attr, TString, Str(""), overrideValue, false) == overrideValue
    ensures MergedValue(attr, TEnum, EnumValue(e), overrideValue, false) == overrideValue
  {
  }

  /** MergeConfigs throws when a field resolves to a null attribute (fieldAttr.MergeMode on null). */
  datatype MergeError = NullFieldAttribute(field: string)

  /** What MergeConfigs returns: the base configuration object itself, or a new merged one. */
  datatype MergeOutcome = ReturnedBase | Merged(values: seq<ConfigValue>)

  /** Every field has an attribute after resolution. */
  predicate AllResolved(fields: seq<ConfigMember>, classAttr: Option<RuntimeConfigAttr>) {
    forall i :: 0 <= i < |fields| ==> ResolveConfigFieldAttribute(fields[i], classAttr).Some?
  }

  /** The merged value of field i. */
  function MergedField(fields: seq<ConfigMember>, classAttr: Option<RuntimeConfigAttr>,
                       baseConfig: seq<ConfigValue>, overrideConfig: seq<ConfigValue>, forceOverride: bool, i: nat): ConfigValue
    requires i < |fields| == |baseConfig| == |overrideConfig|
    requires ResolveConfigFieldAttribute(fields[i], classAttr).Some?
  {
    MergedValue(ResolveConfigFieldAttribute(fields[i], classAttr).value, fields[i].ftype, baseConfig[i], overrideConfig[i], forceOverride)
  }

  /**
   * MergeConfigs: without a public parameterless constructor the base object
   * is returned; otherwise every field of a new object gets its merged value,
   * and the first field with no attribute aborts the merge. The inputs are
   * values and are never changed.
   */
  method MergeConfigs(fields: seq<ConfigMember>, classAttr: Option<RuntimeConfigAttr>,
                      baseConfig: seq<ConfigValue>, overrideConfig: seq<ConfigValue>,
                      forceOverride: bool, hasPublicConstructor: bool)
    returns (r: Result<MergeOutcome, MergeError>)
    requires |baseConfig| == |fields| == |overrideConfig|
    ensures !hasPublicConstructor ==> r == Ok(ReturnedBase)
    ensures hasPublicConstructor ==> (r.Ok? <==> AllResolved(fields, classAttr))
    ensures r.Err? ==> exists i :: && 0 <= i < |fields| && ResolveConfigFieldAttribute(fields[i], classAttr).None?
                                   && r.error == NullFieldAttribute(fields[i].name)
                                   && forall j :: 0 <= j < i ==> ResolveConfigFieldAttribute(fields[j], classAttr).Some?
    ensures hasPublicConstructor && r.Ok? ==>
              && r.value.Merged? && |r.value.values| == |fields|
              && forall i :: 0 <= i < |fields| ==>
                   r.value.values[i] == MergedField(fields, classAttr, baseConfig, overrideConfig, forceOverride, i)
  {
    if !hasPublicConstructor {
      return Ok(ReturnedBase);
    }
    var merged: seq<ConfigValue> := [];
    var i := 0;
    while i < |fields|
      invariant 0 <= i <= |fields| && |merged| == i
      invariant forall j :: 0 <= j < i ==> ResolveConfigFieldAttribute(fields[j], classAttr).Some?
      invariant forall j :: 0 <= j < i ==>
                  merged[j] == MergedField(fields, classAttr, baseConfig, overrideConfig, forceOverride, j)
    {
      var field := fields[i];
      var baseValue := baseConfig[i];
      var overrideValue := overrideConfig[i];
      var finalValue := baseValue;
      var fieldAttr := ResolveConfigFieldAttribute(field, classAttr);
      if fieldAttr.None? {
        return Err(NullFieldAttribute(field.name));
      }
      var shouldReplace := match fieldAttr.value.MergeMode {
        case AlwaysReplace => true
        case ReplaceIfDefault => !IsValueOverridable(field.ftype, baseValue)
      };
      if forceOverride || shouldReplace {
        finalValue := overrideValue;
      }
      merged := merged + [finalValue];
      i := i + 1;
    }
    return Ok(Merged(merged));
  }

  /** With the force flag every field of a completed merge takes the override value. */
  lemma {:induction false} ForcedMergeIsOverride(fields: seq<ConfigMember>, classAttr: Option<RuntimeConfigAttr>,
                                                 baseConfig: seq<ConfigValue>, overrideConfig: seq<ConfigValue>)
    requires |baseConfig| == |fields| == |overrideConfig| && AllResolved(fields, classAttr)
    ensures forall i :: 0 <= i < |fields| ==> MergedField(fields, classAttr, baseConfig, overrideConfig, true, i) == overrideConfig[i]
  {
    forall i | 0 <= i < |fields| ensures MergedField(fields, classAttr, baseConfig, overrideConfig, true, i) == overrideConfig[i] {
      assert ResolveConfigFieldAttribute(fields[i], classAttr).Some?;
    }
  }
}
