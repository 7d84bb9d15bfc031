/** When a changed configuration calls for a reload (src/modelconfig.cpp:44-136). */
module ModelConfigs {
  import opened VersionPolicy

  datatype Mode = FIXED | AUTO

  datatype ShapeInfo = ShapeInfo(mode: Mode, shape: seq<nat>)

  datatype ModelConfig = ModelConfig(
    name: string, stateful: bool, idleSequenceCleanup: bool, maxSequenceNumber: nat, lowLatencyTransformation: bool,
    basePath: string, targetDevice: string, batchingMode: Mode, batchSize: nat, nireq: nat,
    pluginConfig: map<string, string>, layout: string, layouts: map<string, string>,
    shapes: map<string, ShapeInfo>, customLoaderOptions: map<string, string>,
    // not looked at by the comparison
    localPath: string, version: int, mappingInputs: map<string, string>, mappingOutputs: map<string, string>,
    policy: Policy, customLoaderOptionsText: string)

  /** Lines 121-136; `first` and `firstOther` are the entries the two maps begin with, when they are not empty. */
  predicate ShapesEqual(a: map<string, ShapeInfo>, b: map<string, ShapeInfo>, first: string, firstOther: string)
    requires |a| > 0 ==> first in a
    requires |b| > 0 ==> firstOther in b
  {
    if |a| != |b| then false
    else if |a| > 1 then a == b
    else if |a| == 1 then first == firstOther && a[first] == b[firstOther]
    else true
  }

  /** Lines 107-119. */
  predicate CustomLoaderChanged(a: map<string, string>, b: map<string, string>) {
    |a| != |b| || (|a| > 0 && |b| > 0 && a != b)
  }

  predicate ReloadRequired(a: ModelConfig, b: ModelConfig, first: string, firstOther: string)
    requires |a.shapes| > 0 ==> first in a.shapes
    requires |b.shapes| > 0 ==> firstOther in b.shapes
  {
    || a.name != b.name
    || a.stateful != b.stateful
    || a.idleSequenceCleanup != b.idleSequenceCleanup
    || a.maxSequenceNumber != b.maxSequenceNumber
    || a.lowLatencyTransformation != b.lowLatencyTransformation
    || a.basePath != b.basePath
    || a.targetDevice != b.targetDevice
    || a.batchingMode != b.batchingMode
    || a.batchSize != b.batchSize
    || a.nireq != b.nireq
    || a.pluginConfig != b.pluginConfig
    || a.layout != b.layout
    || a.layouts != b.layouts
    || !ShapesEqual(a.shapes, b.shapes, first, firstOther)
    || CustomLoaderChanged(a.customLoaderOptions, b.customLoaderOptions)
  }

  /**
    The configuration without what the comparison does not look at: what a load fills in for itself, the
    version policy, and the text from which the custom loader options were read.
   */
  function Essence(c: ModelConfig): ModelConfig {
    c.(localPath := "", version := 0, mappingInputs := map[], mappingOutputs := map[], policy := All,
       customLoaderOptionsText := "")
  }

  lemma SingletonMap(m: map<string, ShapeInfo>, k: string)
    requires |m| == 1 && k in m
    ensures m == map[k := m[k]]
  {
    assert |m.Keys - {k}| == 0;
    assert m.Keys == {k} by {
      assert m.Keys - {k} == {};
    }
  }

  /** The shape comparison, for all its cases, is equality of the maps. */
  lemma ShapesEqualIsEquality(a: map<string, ShapeInfo>, b: map<string, ShapeInfo>, first: string, firstOther: string)
    requires |a| > 0 ==> first in a
    requires |b| > 0 ==> firstOther in b
    ensures ShapesEqual(a, b, first, firstOther) <==> a == b
  {
    if |a| == 1 && |b| == 1 {
      SingletonMap(a, first);
      SingletonMap(b, firstOther);
    } else if |a| == 0 && |b| == 0 {
      assert a == map[] && b == map[];
    }
  }

  /** A reload is required exactly when the configurations differ in what is compared. */
  lemma ReloadRequiredExactly(a: ModelConfig, b: ModelConfig, first: string, firstOther: string)
    requires |a.shapes| > 0 ==> first in a.shapes
    requires |b.shapes| > 0 ==> firstOther in b.shapes
    ensures ReloadRequired(a, b, first, firstOther) <==> Essence(a) != Essence(b)
  {
    ShapesEqualIsEquality(a.shapes, b.shapes, first, firstOther);
    CustomLoaderChangedIsInequality(a.customLoaderOptions, b.customLoaderOptions);
    hide ShapesEqual, CustomLoaderChanged;
  }

  /** No reload is required exactly when the one is the other with the fields that are not looked at replaced. */
  lemma SettledExactly(a: ModelConfig, b: ModelConfig, first: string, firstOther: string)
    requires |a.shapes| > 0 ==> first in a.shapes
    requires |b.shapes| > 0 ==> firstOther in b.shapes
    ensures !ReloadRequired(a, b, first, firstOther) <==>
              a.(localPath := b.localPath, version := b.version, mappingInputs := b.mappingInputs,
                 mappingOutputs := b.mappingOutputs, policy := b.policy,
                 customLoaderOptionsText := b.customLoaderOptionsText) == b
  {
    ReloadRequiredExactly(a, b, first, firstOther);
  }

  lemma CustomLoaderChangedIsInequality(a: map<string, string>, b: map<string, string>)
    ensures CustomLoaderChanged(a, b) <==> a != b
  {
    if |a| == 0 && |b| == 0 {
      assert a == map[] && b == map[];
    }
  }
}
