/**
  What a load does to the network (src/modelinstance.cpp:64-162, 460-466, 482-497).  A network that an earlier
  load has read is kept, so its shapes are those of the earlier load wherever this one does not set them.
 */
module NetworkLoading {
  import opened Integers
  import opened ModelConfigs

  type Shape = seq<nat>

  /** The shape of every input.  The batch size is the first dimension of the inputs. */
  type Network = map<string, Shape>

  /** A configuration together with the network in its model files. */
  datatype Config = Config(settings: ModelConfig, file: Network)

  /** `DynamicModelParameter`: neither, a batch size, or shapes. */
  datatype Param = NoParam | Batch(size: int) | Shapes(shapes: map<string, Shape>)

  const ANONYMOUS := "ANONYMOUS_INPUT_NAME"

  // ----- the batch size -----

  /** The batch size that the load sets, or 0. */
  function BatchToSet(c: ModelConfig, p: Param): nat {
    if p.Batch? && p.size > 0 then p.size else c.batchSize
  }

  function WithBatch(net: Network, n: nat): Network {
    map name | name in net :: if net[name] == [] then [] else [n] + net[name][1..]
  }

  ghost predicate HasBatch(net: Network, n: nat) {
    forall name :: name in net && net[name] != [] ==> net[name][0] == n
  }

  function Batched(c: ModelConfig, p: Param, net: Network): Network {
    if BatchToSet(c, p) > 0 then WithBatch(net, BatchToSet(c, p)) else net
  }

  // ----- the shapes -----

  /** A configured shape may be under the input's name or anonymous (src/modelconfig.hpp:644-653). */
  predicate ShapeAuto(c: ModelConfig, name: string) {
    if name in c.shapes then c.shapes[name].mode.AUTO?
    else ANONYMOUS in c.shapes && c.shapes[ANONYMOUS].mode.AUTO?
  }

  predicate ShapeRequested(p: Param, name: string) {
    p.Shapes? && name in p.shapes && p.shapes[name] != []
  }

  /** The shape that configuration and parameter give an input, or the empty one. */
  function GivenShape(c: ModelConfig, p: Param, name: string): Shape {
    if ShapeAuto(c, name) && ShapeRequested(p, name) then p.shapes[name]
    else if name in c.shapes && c.shapes[name].shape != [] then c.shapes[name].shape
    else if ANONYMOUS in c.shapes then c.shapes[ANONYMOUS].shape
    else []
  }

  function FinalShape(c: ModelConfig, p: Param, name: string, current: Shape): Shape {
    if BatchToSet(c, p) > 0 || GivenShape(c, p, name) == [] then current else GivenShape(c, p, name)
  }

  function Shaped(c: ModelConfig, p: Param, net: Network): Network {
    map name | name in net :: FinalShape(c, p, name, net[name])
  }

  /** The configured shapes or layouts do not fit the network's inputs, lines 65-87. */
  predicate Rejected(c: ModelConfig, net: Network) {
    || (c.shapes.Keys == {ANONYMOUS} && !ShapeAuto(c, ANONYMOUS) && |net| > 1)
    || (c.layout != "" && |net| > 1)
    || exists name :: name in c.shapes && name != ANONYMOUS && name !in net
  }

  /**
    The shape of an input when no batch size is set: the parameter's where the configuration says auto, else the one
    configured under the input's name, else the anonymous one, else what it was.
   */
  ghost predicate FollowsRule(c: ModelConfig, p: Param, name: string, before: Shape, after: Shape) {
    var own := name in c.shapes;
    var anonymous := "ANONYMOUS_INPUT_NAME" in c.shapes;
    var mode := if own then c.shapes[name].mode
                else if anonymous then c.shapes["ANONYMOUS_INPUT_NAME"].mode
                else FIXED;
    if mode == AUTO && p.Shapes? && name in p.shapes && p.shapes[name] != [] then after == p.shapes[name]
    else if own && c.shapes[name].shape != [] then after == c.shapes[name].shape
    else if anonymous && c.shapes["ANONYMOUS_INPUT_NAME"].shape != []
    then after == c.shapes["ANONYMOUS_INPUT_NAME"].shape
    else after == before
  }

  lemma ShapedFollowsRule(c: ModelConfig, p: Param, net: Network, name: string)
    requires name in net && BatchToSet(c, p) == 0
    ensures name in Shaped(c, p, net) && FollowsRule(c, p, name, net[name], Shaped(c, p, net)[name])
  {
  }

  /** `loadInputTensors`; `reshapes` says whether the engine can reshape the network as asked. */
  method LoadInputTensors(c: ModelConfig, p: Param, net: Network, reshapes: bool) returns (ok: bool, after: Network)
    ensures ok <==> !Rejected(c, net) && (reshapes || Shaped(c, p, net) == net)
    ensures after.Keys == net.Keys
    ensures ok && !(p.Batch? && p.size > 0) && c.batchSize == 0 ==>
              forall name :: name in net ==> FollowsRule(c, p, name, net[name], after[name])
    ensures after == if ok then Shaped(c, p, net) else net
  {
    if Rejected(c, net) {
      return false, net;
    }
    var shapes, reshapeRequired := ShapeInputs(c, p, net);
    if BatchToSet(c, p) == 0 {
      forall name | name in net ensures FollowsRule(c, p, name, net[name], shapes[name]) {
        ShapedFollowsRule(c, p, net, name);
      }
    }
    if reshapeRequired && !reshapes {
      return false, net;
    }
    return true, shapes;
  }

  /** Lines 97-119. */
  method ShapeInputs(c: ModelConfig, p: Param, net: Network) returns (shapes: Network, reshapeRequired: bool)
    ensures shapes == Shaped(c, p, net) && (reshapeRequired <==> shapes != net)
  {
    shapes, reshapeRequired := net, false;
    var pending := net.Keys;
    hide FinalShape;
    while pending != {}
      invariant pending <= net.Keys && shapes.Keys == net.Keys
      invariant forall name :: name in pending ==> shapes[name] == net[name]
      invariant forall name :: name in net && name !in pending ==> shapes[name] == FinalShape(c, p, name, net[name])
      invariant reshapeRequired <==> exists name :: name in net && shapes[name] != net[name]
      decreases |pending|
    {
      var name :| name in pending;
      var shape := ChooseShape(c, p, name, net[name]);
      if shapes[name] != shape {
        reshapeRequired := true;
        shapes := shapes[name := shape];
      }
      pending := pending - {name};
    }
    assert shapes == Shaped(c, p, net);
  }

  /** Lines 100-109. */
  method ChooseShape(c: ModelConfig, p: Param, name: string, current: Shape) returns (shape: Shape)
    ensures shape == FinalShape(c, p, name, current)
  {
    shape := current;
    if c.batchSize > 0 || (p.Batch? && p.size > 0) {
      // the shape is left untouched
    } else if ShapeAuto(c, name) && ShapeRequested(p, name) {
      shape := p.shapes[name];
    } else if name in c.shapes && |c.shapes[name].shape| > 0 {
      shape := c.shapes[name].shape;
    } else if ANONYMOUS in c.shapes && |c.shapes[ANONYMOUS].shape| > 0 {
      shape := c.shapes[ANONYMOUS].shape;
    }
  }

  /** When the settings do not fit the inputs of the network. */
  lemma RejectedExactly(c: ModelConfig, net: Network)
    requires |net| == 1
    ensures Rejected(c, net) <==> !(c.shapes.Keys <= net.Keys + {"ANONYMOUS_INPUT_NAME"})
  {
  }

  /** With several inputs neither a layout without a name nor a single, fixed, anonymous shape will do. */
  lemma RejectedExactlyForSeveral(c: ModelConfig, net: Network)
    requires |net| > 1
    ensures Rejected(c, net) <==>
              || !(c.shapes.Keys <= net.Keys + {"ANONYMOUS_INPUT_NAME"})
              || c.layout != ""
              || (exists shape :: c.shapes == map["ANONYMOUS_INPUT_NAME" := ShapeInfo(FIXED, shape)])
  {
    if c.shapes.Keys == {ANONYMOUS} && !ShapeAuto(c, ANONYMOUS) {
      assert c.shapes == map["ANONYMOUS_INPUT_NAME" := ShapeInfo(FIXED, c.shapes[ANONYMOUS].shape)];
    }
  }

  // ----- the whole load -----

  function Configure(c: ModelConfig, p: Param, net: Network): Network {
    Shaped(c, p, Batched(c, p, net))
  }

  /** The network of a first load without parameter. */
  function Fresh(c: Config): Network {
    Configure(c.settings, NoParam, c.file)
  }

  /**
    The shape of every input after a load.  A batch size, the parameter's before the configuration's, replaces the
    first dimension and nothing else.
   */
  lemma ConfigureMeans(c: ModelConfig, p: Param, net: Network, name: string)
    requires name in net
    ensures Configure(c, p, net).Keys == net.Keys
    ensures var after := Configure(c, p, net)[name];
            if p.Batch? && p.size > 0 then after == if net[name] == [] then [] else [p.size] + net[name][1..]
            else if c.batchSize > 0 then after == if net[name] == [] then [] else [c.batchSize] + net[name][1..]
            else FollowsRule(c, p, name, net[name], after)
  {
    ConfigureKeys(c, p, net);
    ConfigureAt(c, p, net, name);
    if BatchToSet(c, p) == 0 {
      ShapedFollowsRule(c, p, net, name);
    }
  }

  /** What the parameter asks for is there, whatever the network was before. */
  ghost predicate Honoured(c: ModelConfig, p: Param, net: Network) {
    && (BatchToSet(c, p) > 0 ==> HasBatch(net, BatchToSet(c, p)))
    && (BatchToSet(c, p) == 0 ==>
          forall name :: name in net && ShapeAuto(c, name) && ShapeRequested(p, name) ==> net[name] == p.shapes[name])
  }

  lemma LoadHonours(c: ModelConfig, p: Param, net: Network)
    ensures Honoured(c, p, Configure(c, p, net))
  {
  }

  function Rest(shape: Shape): Shape {
    if shape == [] then [] else shape[1..]
  }

  /** Two networks differ at most in what a load with `c` and `p` sets. */
  ghost predicate SameUnder(c: ModelConfig, p: Param, a: Network, b: Network) {
    && a.Keys == b.Keys
    && forall name :: name in a ==> SameShapeUnder(c, p, name, a[name], b[name])
  }

  predicate SameShapeUnder(c: ModelConfig, p: Param, name: string, a: Shape, b: Shape) {
    if BatchToSet(c, p) > 0 then |a| == |b| && Rest(a) == Rest(b)
    else GivenShape(c, p, name) != [] || a == b
  }

  function ShapeAfter(c: ModelConfig, p: Param, name: string, shape: Shape): Shape {
    if BatchToSet(c, p) == 0 then FinalShape(c, p, name, shape)
    else if shape == [] then [] else [BatchToSet(c, p)] + shape[1..]
  }

  lemma ConfigureAt(c: ModelConfig, p: Param, net: Network, name: string)
    requires name in net
    ensures name in Configure(c, p, net) && Configure(c, p, net)[name] == ShapeAfter(c, p, name, net[name])
  {
    assert name in Batched(c, p, net);
  }

  lemma SameShapeExactly(c: ModelConfig, p: Param, name: string, a: Shape, b: Shape)
    ensures ShapeAfter(c, p, name, a) == ShapeAfter(c, p, name, b) <==> SameShapeUnder(c, p, name, a, b)
  {
    if BatchToSet(c, p) > 0 && a != [] && b != [] {
      assert Rest(a) == ShapeAfter(c, p, name, a)[1..] && Rest(b) == ShapeAfter(c, p, name, b)[1..];
    }
  }

  lemma ConfigureKeys(c: ModelConfig, p: Param, net: Network)
    ensures Configure(c, p, net).Keys == net.Keys
  {
    assert Batched(c, p, net).Keys == net.Keys;
  }

  /**
    A load on a kept network ends with the same network as a load from the files exactly when the two differ
    only in what this load sets: the first dimension when it sets a batch size, otherwise the given shapes.
   */
  lemma KeptEqualsRead(c: ModelConfig, p: Param, kept: Network, file: Network)
    ensures Configure(c, p, kept) == Configure(c, p, file) <==> SameUnder(c, p, kept, file)
  {
    var a, b := Configure(c, p, kept), Configure(c, p, file);
    ConfigureKeys(c, p, kept);
    ConfigureKeys(c, p, file);
    hide Configure;
    if kept.Keys == file.Keys {
      forall name | name in kept ensures a[name] == b[name] <==> SameShapeUnder(c, p, name, kept[name], file[name]) {
        ConfigureAt(c, p, kept, name);
        ConfigureAt(c, p, file, name);
        SameShapeExactly(c, p, name, kept[name], file[name]);
      }
      assert a == b <==> forall name :: name in kept ==> a[name] == b[name];
    }
  }

  /** A plain reload after a dynamic batch change keeps the changed batch when nothing else is configured. */
  lemma PlainReloadKeepsBatch(c: ModelConfig, n: nat, file: Network)
    requires c.batchSize == 0 && c.shapes == map[] && 0 < n <= INT_MAX
    ensures Configure(c, NoParam, Configure(c, Batch(n), file)) == WithBatch(file, n)
    ensures Configure(c, NoParam, Configure(c, Batch(n), file)) == Configure(c, NoParam, file) <==> HasBatch(file, n)
  {
    var kept := WithBatch(file, n);
    assert Configure(c, Batch(n), file) == kept;
    assert Configure(c, NoParam, kept) == kept;
    assert Configure(c, NoParam, file) == file;
    forall name | name in file ensures kept[name] == file[name] <==> (file[name] == [] || file[name][0] == n) {
      if file[name] != [] {
        assert file[name] == [file[name][0]] + file[name][1..];
        assert kept[name][0] == n;
      }
    }
    assert kept == file <==> forall name :: name in file ==> kept[name] == file[name];
  }

  // ----- the parameter of a dynamic reload -----

  /** Lines 589-597; the constructor takes the batch size as an `int`. */
  function ParameterFor(batchSize: nat, shapes: map<string, Shape>): Param {
    if batchSize > 0 then Batch(ToInt(batchSize)) else if |shapes| > 0 then Shapes(shapes) else NoParam
  }

  ghost predicate NoDimensions(net: Network) {
    forall name :: name in net ==> net[name] == []
  }

  /** A batch size that is not positive as an `int` counts as none. */
  lemma BadBatchIsNone(c: ModelConfig, size: int, net: Network)
    requires size <= 0
    ensures Configure(c, Batch(size), net) == Configure(c, NoParam, net)
  {
    assert Batched(c, Batch(size), net) == Batched(c, NoParam, net);
  }

  /**
    The requested batch size is the network's afterwards exactly when it fits an `int`; otherwise only if the
    load would have ended with it anyway, or there is no dimension to set.
   */
  lemma RequestedBatchExactly(c: ModelConfig, batchSize: nat, shapes: map<string, Shape>, net: Network)
    requires batchSize > 0
    ensures HasBatch(Configure(c, ParameterFor(batchSize, shapes), net), batchSize)
            <==> || batchSize <= INT_MAX
                 || (if ToInt(batchSize) > 0 then NoDimensions(net)
                      else HasBatch(Configure(c, NoParam, net), batchSize))
  {
    var k := ToInt(batchSize);
    if k > 0 {
      assert Configure(c, Batch(k), net) == WithBatch(net, k);
      assert k == batchSize <==> batchSize <= INT_MAX;
      hide ToInt, Configure, WithBatch, HasBatch;
      WithBatchHas(net, k, batchSize);
    } else {
      hide Configure, HasBatch;
      BadBatchIsNone(c, k, net);
    }
  }

  lemma WithBatchHas(net: Network, k: nat, n: nat)
    ensures HasBatch(WithBatch(net, k), n) <==> k == n || NoDimensions(net)
  {
    var after := WithBatch(net, k);
    if k != n && HasBatch(after, n) {
      forall name | name in net ensures net[name] == [] {
        assert name in after;
      }
    }
  }

  /** 2^32 + 1 asks for a batch of one, and 2^31 for none at all. */
  lemma BatchBeyondInt(c: ModelConfig, shapes: map<string, Shape>)
    requires c.batchSize == 0 && c.shapes == map[]
    ensures Configure(c, ParameterFor(0x1_0000_0001, shapes), map["x" := [8, 3]]) == map["x" := [1, 3]]
    ensures Configure(c, ParameterFor(0x8000_0000, shapes), map["x" := [8, 3]]) == map["x" := [8, 3]]
  {
    assert ToInt(0x1_0000_0001) == 1 && ToInt(0x8000_0000) < 0;
    assert [1] + [8, 3][1..] == [1, 3];
  }
}
