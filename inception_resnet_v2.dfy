/** The tensor-shape bookkeeping of the modified Inception-ResNet-v2 network:
    every convolution, pooling window, concatenation and residual sum as a
    map on (batch, height, width, channels) shapes, in exact integer
    arithmetic. A layer the graph builder would reject (a VALID window larger
    than its input, a concatenation or sum of mismatched shapes) gives None.
    Weights, batch normalisation, dropout, ReLU and the residual scale only
    change values, never shapes, and are not modelled. */
module InceptionResNetV2 {
  import opened Wrappers

  /** An NHWC tensor shape. */
  datatype Shape = Shape(batch: nat, height: nat, width: nat, channels: nat)

  /** A (batch, features) shape, after flattening. */
  datatype FlatShape = FlatShape(batch: nat, features: nat)

  datatype Padding = Same | Valid

  // ------------------------------------------------------------- windows

  /** `m` is the number of positions of a `k`-wide window moved by `s`
      along `n` cells: under VALID padding every window lies inside the
      input, the last one fits and one more would not; under SAME padding
      the windows start at 0, s, 2s, ... and together reach every cell. */
  predicate WindowCount(n: nat, k: nat, s: nat, p: Padding, m: nat) {
    match p
    case Valid => m >= 1 && (m - 1) * s + k <= n < m * s + k
    case Same => (m - 1) * s < n <= m * s
  }

  /** The output length along one spatial axis: `(n - k) / s + 1` under
      VALID padding, which needs `n >= k`, and `ceil(n / s)` under SAME
      padding; a zero kernel or stride is rejected. */
  function WindowOut(n: nat, k: nat, s: nat, p: Padding): (r: Option<nat>)
    ensures r.Some? <==> k >= 1 && s >= 1 && (p == Same || n >= k)
    ensures r.Some? ==> WindowCount(n, k, s, p, r.value)
  {
    if k == 0 || s == 0 then None
    else match p
      case Valid =>
        if n < k then None
        else
          ValidCount(n, k, s);
          Some((n - k) / s + 1)
      case Same =>
        SameCount(n, k, s);
        Some((n + s - 1) / s)
  }

  lemma ValidCount(n: nat, k: nat, s: nat)
    requires 1 <= k <= n && s >= 1
    ensures WindowCount(n, k, s, Valid, (n - k) / s + 1)
  {
    var q := (n - k) / s;
    DivBounds(n - k, s);
    assert (q + 1) * s == q * s + s;
  }

  lemma SameCount(n: nat, k: nat, s: nat)
    requires s >= 1
    ensures WindowCount(n, k, s, Same, (n + s - 1) / s)
  {
    var m := (n + s - 1) / s;
    DivBounds(n + s - 1, s);
    assert (m - 1) * s == m * s - s;
  }

  /** Euclidean division by a positive stride. */
  lemma DivBounds(a: nat, s: nat)
    requires s >= 1
    ensures (a / s) * s <= a < (a / s) * s + s
  {
  }

  /** The window count is determined by the input length, kernel, stride
      and padding, so `WindowOut` is the only length these layers can give. */
  lemma WindowCountUnique(n: nat, k: nat, s: nat, p: Padding, m1: nat, m2: nat)
    requires s >= 1 && WindowCount(n, k, s, p, m1) && WindowCount(n, k, s, p, m2)
    ensures m1 == m2
  {
    if m1 < m2 {
      MulMono(m1, m2 - 1, s);
    } else if m2 < m1 {
      MulMono(m2, m1 - 1, s);
    }
  }

  lemma MulMono(a: nat, b: nat, s: nat)
    requires a <= b
    ensures a * s <= b * s
  {
  }

  /** A stride-1 SAME window keeps the length. */
  lemma SameStrideOne(n: nat, k: nat)
    requires k >= 1
    ensures WindowOut(n, k, 1, Same) == Some(n)
  {
  }

  // -------------------------------------------------------------- layers

  /** A convolution with `outChannels` filters, or a pooling window; each
      has a `kh` x `kw` kernel, a stride and a padding. */
  datatype Layer =
    | Conv(outChannels: nat, kh: nat, kw: nat, stride: nat, padding: Padding)
    | MaxPool(kh: nat, kw: nat, stride: nat, padding: Padding)
    | AvgPool(kh: nat, kw: nat, stride: nat, padding: Padding)

  /** `slim.conv2d` under the network's argument scope: stride 1, SAME. */
  function SameConv(outChannels: nat, kh: nat, kw: nat): Layer {
    Conv(outChannels, kh, kw, 1, Same)
  }

  /** A 3x3 window at stride 2 with VALID padding, as the reduction
      layers use. */
  predicate IsReduction(layer: Layer) {
    layer.kh == 3 && layer.kw == 3 && layer.stride == 2 && layer.padding == Valid
  }

  /** A stride-1 SAME layer with a non-empty kernel. */
  predicate KeepsGrid(layer: Layer) {
    layer.kh >= 1 && layer.kw >= 1 && layer.stride == 1 && layer.padding == Same
  }

  /** Two shapes with the same batch and spatial dimensions. */
  predicate SameGrid(a: Shape, b: Shape) {
    a.batch == b.batch && a.height == b.height && a.width == b.width
  }

  /** The channel count after a layer: a convolution sets it, a pooling
      window keeps it. */
  function LayerChannels(c: nat, layer: Layer): nat {
    if layer.Conv? then layer.outChannels else c
  }

  /** The shape a layer produces from `x`; the batch is untouched. */
  function Apply(x: Shape, layer: Layer): (r: Option<Shape>)
    ensures r.Some? <==>
              WindowOut(x.height, layer.kh, layer.stride, layer.padding).Some?
              && WindowOut(x.width, layer.kw, layer.stride, layer.padding).Some?
    ensures r.Some? ==>
              && r.value.batch == x.batch
              && WindowCount(x.height, layer.kh, layer.stride, layer.padding, r.value.height)
              && WindowCount(x.width, layer.kw, layer.stride, layer.padding, r.value.width)
              && r.value.channels == LayerChannels(x.channels, layer)
  {
    var h :- WindowOut(x.height, layer.kh, layer.stride, layer.padding);
    var w :- WindowOut(x.width, layer.kw, layer.stride, layer.padding);
    Some(Shape(x.batch, h, w, LayerChannels(x.channels, layer)))
  }

  /** A grid-keeping layer keeps the batch and spatial dimensions. */
  lemma ApplyKeepsGrid(x: Shape, layer: Layer)
    requires KeepsGrid(layer)
    ensures Apply(x, layer) == Some(Shape(x.batch, x.height, x.width, LayerChannels(x.channels, layer)))
  {
    SameStrideOne(x.height, layer.kh);
    SameStrideOne(x.width, layer.kw);
  }

  /** A VALID layer with a non-empty kernel and stride maps each side `n`
      to `(n - k) / stride + 1` and rejects a side shorter than its kernel. */
  lemma ApplyValid(x: Shape, layer: Layer)
    requires layer.padding == Valid && layer.kh >= 1 && layer.kw >= 1 && layer.stride >= 1
    ensures Apply(x, layer).Some? <==> x.height >= layer.kh && x.width >= layer.kw
    ensures Apply(x, layer).Some? ==>
              Apply(x, layer).value
                == Shape(x.batch, (x.height - layer.kh) / layer.stride + 1,
                         (x.width - layer.kw) / layer.stride + 1, LayerChannels(x.channels, layer))
  {
  }

  /** Layers applied one after the other, as the rebinding `net = f(net)`
      does. */
  function Chain(x: Shape, layers: seq<Layer>): (r: Option<Shape>)
    ensures r.Some? ==> r.value.batch == x.batch
    decreases |layers|
  {
    if layers == [] then Some(x)
    else
      var y :- Apply(x, layers[0]);
      Chain(y, layers[1..])
  }

  /** The shape after each layer of a chain, in order. */
  function Trace(x: Shape, layers: seq<Layer>): Option<seq<Shape>>
    decreases |layers|
  {
    if layers == [] then Some([])
    else
      var y :- Apply(x, layers[0]);
      var rest :- Trace(y, layers[1..]);
      Some([y] + rest)
  }

  /** The channel count at the end of a chain: that of its last
      convolution, or the input's if it has none. */
  function ChainChannels(c: nat, layers: seq<Layer>): nat
    decreases |layers|
  {
    if layers == [] then c else ChainChannels(LayerChannels(c, layers[0]), layers[1..])
  }

  /** Running a chain from its `k`-th layer is that layer followed by the
      rest of the chain. */
  lemma ChainAt(x: Shape, layers: seq<Layer>, k: nat, y: Shape)
    requires k < |layers| && Apply(x, layers[k]) == Some(y)
    ensures Chain(x, layers[k..]) == Chain(y, layers[k + 1..])
  {
    assert layers[k..][1..] == layers[k + 1..];
  }

  /** The trace from the `k`-th layer on is that layer's output followed by
      the trace of the rest. */
  lemma TraceAt(x: Shape, layers: seq<Layer>, k: nat, y: Shape, rest: seq<Shape>)
    requires k < |layers| && Apply(x, layers[k]) == Some(y) && Trace(y, layers[k + 1..]) == Some(rest)
    ensures Trace(x, layers[k..]) == Some([y] + rest)
  {
    assert layers[k..][1..] == layers[k + 1..];
  }

  /** A layer that rejects its input stops the chain. */
  lemma ChainAtFails(x: Shape, layers: seq<Layer>, k: nat)
    requires k < |layers| && Apply(x, layers[k]).None?
    ensures Chain(x, layers[k..]).None?
  {
  }

  /** The channel count of a chain that ends with a convolution is that
      convolution's filter count. */
  lemma {:induction false} ChainChannelsLastConv(c: nat, layers: seq<Layer>)
    requires |layers| >= 1 && layers[|layers| - 1].Conv?
    ensures ChainChannels(c, layers) == layers[|layers| - 1].outChannels
    decreases |layers|
  {
    if |layers| > 1 {
      ChainChannelsLastConv(LayerChannels(c, layers[0]), layers[1..]);
    }
  }

  /** A chain and its trace agree: the trace exists exactly when the chain
      does, holds one shape per layer and ends with the chain's result. */
  lemma {:induction false} TraceChain(x: Shape, layers: seq<Layer>)
    ensures Trace(x, layers).Some? <==> Chain(x, layers).Some?
    ensures Trace(x, layers).Some? ==>
              && |Trace(x, layers).value| == |layers|
              && (layers != [] ==> Trace(x, layers).value[|layers| - 1] == Chain(x, layers).value)
    decreases |layers|
  {
    if layers != [] {
      var y := Apply(x, layers[0]);
      if y.Some? {
        TraceChain(y.value, layers[1..]);
      }
    }
  }

  /** A chain of grid-keeping layers keeps the batch and spatial
      dimensions and ends with the channel count of its last convolution. */
  lemma {:induction false} ChainKeepsGrid(x: Shape, layers: seq<Layer>)
    requires forall j :: 0 <= j < |layers| ==> KeepsGrid(layers[j])
    ensures Chain(x, layers) == Some(Shape(x.batch, x.height, x.width, ChainChannels(x.channels, layers)))
    decreases |layers|
  {
    if layers != [] {
      ApplyKeepsGrid(x, layers[0]);
      var y := Shape(x.batch, x.height, x.width, LayerChannels(x.channels, layers[0]));
      ChainKeepsGrid(y, layers[1..]);
    }
  }

  /** A chain of grid-keeping layers closed by one reduction layer maps
      each side `n >= 3` to `(n - 3) / 2 + 1` and fails on a smaller side. */
  lemma {:induction false} ChainReduces(x: Shape, layers: seq<Layer>)
    requires |layers| >= 1 && IsReduction(layers[|layers| - 1])
    requires forall j :: 0 <= j < |layers| - 1 ==> KeepsGrid(layers[j])
    ensures Chain(x, layers).Some? <==> x.height >= 3 && x.width >= 3
    ensures Chain(x, layers).Some? ==>
              Chain(x, layers).value
                == Shape(x.batch, (x.height - 3) / 2 + 1, (x.width - 3) / 2 + 1, ChainChannels(x.channels, layers))
    decreases |layers|
  {
    if |layers| == 1 {
      ApplyValid(x, layers[0]);
      var y := Apply(x, layers[0]);
      if y.Some? {
        assert Chain(y.value, layers[1..]) == Some(y.value);
      }
    } else {
      ApplyKeepsGrid(x, layers[0]);
      var y := Shape(x.batch, x.height, x.width, LayerChannels(x.channels, layers[0]));
      ChainReduces(y, layers[1..]);
    }
  }

  // ------------------------------------------------ concatenation, sums

  /** The channels of all parts together. */
  function ChannelSum(parts: seq<Shape>): nat {
    if parts == [] then 0 else parts[0].channels + ChannelSum(parts[1..])
  }

  /** `tf.concat(parts, axis=3)`: defined exactly when there is a part and
      all parts agree on batch, height and width; the channels add up. */
  function Concat(parts: seq<Shape>): (r: Option<Shape>)
    ensures r.Some? <==> |parts| >= 1 && forall i :: 0 <= i < |parts| ==> SameGrid(parts[i], parts[0])
    ensures r.Some? ==> SameGrid(r.value, parts[0]) && r.value.channels == ChannelSum(parts)
  {
    if |parts| == 0 then None
    else if |parts| == 1 then Some(parts[0])
    else
      var rest :- Concat(parts[1..]);
      if SameGrid(parts[0], rest) then Some(Shape(parts[0].batch, parts[0].height, parts[0].width, parts[0].channels + rest.channels))
      else None
  }

  /** The shape rule of TensorFlow's elementwise add (`x += scale * up`),
      restricted to operands of equal shape: defined exactly when the
      shapes are equal, and then of that shape. That is the only case the
      residual blocks produce (`ResidualKeepsShape`), so broadcasting is
      not modelled. */
  function Add(x: Shape, y: Shape): (r: Option<Shape>)
    ensures r.Some? <==> x == y
    ensures r.Some? ==> r.value == x
  {
    if x == y then Some(x) else None
  }

  // ---------------------------------------------------- inception modules

  /** The outputs of parallel branches, each a chain from the same input. */
  function Branches(x: Shape, branches: seq<seq<Layer>>): (r: Option<seq<Shape>>)
    ensures r.Some? ==> |r.value| == |branches|
    ensures r.Some? ==> forall i :: 0 <= i < |r.value| ==> r.value[i].batch == x.batch
  {
    if branches == [] then Some([])
    else
      var y :- Chain(x, branches[0]);
      var ys :- Branches(x, branches[1..]);
      Some([y] + ys)
  }

  /** The branch outputs concatenated on the channel axis. */
  function Mixed(x: Shape, branches: seq<seq<Layer>>): (r: Option<Shape>)
    ensures r.Some? ==> |branches| >= 1 && r.value.batch == x.batch
  {
    var outs :- Branches(x, branches);
    Concat(outs)
  }

  /** The widths of the branches added up. */
  function BranchWidth(c: nat, branches: seq<seq<Layer>>): nat {
    if branches == [] then 0 else ChainChannels(c, branches[0]) + BranchWidth(c, branches[1..])
  }

  /** Branches that all reach the same grid `g` give, concatenated, that
      grid with the sum of their widths. */
  lemma {:induction false} MixedUniform(x: Shape, branches: seq<seq<Layer>>, g: Shape)
    requires |branches| >= 1
    requires forall i :: 0 <= i < |branches| ==>
               Chain(x, branches[i]) == Some(Shape(g.batch, g.height, g.width, ChainChannels(x.channels, branches[i])))
    ensures Mixed(x, branches) == Some(Shape(g.batch, g.height, g.width, BranchWidth(x.channels, branches)))
  {
    BranchesUniform(x, branches, g);
  }

  lemma {:induction false} BranchesUniform(x: Shape, branches: seq<seq<Layer>>, g: Shape)
    requires forall i :: 0 <= i < |branches| ==>
               Chain(x, branches[i]) == Some(Shape(g.batch, g.height, g.width, ChainChannels(x.channels, branches[i])))
    ensures Branches(x, branches).Some?
    ensures var outs := Branches(x, branches).value;
      && (forall i :: 0 <= i < |outs| ==> SameGrid(outs[i], g))
      && ChannelSum(outs) == BranchWidth(x.channels, branches)
  {
    if branches != [] {
      assert Chain(x, branches[0]) == Some(Shape(g.batch, g.height, g.width, ChainChannels(x.channels, branches[0])));
      var rest := branches[1..];
      forall i | 0 <= i < |rest|
        ensures Chain(x, rest[i]) == Some(Shape(g.batch, g.height, g.width, ChainChannels(x.channels, rest[i])))
      {
        assert rest[i] == branches[i + 1];
      }
      BranchesUniform(x, rest, g);
      var outs := Branches(x, branches).value;
      var tail := Branches(x, rest).value;
      assert outs == [Chain(x, branches[0]).value] + tail;
      assert outs[1..] == tail;
      forall i | 0 <= i < |outs| ensures SameGrid(outs[i], g) {
        if i > 0 {
          assert outs[i] == tail[i - 1];
        }
      }
    }
  }

  /** If the first branch fails, the whole module fails. */
  lemma MixedFirstFails(x: Shape, branches: seq<seq<Layer>>)
    requires |branches| >= 1 && Chain(x, branches[0]).None?
    ensures Mixed(x, branches).None?
  {
  }

  /** An Inception-ResNet block (`x += scale * up`, then an optional ReLU):
      the branch outputs concatenated, projected by a 1x1 convolution to
      the input's channel count `x.get_shape()[3]`, and added to the input. */
  function Residual(x: Shape, branches: seq<seq<Layer>>): (r: Option<Shape>)
    ensures r.Some? ==> r.value == x
  {
    var mixed :- Mixed(x, branches);
    var up :- Apply(mixed, SameConv(x.channels, 1, 1));
    Add(x, up)
  }

  /** Every layer of every branch is a stride-1 SAME layer. */
  predicate AllKeepGrid(branches: seq<seq<Layer>>) {
    forall i, j :: 0 <= i < |branches| && 0 <= j < |branches[i]| ==> KeepsGrid(branches[i][j])
  }

  /** Grid-keeping branches give the input grid with their total width. */
  lemma MixedKeepsGrid(x: Shape, branches: seq<seq<Layer>>)
    requires |branches| >= 1 && AllKeepGrid(branches)
    ensures Mixed(x, branches) == Some(Shape(x.batch, x.height, x.width, BranchWidth(x.channels, branches)))
  {
    forall i | 0 <= i < |branches|
      ensures Chain(x, branches[i]) == Some(Shape(x.batch, x.height, x.width, ChainChannels(x.channels, branches[i])))
    {
      ChainKeepsGrid(x, branches[i]);
    }
    MixedUniform(x, branches, x);
  }

  /** A residual block whose branches keep the grid maps every input shape
      to itself, so the sum `x + scale * up` is always well shaped. */
  lemma ResidualKeepsShape(x: Shape, branches: seq<seq<Layer>>)
    requires |branches| >= 1 && AllKeepGrid(branches)
    ensures Residual(x, branches) == Some(x)
  {
    MixedKeepsGrid(x, branches);
    var mixed := Shape(x.batch, x.height, x.width, BranchWidth(x.channels, branches));
    ApplyKeepsGrid(mixed, SameConv(x.channels, 1, 1));
  }

  /** Reduction branches give each side `(n - 3) / 2 + 1` with their total
      width, and fail on a side below 3. */
  lemma MixedReduces(x: Shape, branches: seq<seq<Layer>>)
    requires |branches| >= 1
    requires forall i :: 0 <= i < |branches| ==>
               |branches[i]| >= 1 && IsReduction(branches[i][|branches[i]| - 1])
               && forall j :: 0 <= j < |branches[i]| - 1 ==> KeepsGrid(branches[i][j])
    ensures Mixed(x, branches).Some? <==> x.height >= 3 && x.width >= 3
    ensures Mixed(x, branches).Some? ==>
              Mixed(x, branches).value
                == Shape(x.batch, (x.height - 3) / 2 + 1, (x.width - 3) / 2 + 1, BranchWidth(x.channels, branches))
  {
    if x.height >= 3 && x.width >= 3 {
      var g := Shape(x.batch, (x.height - 3) / 2 + 1, (x.width - 3) / 2 + 1, 0);
      forall i | 0 <= i < |branches|
        ensures Chain(x, branches[i]) == Some(Shape(g.batch, g.height, g.width, ChainChannels(x.channels, branches[i])))
      {
        ChainReduces(x, branches[i]);
      }
      MixedUniform(x, branches, g);
    } else {
      ChainReduces(x, branches[0]);
      MixedFirstFails(x, branches);
    }
  }

  // ------------------------------------------------- the residual blocks

  /** Inception-ResNet-A (`block35`): 1x1/32; 1x1/32 then 3x3/32;
      1x1/32, 3x3/48 then 3x3/64. */
  const Block35Branches: seq<seq<Layer>> := [
    [SameConv(32, 1, 1)],
    [SameConv(32, 1, 1), SameConv(32, 3, 3)],
    [SameConv(32, 1, 1), SameConv(48, 3, 3), SameConv(64, 3, 3)]
  ]

  /** Inception-ResNet-B (`block17`): 1x1/192; 1x1/128, 1x7/160 then 7x1/192. */
  const Block17Branches: seq<seq<Layer>> := [
    [SameConv(192, 1, 1)],
    [SameConv(128, 1, 1), SameConv(160, 1, 7), SameConv(192, 7, 1)]
  ]

  /** Inception-ResNet-C (`block8`): 1x1/192; 1x1/192, 1x3/224 then 3x1/256. */
  const Block8Branches: seq<seq<Layer>> := [
    [SameConv(192, 1, 1)],
    [SameConv(192, 1, 1), SameConv(224, 1, 3), SameConv(256, 3, 1)]
  ]

  /** The three residual block kinds. */
  datatype BlockKind = Block35 | Block17 | Block8

  function KindBranches(kind: BlockKind): seq<seq<Layer>> {
    match kind
    case Block35 => Block35Branches
    case Block17 => Block17Branches
    case Block8 => Block8Branches
  }

  /** All three kinds are made of stride-1 SAME layers. */
  lemma KindKeepsGrid(kind: BlockKind)
    ensures |KindBranches(kind)| >= 1 && AllKeepGrid(KindBranches(kind))
  {
  }

  /** `block35`, `block17` or `block8` applied to `x`. */
  function Block(kind: BlockKind, x: Shape): (r: Option<Shape>)
    ensures r == Some(x)
  {
    KindKeepsGrid(kind);
    ResidualKeepsShape(x, KindBranches(kind));
    Residual(x, KindBranches(kind))
  }

  /** The width of a block's concatenation before the projection: fixed by
      the block, whatever the input's channel count. */
  function MixedWidth(kind: BlockKind): nat {
    match kind
    case Block35 => 128
    case Block17 => 384
    case Block8 => 448
  }

  /** The widths of the three blocks' concatenations. */
  lemma Block35Width(c: nat)
    ensures BranchWidth(c, Block35Branches) == 128
  {
    var bs := Block35Branches;
    ChainChannelsLastConv(c, bs[0]);
    ChainChannelsLastConv(c, bs[1]);
    ChainChannelsLastConv(c, bs[2]);
    assert BranchWidth(c, bs[3..]) == 0;
    assert BranchWidth(c, bs[2..]) == 64;
    assert BranchWidth(c, bs[1..]) == 96;
  }

  lemma Block17Width(c: nat)
    ensures BranchWidth(c, Block17Branches) == 384
  {
    var bs := Block17Branches;
    ChainChannelsLastConv(c, bs[0]);
    ChainChannelsLastConv(c, bs[1]);
    assert BranchWidth(c, bs[2..]) == 0;
    assert BranchWidth(c, bs[1..]) == 192;
  }

  lemma Block8Width(c: nat)
    ensures BranchWidth(c, Block8Branches) == 448
  {
    var bs := Block8Branches;
    ChainChannelsLastConv(c, bs[0]);
    ChainChannelsLastConv(c, bs[1]);
    assert BranchWidth(c, bs[2..]) == 0;
    assert BranchWidth(c, bs[1..]) == 256;
  }

  /** The concatenation inside each block keeps the input grid and has the
      block's fixed width: 32 + 32 + 64, 192 + 192 and 192 + 256. */
  lemma BlockMixedWidth(kind: BlockKind, x: Shape)
    ensures Mixed(x, KindBranches(kind)) == Some(Shape(x.batch, x.height, x.width, MixedWidth(kind)))
  {
    KindKeepsGrid(kind);
    MixedKeepsGrid(x, KindBranches(kind));
    match kind
    case Block35 => Block35Width(x.channels);
    case Block17 => Block17Width(x.channels);
    case Block8 => Block8Width(x.channels);
  }

  /** `slim.repeat(net, n, block)`: the block applied `n` times in turn. */
  function Repeat(n: nat, kind: BlockKind, x: Shape): (r: Option<Shape>)
    ensures r == Some(x)
  {
    if n == 0 then Some(x)
    else Repeat(n - 1, kind, Block(kind, x).value)
  }

  // ---------------------------------------------- stem and reductions

  /** Conv2d_1a_3x3 to MaxPool_5a_3x3. */
  const StemLayers: seq<Layer> := [
    Conv(32, 3, 3, 2, Valid),
    Conv(32, 3, 3, 1, Valid),
    SameConv(64, 3, 3),
    MaxPool(3, 3, 2, Valid),
    Conv(80, 1, 1, 1, Valid),
    Conv(192, 3, 3, 1, Valid),
    MaxPool(3, 3, 2, Valid)
  ]

  /** The stem: defined exactly for sides of at least 27, which it maps to
      `(n - 19) / 8` with 192 channels. */
  function Stem(x: Shape): (r: Option<Shape>)
    ensures r.Some? <==> x.height >= 27 && x.width >= 27
    ensures r.Some? ==> r.value == Shape(x.batch, (x.height - 19) / 8, (x.width - 19) / 8, 192)
  {
    StemShape(x);
    Chain(x, StemLayers)
  }

  lemma StemShape(x: Shape)
    ensures Chain(x, StemLayers).Some? <==> x.height >= 27 && x.width >= 27
    ensures Chain(x, StemLayers).Some? ==>
              Chain(x, StemLayers).value == Shape(x.batch, (x.height - 19) / 8, (x.width - 19) / 8, 192)
  {
    assert StemLayers[0..] == StemLayers;
    StemFrom(0, x);
  }

  /** The smallest side the stem accepts from its `k`-th layer on. */
  function StemMin(k: nat): nat {
    match k
    case 0 => 27
    case 1 => 13
    case 2 => 11
    case 3 => 11
    case 4 => 5
    case 5 => 5
    case 6 => 3
    case _ => 0
  }

  /** The side the stem produces from a side `n >= StemMin(k)` given to its
      `k`-th layer. */
  function StemOut(k: nat, n: nat): int {
    match k
    case 0 => (n - 19) / 8
    case 1 => (n - 13) / 4 + 1
    case 2 => (n - 11) / 4 + 1
    case 3 => (n - 11) / 4 + 1
    case 4 => (n - 5) / 2 + 1
    case 5 => (n - 5) / 2 + 1
    case 6 => (n - 3) / 2 + 1
    case _ => n
  }

  /** The stem from its `k`-th layer on, in closed form. */
  lemma StemFrom(k: nat, y: Shape)
    requires k <= 7
    ensures Chain(y, StemLayers[k..]).Some? <==> y.height >= StemMin(k) && y.width >= StemMin(k)
    ensures Chain(y, StemLayers[k..]).Some? ==>
              Chain(y, StemLayers[k..]).value
                == Shape(y.batch, StemOut(k, y.height), StemOut(k, y.width), if k >= 6 then y.channels else 192)
    decreases 7 - k
  {
    var l := StemLayers;
    if k < 7 {
      StemSide(k, y.height);
      StemSide(k, y.width);
      var z := Apply(y, l[k]);
      if z.None? {
        ChainAtFails(y, l, k);
      } else {
        ChainAt(y, l, k, z.value);
        StemFrom(k + 1, z.value);
      }
    }
  }

  /** One side through the `k`-th stem layer: it is accepted exactly when
      the rest of the stem accepts what the layer makes of it, and the
      closed forms agree. */
  lemma StemSide(k: nat, n: nat)
    requires k < 7
    ensures var layer := StemLayers[k];
      var m := WindowOut(n, layer.kh, layer.stride, layer.padding);
      && (n >= StemMin(k) <==> m.Some? && m.value >= StemMin(k + 1))
      && (n >= StemMin(k) ==> StemOut(k, n) == StemOut(k + 1, m.value))
  {
    match k
    case 0 => assert StemLayers[0] == Conv(32, 3, 3, 2, Valid);
    case 1 => assert StemLayers[1] == Conv(32, 3, 3, 1, Valid);
    case 2 => assert StemLayers[2] == SameConv(64, 3, 3);
    case 3 => assert StemLayers[3] == MaxPool(3, 3, 2, Valid);
    case 4 => assert StemLayers[4] == Conv(80, 1, 1, 1, Valid);
    case 5 => assert StemLayers[5] == Conv(192, 3, 3, 1, Valid);
    case 6 => assert StemLayers[6] == MaxPool(3, 3, 2, Valid);
  }

  /** Mixed_5b: four stride-1 SAME branches, 96 + 64 + 96 + 64 channels. */
  const Mixed5bBranches: seq<seq<Layer>> := [
    [SameConv(96, 1, 1)],
    [SameConv(48, 1, 1), SameConv(64, 5, 5)],
    [SameConv(64, 1, 1), SameConv(96, 3, 3), SameConv(96, 3, 3)],
    [AvgPool(3, 3, 1, Same), SameConv(64, 1, 1)]
  ]

  /** Mixed_6a: two convolution branches of 384 channels and a max-pool
      branch, each closed by a 3x3 stride-2 VALID layer. */
  const Mixed6aBranches: seq<seq<Layer>> := [
    [Conv(384, 3, 3, 2, Valid)],
    [SameConv(256, 1, 1), SameConv(256, 3, 3), Conv(384, 3, 3, 2, Valid)],
    [MaxPool(3, 3, 2, Valid)]
  ]

  /** Mixed_7a: convolution branches of 384, 288 and 320 channels and a
      max-pool branch, each closed by a 3x3 stride-2 VALID layer. */
  const Mixed7aBranches: seq<seq<Layer>> := [
    [SameConv(256, 1, 1), Conv(384, 3, 3, 2, Valid)],
    [SameConv(256, 1, 1), Conv(288, 3, 3, 2, Valid)],
    [SameConv(256, 1, 1), SameConv(288, 3, 3), Conv(320, 3, 3, 2, Valid)],
    [MaxPool(3, 3, 2, Valid)]
  ]

  /** The widths of the three modules outside the residual blocks. */
  lemma Mixed5bWidth(c: nat)
    ensures BranchWidth(c, Mixed5bBranches) == 320
  {
    var bs := Mixed5bBranches;
    ChainChannelsLastConv(c, bs[0]);
    ChainChannelsLastConv(c, bs[1]);
    ChainChannelsLastConv(c, bs[2]);
    ChainChannelsLastConv(c, bs[3]);
    assert BranchWidth(c, bs[4..]) == 0;
    assert BranchWidth(c, bs[3..]) == 64;
    assert BranchWidth(c, bs[2..]) == 160;
    assert BranchWidth(c, bs[1..]) == 224;
  }

  lemma Mixed6aWidth(c: nat)
    ensures BranchWidth(c, Mixed6aBranches) == 768 + c
  {
    var bs := Mixed6aBranches;
    ChainChannelsLastConv(c, bs[0]);
    ChainChannelsLastConv(c, bs[1]);
    assert ChainChannels(c, bs[2]) == c;
    assert BranchWidth(c, bs[3..]) == 0;
    assert BranchWidth(c, bs[2..]) == c;
    assert BranchWidth(c, bs[1..]) == 384 + c;
  }

  lemma Mixed7aWidth(c: nat)
    ensures BranchWidth(c, Mixed7aBranches) == 992 + c
  {
    var bs := Mixed7aBranches;
    ChainChannelsLastConv(c, bs[0]);
    ChainChannelsLastConv(c, bs[1]);
    ChainChannelsLastConv(c, bs[2]);
    assert ChainChannels(c, bs[3]) == c;
    assert BranchWidth(c, bs[4..]) == 0;
    assert BranchWidth(c, bs[3..]) == c;
    assert BranchWidth(c, bs[2..]) == 320 + c;
    assert BranchWidth(c, bs[1..]) == 608 + c;
  }

  /** Mixed_5b keeps the grid and always has 320 channels. */
  function Mixed5b(x: Shape): (r: Option<Shape>)
    ensures r == Some(Shape(x.batch, x.height, x.width, 320))
  {
    MixedKeepsGrid(x, Mixed5bBranches);
    Mixed5bWidth(x.channels);
    Mixed(x, Mixed5bBranches)
  }

  /** Mixed_6a halves each side of at least 3 and adds 768 channels to the
      input's (the max-pool branch carries them through). */
  function Mixed6a(x: Shape): (r: Option<Shape>)
    ensures r.Some? <==> x.height >= 3 && x.width >= 3
    ensures r.Some? ==> r.value == Shape(x.batch, (x.height - 3) / 2 + 1, (x.width - 3) / 2 + 1, 768 + x.channels)
  {
    MixedReduces(x, Mixed6aBranches);
    Mixed6aWidth(x.channels);
    Mixed(x, Mixed6aBranches)
  }

  /** Mixed_7a halves each side of at least 3 and adds 992 channels to the
      input's. */
  function Mixed7a(x: Shape): (r: Option<Shape>)
    ensures r.Some? <==> x.height >= 3 && x.width >= 3
    ensures r.Some? ==> r.value == Shape(x.batch, (x.height - 3) / 2 + 1, (x.width - 3) / 2 + 1, 992 + x.channels)
  {
    MixedReduces(x, Mixed7aBranches);
    Mixed7aWidth(x.channels);
    Mixed(x, Mixed7aBranches)
  }

  // ----------------------------------------------------------- the head

  /** `slim.flatten`: everything but the batch in one axis. */
  function Flatten(x: Shape): (r: FlatShape)
    ensures r.batch == x.batch
    ensures x.height == 1 && x.width == 1 ==> r.features == x.channels
  {
    FlatShape(x.batch, x.height * x.width * x.channels)
  }

  /** `slim.fully_connected` with `outputs` units. */
  function FullyConnected(x: FlatShape, outputs: nat): (r: FlatShape)
    ensures r.batch == x.batch && r.features == outputs
  {
    FlatShape(x.batch, outputs)
  }

  /** The head: an average pool over the whole grid (VALID, kernel equal to
      the spatial dimensions), flatten, dropout (shape-preserving) and the
      fully-connected bottleneck. Defined for any non-empty grid. */
  function Head(x: Shape, bottleneckSize: nat): (r: Option<FlatShape>)
    ensures r.Some? <==> x.height >= 1 && x.width >= 1
    ensures r.Some? ==> r.value == FlatShape(x.batch, bottleneckSize)
  {
    var pooled :- Apply(x, AvgPool(x.height, x.width, 1, Valid));
    Some(FullyConnected(Flatten(pooled), bottleneckSize))
  }

  /** The whole-grid average pool leaves one cell, so the flattened
      features are exactly the channels. */
  lemma HeadPoolsToChannels(x: Shape)
    requires x.height >= 1 && x.width >= 1
    ensures Apply(x, AvgPool(x.height, x.width, 1, Valid)) == Some(Shape(x.batch, 1, 1, x.channels))
    ensures Flatten(Shape(x.batch, 1, 1, x.channels)).features == x.channels
  {
  }

  // -------------------------------------------------------- the network

  /** The bottleneck width `inception_resnet_v2` uses by default. */
  const DefaultBottleneck: nat := 128

  /** Everything between the stem and the head: Mixed_5b, ten block35,
      Mixed_6a, twenty block17, Mixed_7a, nine block8 and a last block8
      without activation. Defined exactly for sides of at least 7, and then
      with two halvings of each side and 2080 channels. */
  function Trunk(x: Shape): (r: Option<Shape>)
    ensures r.Some? <==> x.height >= 7 && x.width >= 7
    ensures r.Some? ==>
              r.value == Shape(x.batch, ((x.height - 3) / 2 + 1 - 3) / 2 + 1, ((x.width - 3) / 2 + 1 - 3) / 2 + 1, 2080)
  {
    // Mixed_5b, the repeats and the blocks never fail (their contracts).
    var a := Repeat(10, Block35, Mixed5b(x).value).value;
    var b :- Mixed6a(a);
    var b := Repeat(20, Block17, b).value;
    var c :- Mixed7a(b);
    Block(Block8, Repeat(9, Block8, c).value)
  }

  /** `inception_resnet_v2(inputs)`: the stem, the trunk and the head.
      Defined exactly for inputs of at least 75 x 75, and then of shape
      (batch, bottleneckSize). */
  function Network(inputs: Shape, bottleneckSize: nat): (r: Option<FlatShape>)
    ensures r.Some? <==> inputs.height >= 75 && inputs.width >= 75
    ensures r.Some? ==> r.value == FlatShape(inputs.batch, bottleneckSize)
  {
    NetworkSide(inputs.height);
    NetworkSide(inputs.width);
    var stem :- Stem(inputs);
    var trunk :- Trunk(stem);
    Head(trunk, bottleneckSize)
  }

  /** A side leaving the stem reaches the trunk's minimum of 7 exactly from
      75 input cells on, and the trunk then leaves at least one cell. */
  lemma NetworkSide(n: nat)
    ensures n >= 27 ==> ((n - 19) / 8 >= 7 <==> n >= 75)
    ensures n >= 75 ==> (((n - 19) / 8 - 3) / 2 + 1 - 3) / 2 + 1 >= 1
  {
  }

  /** On the 299 x 299 RGB input, the stem passes through 149, 147, 147,
      73, 73, 71 and 35 cells a side, with 32, 32, 64, 64, 80, 192 and 192
      channels. */
  lemma StemTrace299(batch: nat)
    ensures Trace(Shape(batch, 299, 299, 3), StemLayers) == Some([
      Shape(batch, 149, 149, 32), Shape(batch, 147, 147, 32), Shape(batch, 147, 147, 64),
      Shape(batch, 73, 73, 64), Shape(batch, 73, 73, 80), Shape(batch, 71, 71, 192),
      Shape(batch, 35, 35, 192)])
  {
    var l := StemLayers;
    var y1 := Shape(batch, 149, 149, 32);
    var rest := [Shape(batch, 147, 147, 32), Shape(batch, 147, 147, 64), Shape(batch, 73, 73, 64),
                 Shape(batch, 73, 73, 80), Shape(batch, 71, 71, 192), Shape(batch, 35, 35, 192)];
    StemTrace299Middle(batch);
    TraceAt(Shape(batch, 299, 299, 3), l, 0, y1, rest);
    assert [y1] + rest == [y1, rest[0], rest[1], rest[2], rest[3], rest[4], rest[5]];
    assert l[0..] == l;
  }

  /** The stem after its first layer, on the 149 x 149 x 32 map. */
  lemma StemTrace299Middle(batch: nat)
    ensures Trace(Shape(batch, 149, 149, 32), StemLayers[1..]) == Some([
      Shape(batch, 147, 147, 32), Shape(batch, 147, 147, 64), Shape(batch, 73, 73, 64),
      Shape(batch, 73, 73, 80), Shape(batch, 71, 71, 192), Shape(batch, 35, 35, 192)])
  {
    var l := StemLayers;
    var y2, y3 := Shape(batch, 147, 147, 32), Shape(batch, 147, 147, 64);
    var tail := [Shape(batch, 73, 73, 64), Shape(batch, 73, 73, 80), Shape(batch, 71, 71, 192),
                 Shape(batch, 35, 35, 192)];
    StemTrace299Tail(batch);
    TraceAt(y2, l, 2, y3, tail);
    TraceAt(Shape(batch, 149, 149, 32), l, 1, y2, [y3] + tail);
    assert [y2] + ([y3] + tail) == [y2, y3, tail[0], tail[1], tail[2], tail[3]];
  }

  /** The last four stem layers on the 147 x 147 x 64 map. */
  lemma StemTrace299Tail(batch: nat)
    ensures Trace(Shape(batch, 147, 147, 64), StemLayers[3..]) == Some([
      Shape(batch, 73, 73, 64), Shape(batch, 73, 73, 80), Shape(batch, 71, 71, 192),
      Shape(batch, 35, 35, 192)])
  {
    var l := StemLayers;
    var y3, y4, y5 := Shape(batch, 147, 147, 64), Shape(batch, 73, 73, 64), Shape(batch, 73, 73, 80);
    var y6, y7 := Shape(batch, 71, 71, 192), Shape(batch, 35, 35, 192);
    assert Trace(y7, l[7..]) == Some([]);
    TraceAt(y6, l, 6, y7, []);
    TraceAt(y5, l, 5, y6, [y7] + []);
    TraceAt(y4, l, 4, y5, [y6] + ([y7] + []));
    TraceAt(y3, l, 3, y4, [y5] + ([y6] + ([y7] + [])));
    assert [y4] + ([y5] + ([y6] + ([y7] + []))) == [y4, y5, y6, y7];
  }

  /** On the 299 x 299 RGB input: 35 x 35 x 320 after Mixed_5b,
      17 x 17 x 1088 after Mixed_6a, 8 x 8 x 2080 after Mixed_7a, and a
      (batch, 128) embedding. */
  lemma Reference299(batch: nat)
    ensures Mixed5b(Shape(batch, 35, 35, 192)) == Some(Shape(batch, 35, 35, 320))
    ensures Mixed6a(Shape(batch, 35, 35, 320)) == Some(Shape(batch, 17, 17, 1088))
    ensures Mixed7a(Shape(batch, 17, 17, 1088)) == Some(Shape(batch, 8, 8, 2080))
    ensures Network(Shape(batch, 299, 299, 3), DefaultBottleneck) == Some(FlatShape(batch, 128))
  {
  }
}
