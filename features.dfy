/**
 * Feature extraction (`get_features`, app/backend/main.py): the network is
 * a sequence of layers, applied in order to a running value; the value after
 * each of six tapped layers is recorded under that layer's name. The layers
 * are abstract functions; the network's modules are named by their decimal
 * index, as the torchvision feature stack names them. A layer either makes a
 * new tensor or, like `nn.ReLU(inplace=True)`, overwrites its input tensor
 * and returns it; the dict then holds that same tensor, so a recorded value
 * keeps changing while in-place layers follow it.
 */
module Features {

  /** The tapped module indices and the names their outputs are recorded under. */
  const Taps: map<nat, string> :=
    map[0 := "conv1_1", 5 := "conv2_1", 10 := "conv3_1", 19 := "conv4_1", 21 := "conv4_2", 28 := "conv5_1"]

  /** The six layer names the extractor can produce. */
  const TapNames: set<string> := {"conv1_1", "conv2_1", "conv3_1", "conv4_1", "conv4_2", "conv5_1"}

  /** One module of the network: its function, and whether it overwrites its input tensor. */
  datatype Layer<!X> = Layer(apply: X -> X, inPlace: bool)

  /** The running value after the first n layers. */
  function Forward<X>(layers: seq<Layer<X>>, n: nat, x: X): X
    requires n <= |layers|
  {
    if n == 0 then x else layers[n - 1].apply(Forward(layers, n - 1, x))
  }

  /** Layers a up to b (exclusive) all work in place. */
  predicate InPlaceRun<X>(layers: seq<Layer<X>>, a: nat, b: nat)
    requires a <= b <= |layers|
  {
    forall k :: a <= k < b ==> layers[k].inPlace
  }

  /** The first layer from index j on that makes a new tensor, or |layers| if none does. */
  function Settle<X>(layers: seq<Layer<X>>, j: nat): (e: nat)
    requires j <= |layers|
    ensures j <= e <= |layers|
    decreases |layers| - j
  {
    if j < |layers| && layers[j].inPlace then Settle(layers, j + 1) else j
  }

  /** The layers before Settle(j) work in place, and so do exactly the prefixes of that run. */
  lemma {:induction false} SettleRun<X>(layers: seq<Layer<X>>, j: nat, i: nat)
    requires j <= i <= |layers|
    ensures InPlaceRun(layers, j, i) <==> i <= Settle(layers, j)
    decreases |layers| - j
  {
    if j < |layers| && layers[j].inPlace {
      if j < i {
        SettleRun(layers, j + 1, i);
      }
    }
  }

  /** The names recorded by the time the first n layers have run. */
  function TapsBefore(n: nat): set<string> {
    set i | i in Taps && i < n :: Taps[i]
  }

  lemma TapsDistinct(i: nat, j: nat)
    requires i in Taps && j in Taps && i != j
    ensures Taps[i] != Taps[j]
  {
  }

  lemma TapsBeforeStep(n: nat)
    ensures TapsBefore(n + 1) == if n in Taps then TapsBefore(n) + {Taps[n]} else TapsBefore(n)
  {
  }

  /** An in-place layer's effect on the dict: every entry holding the running tensor now holds x. */
  function Overwrite<X>(f: map<string, X>, shared: set<string>, x: X): (g: map<string, X>)
    ensures g.Keys == f.Keys
    ensures forall k :: k in g ==> g[k] == if k in shared then x else f[k]
  {
    map k | k in f :: if k in shared then x else f[k]
  }

  /**
   * The dict and the names whose entry is the running tensor, after the
   * first n layers: an in-place layer changes every shared entry to its
   * output, any other layer ends the sharing, and a tapped layer records its
   * output, shared.
   */
  function Extract<X>(layers: seq<Layer<X>>, n: nat, image: X): (map<string, X>, set<string>)
    requires n <= |layers|
  {
    if n == 0 then (map[], {})
    else
      var (f, shared) := Extract(layers, n - 1, image);
      var x := Forward(layers, n, image);
      var (f', shared') :=
        if layers[n - 1].inPlace then (Overwrite(f, shared, x), shared) else (f, {});
      if n - 1 in Taps then (f'[Taps[n - 1] := x], shared' + {Taps[n - 1]}) else (f', shared')
  }

  lemma {:induction false} ExtractKeys<X>(layers: seq<Layer<X>>, n: nat, image: X)
    requires n <= |layers|
    ensures Extract(layers, n, image).0.Keys == TapsBefore(n)
  {
    if n > 0 {
      ExtractKeys(layers, n - 1, image);
      TapsBeforeStep(n - 1);
    }
  }

  /**
   * After the first n layers a recorded entry is the running value while it
   * is shared, and otherwise the value after the in-place run that followed
   * its tap.
   */
  lemma {:induction false} ExtractEntry<X>(layers: seq<Layer<X>>, n: nat, image: X, j: nat)
    requires j in Taps && j < n <= |layers|
    ensures Taps[j] in Extract(layers, n, image).0
    ensures Extract(layers, n, image).0[Taps[j]] ==
      if Taps[j] in Extract(layers, n, image).1 then Forward(layers, n, image) else Forward(layers, Settle(layers, j + 1), image)
    ensures Taps[j] in Extract(layers, n, image).1 ==> InPlaceRun(layers, j + 1, n)
  {
    if j == n - 1 {
      ExtractRecords(layers, n, image);
    } else {
      ExtractEntry(layers, n - 1, image, j);
      if n - 1 in Taps {
        TapsDistinct(n - 1, j);
      }
      ExtractKeeps(layers, n, image, Taps[j]);
      if !layers[n - 1].inPlace && Taps[j] in Extract(layers, n - 1, image).1 {
        SettleAfterRun(layers, j + 1, n - 1);
      }
    }
  }

  /** A tapped layer records its output, shared with the running tensor. */
  lemma ExtractRecords<X>(layers: seq<Layer<X>>, n: nat, image: X)
    requires 0 < n <= |layers| && n - 1 in Taps
    ensures Taps[n - 1] in Extract(layers, n, image).0 && Taps[n - 1] in Extract(layers, n, image).1
    ensures Extract(layers, n, image).0[Taps[n - 1]] == Forward(layers, n, image)
  {
  }

  /** One more layer leaves an earlier entry alone unless an in-place layer overwrites its shared tensor. */
  lemma ExtractKeeps<X>(layers: seq<Layer<X>>, n: nat, image: X, name: string)
    requires 0 < n <= |layers| && name in Extract(layers, n - 1, image).0
    requires !(n - 1 in Taps && Taps[n - 1] == name)
    ensures name in Extract(layers, n, image).0
    ensures Extract(layers, n, image).0[name] ==
      if layers[n - 1].inPlace && name in Extract(layers, n - 1, image).1 then Forward(layers, n, image)
      else Extract(layers, n - 1, image).0[name]
    ensures name in Extract(layers, n, image).1 <==> layers[n - 1].inPlace && name in Extract(layers, n - 1, image).1
  {
  }

  /** Once every layer has run, each tapped entry holds the value after its in-place run. */
  lemma ExtractFinal<X>(layers: seq<Layer<X>>, image: X)
    ensures Extract(layers, |layers|, image).0.Keys == TapsBefore(|layers|)
    ensures forall j :: j in Taps && j < |layers| ==>
      Taps[j] in Extract(layers, |layers|, image).0 &&
      Extract(layers, |layers|, image).0[Taps[j]] == Forward(layers, Settle(layers, j + 1), image)
  {
    ExtractKeys(layers, |layers|, image);
    forall j | j in Taps && j < |layers|
      ensures Taps[j] in Extract(layers, |layers|, image).0 &&
        Extract(layers, |layers|, image).0[Taps[j]] == Forward(layers, Settle(layers, j + 1), image)
    {
      FinalEntry(layers, image, j);
    }
  }

  lemma FinalEntry<X>(layers: seq<Layer<X>>, image: X, j: nat)
    requires j in Taps && j < |layers|
    ensures Taps[j] in Extract(layers, |layers|, image).0
    ensures Extract(layers, |layers|, image).0[Taps[j]] == Forward(layers, Settle(layers, j + 1), image)
  {
    ExtractEntry(layers, |layers|, image, j);
    if Taps[j] in Extract(layers, |layers|, image).1 {
      SettleRun(layers, j + 1, |layers|);
    }
  }

  /**
   * The extraction loop. Every tapped layer among the given ones is recorded
   * under its name, and nothing else is. Its entry holds the running value
   * after the in-place layers that follow it: the value after layer
   * Settle(i + 1) - 1, which is its own output when the next layer makes a
   * new tensor.
   */
  method GetFeatures<X>(image: X, layers: seq<Layer<X>>) returns (features: map<string, X>)
    ensures features.Keys == TapsBefore(|layers|)
    ensures forall i :: i in Taps && i < |layers| ==>
      Taps[i] in features && features[Taps[i]] == Forward(layers, Settle(layers, i + 1), image)
  {
    features := map[];
    var shared: set<string> := {};
    var x := image;
    var i := 0;
    while i < |layers|
      invariant 0 <= i <= |layers|
      invariant x == Forward(layers, i, image)
      invariant (features, shared) == Extract(layers, i, image)
    {
      var layer := layers[i];
      x := layer.apply(x);
      if layer.inPlace {
        features := Overwrite(features, shared, x);
      } else {
        shared := {};
      }
      if i in Taps {
        features := features[Taps[i] := x];
        shared := shared + {Taps[i]};
      }
      i := i + 1;
    }
    ExtractFinal(layers, image);
  }

  /** A run of in-place layers from j ending before a layer that makes a new tensor settles there. */
  lemma SettleAfterRun<X>(layers: seq<Layer<X>>, j: nat, i: nat)
    requires j <= i < |layers| && InPlaceRun(layers, j, i) && !layers[i].inPlace
    ensures Settle(layers, j) == i
  {
    SettleRun(layers, j, i);
    SettleRun(layers, j, i + 1);
  }

  /** With no in-place layer, each entry holds exactly the output of its own layer. */
  lemma NoInPlaceSettle<X>(layers: seq<Layer<X>>, j: nat)
    requires j <= |layers|
    requires forall k :: 0 <= k < |layers| ==> !layers[k].inPlace
    ensures Settle(layers, j) == j
  {
  }

  /** The module indices of torchvision's 37-module VGG19 feature stack that are `ReLU(inplace=True)`. */
  const VggReLUs: set<nat> := {1, 3, 6, 8, 11, 13, 15, 17, 20, 22, 24, 26, 29, 31, 33, 35}

  /** A network laid out like VGG19's feature stack: 37 modules, the in-place ones exactly the ReLUs. */
  predicate VggLayout<X>(layers: seq<Layer<X>>) {
    |layers| == 37 && forall k :: 0 <= k < 37 ==> (layers[k].inPlace <==> k in VggReLUs)
  }

  /**
   * On the VGG19 layout every tapped convolution is followed by one in-place
   * ReLU and then a layer that makes a new tensor, so its entry holds the
   * ReLU's output, the value after module i + 1.
   */
  lemma VggTapsHoldReLUOutput<X>(layers: seq<Layer<X>>, i: nat)
    requires VggLayout(layers) && i in Taps
    ensures Settle(layers, i + 1) == i + 2
  {
    assert i + 1 in VggReLUs && i + 2 !in VggReLUs;
  }

  /** A network of at least 29 modules yields exactly the six tapped names. */
  lemma AllTapsPresent(n: nat)
    requires n >= 29
    ensures TapsBefore(n) == TapNames
  {
    assert Taps[0] in TapsBefore(n) && Taps[5] in TapsBefore(n) && Taps[10] in TapsBefore(n);
    assert Taps[19] in TapsBefore(n) && Taps[21] in TapsBefore(n) && Taps[28] in TapsBefore(n);
  }

  /** A shorter network misses conv5_1, whose module index is 28. */
  lemma ShortNetworkMissesLastTap(n: nat)
    requires n <= 28
    ensures "conv5_1" !in TapsBefore(n)
  {
  }
}
