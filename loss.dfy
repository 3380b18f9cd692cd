/**
 * Gram matrices and the loss composition of the optimisation loop
 * (`gram_matrix` and the loss expressions of `perform_style_transfer`,
 * app/backend/main.py), over mathematical reals. An activation tensor of
 * shape (1, d, h, w) is represented by its (d, h*w) view: d rows of h*w
 * entries each.
 */
module Loss {
  import opened Wrappers

  predicate Rectangular(m: seq<seq<real>>) {
    forall i :: 0 <= i < |m| ==> |m[i]| == Cols(m)
  }

  function Cols(m: seq<seq<real>>): nat {
    if |m| == 0 then 0 else |m[0]|
  }

  /** A two-dimensional tensor: every row has the same length. */
  type Matrix = m: seq<seq<real>> | Rectangular(m) witness []

  predicate HasShape(m: Matrix, rows: nat, cols: nat) {
    |m| == rows && Cols(m) == cols
  }

  /** Σ_k u[k] * v[k]. */
  function Dot(u: seq<real>, v: seq<real>): real
    requires |u| == |v|
  {
    if |u| == 0 then 0.0 else Dot(u[..|u| - 1], v[..|v| - 1]) + u[|u| - 1] * v[|v| - 1]
  }

  lemma {:induction false} DotSymmetric(u: seq<real>, v: seq<real>)
    requires |u| == |v|
    ensures Dot(u, v) == Dot(v, u)
  {
    if |u| > 0 {
      DotSymmetric(u[..|u| - 1], v[..|v| - 1]);
    }
  }

  /** The transpose `t()` of a matrix. */
  function Transpose(m: Matrix): (t: Matrix)
    ensures HasShape(t, Cols(m), if Cols(m) == 0 then 0 else |m|)
    ensures forall j, i :: 0 <= j < Cols(m) && 0 <= i < |m| ==> t[j][i] == m[i][j]
  {
    seq(Cols(m), j requires 0 <= j < Cols(m) => seq(|m|, i requires 0 <= i < |m| => m[i][j]))
  }

  /** Column j of a matrix. */
  function Column(m: Matrix, j: nat): (c: seq<real>)
    requires j < Cols(m)
    ensures |c| == |m|
  {
    seq(|m|, i requires 0 <= i < |m| => m[i][j])
  }

  /** The matrix product `torch.mm(a, b)` of an r×n and an n×c matrix. */
  function MatMul(a: Matrix, b: Matrix): (p: Matrix)
    requires Cols(a) == |b|
    ensures HasShape(p, |a|, if |a| == 0 then 0 else Cols(b))
  {
    seq(|a|, i requires 0 <= i < |a| =>
      seq(Cols(b), j requires 0 <= j < Cols(b) => Dot(a[i], Column(b, j))))
  }

  /** The Gram matrix F·Fᵀ of a d×n feature matrix with n > 0, `torch.mm(f, f.t())`: d×d. */
  function Gram(f: Matrix): (g: Matrix)
    requires Cols(f) > 0
    ensures HasShape(g, |f|, |f|)
  {
    MatMul(f, Transpose(f))
  }

  /**
   * `gram_matrix` of any feature matrix. A d×0 matrix has a transpose with no
   * rows, which loses d, so its d×d zero product is written out.
   */
  function StyleGram(f: Matrix): (g: Matrix)
    ensures HasShape(g, |f|, |f|)
    ensures forall i, j :: 0 <= i < |f| && 0 <= j < |f| ==> g[i][j] == Dot(f[i], f[j])
  {
    if Cols(f) == 0 then seq(|f|, i => seq(|f|, j => 0.0))
    else GramEntries(f); Gram(f)
  }

  /** Entry (i, j) of the Gram matrix is the dot product of rows i and j, so it is symmetric. */
  lemma GramEntries(f: Matrix)
    requires Cols(f) > 0
    ensures forall i, j :: 0 <= i < |f| && 0 <= j < |f| ==> Gram(f)[i][j] == Dot(f[i], f[j])
    ensures forall i, j :: 0 <= i < |f| && 0 <= j < |f| ==> Gram(f)[i][j] == Gram(f)[j][i]
  {
    var t := Transpose(f);
    var g := Gram(f);
    forall i, j | 0 <= i < |f| && 0 <= j < |f|
      ensures g[i][j] == Dot(f[i], f[j]) && g[i][j] == g[j][i]
    {
      assert Column(t, j) == f[j];
      assert Column(t, i) == f[i];
      DotSymmetric(f[i], f[j]);
    }
  }

  function Sq(x: real): real {
    x * x
  }

  /** Σ_k (u[k] - v[k])². */
  function RowSq(u: seq<real>, v: seq<real>): real
    requires |u| == |v|
  {
    if |u| == 0 then 0.0
    else RowSq(u[..|u| - 1], v[..|v| - 1]) + Sq(u[|u| - 1] - v[|v| - 1])
  }

  /** The sum of squared differences of two matrices of the same shape. */
  function SumSq(a: Matrix, b: Matrix): real
    requires |a| == |b| && Cols(a) == Cols(b)
  {
    if |a| == 0 then 0.0 else SumSq(a[..|a| - 1], b[..|b| - 1]) + RowSq(a[|a| - 1], b[|b| - 1])
  }

  // Facts of real arithmetic, each proved in a small context.

  lemma MulPositive(x: real, y: real)
    requires x > 0.0 && y > 0.0
    ensures x * y > 0.0
  {
  }

  lemma SquarePositive(x: real)
    requires x > 0.0
    ensures Sq(x) > 0.0
  {
    calc {
      Sq(x);
      x * x;
      > { MulPositive(x, x); }
      0.0;
    }
  }

  lemma SquareOfNegative(x: real)
    requires x < 0.0
    ensures Sq(x) > 0.0
  {
    calc {
      Sq(x);
      x * x;
      (-x) * (-x);
      Sq(-x);
      > { SquarePositive(-x); }
      0.0;
    }
  }

  lemma Square(x: real)
    ensures Sq(x) >= 0.0
    ensures Sq(x) == 0.0 ==> x == 0.0
  {
    if x > 0.0 {
      SquarePositive(x);
    } else if x < 0.0 {
      SquareOfNegative(x);
    }
  }

  lemma ScaleNonNegative(w: real, m: real)
    requires m >= 0.0
    ensures w >= 0.0 ==> w * m >= 0.0
  {
    if w > 0.0 && m > 0.0 {
      MulPositive(w, m);
    }
  }

  lemma ScaleZero(w: real, m: real)
    ensures m == 0.0 ==> w * m == 0.0
    ensures w != 0.0 ==> (w * m == 0.0 <==> m == 0.0)
  {
    if w != 0.0 && m != 0.0 {
      calc {
        (w * m) / w;
        m;
      }
    }
  }

  lemma DivideZero(a: real, size: real)
    requires size > 0.0
    ensures a >= 0.0 ==> a / size >= 0.0
    ensures a / size == 0.0 <==> a == 0.0
  {
    calc {
      (a / size) * size;
      a;
    }
    if a > 0.0 {
      MulPositive(a, 1.0 / size);
      calc {
        a / size;
        a * (1.0 / size);
      }
    }
  }

  /** A sum of squares is non-negative and vanishes exactly on equal rows. */
  lemma {:induction false} RowSqZero(u: seq<real>, v: seq<real>)
    requires |u| == |v|
    ensures RowSq(u, v) >= 0.0
    ensures RowSq(u, v) == 0.0 <==> u == v
  {
    if |u| > 0 {
      var n := |u| - 1;
      RowSqZero(u[..n], v[..n]);
      Square(u[n] - v[n]);
      if RowSq(u, v) == 0.0 {
        assert u[..n] == v[..n] && u[n] == v[n];
        assert u == u[..n] + [u[n]] && v == v[..n] + [v[n]];
      }
    }
  }

  lemma {:induction false} SumSqZero(a: Matrix, b: Matrix)
    requires |a| == |b| && Cols(a) == Cols(b)
    ensures SumSq(a, b) >= 0.0
    ensures SumSq(a, b) == 0.0 <==> a == b
  {
    if |a| > 0 {
      var n := |a| - 1;
      SumSqZero(a[..n], b[..n]);
      RowSqZero(a[n], b[n]);
      if SumSq(a, b) == 0.0 {
        assert a[..n] == b[..n] && a[n] == b[n];
        assert a == a[..n] + [a[n]] && b == b[..n] + [b[n]];
      }
    }
  }

  /** `torch.mean((a - b)**2)`: the mean of the squared entry-wise differences. */
  function MeanSq(a: Matrix, b: Matrix): real
    requires |a| == |b| && Cols(a) == Cols(b) && |a| > 0 && Cols(a) > 0
  {
    SumSq(a, b) / ((|a| * Cols(a)) as real)
  }

  /** The mean squared difference is non-negative and vanishes exactly on equal matrices. */
  lemma MeanSqZero(a: Matrix, b: Matrix)
    requires |a| == |b| && Cols(a) == Cols(b) && |a| > 0 && Cols(a) > 0
    ensures MeanSq(a, b) >= 0.0
    ensures MeanSq(a, b) == 0.0 <==> a == b
  {
    SumSqZero(a, b);
    DivideZero(SumSq(a, b), (|a| * Cols(a)) as real);
  }

  /** The layer that measures content fidelity. */
  const ContentLayer: string := "conv4_2"

  /** The style-layer weights used when the caller gives none. */
  const DefaultStyleWeights: seq<(string, real)> :=
    [("conv1_1", 1.0), ("conv2_1", 0.8), ("conv3_1", 0.5), ("conv4_1", 0.3), ("conv5_1", 0.1)]

  /** A lookup of a missing layer (Python's KeyError), or tensors whose shapes do not fit. */
  datatype LossError = MissingLayer(layer: string) | BadShape(layer: string)

  datatype Losses = Losses(total: real, content: real, style: real)

  /** A feature matrix with at least one entry. */
  predicate NonEmpty(f: Matrix) {
    |f| > 0 && Cols(f) > 0
  }

  /**
   * One term of the style loss: the layer's weight times the mean squared
   * difference of the Gram matrices, divided by d*h*w of the target activation.
   */
  function LayerStyleLoss(weight: real, target: Matrix, styleGram: Matrix): real
    requires NonEmpty(target) && HasShape(styleGram, |target|, |target|)
  {
    weight * MeanSq(Gram(target), styleGram) / ((|target| * Cols(target)) as real)
  }

  /**
   * A style term is non-negative for a non-negative weight, 0 when the
   * target's Gram equals the style Gram, and for a positive weight only then.
   */
  lemma LayerStyleLossZero(weight: real, target: Matrix, styleGram: Matrix)
    requires NonEmpty(target) && HasShape(styleGram, |target|, |target|)
    ensures weight >= 0.0 ==> LayerStyleLoss(weight, target, styleGram) >= 0.0
    ensures Gram(target) == styleGram ==> LayerStyleLoss(weight, target, styleGram) == 0.0
    ensures weight > 0.0 ==> (LayerStyleLoss(weight, target, styleGram) == 0.0 <==> Gram(target) == styleGram)
  {
    var m := MeanSq(Gram(target), styleGram);
    MeanSqZero(Gram(target), styleGram);
    ScaleNonNegative(weight, m);
    ScaleZero(weight, m);
    DivideZero(weight * m, (|target| * Cols(target)) as real);
  }

  /** The term one weighted layer adds to the style loss, or the error its lookups raise. */
  function LayerTerm(target: map<string, Matrix>, grams: map<string, Matrix>,
                     layer: string, w: real): Result<real, LossError>
  {
    if layer !in target || layer !in grams then Failure(MissingLayer(layer))
    else if !NonEmpty(target[layer]) || !HasShape(grams[layer], |target[layer]|, |target[layer]|)
    then Failure(BadShape(layer))
    else Success(LayerStyleLoss(w, target[layer], grams[layer]))
  }

  /**
   * The style loss accumulated over the first entries of `weights`, in their
   * order, or the error the accumulation loop raises first.
   */
  function StyleLossOf(target: map<string, Matrix>, grams: map<string, Matrix>,
                       weights: seq<(string, real)>): Result<real, LossError>
  {
    if weights == [] then Success(0.0)
    else
      var prefix := StyleLossOf(target, grams, weights[..|weights| - 1]);
      if prefix.Failure? then prefix
      else
        var t := LayerTerm(target, grams, weights[|weights| - 1].0, weights[|weights| - 1].1);
        if t.Failure? then Failure(t.error) else Success(prefix.value + t.value)
  }

  /**
   * The body of the accumulation loop for one weighted layer: look the layer
   * up in the target features and the style Grams, then compute its term.
   */
  method LayerTermOf(target: map<string, Matrix>, grams: map<string, Matrix>,
                     layer: string, w: real) returns (t: Result<real, LossError>)
    ensures t == LayerTerm(target, grams, layer, w)
  {
    if layer !in target {
      return Failure(MissingLayer(layer));
    }
    var targetFeature := target[layer];
    if layer !in grams {
      return Failure(MissingLayer(layer));
    }
    var styleGram := grams[layer];
    if !NonEmpty(targetFeature) || !HasShape(styleGram, |targetFeature|, |targetFeature|) {
      return Failure(BadShape(layer));
    }
    t := Success(LayerStyleLoss(w, targetFeature, styleGram));
  }

  /**
   * The accumulation loop of the style loss: each weighted layer in order
   * adds its term, and the first failing lookup ends the loop.
   */
  method StyleLoss(target: map<string, Matrix>, grams: map<string, Matrix>,
                   weights: seq<(string, real)>) returns (r: Result<real, LossError>)
    ensures r == StyleLossOf(target, grams, weights)
  {
    var styleLoss := 0.0;
    var i := 0;
    while i < |weights|
      invariant 0 <= i <= |weights|
      invariant StyleLossOf(target, grams, weights[..i]) == Success(styleLoss)
    {
      StyleLossStep(target, grams, weights, i);
      var (layer, w) := weights[i];
      var t := LayerTermOf(target, grams, layer, w);
      if t.Failure? {
        StyleLossFailurePersists(target, grams, weights, i + 1);
        return Failure(t.error);
      }
      styleLoss := styleLoss + t.value;
      i := i + 1;
    }
    assert weights[..i] == weights;
    r := Success(styleLoss);
  }

  /** One step of the accumulation, the unfolding of StyleLossOf at position i. */
  lemma StyleLossStep(target: map<string, Matrix>, grams: map<string, Matrix>,
                      weights: seq<(string, real)>, i: nat)
    requires i < |weights| && StyleLossOf(target, grams, weights[..i]).Success?
    ensures var t := LayerTerm(target, grams, weights[i].0, weights[i].1);
      StyleLossOf(target, grams, weights[..i + 1]) ==
        if t.Failure? then Failure(t.error) else Success(StyleLossOf(target, grams, weights[..i]).value + t.value)
  {
    var p := weights[..i + 1];
    assert p[..|p| - 1] == weights[..i];
    assert p[|p| - 1] == weights[i];
  }

  /** Once an accumulation step fails, the whole style loss fails with the same error. */
  lemma {:induction false} StyleLossFailurePersists(target: map<string, Matrix>, grams: map<string, Matrix>,
                                                    weights: seq<(string, real)>, n: nat)
    requires n <= |weights| && StyleLossOf(target, grams, weights[..n]).Failure?
    ensures StyleLossOf(target, grams, weights) == StyleLossOf(target, grams, weights[..n])
    decreases |weights| - n
  {
    if n < |weights| {
      assert weights[..n + 1][..n] == weights[..n];
      StyleLossFailurePersists(target, grams, weights, n + 1);
    } else {
      assert weights[..n] == weights;
    }
  }

  /** With non-negative weights, the style loss is non-negative. */
  lemma {:induction false} StyleLossNonNegative(target: map<string, Matrix>, grams: map<string, Matrix>,
                                                weights: seq<(string, real)>)
    requires forall i :: 0 <= i < |weights| ==> weights[i].1 >= 0.0
    ensures StyleLossOf(target, grams, weights).Success? ==> StyleLossOf(target, grams, weights).value >= 0.0
  {
    if weights != [] {
      StyleLossNonNegative(target, grams, weights[..|weights| - 1]);
      var (layer, w) := weights[|weights| - 1];
      if layer in target && layer in grams && NonEmpty(target[layer]) &&
         HasShape(grams[layer], |target[layer]|, |target[layer]|) {
        LayerStyleLossZero(w, target[layer], grams[layer]);
      }
    }
  }

  /** Every weighted layer is present and non-empty in the target, and its style Gram is the target's Gram. */
  predicate MatchingGrams(target: map<string, Matrix>, grams: map<string, Matrix>, weights: seq<(string, real)>) {
    forall i :: 0 <= i < |weights| ==>
      weights[i].0 in target && weights[i].0 in grams &&
      NonEmpty(target[weights[i].0]) && grams[weights[i].0] == Gram(target[weights[i].0])
  }

  /** When the target's Gram matrices equal the style Grams on every weighted layer, the style loss is 0. */
  lemma {:induction false} StyleLossZeroOnEqualGrams(target: map<string, Matrix>, grams: map<string, Matrix>,
                                                     weights: seq<(string, real)>)
    requires MatchingGrams(target, grams, weights)
    ensures StyleLossOf(target, grams, weights) == Success(0.0)
  {
    if weights != [] {
      StyleLossZeroOnEqualGrams(target, grams, weights[..|weights| - 1]);
      var (layer, w) := weights[|weights| - 1];
      LayerStyleLossZero(w, target[layer], grams[layer]);
    }
  }

  /** `{layer: gram_matrix(f) for layer, f in features}`: the Gram of every extracted layer. */
  function StyleGrams(features: map<string, Matrix>): (grams: map<string, Matrix>)
    ensures grams.Keys == features.Keys
    ensures forall l :: l in grams ==> grams[l] == StyleGram(features[l])
    ensures forall l :: l in grams && Cols(features[l]) > 0 ==> grams[l] == Gram(features[l])
  {
    map l | l in features :: StyleGram(features[l])
  }

  /** The content loss at the content layer, or the error its lookups raise. */
  function ContentLossOf(target: map<string, Matrix>, content: map<string, Matrix>): Result<real, LossError>
  {
    if ContentLayer !in target || ContentLayer !in content then Failure(MissingLayer(ContentLayer))
    else
      var t, c := target[ContentLayer], content[ContentLayer];
      if !NonEmpty(t) || !HasShape(c, |t|, Cols(t)) then Failure(BadShape(ContentLayer))
      else Success(MeanSq(t, c))
  }

  /** `content_weight * content_loss + style_weight * style_loss`. */
  function TotalLoss(contentWeight: real, contentLoss: real, styleWeight: real, styleLoss: real): real {
    contentWeight * contentLoss + styleWeight * styleLoss
  }

  lemma TotalLossNonNegative(contentWeight: real, contentLoss: real, styleWeight: real, styleLoss: real)
    requires contentWeight >= 0.0 && contentLoss >= 0.0 && styleWeight >= 0.0 && styleLoss >= 0.0
    ensures TotalLoss(contentWeight, contentLoss, styleWeight, styleLoss) >= 0.0
  {
    ScaleNonNegative(contentWeight, contentLoss);
    ScaleNonNegative(styleWeight, styleLoss);
  }

  /** The three losses of one iteration, given the target's extracted features. */
  function EvaluateLosses(target: map<string, Matrix>, content: map<string, Matrix>,
                          grams: map<string, Matrix>, contentWeight: real, styleWeight: real,
                          weights: seq<(string, real)>): Result<Losses, LossError>
  {
    var c := ContentLossOf(target, content);
    if c.Failure? then Failure(c.error)
    else
      var s := StyleLossOf(target, grams, weights);
      if s.Failure? then Failure(s.error)
      else Success(Losses(TotalLoss(contentWeight, c.value, styleWeight, s.value), c.value, s.value))
  }

  /**
   * The loss computation of one iteration: the content loss at the content
   * layer, the accumulated style loss and their weighted sum.
   */
  method ComputeLosses(target: map<string, Matrix>, content: map<string, Matrix>,
                       grams: map<string, Matrix>, contentWeight: real, styleWeight: real,
                       weights: seq<(string, real)>) returns (r: Result<Losses, LossError>)
    ensures r == EvaluateLosses(target, content, grams, contentWeight, styleWeight, weights)
  {
    var contentLoss := ContentLossOf(target, content);
    if contentLoss.Failure? {
      return Failure(contentLoss.error);
    }
    var styleLoss := StyleLoss(target, grams, weights);
    if styleLoss.Failure? {
      return Failure(styleLoss.error);
    }
    var totalLoss := TotalLoss(contentWeight, contentLoss.value, styleWeight, styleLoss.value);
    r := Success(Losses(totalLoss, contentLoss.value, styleLoss.value));
  }

  /** The content loss is non-negative and is 0 exactly when the content-layer features agree. */
  lemma ContentLossZero(target: map<string, Matrix>, content: map<string, Matrix>)
    requires ContentLossOf(target, content).Success?
    ensures ContentLossOf(target, content).value >= 0.0
    ensures ContentLossOf(target, content).value == 0.0 <==> target[ContentLayer] == content[ContentLayer]
  {
    MeanSqZero(target[ContentLayer], content[ContentLayer]);
  }

  /** With non-negative weights every loss of an iteration is non-negative. */
  lemma EvaluateLossesBounds(target: map<string, Matrix>, content: map<string, Matrix>,
                             grams: map<string, Matrix>, contentWeight: real, styleWeight: real,
                             weights: seq<(string, real)>)
    requires contentWeight >= 0.0 && styleWeight >= 0.0
    requires forall i :: 0 <= i < |weights| ==> weights[i].1 >= 0.0
    ensures var r := EvaluateLosses(target, content, grams, contentWeight, styleWeight, weights);
      r.Success? ==> r.value.content >= 0.0 && r.value.style >= 0.0 && r.value.total >= 0.0
  {
    var r := EvaluateLosses(target, content, grams, contentWeight, styleWeight, weights);
    if r.Success? {
      var c, st := ContentLossOf(target, content), StyleLossOf(target, grams, weights);
      assert c.Success? && st.Success?;
      assert r.value == Losses(TotalLoss(contentWeight, c.value, styleWeight, st.value), c.value, st.value);
      StyleLossNonNegative(target, grams, weights);
      ContentLossZero(target, content);
      TotalLossNonNegative(contentWeight, c.value, styleWeight, st.value);
    }
  }

  /**
   * A target whose content-layer features equal the content image's and whose
   * Gram matrices equal the style Grams on every weighted layer has zero
   * content, style and total loss, whatever the weights.
   */
  lemma EvaluateLossesZero(target: map<string, Matrix>, content: map<string, Matrix>,
                           grams: map<string, Matrix>, contentWeight: real, styleWeight: real,
                           weights: seq<(string, real)>)
    requires ContentLayer in target && ContentLayer in content
    requires NonEmpty(target[ContentLayer]) && content[ContentLayer] == target[ContentLayer]
    requires MatchingGrams(target, grams, weights)
    ensures EvaluateLosses(target, content, grams, contentWeight, styleWeight, weights)
         == Success(Losses(0.0, 0.0, 0.0))
  {
    ContentLossZero(target, content);
    StyleLossZeroOnEqualGrams(target, grams, weights);
  }

  /** When every weighted layer is present in both maps, the style loss can only fail on a shape. */
  lemma {:induction false} StyleLossOnlyShapeErrors(target: map<string, Matrix>, grams: map<string, Matrix>,
                                                    weights: seq<(string, real)>)
    requires forall i :: 0 <= i < |weights| ==> weights[i].0 in target && weights[i].0 in grams
    ensures StyleLossOf(target, grams, weights).Failure? ==> StyleLossOf(target, grams, weights).error.BadShape?
  {
    if weights != [] {
      StyleLossOnlyShapeErrors(target, grams, weights[..|weights| - 1]);
    }
  }

  /** When every looked-up layer is present, an iteration's losses can only fail on a shape, never with a KeyError. */
  lemma EvaluateLossesOnlyShapeErrors(target: map<string, Matrix>, content: map<string, Matrix>,
                                      grams: map<string, Matrix>, contentWeight: real, styleWeight: real,
                                      weights: seq<(string, real)>)
    requires ContentLayer in target && ContentLayer in content
    requires forall i :: 0 <= i < |weights| ==> weights[i].0 in target && weights[i].0 in grams
    ensures var r := EvaluateLosses(target, content, grams, contentWeight, styleWeight, weights);
      r.Failure? ==> r.error.BadShape?
  {
    StyleLossOnlyShapeErrors(target, grams, weights);
  }
}
