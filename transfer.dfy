/**
 * The run skeleton of `perform_style_transfer` and the steps check of the
 * transfer endpoint (app/backend/main.py). The image type I and the
 * optimiser state O are abstract: the frozen network's feature extraction
 * and one optimiser update (zero_grad, backward, step) are capabilities the
 * run is given. The losses are computed exactly, over reals.
 */
module Transfer {
  import opened Wrappers
  import opened Loss
  import opened Schedule
  import opened Features

  /** One progress entry: the step and the losses computed in that iteration. */
  datatype Sample = Sample(step: int, losses: Losses)

  datatype RunError =
    | LossFailed(cause: LossError)   // a KeyError or shape error while computing the losses
    | ZeroDivision                   // the progress test divides by steps // 10 == 0
    | StepsOutOfRange(steps: int)    // rejected by the endpoint before any work

  /**
   * What a run is given besides its inputs: feature extraction by the frozen
   * network, the optimiser's initial state and one optimiser update of the
   * target (the learning rate and the loss gradient are inside `update`).
   */
  datatype Engine<!I, !O> = Engine(features: I -> map<string, Matrix>, start: O, update: (I, O) -> (I, O))

  datatype Hyper = Hyper(contentWeight: real, styleWeight: real, steps: int,
                         styleWeights: Option<seq<(string, real)>>)

  /** The style weights of a run: the given ones, or the defaults. */
  function WeightsOf(h: Hyper): seq<(string, real)> {
    if h.styleWeights.Some? then h.styleWeights.value else DefaultStyleWeights
  }

  /** The number of iterations of `for step in range(1, steps + 1)`. */
  function Iterations(steps: int): nat {
    if steps < 0 then 0 else steps
  }

  /** The target image and optimiser state after k updates; the target starts as the content image. */
  function Trajectory<I, O>(engine: Engine<I, O>, content: I, k: nat): (I, O) {
    if k == 0 then (content, engine.start)
    else
      var prev := Trajectory(engine, content, k - 1);
      engine.update(prev.0, prev.1)
  }

  /** The losses of the iteration that starts after k updates. */
  function LossesAt<I, O>(content: I, style: I, engine: Engine<I, O>, h: Hyper, k: nat): Result<Losses, LossError> {
    EvaluateLosses(engine.features(Trajectory(engine, content, k).0), engine.features(content),
                   StyleGrams(engine.features(style)), h.contentWeight, h.styleWeight, WeightsOf(h))
  }

  /** The losses of every iteration of a run, by the number of updates before it. */
  ghost function EvalOf<I, O>(content: I, style: I, engine: Engine<I, O>, h: Hyper): nat -> Result<Losses, LossError> {
    (k: nat) => LossesAt(content, style, engine, h, k)
  }

  /** The losses of the first n iterations can all be computed. */
  ghost predicate AllEvaluate(eval: nat -> Result<Losses, LossError>, n: nat) {
    forall k: nat :: k < n ==> eval(k).Success?
  }

  /** The progress entries are those of the given steps, each with the losses of its own iteration. */
  ghost predicate Recorded(eval: nat -> Result<Losses, LossError>, progress: seq<Sample>, steps: seq<int>) {
    && |progress| == |steps|
    && forall i :: 0 <= i < |steps| ==>
         && steps[i] >= 1
         && eval(steps[i] - 1).Success?
         && progress[i] == Sample(steps[i], eval(steps[i] - 1).value)
  }

  /** Iteration k is the first whose losses cannot be computed. */
  ghost predicate FirstFailure(eval: nat -> Result<Losses, LossError>, k: nat, e: LossError) {
    AllEvaluate(eval, k) && eval(k) == Failure(e)
  }

  function StepsOf(progress: seq<Sample>): (s: seq<int>)
    ensures |s| == |progress|
  {
    seq(|progress|, i requires 0 <= i < |progress| => progress[i].step)
  }

  /**
   * The optimisation loop. It runs the iterations 1..steps with no early
   * exit; each one computes the losses of the current target, updates the
   * target, and records a progress entry at the checkpoints. A run of 1 to 9
   * steps divides by zero in its first progress test.
   */
  method PerformStyleTransfer<I, O>(contentImg: I, styleImg: I, engine: Engine<I, O>, hyper: Hyper)
    returns (r: Result<(I, seq<Sample>), RunError>)
    ensures r.Success? <==>
      hyper.steps <= 0 ||
      (hyper.steps >= 10 && AllEvaluate(EvalOf(contentImg, styleImg, engine, hyper), hyper.steps))
    ensures r.Success? ==> r.value.0 == Trajectory(engine, contentImg, Iterations(hyper.steps)).0
    ensures r.Success? && hyper.steps <= 0 ==> r.value.1 == []
    ensures r.Success? && hyper.steps >= 10 ==>
      Recorded(EvalOf(contentImg, styleImg, engine, hyper), r.value.1, Checkpoints(hyper.steps))
    ensures r == Failure(ZeroDivision) <==>
      1 <= hyper.steps <= 9 && LossesAt(contentImg, styleImg, engine, hyper, 0).Success?
    ensures r.Failure? && r.error != ZeroDivision ==>
      && r.error.LossFailed?
      && exists k: nat :: k < hyper.steps && (hyper.steps >= 10 || k == 0) &&
           FirstFailure(EvalOf(contentImg, styleImg, engine, hyper), k, r.error.cause)
  {
    var weights := WeightsOf(hyper);
    var contentFeatures := engine.features(contentImg);
    var styleFeatures := engine.features(styleImg);
    var styleGrams := StyleGrams(styleFeatures);
    var target, opt := contentImg, engine.start;
    ghost var eval := EvalOf(contentImg, styleImg, engine, hyper);
    var progress: seq<Sample> := [];
    var step := 1;
    while step <= hyper.steps
      invariant 1 <= step <= Iterations(hyper.steps) + 1
      invariant (target, opt) == Trajectory(engine, contentImg, step - 1)
      invariant AllEvaluate(eval, step - 1)
      invariant hyper.steps < 10 ==> step == 1 && progress == []
      invariant hyper.steps >= 10 ==>
        Recorded(eval, progress, CheckpointsUpTo(hyper.steps, step - 1))
    {
      var targetFeatures := engine.features(target);
      var losses := ComputeLosses(targetFeatures, contentFeatures, styleGrams,
                                  hyper.contentWeight, hyper.styleWeight, weights);
      EvalIsLosses(contentImg, styleImg, engine, hyper, step - 1, target);
      if losses.Failure? {
        assert FirstFailure(eval, step - 1, losses.error);
        return Failure(LossFailed(losses.error));
      }
      var totalLoss, contentLoss, styleLoss := losses.value.total, losses.value.content, losses.value.style;
      var next := engine.update(target, opt);
      target, opt := next.0, next.1;
      var interval := hyper.steps / 10;
      if interval == 0 {
        return Failure(ZeroDivision);
      }
      ghost var before := progress;
      if step % interval == 0 || step == hyper.steps {
        progress := progress + [Sample(step, Losses(totalLoss, contentLoss, styleLoss))];
      }
      RecordedStep(eval, hyper.steps, before, progress, step);
      step := step + 1;
    }
    if hyper.steps >= 10 {
      RecordedAll(eval, hyper.steps, progress, step - 1);
    }
    r := Success((target, progress));
  }

  /** The evaluation of iteration k is that of the target after k updates. */
  lemma EvalIsLosses<I, O>(content: I, style: I, engine: Engine<I, O>, h: Hyper, k: nat, target: I)
    requires target == Trajectory(engine, content, k).0
    ensures EvalOf(content, style, engine, h)(k) ==
      EvaluateLosses(engine.features(target), engine.features(content), StyleGrams(engine.features(style)),
                     h.contentWeight, h.styleWeight, WeightsOf(h))
  {
  }

  /** One more iteration keeps the loop's invariant about evaluations and progress. */
  lemma RecordedStep(eval: nat -> Result<Losses, LossError>, steps: int,
                     before: seq<Sample>, after: seq<Sample>, step: nat)
    requires 10 <= steps && 1 <= step
    requires AllEvaluate(eval, step - 1) && eval(step - 1).Success?
    requires Recorded(eval, before, CheckpointsUpTo(steps, step - 1))
    requires after == if IsCheckpoint(step, steps) then before + [Sample(step, eval(step - 1).value)] else before
    ensures AllEvaluate(eval, step)
    ensures Recorded(eval, after, CheckpointsUpTo(steps, step))
  {
    var cps := CheckpointsUpTo(steps, step - 1);
    if IsCheckpoint(step, steps) {
      var cps' := cps + [step];
      assert CheckpointsUpTo(steps, step) == cps';
      forall i | 0 <= i < |cps'|
        ensures && cps'[i] >= 1
                && eval(cps'[i] - 1).Success?
                && after[i] == Sample(cps'[i], eval(cps'[i] - 1).value)
      {
        if i < |cps| {
          assert cps'[i] == cps[i] && after[i] == before[i];
        }
      }
    }
  }

  lemma RecordedAll(eval: nat -> Result<Losses, LossError>, steps: int, progress: seq<Sample>, n: nat)
    requires 10 <= steps == n
    requires Recorded(eval, progress, CheckpointsUpTo(steps, n))
    ensures Recorded(eval, progress, Checkpoints(steps))
  {
  }

  /** The run parameters the transfer endpoint builds from a request's form fields. */
  function EndpointHyper(contentWeight: real, styleWeight: real, steps: int,
                         conv1Weight: real, conv2Weight: real, conv3Weight: real,
                         conv4Weight: real, conv5Weight: real): Hyper
  {
    Hyper(contentWeight, styleWeight, steps,
          Some([("conv1_1", conv1Weight), ("conv2_1", conv2Weight), ("conv3_1", conv3Weight),
                ("conv4_1", conv4Weight), ("conv5_1", conv5Weight)]))
  }

  /**
   * The transfer endpoint's part of a run: it rejects `steps` outside
   * [50, 100000] before any work and otherwise runs the loop with the five
   * given style weights. An accepted run never divides by zero, and when it
   * succeeds its progress entries are exactly the checkpoints: between 10
   * and 12 of them, in increasing step order, the last at `steps`. It
   * succeeds exactly when every iteration's losses, under the request's
   * weights, can be computed; its progress entries carry those losses, its
   * image is the target after `steps` updates, and a failure is the error of
   * the first iteration that cannot be computed.
   */
  method TransferStyle<I, O>(contentImg: I, styleImg: I, engine: Engine<I, O>,
                             contentWeight: real, styleWeight: real, steps: int,
                             conv1Weight: real, conv2Weight: real, conv3Weight: real,
                             conv4Weight: real, conv5Weight: real)
    returns (r: Result<(I, seq<Sample>), RunError>)
    ensures StepsRejected(steps) <==> r == Failure(StepsOutOfRange(steps))
    ensures r.Failure? ==> r.error != ZeroDivision
    ensures r.Success? ==> StepsOf(r.value.1) == Checkpoints(steps)
    ensures r.Success? ==>
      && 10 <= |r.value.1| <= 12
      && StrictlyIncreasing(StepsOf(r.value.1))
      && r.value.1[|r.value.1| - 1].step == steps
    ensures !StepsRejected(steps) ==>
      var eval := EvalOf(contentImg, styleImg, engine,
                         EndpointHyper(contentWeight, styleWeight, steps,
                                       conv1Weight, conv2Weight, conv3Weight, conv4Weight, conv5Weight));
      && (r.Success? <==> AllEvaluate(eval, steps))
      && (r.Success? ==>
            && r.value.0 == Trajectory(engine, contentImg, steps).0
            && Recorded(eval, r.value.1, Checkpoints(steps)))
      && (r.Failure? ==> r.error.LossFailed? && exists k: nat :: k < steps && FirstFailure(eval, k, r.error.cause))
  {
    if StepsRejected(steps) {
      return Failure(StepsOutOfRange(steps));
    }
    var hyper := EndpointHyper(contentWeight, styleWeight, steps,
                               conv1Weight, conv2Weight, conv3Weight, conv4Weight, conv5Weight);
    r := PerformStyleTransfer(contentImg, styleImg, engine, hyper);
    if r.Success? {
      assert StepsOf(r.value.1) == Checkpoints(steps);
      ValidatedRunSchedule(steps);
      CheckpointsOrdered(steps);
    }
  }

  /**
   * The target starts as a copy of the content image, so the content loss of
   * the first iteration is 0.
   */
  lemma FirstContentLossZero<I, O>(content: I, style: I, engine: Engine<I, O>, h: Hyper)
    requires LossesAt(content, style, engine, h, 0).Success?
    ensures LossesAt(content, style, engine, h, 0).value.content == 0.0
  {
    var f := engine.features(content);
    ContentLossZero(f, f);
  }

  /** The extractor's guarantee at one image. */
  lemma ExtractsTaps<I, O>(engine: Engine<I, O>, x: I)
    requires forall y: I :: TapNames <= engine.features(y).Keys
    ensures TapNames <= engine.features(x).Keys
  {
  }

  /**
   * With an extractor that always produces the six tapped layers, as
   * `GetFeatures` does on a network of at least 29 modules, and style weights
   * only on tapped layers, no iteration fails on a missing layer: only a
   * shape mismatch can stop it.
   */
  lemma LossesAtOnlyShapeErrors<I, O>(contentImg: I, styleImg: I, engine: Engine<I, O>, h: Hyper, k: nat)
    requires forall x: I :: TapNames <= engine.features(x).Keys
    requires forall i :: 0 <= i < |WeightsOf(h)| ==> WeightsOf(h)[i].0 in TapNames
    ensures LossesAt(contentImg, styleImg, engine, h, k).Failure? ==>
      LossesAt(contentImg, styleImg, engine, h, k).error.BadShape?
  {
    var image := Trajectory(engine, contentImg, k).0;
    ExtractsTaps(engine, image);
    ExtractsTaps(engine, contentImg);
    ExtractsTaps(engine, styleImg);
    EvaluateLossesOnlyShapeErrors(engine.features(image), engine.features(contentImg),
                                  StyleGrams(engine.features(styleImg)), h.contentWeight, h.styleWeight, WeightsOf(h));
  }

  /** The endpoint weights only tapped layers. */
  lemma EndpointLayersTapped(contentWeight: real, styleWeight: real, steps: int,
                             conv1Weight: real, conv2Weight: real, conv3Weight: real,
                             conv4Weight: real, conv5Weight: real)
    ensures var weights := WeightsOf(EndpointHyper(contentWeight, styleWeight, steps,
                                                   conv1Weight, conv2Weight, conv3Weight, conv4Weight, conv5Weight));
      forall i :: 0 <= i < |weights| ==> weights[i].0 in TapNames
  {
  }

  /** So no iteration of a run the endpoint starts fails with a KeyError. */
  lemma EndpointOnlyShapeErrors<I, O>(contentImg: I, styleImg: I, engine: Engine<I, O>,
                                      contentWeight: real, styleWeight: real, steps: int,
                                      conv1Weight: real, conv2Weight: real, conv3Weight: real,
                                      conv4Weight: real, conv5Weight: real, k: nat)
    requires forall x: I :: TapNames <= engine.features(x).Keys
    ensures var r := LossesAt(contentImg, styleImg, engine,
                              EndpointHyper(contentWeight, styleWeight, steps,
                                            conv1Weight, conv2Weight, conv3Weight, conv4Weight, conv5Weight), k);
      r.Failure? ==> r.error.BadShape?
  {
    EndpointLayersTapped(contentWeight, styleWeight, steps, conv1Weight, conv2Weight, conv3Weight, conv4Weight, conv5Weight);
    LossesAtOnlyShapeErrors(contentImg, styleImg, engine,
                            EndpointHyper(contentWeight, styleWeight, steps,
                                          conv1Weight, conv2Weight, conv3Weight, conv4Weight, conv5Weight), k);
  }
}
