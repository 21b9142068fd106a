/**
 * The bookkeeping of the two Lightning modules in src/models/siamese_triplet.py.
 *
 * The layers, the forward passes, the triplet margin loss and Adam's arithmetic
 * are not modelled: a batch's loss is whatever a `criterion` function (the
 * forward pass at the current weights composed with the loss) gives for it.
 * In `SiameseTriplet` it is a field that each optimizer step replaces; the
 * `SiameseNetworkPL` functions take it as a parameter. `self.log` calls are
 * recorded as an appended sequence of log events.
 */
module Models {
  import opened Results
  import opened Stats

  type Vec = seq<real>

  /** A training or validation batch: (anchor, positive, negative). */
  datatype Triplet = Triplet(anchor: Vec, positive: Vec, negative: Vec)

  /** One `self.log(key, value)` call. */
  datatype LogEvent = LogEvent(key: string, value: real)

  const TrainEpochAverageKey := "train_epoch_average"
  const ValidationEpochAverageKey := "validation_epoch_average"
  const AvgValLossKey := "avg_val_loss"

  /** What flushing one accumulator logs: its mean under `key` when it holds losses, nothing otherwise. */
  function Flush(key: string, outputs: seq<real>): (events: seq<LogEvent>)
    ensures outputs == [] ==> events == []
    ensures outputs != [] ==> |events| == 1 && events[0].key == key
    ensures outputs != [] ==> events[0].value * |outputs| as real == Sum(outputs)
  {
    if outputs == [] then [] else [LogEvent(key, Mean(outputs))]
  }

  /** An epoch average lies between any lower and upper bound of the losses it averages. */
  lemma FlushedAverageBounds(key: string, outputs: seq<real>, lo: real, hi: real)
    requires outputs != []
    requires forall i :: 0 <= i < |outputs| ==> lo <= outputs[i] <= hi
    ensures |Flush(key, outputs)| == 1 && lo <= Flush(key, outputs)[0].value <= hi
  {
    MeanBounds(outputs, lo, hi);
  }

  /** `SiameseTriplet`: the two per-epoch loss accumulators and the metrics logged so far. */
  class SiameseTriplet {
    var trainStepOutputs: seq<real>
    var validationStepOutputs: seq<real>
    var logged: seq<LogEvent>

    const embeddingDim: nat
    const margin: real
    const learningRate: real
    /**
     * The layers at their current weights composed with `self.criterion`: the
     * loss of a batch. Each optimizer step replaces it.
     */
    var criterion: Triplet -> real

    /**
     * `SiameseTriplet(embedding_dim, margin, learning_rate)`: both accumulators
     * start empty; `criterion` stands for the layers at their initial weights
     * and the triplet margin loss built from these settings.
     */
    constructor (embeddingDim: nat, margin: real, learningRate: real, criterion: Triplet -> real)
      ensures trainStepOutputs == [] && validationStepOutputs == [] && logged == []
      ensures this.embeddingDim == embeddingDim && this.margin == margin && this.learningRate == learningRate
      ensures this.criterion == criterion
    {
      this.embeddingDim := embeddingDim;
      this.margin := margin;
      this.learningRate := learningRate;
      this.criterion := criterion;
      trainStepOutputs := [];
      validationStepOutputs := [];
      logged := [];
    }

    /** `training_step`: records the batch's loss in the training accumulator and returns it. */
    method TrainingStep(batch: Triplet) returns (loss: real)
      modifies this
      ensures loss == criterion(batch)
      ensures trainStepOutputs == old(trainStepOutputs) + [loss]
      ensures validationStepOutputs == old(validationStepOutputs) && logged == old(logged)
      ensures criterion == old(criterion)
    {
      loss := criterion(batch);
      trainStepOutputs := trainStepOutputs + [loss];
    }

    /** `validation_step`: records the batch's loss in the validation accumulator and returns it. */
    method ValidationStep(batch: Triplet) returns (loss: real)
      modifies this
      ensures loss == criterion(batch)
      ensures validationStepOutputs == old(validationStepOutputs) + [loss]
      ensures trainStepOutputs == old(trainStepOutputs) && logged == old(logged)
      ensures criterion == old(criterion)
    {
      loss := criterion(batch);
      validationStepOutputs := validationStepOutputs + [loss];
    }

    /**
     * One step of the Adam optimizer that `configure_optimizers` returns, which
     * the trainer runs after each training step: the layers' weights change,
     * and with them the loss of every batch. `updated` is the loss function at
     * the new weights. The accumulators and the log are untouched.
     */
    method OptimizerStep(updated: Triplet -> real)
      modifies this
      ensures criterion == updated
      ensures trainStepOutputs == old(trainStepOutputs)
      ensures validationStepOutputs == old(validationStepOutputs) && logged == old(logged)
    {
      criterion := updated;
    }

    /**
     * `on_validation_epoch_end`: each non-empty accumulator logs its mean under
     * its own key (training first) and is cleared; an empty one logs nothing.
     */
    method OnValidationEpochEnd()
      modifies this
      ensures trainStepOutputs == [] && validationStepOutputs == []
      ensures logged == old(logged) + Flush(TrainEpochAverageKey, old(trainStepOutputs))
                                    + Flush(ValidationEpochAverageKey, old(validationStepOutputs))
      ensures criterion == old(criterion)
    {
      if |trainStepOutputs| != 0 {
        var epochAverageTrain := Mean(trainStepOutputs);
        logged := logged + [LogEvent(TrainEpochAverageKey, epochAverageTrain)];
        trainStepOutputs := [];
      }
      if |validationStepOutputs| != 0 {
        var epochAverage := Mean(validationStepOutputs);
        logged := logged + [LogEvent(ValidationEpochAverageKey, epochAverage)];
        validationStepOutputs := [];
      }
    }
  }

  /**
   * One epoch as the trainer drives it: a fresh model whose loss function is
   * `initial`; for each training batch a training step followed by an
   * optimizer step to the next loss function of `updates`; one validation step
   * per validation batch at the final weights; then the epoch-end hook, twice.
   * `trainLosses` are the losses the training steps returned: step `i` runs at
   * the weights left by the `i` optimizer steps before it. The first hook logs
   * the mean of those losses and the mean of the validation losses; the second
   * finds both accumulators empty and logs nothing more.
   */
  method RunEpoch(initial: Triplet -> real, updates: seq<Triplet -> real>,
                  trainBatches: seq<Triplet>, validationBatches: seq<Triplet>)
    returns (trainLosses: seq<real>, events: seq<LogEvent>)
    requires |updates| == |trainBatches|
    ensures trainLosses == StepLosses([initial] + updates, trainBatches)
    ensures trainBatches != [] && validationBatches != [] ==>
      events == [LogEvent(TrainEpochAverageKey, Mean(trainLosses)),
                 LogEvent(ValidationEpochAverageKey, Mean(Losses(updates[|updates| - 1], validationBatches)))]
    ensures trainBatches == [] ==> events == Flush(ValidationEpochAverageKey, Losses(initial, validationBatches))
    ensures validationBatches == [] ==> events == Flush(TrainEpochAverageKey, trainLosses)
  {
    var networks := [initial] + updates;
    var model := new SiameseTriplet(120, 1.0, 0.001, initial);
    trainLosses := [];
    for i := 0 to |trainBatches|
      invariant model.criterion == networks[i]
      invariant trainLosses == StepLosses(networks, trainBatches[..i])
      invariant model.trainStepOutputs == trainLosses
      invariant model.validationStepOutputs == [] && model.logged == []
    {
      var loss := model.TrainingStep(trainBatches[i]);
      trainLosses := trainLosses + [loss];
      assert StepLosses(networks, trainBatches[..i + 1]) == StepLosses(networks, trainBatches[..i]) + [loss];
      model.OptimizerStep(updates[i]);
    }
    assert trainBatches[..|trainBatches|] == trainBatches;
    var final := networks[|trainBatches|];
    for i := 0 to |validationBatches|
      invariant model.criterion == final
      invariant model.validationStepOutputs == Losses(final, validationBatches[..i])
      invariant model.trainStepOutputs == trainLosses && model.logged == []
    {
      var loss := model.ValidationStep(validationBatches[i]);
      assert Losses(final, validationBatches[..i + 1]) == Losses(final, validationBatches[..i]) + [loss];
    }
    assert validationBatches[..|validationBatches|] == validationBatches;
    model.OnValidationEpochEnd();
    model.OnValidationEpochEnd();
    events := model.logged;
  }

  /** The loss of each batch under one fixed loss function, in order. */
  function Losses(criterion: Triplet -> real, batches: seq<Triplet>): (losses: seq<real>)
  {
    seq(|batches|, i requires 0 <= i < |batches| => criterion(batches[i]))
  }

  /** The loss of each batch under the loss function in effect at its step. */
  function StepLosses(networks: seq<Triplet -> real>, batches: seq<Triplet>): (losses: seq<real>)
    requires |batches| <= |networks|
  {
    seq(|batches|, i requires 0 <= i < |batches| => networks[i](batches[i]))
  }

  /** Without weight changes, the step losses are the losses under the one fixed loss function. */
  lemma StepLossesWithoutUpdates(criterion: Triplet -> real, networks: seq<Triplet -> real>, batches: seq<Triplet>)
    requires |batches| <= |networks|
    requires forall i :: 0 <= i < |networks| ==> networks[i] == criterion
    ensures StepLosses(networks, batches) == Losses(criterion, batches)
  {
  }

  /** The dictionary `SiameseNetworkPL.validation_step` returns. */
  datatype ValidationOutput = ValidationOutput(valLoss: real)

  /** `SiameseNetworkPL.validation_step`: the batch's loss, under `'val_loss'`. */
  function NetworkValidationStep(batch: Triplet, criterion: Triplet -> real): (out: ValidationOutput)
    ensures out.valLoss == criterion(batch)
  {
    ValidationOutput(criterion(batch))
  }

  function ValLosses(outputs: seq<ValidationOutput>): (losses: seq<real>)
    ensures |losses| == |outputs| && forall i :: 0 <= i < |outputs| ==> losses[i] == outputs[i].valLoss
  {
    seq(|outputs|, i requires 0 <= i < |outputs| => outputs[i].valLoss)
  }

  /**
   * `SiameseNetworkPL.on_validation_epoch_end(outputs)`: logs the mean of the
   * `'val_loss'` fields under `avg_val_loss`; `torch.stack` of an empty list
   * raises.
   */
  function NetworkOnValidationEpochEnd(outputs: seq<ValidationOutput>): (r: Result<LogEvent>)
    ensures outputs == [] <==> r == Err(RuntimeError)
    ensures r.Ok? ==> r.value.key == AvgValLossKey
    ensures r.Ok? ==> r.value.value * |outputs| as real == Sum(ValLosses(outputs))
  {
    if outputs == [] then Err(RuntimeError)
    else Ok(LogEvent(AvgValLossKey, Mean(ValLosses(outputs))))
  }

  /** The logged average lies between the smallest and the largest validation loss. */
  lemma NetworkAverageBounds(outputs: seq<ValidationOutput>, lo: real, hi: real)
    requires outputs != []
    requires forall i :: 0 <= i < |outputs| ==> lo <= outputs[i].valLoss <= hi
    ensures NetworkOnValidationEpochEnd(outputs).Ok?
    ensures lo <= NetworkOnValidationEpochEnd(outputs).value.value <= hi
  {
    MeanBounds(ValLosses(outputs), lo, hi);
  }

  /**
   * Feeding the hook the outputs of one validation step per batch logs the
   * mean of the batches' losses under `avg_val_loss`.
   */
  lemma NetworkEpochOfSteps(criterion: Triplet -> real, batches: seq<Triplet>)
    requires batches != []
    ensures
      var outputs := seq(|batches|, i requires 0 <= i < |batches| => NetworkValidationStep(batches[i], criterion));
      NetworkOnValidationEpochEnd(outputs) == Ok(LogEvent(AvgValLossKey, Mean(Losses(criterion, batches))))
  {
    var outputs := seq(|batches|, i requires 0 <= i < |batches| => NetworkValidationStep(batches[i], criterion));
    assert ValLosses(outputs) == Losses(criterion, batches);
  }
}
