/**
 * `TrainingConfig`: the training run's settings with their defaults, and the
 * `target` property that picks the label column from the `task` setting.
 *
 * Times everywhere in the model are whole seconds; the minute and hour settings
 * are whole numbers converted with `MinutesToSeconds` and `HoursToSeconds`.
 */
module Config {
  import opened Wrappers

  datatype TrainingConfig = TrainingConfig(
    tokens: Option<seq<string>>,
    task: string,
    targetColumn: string,
    regressionTarget: string,
    classificationThreshold: real,
    cvSplits: nat,
    cvGapMinutes: nat,
    validationHoldoutDays: nat,
    featureWindowsMinutes: seq<nat>,
    featureWindowsHours: seq<nat>,
    imbalanceEps: real,
    timeColumn: string,
    serverColumn: string,
    tokenColumn: string)

  /** The settings of a `TrainingConfig()` built without arguments. */
  const Defaults := TrainingConfig(
    tokens := None,
    task := "classification",
    targetColumn := "label_class",
    regressionTarget := "label_regression",
    classificationThreshold := 0.0,
    cvSplits := 5,
    cvGapMinutes := 5,
    validationHoldoutDays := 14,
    featureWindowsMinutes := [5, 15, 30, 60],
    featureWindowsHours := [4, 12, 24],
    imbalanceEps := 0.000001,
    timeColumn := "trade_ts",
    serverColumn := "serverId",
    tokenColumn := "token")

  function MinutesToSeconds(m: nat): nat { m * 60 }

  function HoursToSeconds(h: nat): nat { h * 3600 }

  /** The label column: `target_column` for classification, `regression_target` for anything else. */
  function Target(c: TrainingConfig): (name: string)
    ensures c.task == "classification" ==> name == c.targetColumn
    ensures c.task != "classification" ==> name == c.regressionTarget
  {
    if c.task == "classification" then c.targetColumn else c.regressionTarget
  }

  /** The defaults train a classifier on `label_class` with five folds five minutes apart. */
  lemma DefaultSettings()
    ensures Target(Defaults) == "label_class"
    ensures Target(Defaults.(task := "regression")) == "label_regression"
    ensures Defaults.cvSplits == 5 && MinutesToSeconds(Defaults.cvGapMinutes) == 300
    ensures forall w :: w in Defaults.featureWindowsMinutes ==> MinutesToSeconds(w) <= HoursToSeconds(1)
    ensures forall w :: w in Defaults.featureWindowsHours ==> HoursToSeconds(w) <= HoursToSeconds(24)
  {
  }
}
