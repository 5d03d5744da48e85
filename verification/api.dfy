/** Records that travel as JSON from the analytics backend to the
    dashboard pages. Each is produced by one backend function and read by
    one page. */
module Api {

  /** One spend prediction (`run_decision_tree` output, spend page input). */
  datatype Prediction = Prediction(customerId: int, predictedSpend: real)

  /** One recommended product (`recommend` output, similarity page input). */
  datatype Similar = Similar(product: string, similarity: real)

  /** A frequent itemset with its support. */
  datatype Itemset = Itemset(items: seq<string>, support: real)

  /** An association rule antecedents -> consequents. */
  datatype Rule = Rule(antecedents: seq<string>, consequents: seq<string>,
                       support: real, confidence: real, lift: real)

  function Support(i: Itemset): real { i.support }

  function Lift(r: Rule): real { r.lift }

  function PredictedSpend(p: Prediction): real { p.predictedSpend }
}
