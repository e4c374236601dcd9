/**
 The prediction button: check that every select has been answered, encode the
 form, make one call to the trained classifier and turn its answer into the
 message the page shows.

 The classifier is an outside capability, passed in as `predict`: it either
 returns the first label of its answer or raises. A `Response` records the
 outcome together with every row handed to `predict`, so that "the classifier
 is never called" and "it is called once, on this row" can be stated.
 */
module Prediction {
  import opened Form
  import opened Encoder

  /** What one call of the classifier gives back. */
  datatype Prediction = Label(answer: int) | Raised

  /** The four messages the button can end in. */
  datatype Outcome =
    | FillAllFields     // the warning that some select is still on its placeholder
    | WillBuy           // the success message
    | WillNotBuy        // the negative message
    | PredictionFailed  // the error message when the classifier raised

  datatype Response = Response(outcome: Outcome, calls: seq<seq<real>>)

  /** Label 1 is a purchase, any other label is not, and a raise is a failure. */
  function Decide(r: Prediction): (o: Outcome)
    ensures o == WillBuy <==> r == Label(1)
    ensures o == WillNotBuy <==> r.Label? && r.answer != 1
    ensures o == PredictionFailed <==> r.Raised?
    ensures o != FillAllFields
  {
    match r
    case Label(l) => if l == 1 then WillBuy else WillNotBuy
    case Raised => PredictionFailed
  }

  /**
   The button as the page writes it: warn when "Select" is among the five
   selections; otherwise encode and call the classifier once, on that row.
   */
  function OnPredict(w: Widgets, predict: seq<real> -> Prediction): (r: Response)
    ensures r.outcome == FillAllFields <==> AnyPlaceholder(w)
    ensures r.calls == [] <==> AnyPlaceholder(w)
    ensures |r.calls| <= 1
    ensures forall row | row in r.calls :: |row| == FeatureCount
  {
    if AnyPlaceholder(w) then
      Response(FillAllFields, [])
    else
      var row := PreprocessInputs(w);
      Response(Decide(predict(row)), [row])
  }

  // ---------------------------------------------------------------------
  // The button on the typed form
  // ---------------------------------------------------------------------

  /**
   On every submission the page can produce: an incomplete form gives the
   warning and no call; a complete form gives one call, on its encoded row,
   and the message for the classifier's answer.
   */
  lemma OnPredictSpec(w: Widgets, predict: seq<real> -> Prediction)
    requires Offered(w)
    ensures !Complete(Parse(w).value) ==> OnPredict(w, predict) == Response(FillAllFields, [])
    ensures Complete(Parse(w).value) ==>
              var row := Encode(Parse(w).value);
              OnPredict(w, predict) == Response(Decide(predict(row)), [row])
  {
    PlaceholderIffIncomplete(w);
    EncodeAgrees(w);
  }

  /** The purchase message appears exactly when the form is complete and its row is labelled 1. */
  lemma WillBuyIff(w: Widgets, predict: seq<real> -> Prediction)
    requires Offered(w)
    ensures OnPredict(w, predict).outcome == WillBuy <==>
              Complete(Parse(w).value) && predict(Encode(Parse(w).value)) == Label(1)
  {
    OnPredictSpec(w, predict);
  }

  /** The negative message appears exactly when the form is complete and its row gets another label. */
  lemma WillNotBuyIff(w: Widgets, predict: seq<real> -> Prediction)
    requires Offered(w)
    ensures OnPredict(w, predict).outcome == WillNotBuy <==>
              && Complete(Parse(w).value)
              && predict(Encode(Parse(w).value)).Label?
              && predict(Encode(Parse(w).value)).answer != 1
  {
    OnPredictSpec(w, predict);
  }

  /** The failure message appears exactly when the form is complete and the classifier raises on its row. */
  lemma FailedIff(w: Widgets, predict: seq<real> -> Prediction)
    requires Offered(w)
    ensures OnPredict(w, predict).outcome == PredictionFailed <==>
              Complete(Parse(w).value) && predict(Encode(Parse(w).value)).Raised?
  {
    OnPredictSpec(w, predict);
  }

  /** While some select is on its placeholder, no classifier can change what the button does. */
  lemma PredictorUnused(w: Widgets, f: seq<real> -> Prediction, g: seq<real> -> Prediction)
    requires AnyPlaceholder(w)
    ensures OnPredict(w, f) == OnPredict(w, g)
  {
  }

  /**
   With classifiers that always answer 1, always answer 0, or always raise, a
   fully answered form ends in the purchase, the negative and the failure
   message respectively.
   */
  lemma StubClassifiers(w: Widgets)
    requires Offered(w) && Complete(Parse(w).value)
    ensures OnPredict(w, _ => Label(1)).outcome == WillBuy
    ensures OnPredict(w, _ => Label(0)).outcome == WillNotBuy
    ensures OnPredict(w, _ => Raised).outcome == PredictionFailed
  {
    PlaceholderIffIncomplete(w);
  }
}
