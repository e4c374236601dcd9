# Vehicle insurance response predictor: verified model of the form encoder

The application is a one-page form. It collects ten answers about an
insurance prospect, turns them into an ordered row of eleven numbers, asks a
pre-trained binary classifier whether the prospect will buy vehicle
insurance, and shows the answer as a message. This project models the logic
behind the form's prediction button and proves properties of it:

- the presence check, which refuses to predict while any of the five select
  boxes still shows its "Select" placeholder;
- the feature encoder (`preprocess_inputs`), which turns the answers into
  0/1 flags and builds the row
  `[male, age, licence, region code, previously insured, vehicle damage,
  annual premium, sales channel, vintage, vehicle age < 1 year, vehicle age > 2 years]`;
- the dispatch from the classifier's answer to the message: label 1 gives
  "will buy", any other label gives "will not buy", and a raised exception
  gives "Prediction failed".

Layout:

- `form.dfy`: module `Form`. It has two views of one submission.
  `Widgets` holds the raw option texts the select boxes return, placeholder
  included. `Prospect` holds the same answers as enumerations, each with an
  explicit `Unset` case. `Parse` and `Render` translate between them and are
  proved inverse. The number inputs' bounds are subset types (`Age` is
  18..100, `RegionCode` is a `nat`, `Premium` is 1000.0..100000.0,
  `SalesChannel` is 1..200, `Vintage` is 0..300), so the widgets' guarantees
  are part of the data and no operation needs a precondition for them.
  `form.dfy` also holds a small `Wrappers` module defining `Option`.
- `encoder.dfy`: module `Encoder`. `PreprocessInputs` is the encoder as the
  page writes it: it lower-cases the option texts and compares them with
  "male" and "yes", and compares the vehicle age with the exact option texts.
  `Encode` states the same encoding on the typed form, and `EncodeAgrees`
  proves the two equal on every submission the page can produce. `Decode`
  is the inverse of `Encode` on complete forms. The row is a `seq<real>`:
  the premium is a float, so the row the classifier receives is entirely
  floating point.
- `prediction.dfy`: module `Prediction`. The classifier is a function
  parameter `predict`. It returns the first label of its answer or `Raised`.
  `OnPredict` is the button. Its `Response` records the outcome and every
  row passed to `predict`, so the model can state that the classifier is
  never called, or called once on a given row.

Two details of the code the model keeps:

- The classifier's label is checked only against 1: every other label, not
  only 0, gives "will not buy", and so does `Decide`.
- The code compares the lower-cased option text with "male" and "yes" rather
  than matching an enumeration; `PreprocessInputs` keeps that form and
  `EncodeAgrees` proves it equal to `Encode`.

## Model

| member | source | states |
|---|---|---|
| Form.GenderLabel | streamlit_app.py:22 | each gender answer is one of the gender box's options, and the option is "Select" exactly for `Unset` |
| Form.YesNoLabel | streamlit_app.py:24-28 | each yes/no answer is one of the yes/no boxes' options, and the option is "Select" exactly for `Unset` |
| Form.VehicleAgeLabel | streamlit_app.py:27 | each vehicle age is one of that box's four options, and the option is "Select" exactly for `Unset` |
| Form.ParseGender | streamlit_app.py:22 | a text is read as a gender exactly when the gender box offers it, and reading inverts `GenderLabel` |
| Form.ParseYesNo | streamlit_app.py:24-28 | a text is read as a yes/no answer exactly when a yes/no box offers it, and reading inverts `YesNoLabel` |
| Form.ParseVehicleAge | streamlit_app.py:27 | a text is read as a vehicle age exactly when that box offers it, and reading inverts `VehicleAgeLabel` |
| Form.Parse | streamlit_app.py:22-31 | the widget values read as a typed form exactly when every select holds an offered option; the five numbers are kept unchanged |
| Form.Render | streamlit_app.py:22-31 | a typed form shows only offered options, and it shows a "Select" exactly when the form is incomplete |
| Form.ParseRender | streamlit_app.py:22-31 | reading back what a typed form shows gives that form |
| Form.RenderParse | streamlit_app.py:22-31 | showing a parsed form gives back the widget values it came from |
| Form.AnyPlaceholder | streamlit_app.py:58 | "Select" is among the five selections exactly when gender, licence, previously insured, vehicle age or vehicle damage holds "Select" |
| Form.PlaceholderIffIncomplete | streamlit_app.py:58 | the check "Select is among gender, licence, previously insured, vehicle age and vehicle damage" holds exactly when the typed form is incomplete |
| Encoder.LowerChar | streamlit_app.py:40-43 | a capital letter becomes the small letter at the same place in the alphabet, any other character is unchanged, and no capital remains |
| Encoder.Lower | streamlit_app.py:40-43 | the lower-cased text has the input's length and each character is lower-cased in place |
| Encoder.LowerIdempotent | streamlit_app.py:40-43 | lower-casing a lower-cased text changes nothing |
| Encoder.PreprocessInputs | streamlit_app.py:38-49 | the written encoder always builds a row of exactly eleven entries |
| Encoder.Encode | streamlit_app.py:40-49 | the row has eleven entries, every flag position (0, 2, 4, 5, 9, 10) holds 0 or 1, and the two vehicle-age flags are never both 1 |
| Encoder.EncodeAgrees | streamlit_app.py:40-45 | on every offered submission, lower-casing and comparing the texts gives the same row as the enumeration encoding |
| Encoder.FlagMeaning | streamlit_app.py:40-43 | the male flag is 1 exactly for "Male", and the licence, insured and damage flags are 1 exactly for "Yes"; "Female", "No" and the placeholder give 0 |
| Encoder.VehicleAgeFlags | streamlit_app.py:44-45 | "Less than 1 Year" gives (1,0), "1-2 Years" gives (0,0), "More than 2 Years" gives (0,1), and (1,1) never occurs |
| Encoder.NumbersPassThrough | streamlit_app.py:47-49 | age, region code, premium, sales channel and vintage appear unchanged at positions 1, 3, 6, 7 and 8 |
| Encoder.WrittenRow | streamlit_app.py:40-49 | on every offered submission the written row has 1 at the male, licence, insured, damage, newer- and older-vehicle positions exactly for "Male", "Yes", "Less than 1 Year" and "More than 2 Years", 0 otherwise, and the five numbers unchanged |
| Encoder.Decode | streamlit_app.py:47-49 | a row is read back into a form exactly when it has the shape of an encoded complete form (`ValidRow`) |
| Encoder.DecodeEncode | streamlit_app.py:40-49 | a complete form is recovered from its row, so encoding loses nothing |
| Encoder.EncodeDecode | streamlit_app.py:40-49 | every row `Decode` accepts is the row of the complete form it yields |
| Encoder.EncodeInjective | streamlit_app.py:40-49 | two complete forms with the same row are equal |
| Encoder.PlaceholderIndistinguishable | streamlit_app.py:40-45 | the placeholder encodes like "Female", "No" or "1-2 Years", so encoding alone cannot detect an unanswered select |
| Prediction.Decide | streamlit_app.py:65-70 | label 1 gives "will buy", any other label "will not buy", a raise "Prediction failed", and never the warning |
| Prediction.OnPredict | streamlit_app.py:57-70 | the warning is shown, and no call is made, exactly when a select holds "Select"; otherwise exactly one call is made, on an eleven-entry row |
| Prediction.OnPredictSpec | streamlit_app.py:57-70 | an incomplete form gives the warning with no call; a complete form gives one call on its encoded row and the message for that call's answer |
| Prediction.WillBuyIff | streamlit_app.py:61-66 | "will buy" is shown exactly when the form is complete and its row is labelled 1 |
| Prediction.WillNotBuyIff | streamlit_app.py:61-68 | "will not buy" is shown exactly when the form is complete and its row gets a label other than 1 |
| Prediction.FailedIff | streamlit_app.py:61-70 | "Prediction failed" is shown exactly when the form is complete and the classifier raises on its row; the error goes no further |
| Prediction.PredictorUnused | streamlit_app.py:58-59 | while a select holds "Select", the classifier has no effect on the result |
| Prediction.StubClassifiers | streamlit_app.py:61-70 | on a complete form, a classifier that always answers 1, always answers 0 or always raises gives "will buy", "will not buy" and "Prediction failed" |

Every member is a pure function, so encoding the same submission twice gives
the same row without a separate proof.

## Left out

- Page rendering and widget plumbing: page setup, title, headers, select boxes, number inputs and the message banners (streamlit_app.py:13-33, 51, 59, 66-70). The widgets' values are inputs to the model, and the banners are the four `Outcome` values.
- Loading the trained classifier from its pickle file (streamlit_app.py:8) and everything inside its `predict` call. These are foreign code, so the classifier is the parameter `predict`.
- The exception text in "Prediction failed: {e}" and the exact wording of the messages. The model keeps which message is shown, not its text.
- The `except` branch of `preprocess_inputs` (streamlit_app.py:50-52) and the `input_data is not None` test (streamlit_app.py:62). Every value the widgets can give encodes without error, so that branch never runs and the row is always present.
- Floating-point behaviour. The premium is an exact `real` that is only carried through. The integer fields become exact reals; rounding of a region code above 2^53 when it is stored as a float is not modelled.
- Encoder.Lower: lower-cases only ASCII letters, unlike the full Unicode `str.lower`. Every option text is ASCII, so the encoder's result is the same.
- The 1×11 matrix and the label array. The row is a `seq<real>` of length 11, and the classifier's answer is its first label, an integer.
- The number inputs' step sizes. They only change the widgets' increment buttons and do not restrict the values.
