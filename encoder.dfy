/**
 The feature encoder: turns one submission into the fixed-order row of eleven
 numbers that the trained classifier expects,

   [male, age, driving licence, region code, previously insured,
    vehicle damage, annual premium, sales channel, vintage,
    vehicle age < 1 year, vehicle age > 2 years].

 The row is built from the age, region code, channel and vintage integers,
 the premium float and six 0/1 flags; putting a float among them makes the
 whole row floating point, so the row is a sequence of reals here.

 `PreprocessInputs` is the encoder as the page writes it, over the raw option
 texts. `Encode` is the same encoding stated on the typed form, and `Decode`
 is its inverse on complete forms.
 */
module Encoder {
  import opened Wrappers
  import opened Form

  /** Length of the feature row. */
  const FeatureCount: nat := 11

  /** Positions of the row. */
  const MaleAt := 0
  const AgeAt := 1
  const LicenseAt := 2
  const RegionAt := 3
  const InsuredAt := 4
  const DamageAt := 5
  const PremiumAt := 6
  const ChannelAt := 7
  const VintageAt := 8
  const NewVehicleAt := 9
  const OldVehicleAt := 10

  /** The positions that hold a 0/1 flag; the others carry a number through. */
  const FlagPositions: set<int> :=
    {MaleAt, LicenseAt, InsuredAt, DamageAt, NewVehicleAt, OldVehicleAt}

  // ---------------------------------------------------------------------
  // Lower-casing of option texts
  // ---------------------------------------------------------------------

  /**
   Lower-cases one character of the ASCII range; all option texts are ASCII.
   A capital becomes the small letter at the same place in the alphabet, and
   every other character is left alone.
   */
  function LowerChar(c: char): (r: char)
    ensures !('A' <= r <= 'Z')
    ensures 'A' <= c <= 'Z' ==> 'a' <= r <= 'z' && r as int - 'a' as int == c as int - 'A' as int
    ensures !('A' <= c <= 'Z') ==> r == c
  {
    if 'A' <= c <= 'Z' then (c as int + 32) as char else c
  }

  /** Lower-cases a text character by character. */
  function Lower(s: string): (r: string)
    ensures |r| == |s|
    ensures forall i :: 0 <= i < |s| ==> r[i] == LowerChar(s[i])
  {
    if s == [] then [] else [LowerChar(s[0])] + Lower(s[1..])
  }

  /** Lower-casing an already lower-cased text changes nothing. */
  lemma {:induction false} LowerIdempotent(s: string)
    ensures Lower(Lower(s)) == Lower(s)
  {
    if s != [] {
      LowerIdempotent(s[1..]);
    }
  }

  /** A 0/1 flag as it lands in the floating-point row. */
  function Flag(b: bool): (x: real)
    ensures x == 0.0 || x == 1.0
    ensures x == 1.0 <==> b
  {
    if b then 1.0 else 0.0
  }

  // ---------------------------------------------------------------------
  // The encoder as written, over the option texts
  // ---------------------------------------------------------------------

  /**
   Gender is male when its text lower-cases to "male", each yes/no answer is
   yes when its text lower-cases to "yes", and the vehicle age gives two
   flags compared against the exact option texts, "1-2 Years" being the
   baseline with both flags clear.
   */
  function PreprocessInputs(w: Widgets): (row: seq<real>)
    ensures |row| == FeatureCount
  {
    var male := Flag(Lower(w.gender) == "male");
    var license := Flag(Lower(w.drivingLicense) == "yes");
    var insured := Flag(Lower(w.previouslyInsured) == "yes");
    var damaged := Flag(Lower(w.vehicleDamage) == "yes");
    var lessThanOne := Flag(w.vehicleAge == "Less than 1 Year");
    var moreThanTwo := Flag(w.vehicleAge == "More than 2 Years");
    [male, w.age as real, license, w.regionCode as real, insured, damaged,
     w.annualPremium, w.salesChannel as real, w.vintage as real,
     lessThanOne, moreThanTwo]
  }

  // ---------------------------------------------------------------------
  // The encoding on the typed form, and its inverse
  // ---------------------------------------------------------------------

  function Encode(p: Prospect): (row: seq<real>)
    ensures |row| == FeatureCount
    ensures forall i | i in FlagPositions :: row[i] == 0.0 || row[i] == 1.0
    ensures row[NewVehicleAt] + row[OldVehicleAt] <= 1.0
  {
    [Flag(p.gender == Male), p.age as real, Flag(p.drivingLicense == Yes),
     p.regionCode as real, Flag(p.previouslyInsured == Yes), Flag(p.vehicleDamage == Yes),
     p.annualPremium, p.salesChannel as real, p.vintage as real,
     Flag(p.vehicleAge == LessThanOneYear), Flag(p.vehicleAge == MoreThanTwoYears)]
  }

  predicate IsFlag(x: real) {
    x == 0.0 || x == 1.0
  }

  /** `x` is a whole number lying in [lo, hi]. */
  predicate WholeIn(x: real, lo: int, hi: int) {
    x == x.Floor as real && lo <= x.Floor <= hi
  }

  /** The rows that some complete form encodes to. */
  predicate ValidRow(row: seq<real>) {
    && |row| == FeatureCount
    && IsFlag(row[MaleAt])
    && WholeIn(row[AgeAt], 18, 100)
    && IsFlag(row[LicenseAt])
    && row[RegionAt] == row[RegionAt].Floor as real && 0 <= row[RegionAt].Floor
    && IsFlag(row[InsuredAt])
    && IsFlag(row[DamageAt])
    && 1000.0 <= row[PremiumAt] <= 100000.0
    && WholeIn(row[ChannelAt], 1, 200)
    && WholeIn(row[VintageAt], 0, 300)
    && IsFlag(row[NewVehicleAt])
    && IsFlag(row[OldVehicleAt])
    && row[NewVehicleAt] + row[OldVehicleAt] <= 1.0
  }

  function YesIf(x: real): YesNo {
    if x == 1.0 then Yes else No
  }

  /** Reads a row back into a complete form; fails on any row no form encodes to. */
  function Decode(row: seq<real>): (r: Option<Prospect>)
    ensures r.Some? <==> ValidRow(row)
  {
    if !ValidRow(row) then None
    else
      var vehicleAge :=
        if row[NewVehicleAt] == 1.0 then LessThanOneYear
        else if row[OldVehicleAt] == 1.0 then MoreThanTwoYears
        else OneToTwoYears;
      Some(Prospect(
        if row[MaleAt] == 1.0 then Male else Female,
        row[AgeAt].Floor,
        YesIf(row[LicenseAt]),
        row[RegionAt].Floor,
        YesIf(row[InsuredAt]),
        vehicleAge,
        YesIf(row[DamageAt]),
        row[PremiumAt],
        row[ChannelAt].Floor,
        row[VintageAt].Floor))
  }

  // ---------------------------------------------------------------------
  // The written encoder agrees with the typed one
  // ---------------------------------------------------------------------

  /** What lower-casing makes of each select option. */
  lemma LowerOptions()
    ensures Lower("Male") == "male"
    ensures Lower("Female") != "male" && Lower(Placeholder) != "male"
    ensures Lower("Yes") == "yes"
    ensures Lower("No") != "yes" && Lower(Placeholder) != "yes"
  {
    assert Lower("Male") == "male" by {
      assert Lower("e") == "e";
      assert Lower("le") == "le";
      assert Lower("ale") == "ale";
    }
    assert Lower("Yes") == "yes" by {
      assert Lower("s") == "s";
      assert Lower("es") == "es";
    }
    assert Lower("Female")[0] == 'f';
    assert Lower(Placeholder)[0] == 's';
  }

  /** On every submission the page can produce, the written encoder is `Encode`. */
  lemma EncodeAgrees(w: Widgets)
    requires Offered(w)
    ensures PreprocessInputs(w) == Encode(Parse(w).value)
  {
    LowerOptions();
  }

  // ---------------------------------------------------------------------
  // What each position of the row means
  // ---------------------------------------------------------------------

  /** The flags: 1 exactly for "Male" and for each "Yes"; 0 otherwise, placeholder included. */
  lemma FlagMeaning(p: Prospect)
    ensures Encode(p)[MaleAt] == (if p.gender == Male then 1.0 else 0.0)
    ensures Encode(p)[LicenseAt] == (if p.drivingLicense == Yes then 1.0 else 0.0)
    ensures Encode(p)[InsuredAt] == (if p.previouslyInsured == Yes then 1.0 else 0.0)
    ensures Encode(p)[DamageAt] == (if p.vehicleDamage == Yes then 1.0 else 0.0)
  {
  }

  /** The vehicle age gives two flags, with "1-2 Years" as the all-zero baseline. */
  lemma VehicleAgeFlags(p: Prospect)
    ensures p.vehicleAge == LessThanOneYear ==>
              Encode(p)[NewVehicleAt] == 1.0 && Encode(p)[OldVehicleAt] == 0.0
    ensures p.vehicleAge == OneToTwoYears ==>
              Encode(p)[NewVehicleAt] == 0.0 && Encode(p)[OldVehicleAt] == 0.0
    ensures p.vehicleAge == MoreThanTwoYears ==>
              Encode(p)[NewVehicleAt] == 0.0 && Encode(p)[OldVehicleAt] == 1.0
    ensures !(Encode(p)[NewVehicleAt] == 1.0 && Encode(p)[OldVehicleAt] == 1.0)
  {
  }

  /** The five numbers are carried through unchanged, at positions 1, 3, 6, 7 and 8. */
  lemma NumbersPassThrough(p: Prospect)
    ensures Encode(p)[AgeAt] == p.age as real
    ensures Encode(p)[RegionAt] == p.regionCode as real
    ensures Encode(p)[PremiumAt] == p.annualPremium
    ensures Encode(p)[ChannelAt] == p.salesChannel as real
    ensures Encode(p)[VintageAt] == p.vintage as real
  {
  }

  /**
   The row the page builds, read off the option texts themselves: each flag is
   1 exactly for "Male", "Yes", "Less than 1 Year" or "More than 2 Years", so
   "Female", "No", "1-2 Years" and the placeholder all give 0; the numbers
   pass through unchanged.
   */
  lemma WrittenRow(w: Widgets)
    requires Offered(w)
    ensures PreprocessInputs(w)[MaleAt] == 1.0 <==> w.gender == "Male"
    ensures PreprocessInputs(w)[LicenseAt] == 1.0 <==> w.drivingLicense == "Yes"
    ensures PreprocessInputs(w)[InsuredAt] == 1.0 <==> w.previouslyInsured == "Yes"
    ensures PreprocessInputs(w)[DamageAt] == 1.0 <==> w.vehicleDamage == "Yes"
    ensures PreprocessInputs(w)[NewVehicleAt] == 1.0 <==> w.vehicleAge == "Less than 1 Year"
    ensures PreprocessInputs(w)[OldVehicleAt] == 1.0 <==> w.vehicleAge == "More than 2 Years"
    ensures forall i | i in FlagPositions :: PreprocessInputs(w)[i] == 0.0 || PreprocessInputs(w)[i] == 1.0
    ensures PreprocessInputs(w)[AgeAt] == w.age as real
    ensures PreprocessInputs(w)[RegionAt] == w.regionCode as real
    ensures PreprocessInputs(w)[PremiumAt] == w.annualPremium
    ensures PreprocessInputs(w)[ChannelAt] == w.salesChannel as real
    ensures PreprocessInputs(w)[VintageAt] == w.vintage as real
  {
    EncodeAgrees(w);
    var p := Parse(w).value;
    FlagMeaning(p);
    VehicleAgeFlags(p);
  }

  // ---------------------------------------------------------------------
  // Nothing of a complete form is lost
  // ---------------------------------------------------------------------

  /** A complete form is recovered from its row. */
  lemma DecodeEncode(p: Prospect)
    requires Complete(p)
    ensures Decode(Encode(p)) == Some(p)
  {
    var row := Encode(p);
    assert ValidRow(row);
    match p.gender {
      case Male =>
      case Female =>
    }
    match p.vehicleAge {
      case LessThanOneYear =>
      case OneToTwoYears =>
      case MoreThanTwoYears =>
    }
  }

  /** Every row `Decode` accepts is the row of the complete form it reads. */
  lemma EncodeDecode(row: seq<real>)
    requires Decode(row).Some?
    ensures Complete(Decode(row).value)
    ensures Encode(Decode(row).value) == row
  {
    var p := Decode(row).value;
    var e := Encode(p);
    assert |e| == |row|;
    forall i | 0 <= i < |row|
      ensures e[i] == row[i]
    {
    }
  }

  /** Two complete forms with the same row are the same form. */
  lemma EncodeInjective(p: Prospect, q: Prospect)
    requires Complete(p) && Complete(q)
    requires Encode(p) == Encode(q)
    ensures p == q
  {
    DecodeEncode(p);
    DecodeEncode(q);
  }

  /**
   The placeholder encodes exactly as "Female", "No" and "1-2 Years" do, so a
   row alone cannot tell an incomplete form from a complete one; this is why
   the presence check must run before encoding.
   */
  lemma PlaceholderIndistinguishable(p: Prospect)
    ensures Encode(p.(gender := Gender.Unset)) == Encode(p.(gender := Female))
    ensures Encode(p.(drivingLicense := YesNo.Unset)) == Encode(p.(drivingLicense := No))
    ensures Encode(p.(previouslyInsured := YesNo.Unset)) == Encode(p.(previouslyInsured := No))
    ensures Encode(p.(vehicleAge := VehicleAge.Unset)) == Encode(p.(vehicleAge := OneToTwoYears))
    ensures Encode(p.(vehicleDamage := YesNo.Unset)) == Encode(p.(vehicleDamage := No))
  {
  }
}
