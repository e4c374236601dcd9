/** The small Option type used by the parsers of this project. */
module Wrappers {

  datatype Option<+T> = None | Some(value: T)
}

/**
 The prospect form: what the ten input widgets of the insurance-response page
 hand to the prediction code.

 Two views of one submission are kept here.
 - `Widgets` is what the page really holds: the five select boxes return the
   text of the chosen option, the placeholder "Select" included, and the five
   number inputs return numbers inside the bounds the widgets enforce.
 - `Prospect` is the typed view: each select is an enumeration with an
   explicit `Unset` case standing for the placeholder.
 `Parse` and `Render` translate between them and are inverse to each other.
 */
module Form {
  import opened Wrappers

  /** The option every select box starts on. */
  const Placeholder: string := "Select"

  /** The option lists of the five select boxes, in their on-screen order. */
  const GenderOptions: seq<string> := [Placeholder, "Male", "Female"]
  const YesNoOptions: seq<string> := [Placeholder, "Yes", "No"]
  const VehicleAgeOptions: seq<string> :=
    [Placeholder, "Less than 1 Year", "1-2 Years", "More than 2 Years"]

  /** The bounds the number inputs enforce (the premium is a float there). */
  type Age = n: int | 18 <= n <= 100 witness 18
  type RegionCode = nat
  type Premium = x: real | 1000.0 <= x <= 100000.0 witness 1000.0
  type SalesChannel = n: int | 1 <= n <= 200 witness 1
  type Vintage = n: int | 0 <= n <= 300

  datatype Gender = Unset | Male | Female
  datatype YesNo = Unset | Yes | No
  datatype VehicleAge = Unset | LessThanOneYear | OneToTwoYears | MoreThanTwoYears

  /** The raw widget values of one submission. */
  datatype Widgets = Widgets(
    gender: string,
    age: Age,
    drivingLicense: string,
    regionCode: RegionCode,
    previouslyInsured: string,
    vehicleAge: string,
    vehicleDamage: string,
    annualPremium: Premium,
    salesChannel: SalesChannel,
    vintage: Vintage)

  /** The same submission with every select box read as an enumeration. */
  datatype Prospect = Prospect(
    gender: Gender,
    age: Age,
    drivingLicense: YesNo,
    regionCode: RegionCode,
    previouslyInsured: YesNo,
    vehicleAge: VehicleAge,
    vehicleDamage: YesNo,
    annualPremium: Premium,
    salesChannel: SalesChannel,
    vintage: Vintage)

  /** Every select box holds one of the options it offers. */
  predicate Offered(w: Widgets) {
    && w.gender in GenderOptions
    && w.drivingLicense in YesNoOptions
    && w.previouslyInsured in YesNoOptions
    && w.vehicleAge in VehicleAgeOptions
    && w.vehicleDamage in YesNoOptions
  }

  /**
   The presence check of the prediction button, as the page writes it: a
   membership test of the placeholder in the list of the five select values.
   It holds exactly when some single select is still on the placeholder; the
   five number inputs play no part in it.
   */
  predicate AnyPlaceholder(w: Widgets): (b: bool)
    ensures b <==>
      || w.gender == Placeholder
      || w.drivingLicense == Placeholder
      || w.previouslyInsured == Placeholder
      || w.vehicleAge == Placeholder
      || w.vehicleDamage == Placeholder
  {
    Placeholder in [w.gender, w.drivingLicense, w.previouslyInsured, w.vehicleAge, w.vehicleDamage]
  }

  /** No select of the typed form is left on its placeholder. */
  predicate Complete(p: Prospect) {
    && p.gender != Gender.Unset
    && p.drivingLicense != YesNo.Unset
    && p.previouslyInsured != YesNo.Unset
    && p.vehicleAge != VehicleAge.Unset
    && p.vehicleDamage != YesNo.Unset
  }

  // ---------------------------------------------------------------------
  // Option texts
  // ---------------------------------------------------------------------

  function GenderLabel(g: Gender): (s: string)
    ensures s in GenderOptions
    ensures s == Placeholder <==> g == Gender.Unset
  {
    match g
    case Unset => Placeholder
    case Male => "Male"
    case Female => "Female"
  }

  function YesNoLabel(a: YesNo): (s: string)
    ensures s in YesNoOptions
    ensures s == Placeholder <==> a == YesNo.Unset
  {
    match a
    case Unset => Placeholder
    case Yes => "Yes"
    case No => "No"
  }

  function VehicleAgeLabel(v: VehicleAge): (s: string)
    ensures s in VehicleAgeOptions
    ensures s == Placeholder <==> v == VehicleAge.Unset
  {
    match v
    case Unset => Placeholder
    case LessThanOneYear => "Less than 1 Year"
    case OneToTwoYears => "1-2 Years"
    case MoreThanTwoYears => "More than 2 Years"
  }

  function ParseGender(s: string): (g: Option<Gender>)
    ensures g.Some? <==> s in GenderOptions
    ensures g.Some? ==> GenderLabel(g.value) == s
  {
    if s == Placeholder then Some(Gender.Unset)
    else if s == "Male" then Some(Male)
    else if s == "Female" then Some(Female)
    else None
  }

  function ParseYesNo(s: string): (a: Option<YesNo>)
    ensures a.Some? <==> s in YesNoOptions
    ensures a.Some? ==> YesNoLabel(a.value) == s
  {
    if s == Placeholder then Some(YesNo.Unset)
    else if s == "Yes" then Some(Yes)
    else if s == "No" then Some(No)
    else None
  }

  function ParseVehicleAge(s: string): (v: Option<VehicleAge>)
    ensures v.Some? <==> s in VehicleAgeOptions
    ensures v.Some? ==> VehicleAgeLabel(v.value) == s
  {
    if s == Placeholder then Some(VehicleAge.Unset)
    else if s == "Less than 1 Year" then Some(LessThanOneYear)
    else if s == "1-2 Years" then Some(OneToTwoYears)
    else if s == "More than 2 Years" then Some(MoreThanTwoYears)
    else None
  }

  /** Reads the widget values as a typed form; fails exactly on a text no select offers. */
  function Parse(w: Widgets): (r: Option<Prospect>)
    ensures r.Some? <==> Offered(w)
    ensures r.Some? ==> r.value.age == w.age && r.value.regionCode == w.regionCode
    ensures r.Some? ==> r.value.annualPremium == w.annualPremium
    ensures r.Some? ==> r.value.salesChannel == w.salesChannel && r.value.vintage == w.vintage
  {
    var g := ParseGender(w.gender);
    var dl := ParseYesNo(w.drivingLicense);
    var pi := ParseYesNo(w.previouslyInsured);
    var va := ParseVehicleAge(w.vehicleAge);
    var vd := ParseYesNo(w.vehicleDamage);
    if g.Some? && dl.Some? && pi.Some? && va.Some? && vd.Some? then
      Some(Prospect(g.value, w.age, dl.value, w.regionCode, pi.value, va.value,
                    vd.value, w.annualPremium, w.salesChannel, w.vintage))
    else
      None
  }

  /** The widget values that show a typed form on the page. */
  function Render(p: Prospect): (w: Widgets)
    ensures Offered(w)
    ensures AnyPlaceholder(w) <==> !Complete(p)
  {
    Widgets(GenderLabel(p.gender), p.age, YesNoLabel(p.drivingLicense), p.regionCode,
            YesNoLabel(p.previouslyInsured), VehicleAgeLabel(p.vehicleAge),
            YesNoLabel(p.vehicleDamage), p.annualPremium, p.salesChannel, p.vintage)
  }

  // ---------------------------------------------------------------------
  // Round trips and the presence check
  // ---------------------------------------------------------------------

  /** Reading back what a typed form shows gives that form. */
  lemma ParseRender(p: Prospect)
    ensures Parse(Render(p)) == Some(p)
  {
    match p.gender {
      case Unset =>
      case Male =>
      case Female =>
    }
    match p.vehicleAge {
      case Unset =>
      case LessThanOneYear =>
      case OneToTwoYears =>
      case MoreThanTwoYears =>
    }
  }

  /** Showing a parsed form gives back the widget values it was read from. */
  lemma RenderParse(w: Widgets)
    requires Offered(w)
    ensures Render(Parse(w).value) == w
  {
  }

  /**
   The page's check "Select is among the five selections" holds exactly when
   the typed form is incomplete.
   */
  lemma PlaceholderIffIncomplete(w: Widgets)
    requires Offered(w)
    ensures AnyPlaceholder(w) <==> !Complete(Parse(w).value)
  {
    var p := Parse(w).value;
    RenderParse(w);
    assert Render(p) == w;
  }
}
