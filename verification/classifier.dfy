/** `Validator.check_all` (main.py): the nine field checks applied in a fixed
    order, reporting the position of the first one that fails.
 */
module Classifier {
  import opened Validator

  /** One input record. `height` is the text `str(height)` of the parsed number;
      `age` is the parsed integer. */
  datatype Record = Record(
    email: string,
    height: string,
    inn: string,
    passportSeries: string,
    age: int,
    occupation: string,
    politicalViews: string,
    worldview: string,
    address: string)

  /** The verdict `check_all` gives a record that passes every check. */
  const AllPassed: nat := 9

  /** Check number `i` of `check_all`, in the order it evaluates them:
      0 email, 1 height, 2 tax identifier, 3 passport series, 4 age,
      5 occupation, 6 address, 7 political views, 8 worldview. */
  predicate Check(r: Record, i: nat)
    requires i < 9
  {
    match i
    case 0 => ValidEmail(r.email)
    case 1 => ValidHeight(r.height)
    case 2 => ValidInn(r.inn)
    case 3 => ValidPassportSeries(r.passportSeries)
    case 4 => ValidAge(r.age)
    case 5 => ValidOccupation(r.occupation)
    case 6 => ValidAddress(r.address)
    case 7 => ValidPoliticalViews(r.politicalViews)
    case _ => ValidWorldview(r.worldview)
  }

  /** `check_all`: the position of the first failing check, or `AllPassed`. */
  function Classify(r: Record): (v: nat)
    ensures v <= AllPassed
    ensures v < AllPassed ==> !Check(r, v)
    ensures forall i :: 0 <= i < v && i < 9 ==> Check(r, i)
    ensures v == AllPassed <==> forall i :: 0 <= i < 9 ==> Check(r, i)
  {
    if !ValidEmail(r.email) then 0
    else if !ValidHeight(r.height) then 1
    else if !ValidInn(r.inn) then 2
    else if !ValidPassportSeries(r.passportSeries) then 3
    else if !ValidAge(r.age) then 4
    else if !ValidOccupation(r.occupation) then 5
    else if !ValidAddress(r.address) then 6
    else if !ValidPoliticalViews(r.politicalViews) then 7
    else if !ValidWorldview(r.worldview) then 8
    else AllPassed
  }

  /** A failing check bounds the verdict: a later failure is never reported
      in place of an earlier one. */
  lemma FailureBoundsVerdict(r: Record, i: nat)
    requires i < 9 && !Check(r, i)
    ensures Classify(r) <= i
  {
  }

  /** A record failing both e-mail and age is reported under e-mail. */
  lemma EmailBeforeAge(r: Record)
    requires !ValidEmail(r.email) && !ValidAge(r.age)
    ensures Classify(r) == 0
  {
  }

  /** A record whose first six checks pass and which fails both address and
      worldview is reported under address. */
  lemma AddressBeforeWorldview(r: Record)
    requires forall i :: 0 <= i < 6 ==> Check(r, i)
    requires !ValidAddress(r.address) && !ValidWorldview(r.worldview)
    ensures Classify(r) == 6
  {
    assert Check(r, 0) && Check(r, 1) && Check(r, 2);
    assert Check(r, 3) && Check(r, 4) && Check(r, 5);
  }

  /** A record whose first four checks pass and which fails age is reported
      under age, whatever the later checks say. */
  lemma AgeFailure(r: Record)
    requires forall i :: 0 <= i < 4 ==> Check(r, i)
    requires !ValidAge(r.age)
    ensures Classify(r) == 4
  {
    assert Check(r, 0) && Check(r, 1) && Check(r, 2) && Check(r, 3);
  }

  /** A record failing the e-mail check is reported under e-mail. */
  lemma EmailFailure(r: Record)
    requires !Check(r, 0)
    ensures Classify(r) == 0
  {
  }

  /** A record passing all nine checks is reported as valid. */
  lemma AllChecksPass(r: Record)
    requires forall i :: 0 <= i < 9 ==> Check(r, i)
    ensures Classify(r) == AllPassed
  {
  }
}
