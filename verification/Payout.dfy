/** What a sealed record is paid for (orchard_chia/payout/calculator.py, `paid_hours`). */
module Payout {
  import opened Ordering
  import opened Schema

  datatype PaidBasis =
    | Unproven | Unpayable | Claimed | HoursOnline
    | Verified | VerifiedUndeclared | SigsUnchecked | Unrecognised

  function Unprovable(a: AttestBody, payUnproven: bool): (int, PaidBasis) {
    if payUnproven then (a.hoursOnline, Claimed) else (0, Unproven)
  }

  function PaidHours(a: AttestBody, preferVerified: bool, payUnproven: bool): (int, PaidBasis) {
    if !preferVerified then (a.hoursOnline, HoursOnline)
    else if a.verifiedHours.None? then Unprovable(a, payUnproven)
    else if DeclaresPlaceholder(a) then
      if PlaceholderInconsistent(a) then (0, Unpayable) else Unprovable(a, payUnproven)
    else
      var vh := a.verifiedHours.value;
      match Basis(a, NoVersion)
      case Some(true) => (vh, Verified)
      case None => (vh, VerifiedUndeclared)
      case Some(false) => (vh, if a.sealSource == Some(SEAL_READINGS) then SigsUnchecked else Unrecognised)
  }

  ghost predicate IsZero(n: Option<int>) { n.None? || n.value == 0 }

  /** Nothing was published, and nothing is claimed. */
  ghost predicate HonestPlaceholder(a: AttestBody) {
    && a.sealSource == Some("placeholder")
    && IsZero(a.verifiedHours) && IsZero(a.seasonScore) && IsZero(a.readingCount)
  }

  /** Every case: what is paid, and what it is said to rest on. Without verified hours, or as an honest placeholder, a
      record is worth its own claim where that is asked for and nothing otherwise; a placeholder that claims anything
      is worth nothing; every other record is worth its verified hours. */
  lemma EveryCaseIsPaid(a: AttestBody, payUnproven: bool)
    ensures PaidHours(a, false, payUnproven) == (a.hoursOnline, HoursOnline)
    ensures a.verifiedHours.None? || HonestPlaceholder(a) ==>
              PaidHours(a, true, payUnproven) == if payUnproven then (a.hoursOnline, Claimed) else (0, Unproven)
    ensures a.verifiedHours.Some? && a.sealSource == Some("placeholder") && !HonestPlaceholder(a) ==>
              PaidHours(a, true, payUnproven) == (0, Unpayable)
    ensures a.verifiedHours.Some? && a.sealSource != Some("placeholder") ==>
              PaidHours(a, true, payUnproven) ==
                (a.verifiedHours.value,
                 if a.sealSource.None? then VerifiedUndeclared
                 else if a.sealSource != Some("readings") then Unrecognised
                 else if a.sigsVerified == Some(true) then Verified else SigsUnchecked)
  {
    assert SEAL_READINGS == "readings" && SEAL_PLACEHOLDER == "placeholder";
  }
}
