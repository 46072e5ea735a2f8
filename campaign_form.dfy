/**
 * The admin campaign forms (admin/views.py): the field checks shared by
 * campaign_create and campaign_edit, and the order position challenge_create
 * gives a new challenge. The int() parse of the cadence field is given as
 * its outcome; parsing of the start time is not part of this model.
 */
module CampaignForm {
  import opened ChallengeModel

  const MinCadenceHours := 1
  const MaxCadenceHours := 168
  const DefaultCadenceHours := 24

  /** The outcome of int(...) on the submitted cadence. */
  datatype CadenceField = CadenceInt(value: int) | NotAnInt

  /** The stripped text fields, the cadence and the chosen announcement channels. */
  datatype CampaignFields = CampaignFields(title: string, description: string, startTime: string,
                                           cadence: CadenceField, announcementChannels: seq<string>)

  datatype CampaignError =
    | TitleRequired | DescriptionRequired | StartTimeRequired | NoAnnouncementChannel
    | CadenceOutOfRange | InvalidCadence

  /** The errors of the shared checks, in the order they are appended. */
  function CampaignErrors(f: CampaignFields): seq<CampaignError> {
    TextErrors(f) + CadenceErrors(f.cadence)
  }

  /** The required-field checks: title, description, start time, then the channels. */
  function TextErrors(f: CampaignFields): (r: seq<CampaignError>)
    ensures r == [] <==> f.title != "" && f.description != "" && f.startTime != "" && f.announcementChannels != []
    ensures CadenceOutOfRange !in r && InvalidCadence !in r
  {
    (if f.title == "" then [TitleRequired] else [])
    + (if f.description == "" then [DescriptionRequired] else [])
    + (if f.startTime == "" then [StartTimeRequired] else [])
    + (if f.announcementChannels == [] then [NoAnnouncementChannel] else [])
  }

  /** The cadence check: not an integer, or an integer outside 1..168. */
  function CadenceErrors(c: CadenceField): (r: seq<CampaignError>)
    ensures r == [] <==> c.CadenceInt? && MinCadenceHours <= c.value <= MaxCadenceHours
    ensures r != [] ==> r == [CadenceOutOfRange] || r == [InvalidCadence]
  {
    match c
    case NotAnInt => [InvalidCadence]
    case CadenceInt(h) => if MinCadenceHours <= h <= MaxCadenceHours then [] else [CadenceOutOfRange]
  }

  /** The cadence the form goes on with: the parsed value, or 24 when it did not parse. */
  function CadenceUsed(c: CadenceField): int {
    match c
    case NotAnInt => DefaultCadenceHours
    case CadenceInt(h) => h
  }

  /** The checks as the two views run them. */
  method ValidateCampaignFields(f: CampaignFields) returns (errors: seq<CampaignError>, cadence: int)
    ensures errors == CampaignErrors(f)
    ensures cadence == CadenceUsed(f.cadence)
  {
    errors := CheckTextFields(f);
    match f.cadence {
      case CadenceInt(h) =>
        cadence := h;
        if !(MinCadenceHours <= h <= MaxCadenceHours) {
          errors := errors + [CadenceOutOfRange];
        }
      case NotAnInt =>
        errors := errors + [InvalidCadence];
        cadence := DefaultCadenceHours;
    }
  }

  /** The required-field checks, appended one by one. */
  method CheckTextFields(f: CampaignFields) returns (errors: seq<CampaignError>)
    ensures errors == TextErrors(f)
  {
    errors := [];
    if f.title == "" {
      errors := errors + [TitleRequired];
    }
    if f.description == "" {
      errors := errors + [DescriptionRequired];
    }
    if f.startTime == "" {
      errors := errors + [StartTimeRequired];
    }
    if f.announcementChannels == [] {
      errors := errors + [NoAnnouncementChannel];
    }
  }

  /**
   * A campaign form passes exactly when every text field is filled, a
   * channel is chosen and the cadence is an integer in 1..168; the cadence
   * error is reported exactly when the cadence is out of range or not a number.
   */
  lemma CampaignFormValidIff(f: CampaignFields)
    ensures CampaignErrors(f) == [] <==>
      && f.title != "" && f.description != "" && f.startTime != "" && f.announcementChannels != []
      && f.cadence.CadenceInt? && MinCadenceHours <= f.cadence.value <= MaxCadenceHours
    ensures (CadenceOutOfRange in CampaignErrors(f) || InvalidCadence in CampaignErrors(f)) <==>
      !(f.cadence.CadenceInt? && MinCadenceHours <= f.cadence.value <= MaxCadenceHours)
  {
    var text := TextErrors(f);
    var cadence := CadenceErrors(f.cadence);
    assert |CampaignErrors(f)| == |text| + |cadence|;
    assert forall e :: e in CampaignErrors(f) <==> e in text || e in cadence;
  }

  /** An accepted form schedules its challenges strictly one after another. */
  lemma AcceptedCadenceOrdersReleases(f: CampaignFields, start: int, p: int, q: int)
    requires CampaignErrors(f) == []
    requires p < q
    ensures ReleaseTime(start, p, CadenceUsed(f.cadence)) < ReleaseTime(start, q, CadenceUsed(f.cadence))
  {
    CampaignFormValidIff(f);
    ReleaseTimeStrictlyIncreasing(start, p, q, CadenceUsed(f.cadence));
  }

  /** max(positions): the largest existing order position. */
  function MaxPosition(positions: seq<int>): (m: int)
    requires positions != []
    ensures m in positions
    ensures forall k :: 0 <= k < |positions| ==> positions[k] <= m
    decreases |positions|
  {
    if |positions| == 1 then positions[0]
    else
      var rest := MaxPosition(positions[1..]);
      assert forall k :: 1 <= k < |positions| ==> positions[k] == positions[1..][k - 1];
      if positions[0] >= rest then positions[0] else rest
  }

  /** The order position of a new challenge: one past the largest existing one, 1 in an empty campaign. */
  function NextOrderPosition(positions: seq<int>): int {
    (if positions == [] then 0 else MaxPosition(positions)) + 1
  }

  /**
   * The new position follows every existing one, directly follows the
   * largest, and is 1 for a campaign without challenges.
   */
  lemma NextOrderPositionIsAfterAll(positions: seq<int>)
    ensures positions == [] ==> NextOrderPosition(positions) == 1
    ensures forall k :: 0 <= k < |positions| ==> positions[k] < NextOrderPosition(positions)
    ensures positions != [] ==> NextOrderPosition(positions) - 1 in positions
  {
  }

  /** With a valid cadence the new challenge is released after every existing one. */
  lemma NewChallengeReleasesLast(positions: seq<int>, start: int, cadenceHours: int, k: nat)
    requires MinCadenceHours <= cadenceHours <= MaxCadenceHours
    requires k < |positions|
    ensures ReleaseTime(start, positions[k], cadenceHours) < ReleaseTime(start, NextOrderPosition(positions), cadenceHours)
  {
    NextOrderPositionIsAfterAll(positions);
    ReleaseTimeStrictlyIncreasing(start, positions[k], NextOrderPosition(positions), cadenceHours);
  }
}
