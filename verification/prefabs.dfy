/** The older bot's audit modal (`src/prefabs.rs`): five short text inputs,
    prefilled from the report being closed, under a custom id that carries a
    one-character specifier and the report id (or -1). */
module Prefabs {
  import opened Wrappers
  import opened Text
  import opened Fields
  import Common
  import opened Legacy

  datatype InputText = InputText(caption: string, customId: string, value: string)

  datatype Modal = Modal(customId: string, title: string, inputs: seq<InputText>)

  /** The location input's prefill: the variant name. */
  function LocationName(l: Common.Location): (t: string)
    ensures LocationFromName(t) == Ok(l)
  {
    match l
    case Discord => "Discord"
    case SL => "SL"
  }

  /** The custom ids of the five inputs, in order. */
  const InputIds: seq<string> := ["location", "id", "name", "offense", "punishment"]

  /** `audit_log_modal`. */
  function AuditLogModal(id: Option<int>, specifier: char, report: Option<Report>, defaultLocation: Common.Location,
                         prefillPunishment: Option<string>): (m: Modal)
    ensures m.title == if id.Some? then "Close report" else "Audit Log"
    ensures m.customId == [specifier] + IntText(id.GetOr(-1))
    ensures |m.inputs| == 5 && forall i :: 0 <= i < 5 ==> m.inputs[i].customId == InputIds[i]
    ensures LocationFromName(m.inputs[0].value) == Ok(defaultLocation)
    ensures m.inputs[1].value == (if report.Some? then report.value.reportedId else "")
    ensures m.inputs[2].value == (if report.Some? then report.value.reportedName else "")
    ensures m.inputs[3].value == (if report.Some? then report.value.reportReason else "")
    ensures m.inputs[4].value == prefillPunishment.GetOr("")
  {
    var title := if id.Some? then "Close report" else "Audit Log";
    Modal([specifier] + IntText(id.GetOr(-1)), title, [
      InputText("Location ('SL' or 'Discord')", "location", LocationName(defaultLocation)),
      InputText("ID", "id", if report.Some? then report.value.reportedId else ""),
      InputText("Name", "name", if report.Some? then report.value.reportedName else ""),
      InputText("Offense", "offense", if report.Some? then report.value.reportReason else ""),
      InputText("Punishment", "punishment", prefillPunishment.GetOr(""))])
  }

  /** Reads a modal custom id: the specifier, then the id as an i64. */
  function ReadModalId(customId: string): Option<(char, int)> {
    if |customId| == 0 then None
    else
      match ParseI64(customId[1..])
      case Some(i) => Some((customId[0], i))
      case None => None
  }

  /** The custom id gives back the specifier and the id, -1 standing for none. */
  lemma ModalIdRoundTrip(id: Option<int>, specifier: char, report: Option<Report>, l: Common.Location, p: Option<string>)
    requires id.Some? ==> InI64(id.value)
    ensures ReadModalId(AuditLogModal(id, specifier, report, l, p).customId) == Some((specifier, id.GetOr(-1)))
  {
    var c := AuditLogModal(id, specifier, report, l, p).customId;
    assert c[1..] == IntText(id.GetOr(-1));
    ParseI64RoundTrip(id.GetOr(-1));
  }

  /** What a submitted modal hands the bot: each input's custom id mapped to
      its value, a later input winning over an earlier one with the same id
      (a HashMap collect). */
  function Answers(inputs: seq<InputText>): (m: FieldMap)
    ensures forall i :: 0 <= i < |inputs| ==> inputs[i].customId in m
    ensures forall k :: k in m ==> exists i :: 0 <= i < |inputs| && inputs[i].customId == k
  {
    if |inputs| == 0 then map[]
    else
      var init := inputs[..|inputs| - 1];
      var last := inputs[|inputs| - 1];
      var m0 := Answers(init);
      assert forall i :: 0 <= i < |init| ==> init[i] == inputs[i];
      m0[last.customId := last.value]
  }

  /** Answers of distinct custom ids: each maps to its own input's value. */
  lemma {:induction false} AnswersLookup(inputs: seq<InputText>, i: nat)
    requires i < |inputs|
    requires forall a, b :: 0 <= a < b < |inputs| ==> inputs[a].customId != inputs[b].customId
    ensures Answers(inputs)[inputs[i].customId] == inputs[i].value
    decreases |inputs|
  {
    var init := inputs[..|inputs| - 1];
    if i < |inputs| - 1 {
      assert init[i] == inputs[i];
      assert forall a, b :: 0 <= a < b < |init| ==> init[a].customId != init[b].customId by {
        forall a, b | 0 <= a < b < |init| ensures init[a].customId != init[b].customId {
          assert init[a] == inputs[a] && init[b] == inputs[b];
        }
      }
      AnswersLookup(init, i);
    }
  }

  /** A map holding the five answers decodes to them. */
  lemma DecodeAuditModelOf(m: FieldMap, loc: Common.Location)
    requires "location" in m && LocationFromName(m["location"]) == Ok(loc)
    requires "punishment" in m && "offense" in m && "name" in m && "id" in m
    ensures DecodeAuditModel(m) == Ok(AuditModelResult(loc, m["punishment"], m["offense"], m["name"], m["id"]))
  {
    assert Required(m, ["location"]) == Ok(m["location"]);
    assert Required(m, ["punishment"]) == Ok(m["punishment"]);
    assert Required(m, ["offense"]) == Ok(m["offense"]);
    assert Required(m, ["name"]) == Ok(m["name"]);
    assert Required(m, ["id"]) == Ok(m["id"]);
  }

  /** A modal submitted as prefilled decodes to the prefill: the default
      location, the report's reported id, name and reason, and the
      punishment. */
  lemma SubmittedAsPrefilled(id: Option<int>, specifier: char, report: Option<Report>, l: Common.Location, p: Option<string>)
    ensures var m := AuditLogModal(id, specifier, report, l, p);
            DecodeAuditModel(Answers(m.inputs)) == Ok(AuditModelResult(l, p.GetOr(""),
              if report.Some? then report.value.reportReason else "",
              if report.Some? then report.value.reportedName else "",
              if report.Some? then report.value.reportedId else ""))
  {
    var inputs := AuditLogModal(id, specifier, report, l, p).inputs;
    forall a, b | 0 <= a < b < |inputs| ensures inputs[a].customId != inputs[b].customId {
      assert inputs[a].customId == InputIds[a] && inputs[b].customId == InputIds[b];
    }
    AnswersLookup(inputs, 0);
    AnswersLookup(inputs, 1);
    AnswersLookup(inputs, 2);
    AnswersLookup(inputs, 3);
    AnswersLookup(inputs, 4);
    assert inputs[0].customId == "location" && inputs[1].customId == "id" && inputs[2].customId == "name";
    assert inputs[3].customId == "offense" && inputs[4].customId == "punishment";
    DecodeAuditModelOf(Answers(inputs), l);
  }

  /** The specifier comes first, so a custom id with a letter specifier is
      not an i64. */
  lemma SpecifiedIdIsNotAnI64(id: Option<int>, specifier: char, report: Option<Report>, l: Common.Location, p: Option<string>)
    requires !IsDigit(specifier) && specifier != '+' && specifier != '-'
    ensures ParseI64(AuditLogModal(id, specifier, report, l, p).customId) == None
  {
    var c := AuditLogModal(id, specifier, report, l, p).customId;
    assert c[0] == specifier;
    assert !AllDigits(c);
  }
}
