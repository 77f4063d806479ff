/**
 * The checkpoint-challenge menu built by getChallengeChoices
 * (api/InstagramAPI.kt:251-294) from the last reply.
 */
module Challenge {
  import opened Wrappers
  import opened Json

  /** The menu, or the exception org.json throws while building it. */
  datatype Choices = Menu(lines: seq<string>) | Threw(exception: string)

  /** `stepData?.has(key) == true` */
  predicate Has(stepData: Option<map<string, Scalar>>, key: string) {
    stepData.Some? && key in stepData.value
  }

  /**
   * `stepData.get(key)`: org.json looks `key` up literally and throws
   * JSONException when it is absent.
   */
  function Get(stepData: map<string, Scalar>, key: string): Option<string> {
    if key in stepData then Some(stepData[key].Show()) else None
  }

  /** The menu lines for the contact points in `step_data`, each looked up under `lookupKey(name)`. */
  function ContactLines(stepData: Option<map<string, Scalar>>, lookupKey: string -> string): Choices {
    var phone :=
      if !Has(stepData, "phone_number") then Some([])
      else match Get(stepData.value, lookupKey("phone_number"))
           case None => None
           case Some(v) => Some(["0 - Phone " + v]);
    var email :=
      if !Has(stepData, "email") then Some([])
      else match Get(stepData.value, lookupKey("email"))
           case None => None
           case Some(v) => Some(["0 - Phone " + v]);
    if phone.None? || email.None? then Threw("JSONException")
    else Menu(phone.value + email.value)
  }

  /** The path-style keys the source passes to `get`. */
  function PathKey(name: string): string {
    "$." + name
  }

  /** The plain keys `has` checks. */
  function PlainKey(name: string): string {
    name
  }

  /** The menu for a reply, with the contact points looked up under `lookupKey`; never an empty menu. */
  function ChoicesWith(reply: Option<Reply>, lookupKey: string -> string): (r: Choices)
    ensures r.Menu? ==> r.lines != []
    ensures r.Threw? ==> r.exception == "JSONException"
  {
    var stepName := if reply.Some? then reply.value.stepName else None;
    var stepData := if reply.Some? then reply.value.stepData else None;
    var verify :=
      if stepName == Some("select_verify_method") then
        match ContactLines(stepData, lookupKey)
        case Threw(e) => Threw(e)
        case Menu(lines) => Menu(["Checkpoint challenge received"] + lines)
      else Menu([]);
    match verify
    case Threw(e) => Threw(e)
    case Menu(lines) =>
      var review :=
        if stepName == Some("delta_login_review") then
          ["Login attempt challenge received", "0 - It was me", "1 - It wasn't me"]
        else [];
      var all := lines + review;
      if all == [] then Menu(["0 - Nothing found"]) else Menu(all)
  }

  /**
   * The step is neither of the two known ones, so the menu is empty before
   * its fallback line and getChallengeChoices asks whether to change the
   * password.
   */
  predicate AsksPassword(reply: Option<Reply>) {
    var stepName := if reply.Some? then reply.value.stepName else None;
    stepName != Some("select_verify_method") && stepName != Some("delta_login_review")
  }

  /** getChallengeChoices as written: `get("$.phone_number")`, `get("$.email")`. */
  function ChallengeChoices(reply: Option<Reply>): Choices {
    ChoicesWith(reply, PathKey)
  }

  /** getChallengeChoices with `get` using the keys `has` checked. */
  function ChallengeChoicesFixed(reply: Option<Reply>): Choices {
    ChoicesWith(reply, PlainKey)
  }

  /**
   * The menu by step, as written: the three fixed review lines, or the single
   * "nothing found" line; the verify-method step throws JSONException exactly
   * when it offers a contact point that is not also stored under its
   * path-style key, and otherwise starts with its header.
   */
  lemma ChoicesByStep(reply: Reply)
    ensures reply.stepName == Some("delta_login_review") ==>
              ChallengeChoices(Some(reply)) ==
              Menu(["Login attempt challenge received", "0 - It was me", "1 - It wasn't me"])
    ensures reply.stepName != Some("select_verify_method") && reply.stepName != Some("delta_login_review") ==>
              ChallengeChoices(Some(reply)) == Menu(["0 - Nothing found"])
    ensures reply.stepName == Some("select_verify_method") ==>
              (ChallengeChoices(Some(reply)) == Threw("JSONException") <==>
                 (Has(reply.stepData, "phone_number") && "$.phone_number" !in reply.stepData.value) ||
                 (Has(reply.stepData, "email") && "$.email" !in reply.stepData.value)) &&
              (ChallengeChoices(Some(reply)).Menu? ==>
                 ChallengeChoices(Some(reply)).lines[0] == "Checkpoint challenge received")
  {
    assert PathKey("phone_number") == "$.phone_number" && PathKey("email") == "$.email";
  }

  /** The password dialogue runs exactly when the menu is the lone fallback line. */
  lemma AsksPasswordOnEmptyMenu(reply: Option<Reply>)
    ensures AsksPassword(reply) <==> ChallengeChoices(reply) == Menu(["0 - Nothing found"])
  {
    if reply.Some? && reply.value.stepName == Some("select_verify_method") {
      var c := ChallengeChoices(reply);
      assert c.Menu? ==> c.lines[0] == "Checkpoint challenge received" by {
        ChoicesByStep(reply.value);
      }
    }
  }

  /** As written: a verify-method step offering a phone number always throws. */
  lemma PhoneChoiceThrows(reply: Reply)
    requires reply.stepName == Some("select_verify_method")
    requires reply.stepData.Some? && "phone_number" in reply.stepData.value
    requires "$.phone_number" !in reply.stepData.value
    ensures ChallengeChoices(Some(reply)).Threw?
  {
    assert PathKey("phone_number") == "$.phone_number";
  }

  /** Corrected: the menu never throws and lists every contact point offered. */
  lemma FixedChoicesListContacts(reply: Reply)
    requires reply.stepName == Some("select_verify_method") && reply.stepData.Some?
    ensures ChallengeChoicesFixed(Some(reply)).Menu?
    ensures "phone_number" in reply.stepData.value ==>
              "0 - Phone " + reply.stepData.value["phone_number"].Show() in ChallengeChoicesFixed(Some(reply)).lines
    ensures "email" in reply.stepData.value ==>
              "0 - Phone " + reply.stepData.value["email"].Show() in ChallengeChoicesFixed(Some(reply)).lines
  {
  }
}
