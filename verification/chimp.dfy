/** The private state of the `Chimp` wrapper and its local operations:
    recipient staging, the draft setters, `clear` and `_set_error`. */
module Chimp {
  import opened Wrappers
  import opened PhpArray
  import opened PhpString
  import opened Mailchimp

  /** One row of `_email_list`. */
  datatype Recipient = Recipient(email: string, emailType: string, mergeVars: Pairs<string, string>)

  /** The ten private fields of the class. `vars` is the merge-var index
      `_vars`; only the presence of a tag in it is ever consulted, so the
      rows stored under each tag are not kept. */
  datatype ChimpState = ChimpState(
    emailList: seq<Recipient>,
    vars: set<string>,
    listId: int,
    html: string,
    text: string,
    errors: seq<ApiError>,
    subject: string,
    fromEmail: string,
    fromName: string,
    toName: string)

  datatype Field = EmailList | Vars | ListId | Html | Text | Errors | Subject | FromEmail | FromName | ToName

  /** `s` and `t` agree on every field outside `changed`. */
  predicate AgreeExcept(s: ChimpState, t: ChimpState, changed: set<Field>)
  {
    && (EmailList !in changed ==> s.emailList == t.emailList)
    && (Vars !in changed ==> s.vars == t.vars)
    && (ListId !in changed ==> s.listId == t.listId)
    && (Html !in changed ==> s.html == t.html)
    && (Text !in changed ==> s.text == t.text)
    && (Errors !in changed ==> s.errors == t.errors)
    && (Subject !in changed ==> s.subject == t.subject)
    && (FromEmail !in changed ==> s.fromEmail == t.fromEmail)
    && (FromName !in changed ==> s.fromName == t.fromName)
    && (ToName !in changed ==> s.toName == t.toName)
  }

  /** No recipients, no index, list id 0 and an empty draft. */
  predicate Cleared(s: ChimpState)
  {
    && s.emailList == []
    && s.vars == {}
    && s.listId == 0
    && s.html == "" && s.text == ""
    && s.subject == "" && s.fromEmail == "" && s.fromName == "" && s.toName == ""
  }

  /** Every staged recipient carries a proper PHP array of merge vars. */
  predicate WellFormed(s: ChimpState)
  {
    forall i :: 0 <= i < |s.emailList| ==> DistinctKeys(s.emailList[i].mergeVars)
  }

  /** `clear()`. It assigns `$this->errors`, a property distinct from
      `_errors`, so the error log is left as it was. */
  function Clear(s: ChimpState): (r: ChimpState)
    ensures Cleared(r)
    ensures AgreeExcept(s, r, {EmailList, Vars, ListId, Html, Text, Subject, FromEmail, FromName, ToName})
    ensures r.errors == s.errors
  {
    ChimpState([], {}, 0, "", "", s.errors, "", "", "", "")
  }

  /** The state right after construction: `clear()` on fresh fields, with
      the never-assigned `_errors` reading as an empty log. */
  function Initial(): (r: ChimpState)
    ensures Cleared(r) && r.errors == [] && WellFormed(r)
  {
    Clear(ChimpState([], {}, 0, "", "", [], "", "", "", ""))
  }

  /** The merge vars `add_email` stores: `array_merge($merge_vars, $name)`. */
  function StagedMergeVars(mergeVars: Pairs<string, string>, first: string, last: string): (r: Pairs<string, string>)
    ensures Lookup(r, "FNAME") == Some(first)
    ensures Lookup(r, "LNAME") == Some(last)
    ensures forall k :: k != "FNAME" && k != "LNAME" ==> Lookup(r, k) == Lookup(mergeVars, k)
    ensures |mergeVars| <= |r| <= |mergeVars| + 2
    ensures forall i :: 0 <= i < |mergeVars| ==> r[i].0 == mergeVars[i].0
    ensures DistinctKeys(mergeVars) ==> DistinctKeys(r)
  {
    var name := [("FNAME", first), ("LNAME", last)];
    assert name[0].0 == "FNAME" && name[1].0 == "LNAME";
    Merge(mergeVars, name)
  }

  /** When the caller's merge vars carry neither name key, `FNAME` and then
      `LNAME` are appended after them. */
  lemma StagedMergeVarsFresh(mergeVars: Pairs<string, string>, first: string, last: string)
    requires !HasKey(mergeVars, "FNAME") && !HasKey(mergeVars, "LNAME")
    ensures StagedMergeVars(mergeVars, first, last) == mergeVars + [("FNAME", first), ("LNAME", last)]
  {
    MergePair(mergeVars, ("FNAME", first), ("LNAME", last));
    HasKeyAppend(mergeVars, ("FNAME", first), "LNAME");
  }

  /** `add_email($email, $first, $last, $merge_vars, $type)`: appends one
      record, whatever the inputs; no validation and no duplicate check.
      The defaults are those of the PHP signature. */
  function AddEmail(s: ChimpState, email: string, first: string := "", last: string := "",
                    mergeVars: Pairs<string, string> := [], emailType: string := "html"): (r: ChimpState)
    ensures |r.emailList| == |s.emailList| + 1
    ensures r.emailList[..|s.emailList|] == s.emailList
    ensures r.emailList[|s.emailList|].email == email
    ensures r.emailList[|s.emailList|].emailType == emailType
    ensures r.emailList[|s.emailList|].mergeVars == StagedMergeVars(mergeVars, first, last)
    ensures AgreeExcept(s, r, {EmailList})
    ensures WellFormed(s) && DistinctKeys(mergeVars) ==> WellFormed(r)
  {
    s.(emailList := s.emailList + [Recipient(email, emailType, StagedMergeVars(mergeVars, first, last))])
  }

  /** `set_list_id`. */
  function SetListId(s: ChimpState, id: int): (r: ChimpState)
    ensures r.listId == id && AgreeExcept(s, r, {ListId})
  {
    s.(listId := id)
  }

  /** `set_html`. */
  function SetHtml(s: ChimpState, html: string): (r: ChimpState)
    ensures r.html == html && AgreeExcept(s, r, {Html})
  {
    s.(html := html)
  }

  /** `set_text`. */
  function SetText(s: ChimpState, text: string): (r: ChimpState)
    ensures r.text == text && AgreeExcept(s, r, {Text})
  {
    s.(text := text)
  }

  /** `set_subject`. */
  function SetSubject(s: ChimpState, subject: string): (r: ChimpState)
    ensures r.subject == subject && AgreeExcept(s, r, {Subject})
  {
    s.(subject := subject)
  }

  /** `set_from`: the only setter that touches two fields. */
  function SetFrom(s: ChimpState, email: string, name: string): (r: ChimpState)
    ensures r.fromEmail == email && r.fromName == name
    ensures AgreeExcept(s, r, {FromEmail, FromName})
  {
    s.(fromEmail := email, fromName := name)
  }

  /** `set_to_name`. */
  function SetToName(s: ChimpState, name: string): (r: ChimpState)
    ensures r.toName == name && AgreeExcept(s, r, {ToName})
  {
    s.(toName := name)
  }

  /** `_set_error`: the log grows by the client's current error exactly
      when its message is not `empty()`. */
  function LogError(errors: seq<ApiError>, e: ApiError): (r: seq<ApiError>)
    ensures |errors| <= |r| && r[..|errors|] == errors
    ensures |r| == |errors| + 1 <==> !IsEmpty(e.message)
    ensures |r| == |errors| || (|r| == |errors| + 1 && r[|errors|] == e)
  {
    if !IsEmpty(e.message) then errors + [e] else errors
  }

  /** The `$options` of `campaignCreate`, read from the current draft. */
  function DraftOptions(s: ChimpState): CampaignOptions
  {
    CampaignOptions(s.listId, s.subject, s.fromEmail, s.fromName, s.toName)
  }

  /** The `$content` of `campaignCreate`. */
  function DraftContent(s: ChimpState): CampaignContent
  {
    CampaignContent(s.html, s.text)
  }

  /** The campaign arguments come from the setters alone: after a full draft
      they are exactly the values set, whatever was staged before, and
      staging another recipient leaves them unchanged. */
  lemma DraftFromSetters(s: ChimpState, id: int, subject: string, fromEmail: string, fromName: string,
                         toName: string, html: string, text: string)
    ensures var t := SetText(SetHtml(SetToName(SetFrom(SetSubject(SetListId(s, id), subject),
                                                      fromEmail, fromName), toName), html), text);
      && DraftOptions(t) == CampaignOptions(id, subject, fromEmail, fromName, toName)
      && DraftContent(t) == CampaignContent(html, text)
  {
  }

  lemma DraftIgnoresStaging(s: ChimpState, email: string, first: string, last: string,
                            mergeVars: Pairs<string, string>, emailType: string)
    ensures DraftOptions(AddEmail(s, email, first, last, mergeVars, emailType)) == DraftOptions(s)
    ensures DraftContent(AddEmail(s, email, first, last, mergeVars, emailType)) == DraftContent(s)
  {
  }
}
