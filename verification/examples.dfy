/** Concrete runs of `send_email`: the end-to-end batch of two recipients,
    its failing twin, and a recipient with a merge var the list lacks. */
module Examples {
  import opened Wrappers
  import opened PhpArray
  import opened PhpString
  import opened Mailchimp
  import opened Chimp
  import opened ListClearing
  import opened MergeVars
  import opened Dispatch

  /** Two recipients and a complete draft on list 42. */
  function ExampleState(): ChimpState
  {
    var s := AddEmail(Initial(), "a@x.com", "A", "Able", [], "html");
    var s := AddEmail(s, "b@x.com", "B", "Baker", [], "html");
    var s := SetListId(s, 42);
    var s := SetSubject(s, "Hi");
    var s := SetFrom(s, "f@x.com", "F");
    var s := SetToName(s, "*|FNAME|*");
    var s := SetHtml(s, "<p>hi</p>");
    SetText(s, "hi")
  }

  /** A service with an empty list that already accepts FNAME and LNAME. */
  function ExampleService(campaignId: Option<string>): Service
  {
    Service([], 0, ["FNAME", "LNAME"], campaignId, ApiError(0, ""), ApiError(0, ""))
  }

  lemma UpperOfNames()
    ensures Upper("FNAME") == "FNAME" && Upper("LNAME") == "LNAME" && Upper("BIRTHDAY") == "BIRTHDAY"
  {
    assert Upper("FNAME") == "FNAME";
    assert Upper("LNAME") == "LNAME";
    assert Upper("BIRTHDAY") == "BIRTHDAY";
  }

  /** The one page of an empty list is fetched and nothing is unsubscribed. */
  lemma EmptyListClearing(listId: int, svc: Service)
    requires svc.memberTotal <= 0 && svc.MembersAt(0) == []
    ensures ClearList(listId, svc) == [ListMembers(listId, "subscribed", 0, 1500)]
  {
  }

  lemma NamesOnly(first: string, last: string)
    ensures StagedMergeVars([], first, last) == [("FNAME", first), ("LNAME", last)]
  {
    StagedMergeVarsFresh([], first, last);
  }

  lemma AddNamesOnly(s: ChimpState, email: string, first: string, last: string)
    ensures AddEmail(s, email, first, last, [], "html").emailList
      == s.emailList + [Recipient(email, "html", [("FNAME", first), ("LNAME", last)])]
  {
    NamesOnly(first, last);
  }

  lemma AddOneVar(s: ChimpState, email: string, key: string, value: string, first: string, last: string)
    requires key != "FNAME" && key != "LNAME"
    ensures AddEmail(s, email, first, last, [(key, value)], "html").emailList
      == s.emailList + [Recipient(email, "html", [(key, value), ("FNAME", first), ("LNAME", last)])]
  {
    var one: Pairs<string, string> := [(key, value)];
    HasKeyUncons(one, "FNAME");
    HasKeyUncons(one, "LNAME");
    assert one[1..] == [];
    StagedMergeVarsFresh(one, first, last);
    assert one + [("FNAME", first), ("LNAME", last)] == [(key, value), ("FNAME", first), ("LNAME", last)];
  }

  lemma ExampleStaging()
    ensures var s := ExampleState();
      && s.listId == 42 && s.vars == {} && s.errors == []
      && s.emailList == [Recipient("a@x.com", "html", [("FNAME", "A"), ("LNAME", "Able")]),
                         Recipient("b@x.com", "html", [("FNAME", "B"), ("LNAME", "Baker")])]
      && DraftOptions(s) == CampaignOptions(42, "Hi", "f@x.com", "F", "*|FNAME|*")
      && DraftContent(s) == CampaignContent("<p>hi</p>", "hi")
  {
    AddNamesOnly(Initial(), "a@x.com", "A", "Able");
    AddNamesOnly(AddEmail(Initial(), "a@x.com", "A", "Able", [], "html"), "b@x.com", "B", "Baker");
  }

  lemma ExampleIndex()
    ensures SetVarIndex({}, ["FNAME", "LNAME"]) == {"FNAME", "LNAME"}
  {
  }

  lemma SixCalls(x: seq<Call>, c0: Call, c1: Call, subs: seq<Call>, c2: Call, c3: Call, c4: Call, c5: Call)
    requires x == [c0] + [c1] + subs + [c4] + [c5] && subs == [c2, c3]
    ensures x == [c0, c1, c2, c3, c4, c5]
  {
  }

  /** A sent batch of two recipients that carry only FNAME and LNAME, on an
      empty list that knows both tags. */
  lemma KnownNamesSend(s: ChimpState, svc: Service, a: Recipient, b: Recipient)
    requires s.listId > 0 && s.vars == {} && s.emailList == [a, b]
    requires svc.memberTotal <= 0 && svc.MembersAt(0) == [] && svc.mergeVarTags == ["FNAME", "LNAME"]
    requires CampaignIdTruthy(svc.campaignId)
    requires |a.mergeVars| == 2 && a.mergeVars[0].0 == "FNAME" && a.mergeVars[1].0 == "LNAME"
    requires |b.mergeVars| == 2 && b.mergeVars[0].0 == "FNAME" && b.mergeVars[1].0 == "LNAME"
    ensures SendEmail(s, None, svc).calls == [
      ListMembers(s.listId, "subscribed", 0, 1500),
      ListMergeVars(s.listId),
      SubscribeCall(s.listId, a),
      SubscribeCall(s.listId, b),
      CampaignCreate(TransactionalType, DraftOptions(s), DraftContent(s)),
      CampaignSendNow(svc.campaignId.value)]
  {
    UpperOfNames();
    ExampleIndex();
    var index := SetVarIndex(s.vars, svc.mergeVarTags);
    SubscribeAllKnown(s.listId, index, [a, b]);
    var subs := SubscribeAll(s.listId, index, s.emailList);
    assert subs == [SubscribeCall(s.listId, a), SubscribeCall(s.listId, b)];
    EmptyListClearing(s.listId, svc);
    assert s.(listId := s.listId) == s;
    SendEmailCalls(s, None, svc);
    SixCalls(SendEmail(s, None, svc).calls, ListMembers(s.listId, "subscribed", 0, 1500), ListMergeVars(s.listId),
             subs, SubscribeCall(s.listId, a), SubscribeCall(s.listId, b),
             CampaignCreate(TransactionalType, DraftOptions(s), DraftContent(s)),
             CampaignSendNow(svc.campaignId.value));
  }

  /** End to end: one page fetched and nothing to unsubscribe, the index
      loaded, two subscribes with no registration, the campaign created
      from the draft and sent; the result is 1 and the state is cleared. */
  lemma ExampleSendSucceeds()
    ensures var r := SendEmail(ExampleState(), None, ExampleService(Some("cid1")));
      && r.outcome == Returned(1)
      && Cleared(r.state)
      && r.calls == [
           ListMembers(42, "subscribed", 0, 1500),
           ListMergeVars(42),
           ListSubscribe(42, "a@x.com", [("FNAME", "A"), ("LNAME", "Able")], "html", SubscribeFlags),
           ListSubscribe(42, "b@x.com", [("FNAME", "B"), ("LNAME", "Baker")], "html", SubscribeFlags),
           CampaignCreate("trans", CampaignOptions(42, "Hi", "f@x.com", "F", "*|FNAME|*"),
                          CampaignContent("<p>hi</p>", "hi")),
           CampaignSendNow("cid1")]
  {
    ExampleStaging();
    var s := ExampleState();
    KnownNamesSend(s, ExampleService(Some("cid1")), s.emailList[0], s.emailList[1]);
  }

  /** The same batch when `campaignCreate` returns nothing: the result is 0
      and the recipients, the draft and the list id are all still there. */
  lemma ExampleSendFails()
    ensures var r := SendEmail(ExampleState(), None, ExampleService(None));
      && r.outcome == Returned(0)
      && r.state.emailList == ExampleState().emailList
      && r.state.listId == 42
      && DraftOptions(r.state) == CampaignOptions(42, "Hi", "f@x.com", "F", "*|FNAME|*")
      && DraftContent(r.state) == CampaignContent("<p>hi</p>", "hi")
  {
    ExampleStaging();
    FailedSendKeepsDraft(ExampleState(), ExampleService(None));
  }

  lemma FailedSendKeepsDraft(s: ChimpState, svc: Service)
    requires s.listId > 0 && |s.emailList| > 0 && !CampaignIdTruthy(svc.campaignId)
    ensures var r := SendEmail(s, None, svc);
      && r.outcome == Returned(0)
      && r.state.emailList == s.emailList
      && r.state.listId == s.listId
      && DraftOptions(r.state) == DraftOptions(s)
      && DraftContent(r.state) == DraftContent(s)
  {
  }

  lemma FourCalls(x: seq<Call>, c0: Call, c1: Call, subs: seq<Call>, rest: seq<Call>, c2: Call, c3: Call)
    requires x == [c0] + [c1] + subs + rest && subs == [c2, c3]
    ensures |x| >= 4 && x[..4] == [c0, c1, c2, c3]
  {
  }

  /** One recipient with a single extra merge var whose tag the list lacks:
      one registration for that key, then the subscribe. */
  lemma NewVarSend(s: ChimpState, svc: Service, rec: Recipient, key: string)
    requires s.listId > 0 && s.emailList == [rec]
    requires svc.memberTotal <= 0 && svc.MembersAt(0) == []
    requires |rec.mergeVars| == 3 && rec.mergeVars[0].0 == key
    requires Upper(key) !in SetVarIndex(s.vars, svc.mergeVarTags)
    requires Upper(rec.mergeVars[1].0) in SetVarIndex(s.vars, svc.mergeVarTags)
    requires Upper(rec.mergeVars[2].0) in SetVarIndex(s.vars, svc.mergeVarTags)
    ensures SendEmail(s, None, svc).calls[..4] == [
      ListMembers(s.listId, "subscribed", 0, 1500),
      ListMergeVars(s.listId),
      AddCall(s.listId, key),
      SubscribeCall(s.listId, rec)]
  {
    var index := SetVarIndex(s.vars, svc.mergeVarTags);
    var mv := rec.mergeVars;
    RegisterMissingEmpty(s.listId, index, mv[1..]);
    assert RegisterMissing(s.listId, index, mv) == [AddCall(s.listId, key)];
    assert [rec][1..] == [];
    var subs := SubscribeAll(s.listId, index, s.emailList);
    assert subs == RecipientCalls(s.listId, index, rec) + SubscribeAll(s.listId, index, []);
    assert subs == [AddCall(s.listId, key), SubscribeCall(s.listId, rec)];
    EmptyListClearing(s.listId, svc);
    assert s.(listId := s.listId) == s;
    SendEmailCalls(s, None, svc);
    var rest := [CampaignCreate(TransactionalType, DraftOptions(s), DraftContent(s))]
      + (if CampaignIdTruthy(svc.campaignId) then [CampaignSendNow(svc.campaignId.value)] else []);
    assert SendEmail(s, None, svc).calls
      == [ListMembers(s.listId, "subscribed", 0, 1500)] + [ListMergeVars(s.listId)] + subs + rest;
    FourCalls(SendEmail(s, None, svc).calls, ListMembers(s.listId, "subscribed", 0, 1500), ListMergeVars(s.listId),
              subs, rest, AddCall(s.listId, key), SubscribeCall(s.listId, rec));
  }

  /** A recipient with an extra BIRTHDAY var on a list that knows only
      FNAME and LNAME: BIRTHDAY is registered right before the subscribe. */
  lemma ExampleRegistersBirthday()
    ensures var s := SetListId(AddEmail(Initial(), "a@x.com", "A", "Able", [("BIRTHDAY", "01/01")], "html"), 42);
      SendEmail(s, None, ExampleService(Some("cid1"))).calls[..4] == [
        ListMembers(42, "subscribed", 0, 1500),
        ListMergeVars(42),
        ListMergeVarAdd(42, "BIRTHDAY", "BIRTHDAY"),
        ListSubscribe(42, "a@x.com", [("BIRTHDAY", "01/01"), ("FNAME", "A"), ("LNAME", "Able")], "html", SubscribeFlags)]
  {
    var s := SetListId(AddEmail(Initial(), "a@x.com", "A", "Able", [("BIRTHDAY", "01/01")], "html"), 42);
    var mv := [("BIRTHDAY", "01/01"), ("FNAME", "A"), ("LNAME", "Able")];
    AddOneVar(Initial(), "a@x.com", "BIRTHDAY", "01/01", "A", "Able");
    assert s.emailList == [Recipient("a@x.com", "html", mv)];
    UpperOfNames();
    ExampleIndex();
    NewVarSend(s, ExampleService(Some("cid1")), s.emailList[0], "BIRTHDAY");
  }
}
