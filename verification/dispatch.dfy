/** `send_email`: resolve the list id, refuse an empty batch, then clear the
    list, load the merge-var index, register and subscribe every recipient,
    create the transactional campaign and, if it got an id, send it. */
module Dispatch {
  import opened Wrappers
  import opened PhpString
  import opened Mailchimp
  import opened Chimp
  import opened ListClearing
  import opened MergeVars

  /** The two `show_error` stops: the process ends there. */
  datatype Halt = MissingListId | EmptyEmailList

  /** Either a `show_error` stop or the value `send_email` returns. */
  datatype Outcome = Halted(reason: Halt) | Returned(value: int)

  datatype SendResult = SendResult(state: ChimpState, calls: seq<Call>, outcome: Outcome)

  /** The list id `send_email` works with: the staged one when positive,
      else the configured `trans_list_id` when that is truthy. */
  function ResolveListId(listId: int, configListId: Option<int>): (r: Option<int>)
    ensures listId > 0 ==> r == Some(listId)
    ensures listId <= 0 ==> (r.Some? <==> configListId.Some? && configListId.value != 0)
    ensures listId <= 0 && r.Some? ==> r == configListId
  {
    if listId > 0 then Some(listId)
    else if configListId.Some? && configListId.value != 0 then configListId
    else None
  }

  /** The calls `send_email` issues before it looks at the campaign id. */
  function DispatchCalls(s: ChimpState, svc: Service): seq<Call>
  {
    ClearList(s.listId, svc)
      + [ListMergeVars(s.listId)]
      + SubscribeAll(s.listId, SetVarIndex(s.vars, svc.mergeVarTags), s.emailList)
      + [CampaignCreate(TransactionalType, DraftOptions(s), DraftContent(s))]
  }

  /** The trace of a send that passes both checks starts with the first
      page fetch of `clear_list` at offset 0, fetches the index right after
      the clearing, holds at least one call per recipient and ends with
      `campaignCreate` on exactly the draft's arguments. */
  lemma DispatchCallsShape(s: ChimpState, svc: Service)
    ensures |DispatchCalls(s, svc)| >= |ClearList(s.listId, svc)| + |s.emailList| + 2
    ensures DispatchCalls(s, svc)[0] == ListMembers(s.listId, SubscribedStatus, 0, PageLimit)
    ensures DispatchCalls(s, svc)[|ClearList(s.listId, svc)|] == ListMergeVars(s.listId)
    ensures DispatchCalls(s, svc)[|DispatchCalls(s, svc)| - 1]
      == CampaignCreate(TransactionalType, DraftOptions(s), DraftContent(s))
  {
    var clearing := ClearList(s.listId, svc);
    var recipients := SubscribeAll(s.listId, SetVarIndex(s.vars, svc.mergeVarTags), s.emailList);
    ClearListStarts(s.listId, svc, 0);
    SubscribeAllLength(s.listId, SetVarIndex(s.vars, svc.mergeVarTags), s.emailList);
    assert DispatchCalls(s, svc) == clearing + [ListMergeVars(s.listId)] + recipients
      + [CampaignCreate(TransactionalType, DraftOptions(s), DraftContent(s))];
  }

  /** `send_email()`, with the configured default list id and the service's
      answers as inputs. */
  function SendEmail(s: ChimpState, configListId: Option<int>, svc: Service): (r: SendResult)
    ensures r.outcome == Halted(MissingListId) <==> s.listId <= 0 && !(configListId.Some? && configListId.value != 0)
    ensures r.outcome == Halted(EmptyEmailList)
      <==> ResolveListId(s.listId, configListId).Some? && |s.emailList| == 0
    ensures r.outcome.Halted? ==> r.calls == []
    ensures r.outcome == Halted(MissingListId) ==> r.state == s
    ensures r.outcome == Halted(EmptyEmailList) ==>
      r.state.listId == ResolveListId(s.listId, configListId).value && AgreeExcept(s, r.state, {ListId})
    ensures r.outcome.Returned? ==> r.outcome.value == 0 || r.outcome.value == 1
    ensures r.outcome == Returned(1) <==>
      ResolveListId(s.listId, configListId).Some? && |s.emailList| > 0 && CampaignIdTruthy(svc.campaignId)
    ensures r.outcome == Returned(1) ==>
      Cleared(r.state) && r.state.errors == LogError(LogError(s.errors, svc.createError), svc.sendError)
    ensures r.outcome == Returned(0) ==>
      && AgreeExcept(s, r.state, {ListId, Vars, Errors})
      && r.state.listId == ResolveListId(s.listId, configListId).value
      && r.state.vars == SetVarIndex(s.vars, svc.mergeVarTags)
      && r.state.errors == LogError(s.errors, svc.createError)
  {
    match ResolveListId(s.listId, configListId)
    case None => SendResult(s, [], Halted(MissingListId))
    case Some(id) =>
      var s1 := s.(listId := id);
      if |s1.emailList| <= 0 then SendResult(s1, [], Halted(EmptyEmailList))
      else
        var calls := DispatchCalls(s1, svc);
        var s2 := s1.(vars := SetVarIndex(s1.vars, svc.mergeVarTags),
                      errors := LogError(s1.errors, svc.createError));
        if CampaignIdTruthy(svc.campaignId) then
          var s3 := s2.(errors := LogError(s2.errors, svc.sendError));
          SendResult(Clear(s3), calls + [CampaignSendNow(svc.campaignId.value)], Returned(1))
        else
          SendResult(s2, calls, Returned(0))
  }

  /** The stage a call belongs to: clearing, index, recipients, create, send. */
  function Phase(c: Call): nat
  {
    match KindOf(c)
    case FetchMembers => 0
    case Unsubscribe => 0
    case FetchMergeVars => 1
    case AddMergeVar => 2
    case Subscribe => 2
    case Create => 3
    case SendNow => 4
  }

  /** The calls of one stage, in trace order. */
  function InPhase(calls: seq<Call>, p: nat): (r: seq<Call>)
    ensures |r| <= |calls|
  {
    if |calls| == 0 then []
    else (if Phase(calls[0]) == p then [calls[0]] else []) + InPhase(calls[1..], p)
  }

  predicate PhaseOrdered(calls: seq<Call>)
  {
    forall i, j :: 0 <= i < j < |calls| ==> Phase(calls[i]) <= Phase(calls[j])
  }

  lemma {:induction false} InPhaseAppend(a: seq<Call>, b: seq<Call>, p: nat)
    ensures InPhase(a + b, p) == InPhase(a, p) + InPhase(b, p)
    decreases |a|
  {
    if |a| == 0 {
      assert a + b == b;
    } else {
      var x, t := a[0], a[1..];
      assert a == [x] + t;
      assert a + b == [x] + (t + b);
      InPhaseCons(x, t, p);
      InPhaseCons(x, t + b, p);
      InPhaseAppend(t, b, p);
    }
  }

  lemma InPhaseCons(x: Call, t: seq<Call>, p: nat)
    ensures InPhase([x] + t, p) == (if Phase(x) == p then [x] else []) + InPhase(t, p)
  {
    assert ([x] + t)[0] == x;
    assert ([x] + t)[1..] == t;
  }

  /** Filtering a block that lies wholly in one stage. */
  lemma {:induction false} InPhaseBlock(calls: seq<Call>, p: nat, q: nat)
    requires forall c :: c in calls ==> Phase(c) == p
    ensures InPhase(calls, q) == if p == q then calls else []
    decreases |calls|
  {
    if |calls| > 0 {
      assert calls == [calls[0]] + calls[1..];
      InPhaseBlock(calls[1..], p, q);
    }
  }

  /** Appending a block of stage p behind calls of stage at most p. */
  lemma AppendBlock(a: seq<Call>, b: seq<Call>, p: nat)
    requires PhaseOrdered(a)
    requires forall c :: c in a ==> Phase(c) <= p
    requires forall c :: c in b ==> Phase(c) == p
    ensures PhaseOrdered(a + b)
    ensures forall c :: c in a + b ==> Phase(c) <= p
  {
    forall i, j | 0 <= i < j < |a + b|
      ensures Phase((a + b)[i]) <= Phase((a + b)[j])
    {
      if j < |a| {
        assert (a + b)[i] == a[i] && (a + b)[j] == a[j];
      } else if i < |a| {
        assert (a + b)[i] in a && (a + b)[j] in b;
      } else {
        assert (a + b)[i] in b && (a + b)[j] in b;
      }
    }
  }

  /** Five blocks, each wholly in its own stage, laid end to end: filtering
      a stage gives back its block. */
  lemma StagedTraceInPhase(b0: seq<Call>, b1: seq<Call>, b2: seq<Call>, b3: seq<Call>, b4: seq<Call>, p: nat)
    requires forall c :: c in b0 ==> Phase(c) == 0
    requires forall c :: c in b1 ==> Phase(c) == 1
    requires forall c :: c in b2 ==> Phase(c) == 2
    requires forall c :: c in b3 ==> Phase(c) == 3
    requires forall c :: c in b4 ==> Phase(c) == 4
    requires p <= 4
    ensures InPhase(b0 + b1 + b2 + b3 + b4, p) == [b0, b1, b2, b3, b4][p]
  {
    InPhaseFive(b0, b1, b2, b3, b4, p);
    InPhaseBlock(b0, 0, p);
    InPhaseBlock(b1, 1, p);
    InPhaseBlock(b2, 2, p);
    InPhaseBlock(b3, 3, p);
    InPhaseBlock(b4, 4, p);
    PickBlock(b0, b1, b2, b3, b4, InPhase(b0, p), InPhase(b1, p), InPhase(b2, p), InPhase(b3, p), InPhase(b4, p), p);
  }

  lemma PickBlock(b0: seq<Call>, b1: seq<Call>, b2: seq<Call>, b3: seq<Call>, b4: seq<Call>,
                  f0: seq<Call>, f1: seq<Call>, f2: seq<Call>, f3: seq<Call>, f4: seq<Call>, p: nat)
    requires p <= 4
    requires f0 == (if p == 0 then b0 else []) && f1 == (if p == 1 then b1 else [])
    requires f2 == (if p == 2 then b2 else []) && f3 == (if p == 3 then b3 else [])
    requires f4 == (if p == 4 then b4 else [])
    ensures f0 + f1 + f2 + f3 + f4 == [b0, b1, b2, b3, b4][p]
  {
    if p == 0 {
      assert b0 + [] + [] + [] + [] == b0;
    } else if p == 1 {
      assert [] + b1 + [] + [] + [] == b1;
    } else if p == 2 {
      assert [] + [] + b2 + [] + [] == b2;
    } else if p == 3 {
      assert [] + [] + [] + b3 + [] == b3;
    } else {
      assert [] + [] + [] + [] + b4 == b4;
    }
  }

  /** Filtering distributes over five blocks. */
  lemma InPhaseFive(b0: seq<Call>, b1: seq<Call>, b2: seq<Call>, b3: seq<Call>, b4: seq<Call>, p: nat)
    ensures InPhase(b0 + b1 + b2 + b3 + b4, p)
      == InPhase(b0, p) + InPhase(b1, p) + InPhase(b2, p) + InPhase(b3, p) + InPhase(b4, p)
  {
    InPhaseAppend(b0, b1, p);
    InPhaseAppend(b0 + b1, b2, p);
    InPhaseAppend(b0 + b1 + b2, b3, p);
    InPhaseAppend(b0 + b1 + b2 + b3, b4, p);
  }

  /** ... and the stages never go back. */
  lemma StagedTraceOrdered(b0: seq<Call>, b1: seq<Call>, b2: seq<Call>, b3: seq<Call>, b4: seq<Call>)
    requires forall c :: c in b0 ==> Phase(c) == 0
    requires forall c :: c in b1 ==> Phase(c) == 1
    requires forall c :: c in b2 ==> Phase(c) == 2
    requires forall c :: c in b3 ==> Phase(c) == 3
    requires forall c :: c in b4 ==> Phase(c) == 4
    ensures PhaseOrdered(b0 + b1 + b2 + b3 + b4)
  {
    AppendBlock([], b0, 0);
    assert [] + b0 == b0;
    AppendBlock(b0, b1, 1);
    AppendBlock(b0 + b1, b2, 2);
    AppendBlock(b0 + b1 + b2, b3, 3);
    AppendBlock(b0 + b1 + b2 + b3, b4, 4);
  }

  /** A send that passes both checks calls the service stage by stage and
      never goes back: every clearing call comes before the index fetch,
      which comes before every registration and subscribe, which come
      before the one `campaignCreate`, which comes before the send-now it
      may be followed by. Each stage holds exactly what its part of the
      source issues. */
  lemma SendEmailCallOrder(s: ChimpState, configListId: Option<int>, svc: Service)
    requires ResolveListId(s.listId, configListId).Some? && |s.emailList| > 0
    ensures var r := SendEmail(s, configListId, svc);
      var id := ResolveListId(s.listId, configListId).value;
      && PhaseOrdered(r.calls)
      && InPhase(r.calls, 0) == ClearList(id, svc)
      && InPhase(r.calls, 1) == [ListMergeVars(id)]
      && InPhase(r.calls, 2) == SubscribeAll(id, SetVarIndex(s.vars, svc.mergeVarTags), s.emailList)
      && InPhase(r.calls, 3) == [CampaignCreate(TransactionalType, DraftOptions(s.(listId := id)), DraftContent(s))]
      && InPhase(r.calls, 4) == (if CampaignIdTruthy(svc.campaignId) then [CampaignSendNow(svc.campaignId.value)] else [])
  {
    var id := ResolveListId(s.listId, configListId).value;
    var s1 := s.(listId := id);
    var clearing := ClearList(id, svc);
    var recipients := SubscribeAll(id, SetVarIndex(s.vars, svc.mergeVarTags), s.emailList);
    var create := [CampaignCreate(TransactionalType, DraftOptions(s1), DraftContent(s1))];
    var send := if CampaignIdTruthy(svc.campaignId) then [CampaignSendNow(svc.campaignId.value)] else [];
    SendEmailCalls(s, configListId, svc);
    assert DispatchCalls(s1, svc) == clearing + [ListMergeVars(id)] + recipients + create;
    ClearFromKinds(id, svc, 0);
    SubscribeAllKinds(id, SetVarIndex(s.vars, svc.mergeVarTags), s.emailList);
    var b := [clearing, [ListMergeVars(id)], recipients, create, send];
    StagedTraceOrdered(b[0], b[1], b[2], b[3], b[4]);
    StagedTraceInPhase(b[0], b[1], b[2], b[3], b[4], 0);
    StagedTraceInPhase(b[0], b[1], b[2], b[3], b[4], 1);
    StagedTraceInPhase(b[0], b[1], b[2], b[3], b[4], 2);
    StagedTraceInPhase(b[0], b[1], b[2], b[3], b[4], 3);
    StagedTraceInPhase(b[0], b[1], b[2], b[3], b[4], 4);
  }

  /** Everything but the recipient loop issues no subscribe... */
  lemma DispatchCallsSubscribes(s: ChimpState, svc: Service)
    ensures OfKind(DispatchCalls(s, svc), Subscribe)
      == OfKind(SubscribeAll(s.listId, SetVarIndex(s.vars, svc.mergeVarTags), s.emailList), Subscribe)
  {
    var clearing := ClearList(s.listId, svc);
    var head := clearing + [ListMergeVars(s.listId)];
    var recipients := SubscribeAll(s.listId, SetVarIndex(s.vars, svc.mergeVarTags), s.emailList);
    var create := [CampaignCreate(TransactionalType, DraftOptions(s), DraftContent(s))];
    assert DispatchCalls(s, svc) == head + recipients + create;
    ClearFromKinds(s.listId, svc, 0);
    OfKindNone(head, Subscribe);
    OfKindNone(create, Subscribe);
    OfKindAppend(head, recipients, Subscribe);
    OfKindAppend(head + recipients, create, Subscribe);
  }

  /** ... and no registration. */
  lemma DispatchCallsRegistrations(s: ChimpState, svc: Service, k: string)
    ensures multiset(DispatchCalls(s, svc))[AddCall(s.listId, k)]
      == multiset(SubscribeAll(s.listId, SetVarIndex(s.vars, svc.mergeVarTags), s.emailList))[AddCall(s.listId, k)]
  {
    var clearing := ClearList(s.listId, svc);
    var recipients := SubscribeAll(s.listId, SetVarIndex(s.vars, svc.mergeVarTags), s.emailList);
    var create := [CampaignCreate(TransactionalType, DraftOptions(s), DraftContent(s))];
    assert DispatchCalls(s, svc) == clearing + [ListMergeVars(s.listId)] + recipients + create;
    ClearFromKinds(s.listId, svc, 0);
    assert AddCall(s.listId, k) !in clearing;
  }

  /** The trace of a send that passes both checks. */
  lemma SendEmailCalls(s: ChimpState, configListId: Option<int>, svc: Service)
    requires ResolveListId(s.listId, configListId).Some? && |s.emailList| > 0
    ensures var s1 := s.(listId := ResolveListId(s.listId, configListId).value);
      SendEmail(s, configListId, svc).calls
        == DispatchCalls(s1, svc)
           + (if CampaignIdTruthy(svc.campaignId) then [CampaignSendNow(svc.campaignId.value)] else [])
  {
  }

  /** One `listSubscribe` per staged recipient, in staging order, whether
      or not the campaign is then created. */
  lemma SendEmailSubscribes(s: ChimpState, configListId: Option<int>, svc: Service)
    requires ResolveListId(s.listId, configListId).Some? && |s.emailList| > 0
    ensures var r := SendEmail(s, configListId, svc);
      var id := ResolveListId(s.listId, configListId).value;
      && |OfKind(r.calls, Subscribe)| == |s.emailList|
      && forall i :: 0 <= i < |s.emailList| ==>
           OfKind(r.calls, Subscribe)[i]
             == ListSubscribe(id, s.emailList[i].email, s.emailList[i].mergeVars, s.emailList[i].emailType, SubscribeFlags)
  {
    var id := ResolveListId(s.listId, configListId).value;
    var s1 := s.(listId := id);
    var send := if CampaignIdTruthy(svc.campaignId) then [CampaignSendNow(svc.campaignId.value)] else [];
    SendEmailCalls(s, configListId, svc);
    DispatchCallsSubscribes(s1, svc);
    OfKindAppend(DispatchCalls(s1, svc), send, Subscribe);
    OfKindNone(send, Subscribe);
    var subs := OfKind(SubscribeAll(id, SetVarIndex(s.vars, svc.mergeVarTags), s.emailList), Subscribe);
    assert OfKind(SendEmail(s, configListId, svc).calls, Subscribe) == subs;
    SubscribeAllSubscribes(id, SetVarIndex(s.vars, svc.mergeVarTags), s.emailList);
    assert forall i :: 0 <= i < |s.emailList| ==> subs[i] == SubscribeCall(id, s.emailList[i]);
  }

  /** The index is loaded once, before the loop, and never updated by a
      registration: a merge-var key whose upper-cased tag is neither in the
      old `_vars` nor among the returned tags is registered once for every
      recipient that carries it; any other key is never registered. */
  lemma SendEmailRegistrations(s: ChimpState, configListId: Option<int>, svc: Service, k: string)
    requires WellFormed(s)
    requires ResolveListId(s.listId, configListId).Some? && |s.emailList| > 0
    ensures var r := SendEmail(s, configListId, svc);
      var id := ResolveListId(s.listId, configListId).value;
      multiset(r.calls)[AddCall(id, k)]
        == if Upper(k) !in s.vars && Upper(k) !in svc.mergeVarTags then Carriers(s.emailList, k) else 0
  {
    var id := ResolveListId(s.listId, configListId).value;
    var s1 := s.(listId := id);
    SendEmailCalls(s, configListId, svc);
    DispatchCallsRegistrations(s1, svc, k);
    SubscribeAllRegistrations(id, SetVarIndex(s.vars, svc.mergeVarTags), s.emailList, k);
  }

  /** A failed send keeps the index it loaded, so `_vars` only grows over
      retries, and keeps the list id it resolved, so a retry needs no
      configured default. */
  lemma FailedSendRetry(s: ChimpState, configListId: Option<int>, svc: Service, retrySvc: Service)
    requires SendEmail(s, configListId, svc).outcome == Returned(0)
    requires s.listId > 0 || configListId.value > 0
    ensures var s' := SendEmail(s, configListId, svc).state;
      var r := SendEmail(s', None, retrySvc);
      && s.vars <= s'.vars <= SetVarIndex(s'.vars, retrySvc.mergeVarTags)
      && r.outcome.Returned?
      && (r.outcome == Returned(0) ==> s.vars <= r.state.vars && r.state.emailList == s.emailList)
  {
  }
}
