/** The remote Mailchimp client as the wrapper sees it: the calls it issues,
    recorded in a trace, and an oracle that fixes the service's answers. */
module Mailchimp {
  import opened Wrappers
  import opened PhpArray

  /** The client's `errorCode` / `errorMessage` pair. */
  datatype ApiError = ApiError(code: int, message: string)

  /** The `$options` array handed to `campaignCreate`. */
  datatype CampaignOptions = CampaignOptions(
    listId: int,
    subject: string,
    fromEmail: string,
    fromName: string,
    toName: string)

  /** The `$content` array handed to `campaignCreate`. */
  datatype CampaignContent = CampaignContent(html: string, text: string)

  /** One remote call with the arguments the wrapper passes. Boolean
      arguments are recorded positionally, as the call sites write them. */
  datatype Call =
    | ListMembers(listId: int, status: string, start: int, limit: int)
    | ListBatchUnsubscribe(listId: int, emails: seq<string>, flags: seq<bool>)
    | ListMergeVars(listId: int)
    | ListMergeVarAdd(listId: int, tag: string, name: string)
    | ListSubscribe(listId: int, email: string, mergeVars: Pairs<string, string>,
                    emailType: string, flags: seq<bool>)
    | CampaignCreate(campaignType: string, options: CampaignOptions, content: CampaignContent)
    | CampaignSendNow(campaignId: string)

  const SubscribedStatus: string := "subscribed"
  const TransactionalType: string := "trans"
  /** The three booleans `clear_list` passes to `listBatchUnsubscribe`. */
  const UnsubscribeFlags: seq<bool> := [true, false, false]
  /** The four booleans `send_email` passes to `listSubscribe`. */
  const SubscribeFlags: seq<bool> := [false, true, true, false]

  /** What the service answers. Its answers do not depend on earlier calls:
      `memberPages[i]` holds the e-mail addresses `listMembers` returns for
      the i-th page (none beyond the last), `memberTotal` is the `total` it
      reports with every page, `mergeVarTags` the `tag` of each row that
      `listMergeVars` returns, `campaignId` what `campaignCreate` returns
      (None for a falsy value), and the two errors are the client's error
      state as read after `campaignCreate` and after `campaignSendNow`. */
  datatype Service = Service(
    memberPages: seq<seq<string>>,
    memberTotal: int,
    mergeVarTags: seq<string>,
    campaignId: Option<string>,
    createError: ApiError,
    sendError: ApiError)
  {
    function MembersAt(page: nat): seq<string>
    {
      if page < |memberPages| then memberPages[page] else []
    }
  }

  /** PHP truthiness of the returned campaign id. */
  predicate CampaignIdTruthy(id: Option<string>)
  {
    id.Some? && id.value != "" && id.value != "0"
  }

  /** No id, "" and "0" are falsy; any other string, "00" included, is truthy. */
  lemma TruthyCampaignIds()
    ensures !CampaignIdTruthy(None) && !CampaignIdTruthy(Some("")) && !CampaignIdTruthy(Some("0"))
    ensures CampaignIdTruthy(Some("00")) && CampaignIdTruthy(Some(" ")) && CampaignIdTruthy(Some("cid1"))
  {
  }

  datatype Kind = FetchMembers | Unsubscribe | FetchMergeVars | AddMergeVar | Subscribe | Create | SendNow

  function KindOf(c: Call): Kind
  {
    match c
    case ListMembers(_, _, _, _) => FetchMembers
    case ListBatchUnsubscribe(_, _, _) => Unsubscribe
    case ListMergeVars(_) => FetchMergeVars
    case ListMergeVarAdd(_, _, _) => AddMergeVar
    case ListSubscribe(_, _, _, _, _) => Subscribe
    case CampaignCreate(_, _, _) => Create
    case CampaignSendNow(_) => SendNow
  }

  /** The calls of one kind, in trace order. */
  function OfKind(calls: seq<Call>, k: Kind): (r: seq<Call>)
    ensures |r| <= |calls|
  {
    if |calls| == 0 then []
    else (if KindOf(calls[0]) == k then [calls[0]] else []) + OfKind(calls[1..], k)
  }

  /** The filter keeps exactly the calls of kind `k`. */
  lemma {:induction false} OfKindMembers(calls: seq<Call>, k: Kind)
    ensures forall c :: c in OfKind(calls, k) <==> c in calls && KindOf(c) == k
    decreases |calls|
  {
    if |calls| > 0 {
      OfKindMembers(calls[1..], k);
      assert calls == [calls[0]] + calls[1..];
    }
  }

  lemma OfKindNone(calls: seq<Call>, k: Kind)
    requires forall c :: c in calls ==> KindOf(c) != k
    ensures OfKind(calls, k) == []
  {
    OfKindMembers(calls, k);
    if OfKind(calls, k) != [] {
      assert OfKind(calls, k)[0] in OfKind(calls, k);
    }
  }

  lemma {:induction false} OfKindAppend(a: seq<Call>, b: seq<Call>, k: Kind)
    ensures OfKind(a + b, k) == OfKind(a, k) + OfKind(b, k)
    decreases |a|
  {
    if |a| == 0 {
      assert a + b == b;
    } else {
      var x, t := a[0], a[1..];
      calc {
        OfKind(a + b, k);
        { assert a + b == [x] + (t + b); OfKindCons(x, t + b, k); }
        (if KindOf(x) == k then [x] else []) + OfKind(t + b, k);
        { OfKindAppend(t, b, k); }
        (if KindOf(x) == k then [x] else []) + (OfKind(t, k) + OfKind(b, k));
        (if KindOf(x) == k then [x] else []) + OfKind(t, k) + OfKind(b, k);
        { assert a == [x] + t; OfKindCons(x, t, k); }
        OfKind(a, k) + OfKind(b, k);
      }
    }
  }

  lemma OfKindCons(x: Call, t: seq<Call>, k: Kind)
    ensures OfKind([x] + t, k) == (if KindOf(x) == k then [x] else []) + OfKind(t, k)
  {
    assert ([x] + t)[0] == x;
    assert ([x] + t)[1..] == t;
  }
}
