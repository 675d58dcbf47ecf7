/** `clear_list`: page through the list's subscribed members, 1500 at a
    time, and batch-unsubscribe each non-empty page as soon as it arrives. */
module ListClearing {
  import opened Mailchimp

  const PageLimit: nat := 1500

  /** How many pages the do-while loop fetches when the service reports
      `total`: at least one, and otherwise the ceiling of total / 1500. */
  function FetchCount(total: int): (n: nat)
    ensures n >= 1
    ensures total <= 0 ==> n == 1
    ensures total > 0 ==> (n - 1) * PageLimit < total <= n * PageLimit
  {
    if total <= 0 then 1 else (total + PageLimit - 1) / PageLimit
  }

  function FetchCall(listId: int, page: nat): Call
  {
    ListMembers(listId, SubscribedStatus, page * PageLimit, PageLimit)
  }

  function UnsubscribeCall(listId: int, emails: seq<string>): Call
  {
    ListBatchUnsubscribe(listId, emails, UnsubscribeFlags)
  }

  /** One pass of the loop body: fetch the page at offset page * 1500, then
      unsubscribe exactly that page's addresses if there are any. */
  function PageCalls(listId: int, svc: Service, page: nat): seq<Call>
  {
    var emails := svc.MembersAt(page);
    [FetchCall(listId, page)] + (if |emails| > 0 then [UnsubscribeCall(listId, emails)] else [])
  }

  /** The do-while loop from the page at offset page * 1500 on: after each
      body the offset has grown by 1500 and the loop goes on while it is
      below the reported total. */
  function ClearFrom(listId: int, svc: Service, page: nat): seq<Call>
    decreases if page * PageLimit < svc.memberTotal then svc.memberTotal - page * PageLimit else 0
  {
    PageCalls(listId, svc, page)
      + (if (page + 1) * PageLimit < svc.memberTotal then ClearFrom(listId, svc, page + 1) else [])
  }

  /** The trace `clear_list` produces. */
  function ClearList(listId: int, svc: Service): seq<Call>
  {
    ClearFrom(listId, svc, 0)
  }

  /** The body runs before the test: every pass starts with its fetch, and
      `clear_list` always starts with the page at offset 0, whatever the
      list holds. */
  lemma ClearListStarts(listId: int, svc: Service, page: nat)
    ensures |ClearFrom(listId, svc, page)| >= 1 && ClearFrom(listId, svc, page)[0] == FetchCall(listId, page)
    ensures |ClearList(listId, svc)| >= 1
    ensures ClearList(listId, svc)[0] == ListMembers(listId, SubscribedStatus, 0, PageLimit)
  {
  }

  /** The loop as the source writes it, with the `total` re-read after
      every page; it yields the same trace as the recursive definition. */
  method ClearListLoop(listId: int, svc: Service) returns (calls: seq<Call>)
    ensures calls == ClearList(listId, svc)
  {
    calls := [];
    var offset := 0;
    var page := 0;
    while true
      invariant offset == page * PageLimit
      invariant calls + ClearFrom(listId, svc, page) == ClearList(listId, svc)
      decreases svc.memberTotal - offset
    {
      ghost var before := calls;
      calls := calls + [ListMembers(listId, SubscribedStatus, offset, PageLimit)];
      var emails := svc.MembersAt(page);
      var total := svc.memberTotal;
      offset := offset + PageLimit;
      if |emails| > 0 {
        calls := calls + [ListBatchUnsubscribe(listId, emails, UnsubscribeFlags)];
      }
      assert calls == before + PageCalls(listId, svc, page);
      ClearFromStep(before, listId, svc, page);
      if !(offset < total) {
        break;
      }
      page := page + 1;
    }
  }

  /** One unrolling of the do-while loop behind an accumulated prefix. */
  lemma ClearFromStep(before: seq<Call>, listId: int, svc: Service, page: nat)
    ensures (page + 1) * PageLimit < svc.memberTotal ==>
      before + ClearFrom(listId, svc, page)
        == (before + PageCalls(listId, svc, page)) + ClearFrom(listId, svc, page + 1)
    ensures (page + 1) * PageLimit >= svc.memberTotal ==>
      before + ClearFrom(listId, svc, page) == before + PageCalls(listId, svc, page)
  {
    var rest := if (page + 1) * PageLimit < svc.memberTotal then ClearFrom(listId, svc, page + 1) else [];
    assert ClearFrom(listId, svc, page) == PageCalls(listId, svc, page) + rest;
    assert before + (PageCalls(listId, svc, page) + rest) == (before + PageCalls(listId, svc, page)) + rest;
  }

  /** The bodies for pages lo .. hi-1, one after another. */
  function PageRange(listId: int, svc: Service, lo: nat, hi: nat): seq<Call>
    decreases hi - lo
  {
    if lo >= hi then [] else PageCalls(listId, svc, lo) + PageRange(listId, svc, lo + 1, hi)
  }

  /** The loop runs exactly FetchCount(total) bodies, whatever the pages hold. */
  lemma {:induction false} ClearFromIsPageRange(listId: int, svc: Service, page: nat)
    requires page < FetchCount(svc.memberTotal)
    ensures ClearFrom(listId, svc, page) == PageRange(listId, svc, page, FetchCount(svc.memberTotal))
    decreases FetchCount(svc.memberTotal) - page
  {
    var n := FetchCount(svc.memberTotal);
    if page + 1 < n {
      assert (page + 1) * PageLimit <= (n - 1) * PageLimit;
      ClearFromIsPageRange(listId, svc, page + 1);
    } else {
      assert PageRange(listId, svc, page + 1, n) == [];
    }
  }

  lemma ClearListIsPageRange(listId: int, svc: Service)
    ensures ClearList(listId, svc) == PageRange(listId, svc, 0, FetchCount(svc.memberTotal))
  {
    ClearFromIsPageRange(listId, svc, 0);
  }

  /** The fetches of pages lo .. hi-1 are at offsets lo * 1500, ... in order. */
  lemma {:induction false} PageRangeFetches(listId: int, svc: Service, lo: nat, hi: nat)
    requires lo <= hi
    ensures |OfKind(PageRange(listId, svc, lo, hi), FetchMembers)| == hi - lo
    ensures forall j :: 0 <= j < hi - lo ==>
      OfKind(PageRange(listId, svc, lo, hi), FetchMembers)[j] == FetchCall(listId, lo + j)
    decreases hi - lo
  {
    if lo < hi {
      var emails := svc.MembersAt(lo);
      var tail := if |emails| > 0 then [UnsubscribeCall(listId, emails)] else [];
      OfKindAppend(PageCalls(listId, svc, lo), PageRange(listId, svc, lo + 1, hi), FetchMembers);
      OfKindAppend([FetchCall(listId, lo)], tail, FetchMembers);
      assert OfKind(tail, FetchMembers) == [];
      PageRangeFetches(listId, svc, lo + 1, hi);
    }
  }

  /** `listMembers` is called FetchCount(total) times, at offsets 0, 1500,
      3000, ... in that order, each asking for 1500 subscribed members. */
  lemma ClearListFetches(listId: int, svc: Service)
    ensures |OfKind(ClearList(listId, svc), FetchMembers)| == FetchCount(svc.memberTotal)
    ensures forall j :: 0 <= j < FetchCount(svc.memberTotal) ==>
      OfKind(ClearList(listId, svc), FetchMembers)[j]
        == ListMembers(listId, SubscribedStatus, j * PageLimit, PageLimit)
  {
    ClearListIsPageRange(listId, svc);
    PageRangeFetches(listId, svc, 0, FetchCount(svc.memberTotal));
  }

  /** The pages among lo .. hi-1 that hold at least one member. */
  function NonEmptyPages(svc: Service, lo: nat, hi: nat): seq<nat>
    decreases hi - lo
  {
    if lo >= hi then []
    else (if |svc.MembersAt(lo)| > 0 then [lo] else []) + NonEmptyPages(svc, lo + 1, hi)
  }

  /** NonEmptyPages lists only non-empty pages of the range... */
  lemma {:induction false} NonEmptyPagesSound(svc: Service, lo: nat, hi: nat)
    ensures forall m :: 0 <= m < |NonEmptyPages(svc, lo, hi)| ==>
      lo <= NonEmptyPages(svc, lo, hi)[m] < hi && |svc.MembersAt(NonEmptyPages(svc, lo, hi)[m])| > 0
    decreases hi - lo
  {
    if lo < hi {
      var rest := NonEmptyPages(svc, lo + 1, hi);
      NonEmptyPagesSound(svc, lo + 1, hi);
      if |svc.MembersAt(lo)| > 0 {
        var r := [lo] + rest;
        assert NonEmptyPages(svc, lo, hi) == r;
        forall m | 1 <= m < |r|
          ensures lo <= r[m] < hi && |svc.MembersAt(r[m])| > 0
        {
          assert r[m] == rest[m - 1];
        }
      } else {
        assert NonEmptyPages(svc, lo, hi) == rest;
      }
    }
  }

  /** ... every one of them... */
  lemma {:induction false} NonEmptyPagesComplete(svc: Service, lo: nat, hi: nat)
    ensures forall j :: lo <= j < hi && |svc.MembersAt(j)| > 0 ==> j in NonEmptyPages(svc, lo, hi)
    decreases hi - lo
  {
    if lo < hi {
      var rest := NonEmptyPages(svc, lo + 1, hi);
      NonEmptyPagesComplete(svc, lo + 1, hi);
      if |svc.MembersAt(lo)| > 0 {
        assert NonEmptyPages(svc, lo, hi) == [lo] + rest;
      } else {
        assert NonEmptyPages(svc, lo, hi) == rest;
      }
    }
  }

  /** ... in ascending order. */
  lemma {:induction false} NonEmptyPagesAscending(svc: Service, lo: nat, hi: nat)
    ensures forall m, m' :: 0 <= m < m' < |NonEmptyPages(svc, lo, hi)| ==>
      NonEmptyPages(svc, lo, hi)[m] < NonEmptyPages(svc, lo, hi)[m']
    decreases hi - lo
  {
    if lo < hi {
      var rest := NonEmptyPages(svc, lo + 1, hi);
      NonEmptyPagesAscending(svc, lo + 1, hi);
      if |svc.MembersAt(lo)| > 0 {
        NonEmptyPagesSound(svc, lo + 1, hi);
        var r := [lo] + rest;
        assert NonEmptyPages(svc, lo, hi) == r;
        forall m | 1 <= m < |r|
          ensures lo < r[m]
        {
          assert r[m] == rest[m - 1];
        }
        forall m, m' | 0 <= m < m' < |r|
          ensures r[m] < r[m']
        {
          if m > 0 {
            assert r[m] == rest[m - 1] && r[m'] == rest[m' - 1];
          }
        }
      } else {
        assert NonEmptyPages(svc, lo, hi) == rest;
      }
    }
  }

  /** One page's worth of the unsubscribes in a range of pages. */
  lemma PageRangeUnsubscribesStep(listId: int, svc: Service, lo: nat, hi: nat)
    requires lo < hi
    ensures OfKind(PageRange(listId, svc, lo, hi), Unsubscribe)
      == (if |svc.MembersAt(lo)| > 0 then [UnsubscribeCall(listId, svc.MembersAt(lo))] else [])
         + OfKind(PageRange(listId, svc, lo + 1, hi), Unsubscribe)
  {
    var emails := svc.MembersAt(lo);
    var tail := if |emails| > 0 then [UnsubscribeCall(listId, emails)] else [];
    var rest := PageRange(listId, svc, lo + 1, hi);
    assert PageRange(listId, svc, lo, hi) == PageCalls(listId, svc, lo) + rest;
    assert PageCalls(listId, svc, lo) == [FetchCall(listId, lo)] + tail;
    OfKindAppend(PageCalls(listId, svc, lo), rest, Unsubscribe);
    OfKindCons(FetchCall(listId, lo), tail, Unsubscribe);
    assert OfKind(tail, Unsubscribe) == tail by {
      if |emails| > 0 {
        OfKindCons(UnsubscribeCall(listId, emails), [], Unsubscribe);
        assert [UnsubscribeCall(listId, emails)] + [] == tail;
      }
    }
  }

  lemma {:induction false} PageRangeUnsubscribes(listId: int, svc: Service, lo: nat, hi: nat)
    requires lo <= hi
    ensures |OfKind(PageRange(listId, svc, lo, hi), Unsubscribe)| == |NonEmptyPages(svc, lo, hi)|
    ensures forall m :: 0 <= m < |NonEmptyPages(svc, lo, hi)| ==>
      OfKind(PageRange(listId, svc, lo, hi), Unsubscribe)[m]
        == UnsubscribeCall(listId, svc.MembersAt(NonEmptyPages(svc, lo, hi)[m]))
    decreases hi - lo
  {
    if lo < hi {
      var all := OfKind(PageRange(listId, svc, lo, hi), Unsubscribe);
      var u := OfKind(PageRange(listId, svc, lo + 1, hi), Unsubscribe);
      var pages := NonEmptyPages(svc, lo, hi);
      var ne := NonEmptyPages(svc, lo + 1, hi);
      PageRangeUnsubscribesStep(listId, svc, lo, hi);
      PageRangeUnsubscribes(listId, svc, lo + 1, hi);
      if |svc.MembersAt(lo)| > 0 {
        UnsubscribesCons(listId, svc, all, u, pages, ne, lo);
      } else {
        assert all == u && pages == ne;
      }
    }
  }

  /** Pairing a non-empty page's unsubscribe with its page number in front
      of an already matched pair of sequences keeps them matched. */
  lemma UnsubscribesCons(listId: int, svc: Service, all: seq<Call>, u: seq<Call>, pages: seq<nat>, ne: seq<nat>, lo: nat)
    requires all == [UnsubscribeCall(listId, svc.MembersAt(lo))] + u && pages == [lo] + ne
    requires |u| == |ne| && forall m :: 0 <= m < |ne| ==> u[m] == UnsubscribeCall(listId, svc.MembersAt(ne[m]))
    ensures |all| == |pages|
    ensures forall m :: 0 <= m < |pages| ==> all[m] == UnsubscribeCall(listId, svc.MembersAt(pages[m]))
  {
    forall m | 1 <= m < |pages|
      ensures all[m] == UnsubscribeCall(listId, svc.MembersAt(pages[m]))
    {
      assert all[m] == u[m - 1] && pages[m] == ne[m - 1];
    }
  }

  /** `listBatchUnsubscribe` is issued once for every fetched page that
      returned members, in page order, each time with exactly that page's
      addresses; empty pages issue nothing and pages are never combined. */
  lemma ClearListUnsubscribes(listId: int, svc: Service)
    ensures var pages := NonEmptyPages(svc, 0, FetchCount(svc.memberTotal));
      && |OfKind(ClearList(listId, svc), Unsubscribe)| == |pages|
      && forall m :: 0 <= m < |pages| ==>
           OfKind(ClearList(listId, svc), Unsubscribe)[m]
             == ListBatchUnsubscribe(listId, svc.MembersAt(pages[m]), UnsubscribeFlags)
  {
    ClearListIsPageRange(listId, svc);
    PageRangeUnsubscribes(listId, svc, 0, FetchCount(svc.memberTotal));
  }

  /** `clear_list` only fetches and unsubscribes. */
  lemma {:induction false} ClearFromKinds(listId: int, svc: Service, page: nat)
    ensures forall c :: c in ClearFrom(listId, svc, page) ==> KindOf(c) == FetchMembers || KindOf(c) == Unsubscribe
    decreases if page * PageLimit < svc.memberTotal then svc.memberTotal - page * PageLimit else 0
  {
    if (page + 1) * PageLimit < svc.memberTotal {
      ClearFromKinds(listId, svc, page + 1);
    }
  }
}
