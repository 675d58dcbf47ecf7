/** `_set_var_index` and the recipient loop of `send_email`: register every
    merge var the list does not yet know, then subscribe the recipient. */
module MergeVars {
  import opened PhpArray
  import opened PhpString
  import opened Mailchimp
  import opened Chimp

  /** `_set_var_index`: every returned tag is added to the index as-is,
      and nothing already in the index is dropped. */
  function SetVarIndex(vars: set<string>, tags: seq<string>): (r: set<string>)
    ensures forall t :: t in r <==> t in vars || t in tags
    decreases |tags|
  {
    if |tags| == 0 then vars else SetVarIndex(vars + {tags[0]}, tags[1..])
  }

  /** `listMergeVarAdd($list, strtoupper($key), $key)`. */
  function AddCall(listId: int, key: string): Call
  {
    ListMergeVarAdd(listId, Upper(key), key)
  }

  /** `listSubscribe` for one staged recipient. */
  function SubscribeCall(listId: int, rec: Recipient): Call
  {
    ListSubscribe(listId, rec.email, rec.mergeVars, rec.emailType, SubscribeFlags)
  }

  /** The registrations for one recipient's merge vars, in key order: one
      `listMergeVarAdd` for each key whose upper-cased form is not in the
      index, and none for the others. */
  function RegisterMissing(listId: int, index: set<string>, mergeVars: Pairs<string, string>): (r: seq<Call>)
    ensures |r| <= |mergeVars|
    ensures forall c :: c in r ==>
      c.ListMergeVarAdd? && c.listId == listId && c.tag == Upper(c.name)
      && c.tag !in index && HasKey(mergeVars, c.name)
    ensures forall k :: HasKey(mergeVars, k) && Upper(k) !in index ==> AddCall(listId, k) in r
  {
    if |mergeVars| == 0 then []
    else
      var key := mergeVars[0].0;
      var rest := RegisterMissing(listId, index, mergeVars[1..]);
      assert forall k :: HasKey(mergeVars, k) <==> key == k || HasKey(mergeVars[1..], k) by {
        forall k { HasKeyUncons(mergeVars, k); }
      }
      (if Upper(key) !in index then [AddCall(listId, key)] else []) + rest
  }

  /** A key whose tag is missing is registered exactly once per recipient
      that carries it, and a key whose tag is known not at all. */
  lemma {:induction false} RegisterMissingCount(listId: int, index: set<string>, mergeVars: Pairs<string, string>, k: string)
    requires DistinctKeys(mergeVars)
    ensures multiset(RegisterMissing(listId, index, mergeVars))[AddCall(listId, k)]
      == if HasKey(mergeVars, k) && Upper(k) !in index then 1 else 0
    decreases |mergeVars|
  {
    if |mergeVars| > 0 {
      HasKeyUncons(mergeVars, k);
      RegisterMissingCount(listId, index, mergeVars[1..], k);
    }
  }

  /** Nothing is registered exactly when the index knows the upper-cased
      form of every key. */
  lemma RegisterMissingEmpty(listId: int, index: set<string>, mergeVars: Pairs<string, string>)
    ensures RegisterMissing(listId, index, mergeVars) == []
      <==> forall i :: 0 <= i < |mergeVars| ==> Upper(mergeVars[i].0) in index
  {
    var r := RegisterMissing(listId, index, mergeVars);
    if r != [] {
      assert r[0] in r;
      var i :| 0 <= i < |mergeVars| && mergeVars[i].0 == r[0].name;
    }
    if i :| 0 <= i < |mergeVars| && Upper(mergeVars[i].0) !in index {
      assert HasKey(mergeVars, mergeVars[i].0);
      assert AddCall(listId, mergeVars[i].0) in r;
    }
  }

  /** The calls for one recipient: its registrations, then its subscribe. */
  function RecipientCalls(listId: int, index: set<string>, rec: Recipient): seq<Call>
  {
    RegisterMissing(listId, index, rec.mergeVars) + [SubscribeCall(listId, rec)]
  }

  /** The `foreach` over `_email_list`; no failure stops it. */
  function SubscribeAll(listId: int, index: set<string>, recips: seq<Recipient>): seq<Call>
  {
    if |recips| == 0 then []
    else RecipientCalls(listId, index, recips[0]) + SubscribeAll(listId, index, recips[1..])
  }

  /** A recipient's subscribe is its last call; everything before it is a
      registration. */
  lemma RecipientCallsShape(listId: int, index: set<string>, rec: Recipient)
    ensures |RecipientCalls(listId, index, rec)| >= 1
    ensures RecipientCalls(listId, index, rec)[|RecipientCalls(listId, index, rec)| - 1] == SubscribeCall(listId, rec)
    ensures forall i :: 0 <= i < |RecipientCalls(listId, index, rec)| - 1 ==>
      var c := RecipientCalls(listId, index, rec)[i];
      c.ListMergeVarAdd? && c.listId == listId && c.tag !in index && HasKey(rec.mergeVars, c.name)
  {
  }

  /** Each recipient contributes at least its subscribe, so the loop issues
      no calls exactly when there is nobody to subscribe. */
  lemma {:induction false} SubscribeAllLength(listId: int, index: set<string>, recips: seq<Recipient>)
    ensures |SubscribeAll(listId, index, recips)| >= |recips|
    ensures SubscribeAll(listId, index, recips) == [] <==> recips == []
    decreases |recips|
  {
    if |recips| > 0 {
      SubscribeAllLength(listId, index, recips[1..]);
    }
  }

  lemma SubscribeAllCons(listId: int, index: set<string>, x: Recipient, t: seq<Recipient>)
    ensures SubscribeAll(listId, index, [x] + t) == RecipientCalls(listId, index, x) + SubscribeAll(listId, index, t)
  {
    assert ([x] + t)[0] == x;
    assert ([x] + t)[1..] == t;
  }

  lemma {:induction false} SubscribeAllAppend(listId: int, index: set<string>, a: seq<Recipient>, b: seq<Recipient>)
    ensures SubscribeAll(listId, index, a + b) == SubscribeAll(listId, index, a) + SubscribeAll(listId, index, b)
    decreases |a|
  {
    if |a| == 0 {
      assert a + b == b;
    } else {
      var x, t := a[0], a[1..];
      calc {
        SubscribeAll(listId, index, a + b);
        { assert a + b == [x] + (t + b); SubscribeAllCons(listId, index, x, t + b); }
        RecipientCalls(listId, index, x) + SubscribeAll(listId, index, t + b);
        { SubscribeAllAppend(listId, index, t, b); }
        RecipientCalls(listId, index, x) + (SubscribeAll(listId, index, t) + SubscribeAll(listId, index, b));
        RecipientCalls(listId, index, x) + SubscribeAll(listId, index, t) + SubscribeAll(listId, index, b);
        { assert a == [x] + t; SubscribeAllCons(listId, index, x, t); }
        SubscribeAll(listId, index, a) + SubscribeAll(listId, index, b);
      }
    }
  }

  /** Each recipient's registrations come right before its own subscribe,
      after everything issued for the recipients staged before it. */
  lemma SubscribeAllAt(listId: int, index: set<string>, recips: seq<Recipient>, i: nat)
    requires i < |recips|
    ensures SubscribeAll(listId, index, recips)
      == SubscribeAll(listId, index, recips[..i])
         + RegisterMissing(listId, index, recips[i].mergeVars)
         + [SubscribeCall(listId, recips[i])]
         + SubscribeAll(listId, index, recips[i + 1..])
  {
    var pre, x, post := recips[..i], recips[i], recips[i + 1..];
    calc {
      SubscribeAll(listId, index, recips);
      { assert recips == pre + ([x] + post); SubscribeAllAppend(listId, index, pre, [x] + post); }
      SubscribeAll(listId, index, pre) + SubscribeAll(listId, index, [x] + post);
      { SubscribeAllCons(listId, index, x, post); }
      SubscribeAll(listId, index, pre) + (RecipientCalls(listId, index, x) + SubscribeAll(listId, index, post));
      SubscribeAll(listId, index, pre) + RegisterMissing(listId, index, x.mergeVars)
        + [SubscribeCall(listId, x)] + SubscribeAll(listId, index, post);
    }
  }

  /** When the index already knows every tag, the loop is just the
      subscribes, one per recipient in order. */
  lemma {:induction false} SubscribeAllKnown(listId: int, index: set<string>, recips: seq<Recipient>)
    requires forall i, j :: 0 <= i < |recips| && 0 <= j < |recips[i].mergeVars| ==>
      Upper(recips[i].mergeVars[j].0) in index
    ensures |SubscribeAll(listId, index, recips)| == |recips|
    ensures forall i :: 0 <= i < |recips| ==> SubscribeAll(listId, index, recips)[i] == SubscribeCall(listId, recips[i])
    decreases |recips|
  {
    if |recips| > 0 {
      RegisterMissingEmpty(listId, index, recips[0].mergeVars);
      assert RecipientCalls(listId, index, recips[0]) == [SubscribeCall(listId, recips[0])];
      assert forall i, j :: 0 <= i < |recips[1..]| && 0 <= j < |recips[1..][i].mergeVars| ==>
        Upper(recips[1..][i].mergeVars[j].0) in index by {
        forall i, j | 0 <= i < |recips[1..]| && 0 <= j < |recips[1..][i].mergeVars|
          ensures Upper(recips[1..][i].mergeVars[j].0) in index
        {
          assert recips[1..][i] == recips[i + 1];
        }
      }
      SubscribeAllKnown(listId, index, recips[1..]);
      assert forall i :: 1 <= i < |recips| ==> recips[1..][i - 1] == recips[i];
    }
  }

  /** The loop issues only registrations and subscribes. */
  lemma {:induction false} SubscribeAllKinds(listId: int, index: set<string>, recips: seq<Recipient>)
    ensures forall c :: c in SubscribeAll(listId, index, recips) ==>
      KindOf(c) == AddMergeVar || KindOf(c) == Subscribe
    decreases |recips|
  {
    if |recips| > 0 {
      SubscribeAllKinds(listId, index, recips[1..]);
    }
  }

  lemma RecipientCallsSubscribe(listId: int, index: set<string>, rec: Recipient)
    ensures OfKind(RecipientCalls(listId, index, rec), Subscribe) == [SubscribeCall(listId, rec)]
  {
    var regs := RegisterMissing(listId, index, rec.mergeVars);
    OfKindAppend(regs, [SubscribeCall(listId, rec)], Subscribe);
    assert forall c :: c in regs ==> c.ListMergeVarAdd?;
    OfKindNone(regs, Subscribe);
    assert OfKind([SubscribeCall(listId, rec)], Subscribe) == [SubscribeCall(listId, rec)];
  }

  /** Exactly one `listSubscribe` per staged recipient, in staging order. */
  lemma {:induction false} SubscribeAllSubscribes(listId: int, index: set<string>, recips: seq<Recipient>)
    ensures |OfKind(SubscribeAll(listId, index, recips), Subscribe)| == |recips|
    ensures forall i :: 0 <= i < |recips| ==>
      OfKind(SubscribeAll(listId, index, recips), Subscribe)[i] == SubscribeCall(listId, recips[i])
    decreases |recips|
  {
    if |recips| > 0 {
      var tail := OfKind(SubscribeAll(listId, index, recips[1..]), Subscribe);
      OfKindAppend(RecipientCalls(listId, index, recips[0]), SubscribeAll(listId, index, recips[1..]), Subscribe);
      RecipientCallsSubscribe(listId, index, recips[0]);
      assert OfKind(SubscribeAll(listId, index, recips), Subscribe) == [SubscribeCall(listId, recips[0])] + tail;
      SubscribeAllSubscribes(listId, index, recips[1..]);
      assert forall i :: 1 <= i < |recips| ==> recips[1..][i - 1] == recips[i];
    }
  }

  /** How many of the recipients carry merge-var key `k`. */
  function Carriers(recips: seq<Recipient>, k: string): (n: nat)
    ensures n <= |recips|
  {
    if |recips| == 0 then 0
    else (if HasKey(recips[0].mergeVars, k) then 1 else 0) + Carriers(recips[1..], k)
  }

  /** The index is not refreshed inside the loop: a key whose tag is missing
      is registered again for every recipient that carries it. */
  lemma {:induction false} SubscribeAllRegistrations(listId: int, index: set<string>, recips: seq<Recipient>, k: string)
    requires forall i :: 0 <= i < |recips| ==> DistinctKeys(recips[i].mergeVars)
    ensures multiset(SubscribeAll(listId, index, recips))[AddCall(listId, k)]
      == if Upper(k) !in index then Carriers(recips, k) else 0
    decreases |recips|
  {
    if |recips| > 0 {
      RegisterMissingCount(listId, index, recips[0].mergeVars, k);
      SubscribeAllRegistrations(listId, index, recips[1..], k);
      assert SubscribeCall(listId, recips[0]) != AddCall(listId, k);
    }
  }

  /** The registrations follow the merge vars' key order: registering for
      two runs of keys is registering for the first run, then the second. */
  lemma {:induction false} RegisterMissingAppend(listId: int, index: set<string>, a: Pairs<string, string>,
                                                 b: Pairs<string, string>)
    ensures RegisterMissing(listId, index, a + b)
      == RegisterMissing(listId, index, a) + RegisterMissing(listId, index, b)
    decreases |a|
  {
    if |a| > 0 {
      assert (a + b)[1..] == a[1..] + b;
      RegisterMissingAppend(listId, index, a[1..], b);
    } else {
      assert a + b == b;
    }
  }
}
