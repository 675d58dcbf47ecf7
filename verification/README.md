# Chimp: a model of the CodeIgniter Mailchimp wrapper

The `Chimp` library lets a CodeIgniter application send a one-off
transactional e-mail through Mailchimp. The application stages recipients
with `add_email`, fills in a draft with the `set_*` setters, and then calls
`send_email`. That call does the following, in order:

1. It resolves the list id. When none is staged, it falls back to the
   configured `trans_list_id`. It stops if there is still none, or if no
   recipient is staged.
2. It empties the transactional list (`clear_list`). Subscribed members are
   fetched 1500 at a time and each non-empty page is batch-unsubscribed.
3. It loads the list's merge-var tags into `_vars` (`_set_var_index`).
4. For each recipient, it registers every merge var whose upper-cased key is
   missing from `_vars`, then subscribes the recipient.
5. It creates a `trans` campaign from the draft and logs the client's error,
   if there is one.
6. If the campaign got an id, it sends it, logs the error again, clears the
   staged state and returns 1. Otherwise it returns 0.

The model is purely functional:

- `ChimpState` is the ten private fields of the class.
- `Service` is an oracle that fixes the answers of the remote API.
- `SendEmail` returns the new state, the trace of remote calls in issue
  order, and an outcome. The outcome is either one of the two `show_error`
  halts or the returned value.

PHP arrays are ordered association lists. `array_merge` and `$a[$k] = $v`
keep key order, so the order of the registrations is the order of the
source. PHP truthiness is spelled out explicitly:

- A configured list id is truthy when it is present and non-zero.
- A campaign id is truthy when it is present and is neither `""` nor `"0"`.
- `empty()` on an error message is true for `""` and `"0"`.

The modules follow the class:

- `PhpArray` and `PhpString` hold the PHP primitives.
- `Mailchimp` holds the calls and the oracle.
- `Chimp` holds the state and the local operations.
- `ListClearing` models `clear_list`.
- `MergeVars` models `_set_var_index` and the recipient loop.
- `Dispatch` models `send_email`.
- `Examples` holds concrete runs.

Four details of the code are easy to misread; the model follows the code as
written:

- The client's error is captured only right after `campaignCreate` and right
  after `campaignSendNow`, not after every call.
- `clear()` assigns `$this->errors`, which is a different property from
  `_errors`. So the error log survives `clear()` and a successful send.
- The boolean arguments of `listSubscribe` (`FALSE, TRUE, TRUE, FALSE`) and
  of `listBatchUnsubscribe` (`TRUE, FALSE, FALSE`) are recorded in the
  position the call sites write them.
- A negative configured `trans_list_id` is truthy, so it is accepted.

## Model

| member | source | states |
|---|---|---|
| Chimp.Initial | libraries/chimp.php:26-31 | A freshly constructed wrapper is cleared, has an empty error log and is well formed. |
| Chimp.StagedMergeVars | libraries/chimp.php:41-42 | `FNAME` and `LNAME` always end up holding the given first and last name. Every other key keeps the caller's value, or stays absent. The caller's keys keep their positions, at most two entries are added, and distinct keys stay distinct. |
| Chimp.StagedMergeVarsFresh | libraries/chimp.php:41-42 | When the caller passes neither name key, `FNAME` and then `LNAME` are appended after the caller's merge vars. |
| Chimp.AddEmail | libraries/chimp.php:38-47 | Exactly one record is appended behind the unchanged earlier records. It carries the e-mail, the type and the staged merge vars. No other field changes, and well-formedness is kept. The names, merge vars and type default to `''`, `''`, `array()` and `'html'`, as in the PHP signature. |
| Chimp.SetListId | libraries/chimp.php:52-55 | Sets the list id and leaves every other field as it was. |
| Chimp.SetHtml | libraries/chimp.php:167-170 | Sets the HTML body and nothing else. |
| Chimp.SetText | libraries/chimp.php:175-178 | Sets the text body and nothing else. |
| Chimp.SetSubject | libraries/chimp.php:183-186 | Sets the subject and nothing else. |
| Chimp.SetFrom | libraries/chimp.php:191-195 | Sets both the sender address and the sender name, and nothing else. |
| Chimp.SetToName | libraries/chimp.php:200-203 | Sets the to-name and nothing else. |
| Chimp.Clear | libraries/chimp.php:208-220 | Empties the recipients, the index and the draft and zeroes the list id. The error log is left exactly as it was. |
| Chimp.LogError | libraries/chimp.php:227-234 | The log only grows, by one entry equal to the client's error, and it grows exactly when the message is not `empty()`. |
| Chimp.DraftFromSetters | libraries/chimp.php:102-109 | The `$options` and `$content` handed to `campaignCreate` are exactly the values the six setters stored, whatever the state held before. |
| Chimp.DraftIgnoresStaging | libraries/chimp.php:102-109 | Staging a recipient changes neither the campaign options nor the content. |
| PhpArray.Put | libraries/chimp.php:42 | `array_merge` writes each key of its second array like an assignment: assigning to a key makes that key read back the new value and leaves every other key's value alone. An existing key keeps its place and the length. A new key is appended at the end. |
| PhpArray.Merge | libraries/chimp.php:42 | `array_merge` on string keys: a key present in the second array reads its value from there, any other key reads from the first. The first array's keys keep their positions. |
| PhpString.UpperChar | libraries/chimp.php:90-92 | `strtoupper` maps `a`-`z` to `A`-`Z` and leaves every other character unchanged. |
| PhpString.Upper | libraries/chimp.php:90 | `strtoupper` keeps the length and upper-cases each character on its own. |
| PhpString.EmptyStrings | libraries/chimp.php:229 | On strings, `empty()` holds for `""` and `"0"` and fails for a blank, `"00"`, `"0.0"` and `"false"`. |
| Mailchimp.TruthyCampaignIds | libraries/chimp.php:116 | `if($cam_id)` fails when no id came back and for `""` and `"0"`; it holds for any other id, `"00"` and a blank included. |
| MergeVars.SetVarIndex | libraries/chimp.php:239-247 | After loading, a tag is in the index exactly when it was there before or the service returned it. |
| MergeVars.RegisterMissing | libraries/chimp.php:88-94 | Every registration is issued for one of the recipient's keys, with the upper-cased key as tag and the key as name. The tag is never one the index already has. Every key whose tag is missing is registered. |
| MergeVars.RegisterMissingAppend | libraries/chimp.php:88-94 | The inner `foreach` registers in key order: the registrations for a run of keys followed by another are those of the first run, then those of the second. |
| MergeVars.RegisterMissingCount | libraries/chimp.php:88-94 | For one recipient, a key is registered once if its tag is missing from the index and not at all otherwise. |
| MergeVars.RegisterMissingEmpty | libraries/chimp.php:88-94 | A recipient causes no registration if and only if the index knows the upper-cased form of every one of its keys. |
| MergeVars.RecipientCallsShape | libraries/chimp.php:88-98 | One pass of the recipient loop ends with that recipient's subscribe. Every call before it is a `listMergeVarAdd` on the list for one of the recipient's keys whose tag the index lacks. |
| MergeVars.SubscribeAllLength | libraries/chimp.php:85-99 | The recipient loop issues at least one call per recipient, and no call at all exactly when nobody is staged. |
| MergeVars.SubscribeAllAt | libraries/chimp.php:85-99 | Recipient i's registrations come directly before its subscribe. They come after every call for the earlier recipients and before every call for the later ones. |
| MergeVars.SubscribeAllKnown | libraries/chimp.php:85-99 | When the index knows every tag, the loop issues only the subscribes: one per recipient, in staging order. |
| MergeVars.SubscribeAllKinds | libraries/chimp.php:85-99 | The recipient loop issues only `listMergeVarAdd` and `listSubscribe`. |
| MergeVars.SubscribeAllSubscribes | libraries/chimp.php:85-99 | The loop subscribes every staged recipient exactly once, in staging order, with its own address, merge vars, type and the fixed flags. |
| MergeVars.SubscribeAllRegistrations | libraries/chimp.php:82-94 | The index is not refreshed inside the loop. A key whose tag is missing is registered once for every recipient that carries it. A key whose tag is known is never registered. |
| ListClearing.FetchCount | libraries/chimp.php:142-161 | The number of pages the do-while loop fetches is at least 1. It is exactly 1 when the reported total is at most 0. Otherwise it is the least n with total <= 1500 n, that is ceil(total/1500). |
| ListClearing.ClearListStarts | libraries/chimp.php:140-162 | The do-while runs its body before the test, so every pass starts with its own fetch and `clear_list` always begins with the fetch at offset 0, even on an empty list. |
| ListClearing.ClearListLoop | libraries/chimp.php:140-162 | The do-while loop, with the offset advanced and `total` re-read on every pass, issues exactly the trace of the recursive definition. |
| ListClearing.ClearFromIsPageRange | libraries/chimp.php:145-161 | The loop runs exactly FetchCount(total) bodies, one per page, whatever the pages contain. |
| ListClearing.ClearListFetches | libraries/chimp.php:142-148 | `listMembers` is called FetchCount(total) times. The j-th call asks for 1500 subscribed members at offset 1500 j. |
| ListClearing.NonEmptyPagesSound | libraries/chimp.php:150-157 | The pages counted as unsubscribed are fetched pages that returned members. |
| ListClearing.NonEmptyPagesComplete | libraries/chimp.php:150-157 | Every fetched page that returned members is counted. |
| ListClearing.NonEmptyPagesAscending | libraries/chimp.php:150-157 | The counted pages are in fetch order. |
| ListClearing.PageRangeUnsubscribes | libraries/chimp.php:150-160 | Over a range of pages, there is one `listBatchUnsubscribe` per non-empty page, in page order, each carrying that page's addresses. |
| ListClearing.ClearListUnsubscribes | libraries/chimp.php:150-160 | `clear_list` unsubscribes each non-empty fetched page once, in order, with exactly that page's addresses and flags `TRUE, FALSE, FALSE`. Empty pages cause no call, and pages are never combined. |
| ListClearing.ClearFromKinds | libraries/chimp.php:140-162 | `clear_list` issues only `listMembers` and `listBatchUnsubscribe`. |
| Dispatch.ResolveListId | libraries/chimp.php:63-70 | A positive staged id is kept. Otherwise the configured id is used when it is truthy, and there is none when it is not. |
| Dispatch.DispatchCallsShape | libraries/chimp.php:78-111 | A send past both checks begins with the offset-0 fetch of `clear_list`, fetches the index right after the clearing, holds at least one call per recipient and ends with `campaignCreate` on the draft's options and content. |
| Dispatch.SendEmail | libraries/chimp.php:60-127 | It halts on the missing list id exactly when no id resolves, leaving the state untouched. It halts on an empty batch exactly when the id resolves but nothing is staged, with only the list id stored. A halt issues no call. It returns 1 exactly when both checks pass and the campaign id is truthy; the state is then cleared and the log holds the create and send errors. Otherwise it returns 0 with the resolved id and the create error logged. The index is then exactly the old `_vars` plus the tags the service returned, and nothing else changed. |
| Dispatch.SendEmailCallOrder | libraries/chimp.php:78-118 | The trace runs in stages and never goes back: clearing, then the one index fetch, then registrations and subscribes, then the one `campaignCreate`, then at most one send-now. Each stage holds exactly the calls of its part of the code. |
| Dispatch.DispatchCallsSubscribes | libraries/chimp.php:79-111 | Outside the recipient loop, no `listSubscribe` is issued. |
| Dispatch.DispatchCallsRegistrations | libraries/chimp.php:79-111 | Outside the recipient loop, no `listMergeVarAdd` is issued. |
| Dispatch.SendEmailSubscribes | libraries/chimp.php:85-99 | A send that passes both checks subscribes every staged recipient once, in staging order, whether or not the campaign is then created. |
| Dispatch.SendEmailRegistrations | libraries/chimp.php:82-94 | In a whole send, a key is registered once per recipient carrying it if its tag is neither in the old `_vars` nor returned by the service. Otherwise it is not registered at all. |
| Dispatch.FailedSendRetry | libraries/chimp.php:63-70 | After a send that returned 0 with a positive id, the index only grows and a retry needs no configured default. A retry that fails again still has every recipient staged. |
| Examples.AddOneVar | libraries/chimp.php:38-47 | `add_email` with one extra merge var stores it first, then `FNAME` and `LNAME`. |
| Examples.ExampleStaging | libraries/chimp.php:38-47 | Two recipients and a full draft produce the expected records and campaign arguments. |
| Examples.KnownNamesSend | libraries/chimp.php:79-123 | On an empty list that knows both name tags, a two-recipient send issues exactly six calls: fetch, index, two subscribes, create, send-now. |
| Examples.ExampleSendSucceeds | libraries/chimp.php:60-127 | A concrete send that succeeds returns 1, leaves a cleared state and issues the six expected calls. |
| Examples.ExampleSendFails | libraries/chimp.php:111-126 | When `campaignCreate` returns nothing, the result is 0 and the recipients, the list id and the draft are all kept. |
| Examples.NewVarSend | libraries/chimp.php:85-99 | A recipient carrying a key the list lacks causes that key's registration right before its subscribe. |
| Examples.ExampleRegistersBirthday | libraries/chimp.php:85-99 | A `BIRTHDAY` var the list lacks is registered as tag `BIRTHDAY`, right before the subscribe. |

## Left out

- `__get` and the CodeIgniter loading of the config and the `mailchimp` library are not modelled. The configured `trans_list_id` is an input of `SendEmail`.
- The vendor `MCAPI` client and its wire protocol are not part of this model. A remote call is a `Call` value in the trace, and its answer comes from the `Service` oracle.
- The oracle's answers do not depend on earlier calls. In particular, a batch unsubscribe does not shrink later `listMembers` pages, and a registration does not change later answers.
- `listMembers` reports one fixed `total` with every page. A total that changes between pages is not modelled.
- The `since = NULL` argument of `listMembers` is dropped from the recorded call.
- The `listMembers` failure path, where `$list['data']` is not an array, is not modelled. Pages are always lists of addresses.
- `show_error` is modelled as a halt with no further state change and no further call. The page it renders is not modelled.
- The `echo` of the client's error message and of `"Sent"` is output only and is left out.
- `get_campaigns` is a one-line pass-through to the client and is left out.
- PHP loose typing is not modelled. The list id is an integer. A merge-var key is a string. Integer keys, which `array_merge` renumbers, are not modelled.
- MergeVars.SetVarIndex: `_vars` keeps only which tags are present, not the rows stored under them. No code reads the rows.
- PhpString.UpperChar: `strtoupper` is modelled for ASCII letters only. Locale-dependent upper-casing is not modelled.
- The client's error state is read only where the code reads it: after `campaignCreate` and after `campaignSendNow`. Those two reads are the oracle's `createError` and `sendError`.
