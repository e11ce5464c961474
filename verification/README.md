# Digest e-mail generation, modelled in Dafny

The system turns queued per-user "campaign signup" messages into batched
digest e-mails. Each e-mail lists a user's active DoSomething.org campaigns, with
tips and news, and goes out through Mandrill's send-template API. The code holds
two generations of the pipeline. This project models the decision logic of both,
plus the construction of campaign objects. All three are pure functions over
immutable data. Every foreign call is a function-valued parameter: the content
API, `strip_tags`, the subscriptions-link generator, Mandrill, and the user
object's campaign post-processing.

- **Legacy batch run (`MBC_UserDigest`, src/MBC_DigestEmail.php).** The stages run in order:
  - `processDigestCampaignActivity` drops signups that carry a report-back and acknowledges users left with none (activity.dfy).
  - `getCampaignDetails` and `gatherCampaigns` fetch each target campaign and keep the active campaign nodes that have a cover image (details.dfy).
  - `buildCampaignMarkup` and `composeGlobalMergeVars` render each campaign block, including the news/tip rule (markup.dfy).
  - `filterCampaigns` keeps at most five known campaigns per user, staff picks first (selection.dfy).
  - `composeMergeVars` builds each user's CAMPAIGNS block and subscriptions link. It then sends, drops, or acknowledges and drops the user (merge_vars.dfy).
  - `composeTo`, `composeDigestSubmission` (with its weekly subject rotation) and the ack reconciliation after the send complete the run (submission.dfy).
  - `generateDigests` ties the stages together and records every acknowledgement in order (generate.dfy).
- **Streaming consumer (`MBC_DigestEmail_Consumer`, consumer.dfy).** This is a state machine over the waiting users, the campaign cache and the batch size. One step handles one message:
  - the admission check `canProcess`;
  - the memoising campaign cache `setter`;
  - `process`;
  - the acknowledgement;
  - the flush predicate `sendBatch`.
  The acknowledgements and the batches handed to the messenger are kept as logs in the state.
- **Campaign objects (`MBC_DigestEmail_Campaign`, campaign.dfy and content_api.dfy).** This covers the API URL, the classification of the HTTP outcome, and the required and optional fields.

Shared pieces:
- common.dfy: `Option` and `Result`.
- seqs.dfy: order-preserving filtering, and the multiset facts behind "acknowledged at most once".
- strings.dfy: decimal rendering, suffix and substring tests, and `str_replace`.
- digest_types.dfy: the legacy batch's users and their keyed `campaigns` arrays.
- rules.dfy: `Rules`, the choice between two readings of the code. Four of its rules do something other than what they evidently mean: in the legacy run, the tip title of a tip without a header, the `usort` comparator and the weekly subject rotation; in the consumer, the admission check `canProcess`. `AsWritten` follows the code; `Intended` follows the evident meaning (see "## Findings"). The markup, selection and submission stages, `generateDigests` and the consumer's run take the reading as a parameter. Every property that does not depend on the reading is proved for both.

PHP semantics are written out wherever they decide a branch:
- `isset` and NULL become `Option`.
- `== 'true'` on a boolean or a string is modelled as a loose comparison.
- `"" == FALSE` and `"0" == FALSE` apply to the subscriptions link.
- Nested ternaries group to the left.
- Numeric-string array keys are modelled.
- `$` in a regular expression also matches before a final newline.
- The divider test compares a count with a possibly sparse array key.
- A later nid overwrites an earlier one in `$globalMergeVars`, and key 0 is then overwritten by MEMBER_COUNT.
- PHP 7 semantics are assumed where PHP 8 differs: `count(FALSE)` is 1 in the campaigns test of `canProcess` (src/MBC_DigestEmail_Consumer.php:292), where PHP 8 throws a TypeError, and the unparenthesised nested ternary of the `usort` comparator (src/MBC_DigestEmail.php:634), which PHP 8 refuses to compile, groups to the left.

Some behaviours of the code are easy to miss; the model follows the code:
- The consumer keeps its campaign cache across flushes. Only `users` is unset (src/MBC_DigestEmail_Consumer.php:152).
- `campaignErrors` is never filled. The campaign class declares no such property, so the test at src/MBC_DigestEmail_Consumer.php:220 is always false.
- `getCampaignDetails` does not look at the HTTP status. Any non-FALSE body, an "access denied" body included, reaches `gatherCampaigns`, which then filters on the body's fields.
- The legacy run copies `latest_news_copy` without `strip_tags`. Only the tip copy is stripped. The campaign class strips both.
- The Mandrill call in `submitToMandrill` is commented out (src/MBC_DigestEmail.php:870), so as written the results are NULL. The model takes the send as a parameter and proves what happens when it is disabled (`DigestRun.DisabledSendKeepsRecipientsQueued`).

## Model

| member | source | states |
|---|---|---|
| CampaignActivity.LiveSlots | src/MBC_DigestEmail.php:314-318 | the kept signups are exactly the user's signups without a report-back |
| CampaignActivity.AddNids | src/MBC_DigestEmail.php:315-321 | `$targetCampaigns[$nid] = $nid` adds each live nid once: keys stay distinct, the earlier keys stay in front, and a nid is present iff it was before or is a live nid of the signups |
| CampaignActivity.TargetNids | src/MBC_DigestEmail.php:311-322 | over a whole batch the target list is duplicate-free and holds exactly the nids of the signups without a report-back |
| CampaignActivity.ProcessDigestCampaignActivity | src/MBC_DigestEmail.php:305-339 | survivors plus acks account for every user. No survivor has an empty list or a report-back. Every user with a live signup survives pruned, and every other user's tag is acked. Target campaigns are distinct and are exactly the live nids |
| CampaignActivity.SurvivorOrigin | src/MBC_DigestEmail.php:324-327 | every survivor comes from a user with a live signup: same index, same address, name, tag and uid, only report-backs removed |
| CampaignActivity.ActivityConservesTags | src/MBC_DigestEmail.php:324-332 | the acknowledged tags and the survivors' tags together are exactly the batch's tags, as multisets |
| CampaignActivity.AcksOnceAndRemoved | src/MBC_DigestEmail.php:328-331 | with distinct tags, a user left without signups is acked exactly once and is not among the survivors |
| CampaignActivity.ActivityAppend | src/MBC_DigestEmail.php:311-334 | users are handled independently and in order: survivors and acks of a concatenation are the concatenations |
| ContentApi.ApiUrl | src/MBC_DigestEmail_Campaign.php:218-224 | the URL is the host, then `:` and the port in decimal exactly when the port is numeric and non-zero, then `/api/v1/content/` and the nid |
| ContentApi.ApiUrlInjective | src/MBC_DigestEmail_Campaign.php:218-224 | different nids give different API URLs |
| ContentApi.NodeUrlInjective | src/MBC_DigestEmail_Campaign.php:154 | different nids give different public node URLs |
| CampaignObject.GatherSettings | src/MBC_DigestEmail_Campaign.php:229-240 | success iff the status is 200 and the body is an object. A 200 with an array body is its own failure. A 403 with an array body is "access denied". A 403 with an object body crashes at `$result[0][0]`, a PHP Error that is not an Exception. Every other outcome is the third failure |
| CampaignObject.Add | src/MBC_DigestEmail_Campaign.php:149-203 | a missing title fails first, then a missing cover image. On success the nid comes from the response and the url is the node URL. Optional fields are copied iff present, tip copy and news through `strip_tags`. `during_tip` stays unset |
| CampaignObject.Build | src/MBC_DigestEmail_Campaign.php:134-142 | construction succeeds iff the fetched response is a 200 object with a title and a cover image, and the url then names the built nid |
| CampaignDetails.GetCampaignDetails | src/MBC_DigestEmail.php:351-374 | the body of every non-NULL response whose body is not FALSE is passed on, a NULL body included, whatever the status. Nothing else is passed on. When every response is usable, the bodies come in target order |
| CampaignDetails.GetCampaignDetailsOrigin | src/MBC_DigestEmail.php:355-371 | every body passed on is the usable body of the response for one of the targets |
| CampaignDetails.GetCampaignDetailsAppend | src/MBC_DigestEmail.php:355-371 | targets are fetched independently and in order: the bodies for a concatenation of target lists are the concatenation of their bodies |
| CampaignDetails.GatherCampaigns | src/MBC_DigestEmail.php:385-431 | every active campaign node with a cover image yields a detail. No more details than bodies. Each detail links to its own node, and no eligible body gives no detail |
| CampaignDetails.DetailOrigin | src/MBC_DigestEmail.php:389-423 | every detail comes from an eligible body and copies its nid, title, staff-pick flag, cover, news and tip header |
| CampaignDetails.GatherAppend | src/MBC_DigestEmail.php:389-428 | the filter keeps input order |
| CampaignMarkup.Tip | src/MBC_DigestEmail.php:552-570 | non-empty news wins with "News from the team:". Otherwise a non-empty tip is titled by its header plus ':', or by the fallback title when there is no header. Otherwise title and body are empty. The body is empty iff the title is empty |
| CampaignMarkup.TipBranchAsWritten | src/MBC_DigestEmail.php:537-563 | as written: the news branch iff there is non-empty news. Otherwise the header branch iff there is a non-empty tip. The fallback branch is never taken |
| CampaignMarkup.TipAsWritten | src/MBC_DigestEmail.php:537-570 | as written: non-empty news wins with "News from the team:". Otherwise a non-empty tip is titled by its header plus ':', with '' standing in for a missing header. The body is empty iff there is neither news nor tip |
| CampaignMarkup.TipUnder | src/MBC_DigestEmail.php:537-570 | under either reading news comes first, the body is the news or the tip, and a block has a title iff it has a body. As written it is `TipAsWritten`, so a tip without a header is titled ":". Intended, it is `Tip` |
| CampaignMarkup.DefaultTipUnreachable | src/MBC_DigestEmail.php:537-563 | as written the "Tip from the team:" branch is never taken, because the header was defaulted to '' |
| CampaignMarkup.TipDiffersExactlyWithoutHeader | src/MBC_DigestEmail.php:556-563 | the code and the intended rule disagree exactly on a tip without a usable header, which the code titles ":" |
| CampaignMarkup.HeaderlessTipTitledColon | src/MBC_DigestEmail.php:537-563 | the concrete case: a campaign with tip "Bring jeans" and no header gets the title ":" as written, and "Tip from the team:" as intended |
| CampaignMarkup.BuildCampaignMarkup | src/MBC_DigestEmail.php:514-576 | a template holding none of the eleven placeholders comes back unchanged, under either reading of the tip rule |
| CampaignMarkup.PlaceholderRendered | src/MBC_DigestEmail.php:514-573 | under either reading, each of the eleven placeholders renders to its campaign value when the template is that placeholder with text without a `*` before and after it, and the value holds no `*` |
| CampaignMarkup.ApplyAllRendersOne | src/MBC_DigestEmail.php:541-573 | sequential `str_replace` of distinct `*|NAME|*` placeholders replaces the one placeholder in a template and leaves the star-free text around it alone |
| CampaignMarkup.TipTitleRendered | src/MBC_DigestEmail.php:545-570 | the tip-title placeholder renders to the tip title chosen under the run's reading, because the earlier replacements cannot disturb it |
| CampaignMarkup.CampaignVarsLastWins | src/MBC_DigestEmail.php:487-492 | the entry under a nid is the markup of the last detail with that nid |
| CampaignMarkup.ComposeGlobalMergeVars | src/MBC_DigestEmail.php:485-503 | the keys are 0 and the detail nids. Key 0 is MEMBER_COUNT, every other entry is named `campaign-<nid>`, and a nid's entry renders its last detail |
| CampaignSelection.Comparator | src/MBC_DigestEmail.php:633-640 | the intended comparator: 0 iff equal signup times, negative iff the first is earlier |
| CampaignSelection.ComparatorAsWritten | src/MBC_DigestEmail.php:633-640 | as written the comparator answers -1 whatever the two signups |
| CampaignSelection.ComparatorAsWrittenIsConstant | src/MBC_DigestEmail.php:634 | as written the comparator returns -1 for both orders of every pair |
| CampaignSelection.ComparatorIsOrder | src/MBC_DigestEmail.php:633-640 | the intended comparator is antisymmetric and transitive |
| CampaignSelection.SortBySignup | src/MBC_DigestEmail.php:633-640 | the sort is a permutation of its input and is ordered by signup time |
| CampaignSelection.SortStable | src/MBC_DigestEmail.php:633-640 | signups with equal times keep their relative order |
| CampaignSelection.InsertionSort | src/MBC_DigestEmail.php:633-640 | `usort` on a group of at most 16 signups: a permutation of its input. It is a plain linear insertion sort, which agrees with PHP 7's `zend_insert_sort` (fixed networks for 2 to 5 elements, binary insertion from the seventh) only for a comparator that never answers "greater", the only one it is applied to |
| CampaignSelection.InsertionSortNoPositive | src/MBC_DigestEmail.php:633-640 | a comparator that never answers "greater" leaves the group as it was |
| CampaignSelection.UsortAsWrittenKeepsOrder | src/MBC_DigestEmail.php:633-640 | with the comparator as written, each group keeps message order |
| CampaignSelection.GroupOrder | src/MBC_DigestEmail.php:633-640 | each group comes back as a permutation of itself. Under the intended reading it is in signup order. As written it is unchanged |
| CampaignSelection.FirstDetail | src/MBC_DigestEmail.php:605-621 | the matched detail carries the signup's nid, and there is none iff no detail has it |
| CampaignSelection.SelectedOrdered | src/MBC_DigestEmail.php:600-651 | under either reading the kept signups are known campaigns, staff picks before the rest, drawn from the matches without repetition. Under the intended reading each group is in signup order. As written the list is the first five of the staff picks followed by the others, in message order |
| CampaignSelection.SelectedStaffPriority | src/MBC_DigestEmail.php:642-651 | when anything besides staff picks is kept, every staff pick is kept |
| CampaignSelection.FilterUser | src/MBC_DigestEmail.php:595-654 | a user without a known campaign is unchanged. Otherwise only the list changes, to between 1 and 5 entries re-keyed from 0 |
| CampaignSelection.FilterUserShape | src/MBC_DigestEmail.php:598-653 | under either reading the new list has min(matches, 5) entries, all known, staff picks first, a sub-multiset of the matches that holds every staff pick when others are kept. Intended: each group sorted. As written: the first five matches, staff picks then others, in message order |
| CampaignSelection.FilterCampaigns | src/MBC_DigestEmail.php:593-658 | each user is filtered on its own, as `FilterUser` describes: same users in the same order with the same tags, addresses, names and indexes, and each is unchanged or has at most 5 campaigns |
| CampaignSelection.FilterCampaignsShape | src/MBC_DigestEmail.php:593-658 | over the batch, every user with a known signup keeps min(matches, 5) known signups, staff picks first, drawn from its own matches, and every staff pick when others are kept |
| UserMergeVars.CampaignsJoined | src/MBC_DigestEmail.php:706-715 | on a list re-keyed from 0 whose campaigns all have markup, the CAMPAIGNS block is the markups joined by the divider: a divider between neighbours, none at the end |
| UserMergeVars.CampaignsContent | src/MBC_DigestEmail.php:706-715 | a non-empty CAMPAIGNS block needs at least one signup whose campaign has a merge var |
| UserMergeVars.NoKnownCampaignNoContent | src/MBC_DigestEmail.php:706-718 | when none of the user's campaigns has a merge var the CAMPAIGNS block is empty, which `Dispose` treats as no campaigns |
| UserMergeVars.Dispose | src/MBC_DigestEmail.php:717-760 | empty content means no campaigns. A FALSE-like link ('', '0', FALSE) means link failure. The not-found marker means user-not-found. The link is used only when none of these hold |
| UserMergeVars.ComposeMergeVars | src/MBC_DigestEmail.php:695-770 | the kept users map one-to-one and in order to merge-var entries addressed to the user. Each entry holds FNAME, the user's own non-empty CAMPAIGNS block, and the subscriptions link `Dispose` accepted. Every sendable user is kept, and every empty or not-found user's tag is acked |
| UserMergeVars.ComposeConservesTags | src/MBC_DigestEmail.php:724-760 | the acked tags and the kept users' tags, taken together, are drawn from the input's tags: no tag is acked or kept more often than it occurs |
| UserMergeVars.ComposeAckOrigin | src/MBC_DigestEmail.php:717-760 | every ack is the tag of a user whose content was empty or who has no Drupal account |
| UserMergeVars.LinkFailedStaysQueued | src/MBC_DigestEmail.php:717-727 | with distinct tags, a user whose link could not be generated is neither acked nor sent to: the message stays queued |
| UserMergeVars.ComposeAppend | src/MBC_DigestEmail.php:703-762 | users are handled independently and in order |
| DigestSubmission.ComposeTo | src/MBC_DigestEmail.php:454-466 | NULL iff there are no users. Otherwise one entry per user, in order, with address, first name and "cc" under the `to` key |
| DigestSubmission.ToMatchesMergeVars | src/MBC_DigestEmail.php:454-466 | for every batch, the `to` list of the composed users is present iff there are merge vars, and its i-th address is the i-th merge vars' recipient |
| DigestSubmission.SubjectIndexAsWritten | src/MBC_DigestEmail.php:824 | the index as written never exceeds 8, so it is always in range but subjects 9 to 15 are never used |
| DigestSubmission.WeekNineRepeatsWeekSeven | src/MBC_DigestEmail.php:822-824 | as written week 8 uses subject 8, and week 9 falls back to subject 7, as week 7 did |
| DigestSubmission.SubjectIndex | src/MBC_DigestEmail.php:822-827 | the rotation is a valid index into the sixteen subjects and starts at the week number |
| DigestSubmission.SubjectIndexAdvances | src/MBC_DigestEmail.php:822-824 | each week moves to the next subject and wraps after the last. The rotation has period 16 |
| DigestSubmission.SubjectIndexReachesAll | src/MBC_DigestEmail.php:822-824 | the intended rotation reaches every subject |
| DigestSubmission.Subjects | src/MBC_DigestEmail.php:804-821 | sixteen non-empty subject lines. The date closes the fourth and opens the fifth and the eleventh |
| DigestSubmission.SubjectIndexUnder | src/MBC_DigestEmail.php:822-827 | under either reading the index is valid. As written it is at most 8. Intended, it is the week number for the first sixteen weeks |
| DigestSubmission.ComposeDigestSubmission | src/MBC_DigestEmail.php:787-839 | under either reading the subject is one of the sixteen, and as written one of the first nine. Intended, week W < 16 gets subject W. The sender is noreply@dosomething.org as "Ben, DoSomething.org", the tag list is ["digest"], and the recipients and merge vars are passed through |
| DigestSubmission.SubmitToMandrill | src/MBC_DigestEmail.php:845-873 | Mandrill is asked once, with template "mb-digest-v0-5-1", a blank "main" block and the submission unchanged, and its answer is returned |
| DigestSubmission.AckMatches | src/MBC_DigestEmail.php:157-163 | the nested loop acks every user whose address is among the results. An empty result list acks nobody |
| DigestSubmission.Reconcile | src/MBC_DigestEmail.php:156-167 | nothing is acked for NULL, FALSE or an empty result list. Otherwise every user whose address is reported is acked |
| DigestSubmission.ReconcileOrigin | src/MBC_DigestEmail.php:157-162 | every ack is the tag of a user whose address is in the results |
| DigestSubmission.AckMatchesOrigin | src/MBC_DigestEmail.php:157-163 | every ack of the nested loop is the tag of a user whose address is among the results |
| DigestSubmission.AckMatchesIsSelection | src/MBC_DigestEmail.php:157-162 | with distinct result addresses, the nested loop acks exactly the reported users, each once |
| DigestSubmission.ReconcileAcksOnce | src/MBC_DigestEmail.php:157-162 | with distinct result addresses no tag is acked more often than it occurs among the users sent to |
| DigestSubmission.DuplicateResultAcksTwice | src/MBC_DigestEmail.php:156-164 | when Mandrill repeats an address that two users share, each of their tags is acked twice, though each occurs once in the batch |
| DigestRun.GenerateDigests | src/MBC_DigestEmail.php:122-192 | an empty batch does nothing. Without campaign details every user is acked exactly once. A submitted message goes to a non-empty user list, with `to` and merge vars in the same order |
| DigestRun.RunSubject | src/MBC_DigestEmail.php:136-153 | a submitted message carries one of the sixteen subjects, and as written one of the first nine |
| DigestRun.RunAcksWithinBatch | src/MBC_DigestEmail.php:122-192 | when Mandrill never reports an address twice in one answer, every tag is acked at most as often as it occurs in the batch, whatever the content API and the link generator answer |
| DigestRun.RunAcksDistinct | src/MBC_DigestEmail.php:122-192 | with distinct batch tags and result addresses, no message is acked twice in a run |
| DigestRun.DisabledSendKeepsRecipientsQueued | src/MBC_DigestEmail.php:156-170 | with the send disabled, no user a digest was composed for is acked, so they stay queued |
| DigestRun.ReportedRecipientsAcked | src/MBC_DigestEmail.php:156-164 | a user a digest was submitted for, whose address Mandrill reports, is acked |
| DigestConsumer.WaitingUserMessages | src/MBC_DigestEmail_Consumer.php:165-174 | the count of waiting users, and 0 once the list is unset |
| DigestConsumer.SendBatch | src/MBC_DigestEmail_Consumer.php:331-348 | flush iff a full batch waits, or users wait and the queue reports no ready messages |
| DigestConsumer.ArrayKeyOf | src/MBC_DigestEmail_Consumer.php:260 | a missing address is the key "", and an address containing '@' stays a string key |
| DigestConsumer.CanProcess | src/MBC_DigestEmail_Consumer.php:258-298 | as written: admit iff the address is not an existing array key, and the address is present and not a mobile placeholder, and the uid and the campaigns are present |
| DigestConsumer.DuplicateCheckNeverFires | src/MBC_DigestEmail_Consumer.php:260 | for a real address the duplicate test never fires, because users sit under keys 0, 1, 2 and so on |
| DigestConsumer.ReportBackNeverRejected | src/MBC_DigestEmail_Consumer.php:281-289 | a message carrying a report-back passes the check as written |
| DigestConsumer.CanProcessIntended | src/MBC_DigestEmail_Consumer.php:258-298 | the intended check: the as-written field checks, plus rejection of an address already waiting and of a message with a report-back |
| DigestConsumer.BuildEntry | src/MBC_DigestEmail_Consumer.php:201-218 | the cache entry is the built object iff construction succeeds, and otherwise the failure recorded under the nid |
| DigestConsumer.CacheSignups | src/MBC_DigestEmail_Consumer.php:198-227 | afterwards every referenced nid is a key. Existing entries are unchanged, and new entries are the construction result for their nid |
| DigestConsumer.CacheSignupsBuildsOnce | src/MBC_DigestEmail_Consumer.php:200-227 | constructions are made only for missing nids, each at most once |
| DigestConsumer.CacheSignupsKeepsUsable | src/MBC_DigestEmail_Consumer.php:229-233 | the user gets exactly the signups whose cache entry is a campaign object, in message order |
| DigestConsumer.Setter | src/MBC_DigestEmail_Consumer.php:182-250 | the cache contract above. The result is FALSE iff no signup has a campaign object, and the user otherwise holds exactly those signups, the message's address and the payload |
| DigestConsumer.UsableSkipsFailures | src/MBC_DigestEmail_Consumer.php:229-233 | a kept campaign has a built cache entry and is one of the message's signups |
| DigestConsumer.Process | src/MBC_DigestEmail_Consumer.php:304-320 | the user, with its post-processed campaigns, is appended (recreating an unset list) iff it keeps a campaign, and otherwise the list is unchanged |
| DigestConsumer.StepWith | src/MBC_DigestEmail_Consumer.php:95-155 | one step for a given admission decision: below the batch size the message is acked once, otherwise not at all. Without admission nothing is built. Cache entries are never dropped or replaced. A flush hands over one batch and unsets the users |
| DigestConsumer.Step | src/MBC_DigestEmail_Consumer.php:95-155 | with the intended check, a message without an address or uid, with an address already waiting, or with a report-back builds nothing |
| DigestConsumer.StepAsWritten | src/MBC_DigestEmail_Consumer.php:95-155 | as written, only a missing address, uid or campaign list or a mobile placeholder address keeps a message from being resolved. Below the batch size, an address containing '@' gets all of its nids cached, even when it is already waiting |
| DigestConsumer.Admission | src/MBC_DigestEmail_Consumer.php:258-298 | the admission check of a reading: `CanProcess` as written, `CanProcessIntended` as intended |
| DigestConsumer.StepUnder | src/MBC_DigestEmail_Consumer.php:95-155 | the step of a reading: `StepAsWritten` as written, `Step` as intended |
| DigestConsumer.StepAcks | src/MBC_DigestEmail_Consumer.php:105-128 | below the batch size the message is acked exactly once, whatever the checks decide. Otherwise it is neither processed nor acked |
| DigestConsumer.StepFlush | src/MBC_DigestEmail_Consumer.php:130-153 | a flush happens iff the flush predicate holds after admission. It hands over the waiting users and resets the count to 0 |
| DigestConsumer.StepCache | src/MBC_DigestEmail_Consumer.php:200-227 | across a step, entries are never replaced, each nid is built at most once, and an admitted message's nids all become keys |
| DigestConsumer.StepKeepsEmailsDistinct | src/MBC_DigestEmail_Consumer.php:258-263 | with the intended check, waiting users never share an address |
| DigestConsumer.RunInvariants | src/MBC_DigestEmail_Consumer.php:95-155 | under either reading, over any sequence of messages the cache stays memoising and distinct payloads are never acked twice. Only with the intended check do waiting addresses stay distinct; as written they do not (`DuplicateAddressAdmittedTwice`) |
| DigestConsumer.Run | src/MBC_DigestEmail_Consumer.php:95-155 | under either reading, over any sequence of messages the acks and the handed-over batches only grow, by at most one ack per message, and cache entries are never dropped or replaced |
| DigestConsumer.DuplicateAddressAdmittedTwice | src/MBC_DigestEmail_Consumer.php:260 | as written, two messages for one address both join the batch |
| DigestConsumer.DuplicateAddressAdmittedOnce | src/MBC_DigestEmail_Consumer.php:258-263 | with the intended check the second message is rejected but still acked |

## Left out

- `consumeUserDigestQueue` (src/MBC_DigestEmail.php:196-290) is left out: it is syntactically broken and is queue I/O. The run starts from the consumed batch. That function also acks each message on receipt (line 244), so the later acks of the real run would repeat those tags. The model records only the run's own acks.
- `generateDigests` first reads `$this->rabbitManagement`, which is never initialised (line 124). That call is left out, because as written it would end the run.
- RabbitMQ channels, the StatHat reporting and the `MB_Configuration` singleton are left out: they are I/O. An ack is an entry appended to a log.
- `submitToMandrill` is reduced to the request it builds: template name, blank "main" block and message. The send is a parameter, and the debug `echo` loop over the merge vars is dropped.
- `MBC_DigestEmail_User` is not part of this model. Its constructor and `set*` methods become a plain copy of the message's fields into `DigestConsumer.DigestUser`, `addCampaign` becomes appending `(nid, signup)` to its list, and `getSubsciptionsURL` is left out. `DigestConsumer.Setter`'s "exactly the usable signups" rests on `addCampaign` appending. The messenger's `addCampaign` and `addUser` calls are left out; only the batch handed over at a flush is recorded.
- curl, `subscriptionsLinkGenerator`, `getDSMemberCount`, `MBC_DigestEmail_User::processUserCampaigns` and `Messenger::sendDigestBatch` are parameters, because their code is not part of this model. The messenger is represented by the list of batches handed to it.
- The markup and divider files read with `file_get_contents` are string parameters. `strip_tags` is an arbitrary function. The ISO week number and `date('F j')` are passed in.
- `round()` on a float is replaced by the exact integer form `(W + 8) div 16`, which agrees with it for every week number W >= 0 because W/16 is exact in binary.
- The season, starter-statement and solution fields `gatherCampaigns` copies are left out: no later stage reads them.
- `is_staff_pick` as a JSON number is left out. Only booleans and strings are modelled.
- A port given as a float is left out. A port is absent, an integer, or a non-numeric string.
- `DigestSubmission.Reconcile` compares addresses as strings. PHP's loose `==` would also equate two different numeric strings, which an e-mail address never is.
- `CampaignMarkup.ComposeGlobalMergeVars` returns a map, so the order of the PHP array's entries in the submission is not modelled.
- CampaignSelection.GroupOrder: as written, `usort` is modelled as a plain linear insertion sort. PHP 7 sorts arrays of at most 16 elements with `zend_insert_sort`, which uses fixed networks for 2 to 5 elements and binary insertion from the seventh; the two agree only because the comparator never answers "greater", which leaves any insertion sort's input in place. For a larger group, or under PHP 5's quicksort, the constant comparator leaves the group in an order the model does not describe.
- DigestConsumer.BuildEntry: a construction that crashes on a 403 with an object body is cached like any other failure. In PHP the Error escapes `catch (Exception $e)` and stops the consumer, which the model does not represent.
- DigestRun.RunAcksWithinBatch: assumes Mandrill reports each address at most once per answer. Without that, `DigestSubmission.DuplicateResultAcksTwice` shows a tag acked twice.
- `echo` logging is left out.

## Findings

| source | as written | input that shows it | evidently intended | confidence | as-written member | corrected member |
|---|---|---|---|---|---|---|
| src/MBC_DigestEmail.php:634 | the nested ternary groups to the left, so the comparator returns -1 for every pair, and `usort` leaves each group in message order | staff picks signed up at times 300, 100, 200 stay in that order; both orders of any pair compare as -1 | order each group by signup time, earliest first | not executed | CampaignSelection.UsortAsWrittenKeepsOrder | CampaignSelection.SortBySignup |
| src/MBC_DigestEmail_Consumer.php:260 | the duplicate test looks the address up as an array key, but `process` appends users under 0, 1, 2 (line 312) | two messages for "a@x.org": both are admitted and the batch holds the address twice | reject a message whose address already waits | not executed | DigestConsumer.DuplicateAddressAdmittedTwice | DigestConsumer.DuplicateAddressAdmittedOnce |
| src/MBC_DigestEmail_Consumer.php:282 | the report-back loop runs only when `campaigns` is not set, so it never inspects a real list | a message with address, uid and a signup carrying a report-back is admitted | reject a message carrying a report-back | not executed | DigestConsumer.ReportBackNeverRejected | DigestConsumer.CanProcessIntended |
| src/MBC_DigestEmail.php:562 | lines 537-539 default the header to '', so the inner test at line 557 always passes and the fallback title is unreachable | a campaign with tip "Bring jeans" and no header: its tip is titled ":" | title a header-less tip "Tip from the team:" | not executed | CampaignMarkup.HeaderlessTipTitledColon | CampaignMarkup.Tip |
| src/MBC_DigestEmail.php:824 | the distance from W to the nearest multiple of 16 lies in 0..8, so subjects 9 to 15 are never used and the rotation runs back down | ISO week 9 gives index 7, the subject of week 7 | the next subject each week, wrapping after the sixteenth | not executed | DigestSubmission.WeekNineRepeatsWeekSeven | DigestSubmission.SubjectIndexAdvances |
