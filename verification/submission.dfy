/**
 * The last steps of the legacy digest run: the Mandrill `to` list, the message
 * submission with its weekly rotating subject line, the send-template request, and
 * the acknowledgement of every queued user Mandrill reports a result for.
 */
module DigestSubmission {
  import opened Common
  import opened Seqs
  import opened DigestTypes
  import opened CampaignMarkup
  import opened UserMergeVars
  import opened DigestRules

  /**
   * One entry of Mandrill's `to` list. `toKey` is the value stored under the
   * entry's `to` key; Mandrill takes the header type from a `type` key, which the
   * entry does not have, so the recipient gets the default "to" header.
   */
  datatype Recipient = Recipient(email: string, name: string, toKey: string)

  /**
   * `composeTo`: one entry per user, in batch order, with "cc" under the `to` key.
   * With no users the PHP array is never created and the function returns NULL.
   */
  function ComposeTo(users: seq<Entry>): (r: Option<seq<Recipient>>)
    ensures r.None? <==> users == []
    ensures r.Some? ==> |r.value| == |users|
    ensures r.Some? ==> forall i :: 0 <= i < |users| ==>
              r.value[i].email == users[i].user.email && r.value[i].name == users[i].user.fname && r.value[i].toKey == "cc"
  {
    if users == [] then None
    else Some(seq(|users|, i requires 0 <= i < |users| => Recipient(users[i].user.email, users[i].user.fname, "cc")))
  }


  /**
   * The sixteen subject lines; `monthDay` is `date('F j')`, e.g. "March 7". The
   * date closes the fourth line and opens the fifth and the eleventh.
   */
  function Subjects(monthDay: string): (r: seq<string>)
    ensures |r| == 16
    ensures forall i :: 0 <= i < 16 ==> r[i] != ""
    ensures |monthDay| <= |r[3]| && r[3][|r[3]| - |monthDay|..] == monthDay
    ensures |monthDay| <= |r[4]| && r[4][..|monthDay|] == monthDay
    ensures |monthDay| <= |r[10]| && r[10][..|monthDay|] == monthDay
  {
    [ "Your weekly DoSomething campaign digest",
      "Your weekly DoSomething.org campaign roundup!",
      "A weekly campaign digest just for you!",
      "Your weekly campaign digest: " + monthDay,
      monthDay + ": Your weekly campaign digest!",
      "Tips for your DoSomething.org campaigns!",
      "Comin' atcha: tips for your DoSomething.org campaign!",
      "*|FNAME|* - It's your " + monthDay + " campaign digest",
      "Just for you: DoSomething.org campaign tips",
      "Your weekly campaign tips from DoSomething.org",
      monthDay + ": campaign tips from DoSomething.org",
      "You signed up for campaigns. Here's how to rock them!",
      "Tips for you (and only you!)",
      "Ready for your weekly campaign tips?",
      "Your weekly campaign tips: comin' atcha!",
      "Fresh out the oven (just for you!)" ]
  }

  /**
   * The subject index as written: `abs(W - round(W / 16) * 16)` for the ISO week
   * number W. `W / 16` is exact in binary floating point and `round` takes halves
   * away from zero, so for W >= 0 the rounding is `(W + 8) div 16`. The distance
   * from the nearest multiple of 16 is at most 8: subjects 9 to 15 are never used.
   */
  function SubjectIndexAsWritten(week: nat): (r: nat)
    ensures r <= 8
  {
    var nearest := 16 * ((week + 8) / 16);
    assert week + 8 - nearest < 16;
    if week >= nearest then week - nearest else nearest - week
  }

  /**
   * The rotation as written is not sequential: week 8 uses subject 8, week 9 falls
   * back to subject 7, the one week 7 already used.
   */
  lemma WeekNineRepeatsWeekSeven()
    ensures SubjectIndexAsWritten(8) == 8
    ensures SubjectIndexAsWritten(9) == 7 && SubjectIndexAsWritten(7) == 7
  {
  }

  /** The rotation the comment describes: the next subject each week, wrapping at the end. */
  function SubjectIndex(week: nat): (r: nat)
    ensures r < |Subjects("")|
    ensures week < 16 ==> r == week
  {
    week % 16
  }

  /**
   * Each week moves to the next subject, after the last one back to the first, so
   * every subject is used once in any sixteen consecutive weeks.
   */
  lemma SubjectIndexAdvances(week: nat)
    ensures SubjectIndex(week + 1) == if SubjectIndex(week) == 15 then 0 else SubjectIndex(week) + 1
    ensures SubjectIndex(week + 16) == SubjectIndex(week)
  {
  }

  lemma SubjectIndexReachesAll(week: nat, i: nat)
    requires i < 16
    ensures SubjectIndex(16 * week + i) == i
  {
  }

  /**
   * The subject index a run uses: the rotation as written or the sequential one
   * the comment describes.
   */
  function SubjectIndexUnder(rules: Rules, week: nat): (r: nat)
    ensures r < 16
    ensures rules.AsWritten? ==> r <= 8
    ensures rules.Intended? && week < 16 ==> r == week
  {
    match rules
    case AsWritten => SubjectIndexAsWritten(week)
    case Intended => SubjectIndex(week)
  }

  /** The message submitted to Mandrill's send-template call. */
  datatype Submission = Submission(
    subject: string,
    fromEmail: string,
    fromName: string,
    to: Option<seq<Recipient>>,
    globalMergeVars: map<nat, MergeVar>,
    mergeVars: seq<RecipientVars>,
    tags: seq<string>)

  /**
   * `composeDigestSubmission`; the week and the date are the run's clock. Under
   * either rule the subject is one of the sixteen; as written it is one of the
   * first nine.
   */
  function ComposeDigestSubmission(to: Option<seq<Recipient>>, mergeVars: seq<RecipientVars>,
                                   globalMergeVars: map<nat, MergeVar>, week: nat, monthDay: string,
                                   rules: Rules): (r: Submission)
    ensures r.subject in Subjects(monthDay)
    ensures rules.Intended? && week < 16 ==> r.subject == Subjects(monthDay)[week]
    ensures rules.AsWritten? ==> r.subject in Subjects(monthDay)[..9]
    ensures r.fromEmail == "noreply@dosomething.org" && r.fromName == "Ben, DoSomething.org"
    ensures r.to == to && r.mergeVars == mergeVars && r.globalMergeVars == globalMergeVars
    ensures r.tags == ["digest"]
  {
    Submission(Subjects(monthDay)[SubjectIndexUnder(rules, week)], "noreply@dosomething.org", "Ben, DoSomething.org",
               to, globalMergeVars, mergeVars, ["digest"])
  }

  /** The send-template request: template name, the blank "main" block, and the message. */
  datatype SendRequest = SendRequest(templateName: string, templateContent: seq<MergeVar>, message: Submission)

  /**
   * What Mandrill answers: the e-mail address of every result entry, or `None` for
   * a NULL or FALSE answer.
   */
  type SendResults = Option<seq<string>>

  const TemplateName := "mb-digest-v0-5-1"

  /**
   * `submitToMandrill`, with Mandrill's send as a parameter: the send is asked once,
   * with the digest template, a blank "main" block and the message unchanged.
   */
  function SubmitToMandrill(s: Submission, send: SendRequest -> SendResults): (r: SendResults)
    ensures exists req :: r == send(req) && req.templateName == "mb-digest-v0-5-1"
                          && req.templateContent == [MergeVar("main", "")] && req.message == s
  {
    send(SendRequest(TemplateName, [MergeVar("main", "")], s))
  }

  /** The send as it stands in the source: the call is commented out and NULL comes back. */
  function SendDisabled(req: SendRequest): SendResults {
    None
  }

  /** The tags of the users whose address equals `email`, in batch order. */
  function MatchingTags(email: string, users: seq<Entry>): seq<DeliveryTag> {
    FilterMap((e: Entry) => e.user.email == email, (e: Entry) => e.user.deliveryTag, users)
  }

  /** The nested loop over Mandrill's results and the users: one ack per matching pair. */
  function AckMatches(results: seq<string>, users: seq<Entry>): (r: seq<DeliveryTag>)
    ensures forall j :: 0 <= j < |users| && users[j].user.email in results ==> users[j].user.deliveryTag in r
    ensures results == [] ==> r == []
    decreases |results|
  {
    if results == [] then []
    else
      var head := MatchingTags(results[0], users);
      var rest := AckMatches(results[1..], users);
      assert forall j :: 0 <= j < |users| && users[j].user.email in results && users[j].user.email != results[0] ==>
               users[j].user.email in results[1..];
      head + rest
  }

  /**
   * The acknowledgements after the send. An empty result array is falsy in PHP, so
   * nothing is acknowledged for it, as for NULL or FALSE.
   */
  function Reconcile(results: SendResults, users: seq<Entry>): (r: seq<DeliveryTag>)
    ensures results.None? || results.value == [] ==> r == []
    ensures results.Some? ==>
              forall j :: 0 <= j < |users| && users[j].user.email in results.value ==> users[j].user.deliveryTag in r
  {
    match results
    case None => []
    case Some(rs) => if rs == [] then [] else AckMatches(rs, users)
  }

  /** Every acknowledged tag belongs to a user whose address Mandrill reported. */
  lemma ReconcileOrigin(results: SendResults, users: seq<Entry>, i: nat) returns (j: nat)
    requires i < |Reconcile(results, users)|
    ensures results.Some? && j < |users| && users[j].user.email in results.value
    ensures Reconcile(results, users)[i] == users[j].user.deliveryTag
  {
    j := AckMatchesOrigin(results.value, users, i);
  }

  lemma {:induction false} AckMatchesOrigin(results: seq<string>, users: seq<Entry>, i: nat) returns (j: nat)
    requires i < |AckMatches(results, users)|
    ensures j < |users| && users[j].user.email in results
    ensures AckMatches(results, users)[i] == users[j].user.deliveryTag
    decreases |results|
  {
    var head := MatchingTags(results[0], users);
    var rest := AckMatches(results[1..], users);
    assert AckMatches(results, users) == head + rest;
    if i < |head| {
      j := FilterMapOrigin((e: Entry) => e.user.email == results[0], (e: Entry) => e.user.deliveryTag, users, i);
    } else {
      j := AckMatchesOrigin(results[1..], users, i - |head|);
      assert AckMatches(results, users)[i] == rest[i - |head|];
    }
  }

  /** The tags of any selection of users form a sub-multiset of the batch's tags. */
  lemma {:induction false} SelectedTagsSub(p: Entry -> bool, users: seq<Entry>)
    ensures multiset(FilterMap(p, (e: Entry) => e.user.deliveryTag, users)) <= multiset(Tags(users))
    decreases |users|
  {
    if users != [] {
      SelectedTagsSub(p, users[1..]);
      assert Tags(users) == [users[0].user.deliveryTag] + Tags(users[1..]);
    }
  }

  /**
   * With distinct addresses in the results, the nested loop acknowledges exactly
   * the users whose address was reported, each once.
   */
  lemma {:induction false} AckMatchesIsSelection(results: seq<string>, users: seq<Entry>)
    requires NoDup(results)
    ensures multiset(AckMatches(results, users)) ==
            multiset(FilterMap((e: Entry) => e.user.email in results, (e: Entry) => e.user.deliveryTag, users))
    decreases |results|
  {
    var tag := (e: Entry) => e.user.deliveryTag;
    if results == [] {
      FilterMapNone((e: Entry) => e.user.email in results, tag, users);
    } else {
      var rest := results[1..];
      assert NoDup(rest) by {
        forall a, b | 0 <= a < b < |rest| ensures rest[a] != rest[b] {
          assert rest[a] == results[a + 1] && rest[b] == results[b + 1];
        }
      }
      assert results[0] !in rest by {
        forall k | 0 <= k < |rest| ensures rest[k] != results[0] {
          assert rest[k] == results[k + 1];
        }
      }
      AckMatchesIsSelection(rest, users);
      assert forall x :: x in results <==> x == results[0] || x in rest by {
        assert results == [results[0]] + rest;
      }
      FilterMapDisjoint((e: Entry) => e.user.email == results[0], (e: Entry) => e.user.email in rest,
                        (e: Entry) => e.user.email in results, tag, users);
    }
  }

  /**
   * With distinct addresses in Mandrill's results, no tag is acknowledged more
   * often than it occurs in the users sent to.
   */
  lemma ReconcileAcksOnce(results: SendResults, users: seq<Entry>)
    requires results.Some? ==> NoDup(results.value)
    ensures multiset(Reconcile(results, users)) <= multiset(Tags(users))
  {
    if results.Some? && results.value != [] {
      AckMatchesIsSelection(results.value, users);
      SelectedTagsSub((e: Entry) => e.user.email in results.value, users);
    }
  }

  /**
   * The `to` list and the merge vars of a composed batch line up entry by entry:
   * the i-th recipient is the address the i-th merge vars are for.
   */
  lemma ToMatchesMergeVars(users: seq<Entry>, vars: map<nat, MergeVar>, env: MergeEnv)
    ensures var m := ComposeMergeVars(users, vars, env);
            && (ComposeTo(m.users).Some? <==> m.mergeVars != [])
            && (ComposeTo(m.users).Some? ==>
                  && |ComposeTo(m.users).value| == |m.mergeVars|
                  && forall i :: 0 <= i < |m.mergeVars| ==> ComposeTo(m.users).value[i].email == m.mergeVars[i].rcpt)
  {
  }

  /**
   * Distinct addresses in the results matter: when Mandrill repeats an address
   * that two queued users share, the nested loop acknowledges each of their tags
   * twice.
   */
  lemma DuplicateResultAcksTwice()
    ensures var users := [Entry(0, TargetUser("a", "", [], 1, None)), Entry(1, TargetUser("a", "", [], 2, None))];
            var r := Reconcile(Some(["a", "a"]), users);
            multiset(r)[1] == 2 && multiset(r)[2] == 2 && multiset(Tags(users))[1] == 1
  {
    var users := [Entry(0, TargetUser("a", "", [], 1, None)), Entry(1, TargetUser("a", "", [], 2, None))];
    assert MatchingTags("a", users) == [1, 2];
    assert Reconcile(Some(["a", "a"]), users) == [1, 2, 1, 2];
  }
}
