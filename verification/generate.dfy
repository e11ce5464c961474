/**
 * `generateDigests`: the whole legacy run over one batch of queued users. Users
 * without a live signup are acknowledged first; when no campaign survives the
 * content-API lookup every user is acknowledged; otherwise the users left after
 * campaign selection and link generation get one Mandrill message, and the users
 * Mandrill reports on are acknowledged.
 */
module DigestRun {
  import opened Common
  import opened Seqs
  import opened DigestTypes
  import opened CampaignObject
  import opened CampaignActivity
  import opened CampaignDetails
  import opened CampaignMarkup
  import opened CampaignSelection
  import opened UserMergeVars
  import opened DigestSubmission
  import opened DigestRules

  /**
   * Everything the run reads from outside: the content API, the campaign markup
   * template, the member count for the footer, the divider and link generator,
   * Mandrill's send, the clock (ISO week number and `date('F j')`), and which
   * reading of the tip title, the signup comparator and the subject rotation the
   * run follows.
   */
  datatype DigestEnv = DigestEnv(
    api: ApiConfig,
    template: string,
    memberCount: string,
    merge: MergeEnv,
    send: SendRequest -> SendResults,
    week: nat,
    monthDay: string,
    rules: Rules)

  /** Where the run stopped. */
  datatype Outcome =
    | EmptyBatch
    | NoCampaignDetails
    | AllDisqualified
    | Submitted(message: Submission, sentTo: seq<Entry>, results: SendResults)

  /** The delivery tags acknowledged, in the order the run acknowledges them, and the outcome. */
  datatype Run = Run(acks: seq<DeliveryTag>, outcome: Outcome)

  /**
   * Every intermediate value of a run. Each stage is a total function, so the
   * values are defined even where the run stops before reaching them.
   */
  datatype Trace = Trace(
    activity: ActivityResult,
    details: seq<Detail>,
    globalVars: map<nat, MergeVar>,
    filtered: seq<Entry>,
    merged: MergeResult,
    message: Submission,
    results: SendResults)

  function RunTrace(batch: seq<Entry>, env: DigestEnv): Trace {
    var activity := ProcessDigestCampaignActivity(batch);
    var details := GatherCampaigns(GetCampaignDetails(env.api, activity.targetCampaigns), env.api.stripTags);
    var globalVars := ComposeGlobalMergeVars(env.template, details, env.memberCount, env.rules);
    var filtered := FilterCampaigns(activity.users, details, globalVars, env.rules);
    var merged := ComposeMergeVars(filtered, globalVars, env.merge);
    var message := ComposeDigestSubmission(ComposeTo(merged.users), merged.mergeVars, globalVars, env.week, env.monthDay, env.rules);
    Trace(activity, details, globalVars, filtered, merged, message, SubmitToMandrill(message, env.send))
  }

  /** `generateDigests` over a consumed batch. */
  function GenerateDigests(batch: seq<Entry>, env: DigestEnv): (r: Run)
    ensures batch == [] <==> r.outcome.EmptyBatch?
    ensures batch == [] ==> r.acks == []
    ensures r.outcome.NoCampaignDetails? ==> multiset(r.acks) == multiset(Tags(batch))
    ensures r.outcome.Submitted? ==>
              && r.outcome.sentTo != []
              && r.outcome.message.to == ComposeTo(r.outcome.sentTo)
              && r.outcome.message.tags == ["digest"]
              && |r.outcome.message.mergeVars| == |r.outcome.sentTo|
              && (forall i :: 0 <= i < |r.outcome.sentTo| ==>
                    r.outcome.message.mergeVars[i].rcpt == r.outcome.sentTo[i].user.email)
  {
    var t := RunTrace(batch, env);
    if batch == [] then Run([], EmptyBatch)
    else if |t.details| == 0 then
      TraceActivity(batch, env);
      Run(t.activity.acks + Tags(t.activity.users), NoCampaignDetails)
    else if |t.merged.users| == 0 then
      Run(t.activity.acks + t.merged.acks, AllDisqualified)
    else
      Run(t.activity.acks + t.merged.acks + Reconcile(t.results, t.merged.users),
          Submitted(t.message, t.merged.users, t.results))
  }

  /**
   * A submitted message carries one of the sixteen subjects; the rotation as
   * written only ever reaches the first nine.
   */
  lemma RunSubject(batch: seq<Entry>, env: DigestEnv)
    requires GenerateDigests(batch, env).outcome.Submitted?
    ensures var m := GenerateDigests(batch, env).outcome.message;
            && m.subject in Subjects(env.monthDay)
            && (env.rules.AsWritten? ==> m.subject in Subjects(env.monthDay)[..9])
  {
    var t := RunTrace(batch, env);
    assert GenerateDigests(batch, env).outcome.message == t.message;
  }

  /** The activity stage acknowledges or keeps every user of the batch, once. */
  lemma TraceActivity(batch: seq<Entry>, env: DigestEnv)
    ensures var t := RunTrace(batch, env);
            multiset(t.activity.acks) + multiset(Tags(t.activity.users)) == multiset(Tags(batch))
  {
    ActivityConservesTags(batch);
  }

  /** Selection keeps the users; composing merge vars acks or keeps each at most once. */
  lemma TraceMerged(batch: seq<Entry>, env: DigestEnv)
    ensures var t := RunTrace(batch, env);
            multiset(t.merged.acks) + multiset(Tags(t.merged.users)) <= multiset(Tags(t.activity.users))
  {
    var t := RunTrace(batch, env);
    ComposeConservesTags(t.filtered, t.globalVars, env.merge);
  }

  /** The send stage acks only users it was given, each at most once. */
  lemma {:induction false} SendAcksWithin(message: Submission, send: SendRequest -> SendResults, users: seq<Entry>)
    requires DistinctResults(send)
    ensures multiset(Reconcile(SubmitToMandrill(message, send), users)) <= multiset(Tags(users))
  {
    ReconcileAcksOnce(SubmitToMandrill(message, send), users);
  }

  /** With the send disabled the send stage acks nobody. */
  lemma DisabledSendAcksNobody(message: Submission, send: SendRequest -> SendResults, users: seq<Entry>)
    requires forall req :: send(req) == SendDisabled(req)
    ensures Reconcile(SubmitToMandrill(message, send), users) == []
  {
    assert SubmitToMandrill(message, send) == SendDisabled(SendRequest(TemplateName, [MergeVar("main", "")], message));
  }

  /** Mandrill never reports the same address twice in one answer. */
  ghost predicate DistinctResults(send: SendRequest -> SendResults) {
    forall req :: send(req).Some? ==> NoDup(send(req).value)
  }

  /**
   * Tags are acknowledged at most as often as they occur in the batch, whatever
   * the content API, the link generator and Mandrill answer.
   */
  lemma RunAcksWithinBatch(batch: seq<Entry>, env: DigestEnv)
    requires DistinctResults(env.send)
    ensures multiset(GenerateDigests(batch, env).acks) <= multiset(Tags(batch))
  {
    var t := RunTrace(batch, env);
    TraceActivity(batch, env);
    TraceMerged(batch, env);
    SendAcksWithin(t.message, env.send, t.merged.users);
    var a, m, s := t.activity.acks, t.merged.acks, Reconcile(t.results, t.merged.users);
    assert multiset(a + m + s) == multiset(a) + multiset(m) + multiset(s);
    assert multiset(a + m) == multiset(a) + multiset(m);
  }

  /**
   * With distinct delivery tags in the batch, no message is acknowledged twice in
   * one run: a double ack would close the channel.
   */
  lemma RunAcksDistinct(batch: seq<Entry>, env: DigestEnv)
    requires NoDup(Tags(batch))
    requires DistinctResults(env.send)
    ensures NoDup(GenerateDigests(batch, env).acks)
  {
    RunAcksWithinBatch(batch, env);
    SubMultisetNoDup(GenerateDigests(batch, env).acks, Tags(batch));
  }

  /**
   * With the send left disabled, as in the source, no user a digest was composed for
   * is acknowledged: their messages stay queued for the next run.
   */
  lemma DisabledSendKeepsRecipientsQueued(batch: seq<Entry>, env: DigestEnv, i: nat)
    requires NoDup(Tags(batch))
    requires forall req :: env.send(req) == SendDisabled(req)
    requires GenerateDigests(batch, env).outcome.Submitted? && i < |GenerateDigests(batch, env).outcome.sentTo|
    ensures GenerateDigests(batch, env).outcome.sentTo[i].user.deliveryTag !in GenerateDigests(batch, env).acks
  {
    var t := RunTrace(batch, env);
    DisabledRun(batch, env);
    TraceActivity(batch, env);
    TraceMerged(batch, env);
    KeptNotAcked(t.activity.acks, t.merged.acks, Tags(t.merged.users), Tags(t.activity.users), Tags(batch), i);
  }

  /** A submitted run with the send disabled acks only in its first two stages. */
  lemma DisabledRun(batch: seq<Entry>, env: DigestEnv)
    requires forall req :: env.send(req) == SendDisabled(req)
    requires GenerateDigests(batch, env).outcome.Submitted?
    ensures var t := RunTrace(batch, env);
            && GenerateDigests(batch, env).acks == t.activity.acks + t.merged.acks
            && GenerateDigests(batch, env).outcome.sentTo == t.merged.users
  {
    var t := RunTrace(batch, env);
    DisabledSendAcksNobody(t.message, env.send, t.merged.users);
  }

  /**
   * Tags drawn without repetition from a duplicate-free batch, first split into
   * acked `a` and kept `k1`, then `k1` into acked `m`, kept `kept` and dropped:
   * nothing kept at the end was acked on the way.
   */
  lemma KeptNotAcked(a: seq<DeliveryTag>, m: seq<DeliveryTag>, kept: seq<DeliveryTag>,
                     k1: seq<DeliveryTag>, all: seq<DeliveryTag>, i: nat)
    requires NoDup(all)
    requires multiset(a) + multiset(k1) == multiset(all)
    requires multiset(m) + multiset(kept) <= multiset(k1)
    requires i < |kept|
    ensures kept[i] !in a + m
  {
    assert multiset((a + m) + kept) == multiset(a) + multiset(m) + multiset(kept);
    SubMultisetNoDup((a + m) + kept, all);
    if kept[i] in a + m {
      AckedOnce(a + m, kept, kept[i]);
    }
  }

  /**
   * When Mandrill reports every recipient, each user a digest went to is
   * acknowledged.
   */
  lemma ReportedRecipientsAcked(batch: seq<Entry>, env: DigestEnv, i: nat)
    requires GenerateDigests(batch, env).outcome.Submitted?
    requires var o := GenerateDigests(batch, env).outcome;
             i < |o.sentTo| && o.results.Some? && o.sentTo[i].user.email in o.results.value
    ensures GenerateDigests(batch, env).outcome.sentTo[i].user.deliveryTag in GenerateDigests(batch, env).acks
  {
  }
}
