/**
 * `composeMergeVars`: each user's CAMPAIGNS block is the concatenation of the
 * markup of their known campaigns, with a divider between entries. A user then
 * gets a merge-var entry, is acknowledged and dropped (nothing to send, or no
 * Drupal account), or is dropped without an ack (the link could not be made, so
 * the message stays queued for the next run).
 */
module UserMergeVars {
  import opened Common
  import opened Seqs
  import Strings
  import opened DigestTypes
  import opened CampaignMarkup

  /** What the subscriptions-link generator returns: FALSE, or a string. */
  datatype LinkResult = LinkFalse | LinkText(text: string)

  /** `$link == FALSE` under PHP's loose comparison: FALSE itself, '' and '0'. */
  predicate LinkIsFalse(l: LinkResult) {
    l.LinkFalse? || l.text == "" || l.text == "0"
  }

  const NotFoundMarker := "ERROR - Drupal user not found by email."

  /**
   * The CAMPAIGNS content: for every signup whose campaign has a merge var, its
   * markup, followed by the divider when the signup's array key is below
   * `count - 1` (`count` is the size of the whole list).
   */
  function CampaignsContent(slots: seq<Slot>, count: int, vars: map<nat, MergeVar>, divider: string): (r: string)
    ensures r != "" ==> exists k :: 0 <= k < |slots| && slots[k].activity.nid in vars
    decreases |slots|
  {
    if slots == [] then ""
    else
      var s := slots[0];
      var block := if s.activity.nid in vars
                   then vars[s.activity.nid].content + (if count - 1 > s.key then divider else "")
                   else "";
      block + CampaignsContent(slots[1..], count, vars, divider)
  }

  /** `parts` joined with `sep` between neighbours. */
  function Join(parts: seq<string>, sep: string): string {
    if parts == [] then ""
    else if |parts| == 1 then parts[0]
    else parts[0] + sep + Join(parts[1..], sep)
  }

  /** The markup of each signup's campaign, in list order. */
  function Contents(slots: seq<Slot>, vars: map<nat, MergeVar>): (r: seq<string>)
    ensures |r| == |slots|
  {
    if slots == [] then []
    else
      [if slots[0].activity.nid in vars then vars[slots[0].activity.nid].content else ""] +
      Contents(slots[1..], vars)
  }

  /**
   * On a list re-keyed from 0 whose campaigns all have merge vars, the divider
   * goes exactly between neighbours: the content is the markups joined by it.
   */
  lemma CampaignsJoined(slots: seq<Slot>, vars: map<nat, MergeVar>, divider: string)
    requires DenseKeys(slots)
    requires forall k :: 0 <= k < |slots| ==> slots[k].activity.nid in vars
    ensures CampaignsContent(slots, |slots|, vars, divider) == Join(Contents(slots, vars), divider)
  {
    CampaignsJoinedFrom(slots, 0, vars, divider);
  }

  lemma {:induction false} CampaignsJoinedFrom(slots: seq<Slot>, base: nat, vars: map<nat, MergeVar>, divider: string)
    requires forall k :: 0 <= k < |slots| ==> slots[k].key == base + k
    requires forall k :: 0 <= k < |slots| ==> slots[k].activity.nid in vars
    ensures CampaignsContent(slots, base + |slots|, vars, divider) == Join(Contents(slots, vars), divider)
    decreases |slots|
  {
    if slots != [] {
      var tail := slots[1..];
      assert forall k :: 0 <= k < |tail| ==> tail[k] == slots[k + 1];
      CampaignsJoinedFrom(tail, base + 1, vars, divider);
      CampaignsContentCount(tail, base + |slots|, base + 1 + |tail|, vars, divider);
    }
  }

  /** Only the comparison `count - 1 > key` reads the count. */
  lemma {:induction false} CampaignsContentCount(slots: seq<Slot>, c1: int, c2: int, vars: map<nat, MergeVar>, divider: string)
    requires c1 == c2
    ensures CampaignsContent(slots, c1, vars, divider) == CampaignsContent(slots, c2, vars, divider)
  {
  }

  /** Without a known campaign the content is empty, whatever the divider. */
  lemma {:induction false} NoKnownCampaignNoContent(slots: seq<Slot>, count: int, vars: map<nat, MergeVar>, divider: string)
    requires forall k :: 0 <= k < |slots| ==> slots[k].activity.nid !in vars
    ensures CampaignsContent(slots, count, vars, divider) == ""
    decreases |slots|
  {
    if slots != [] {
      assert forall k :: 1 <= k < |slots| ==> slots[1..][k - 1] == slots[k];
      NoKnownCampaignNoContent(slots[1..], count, vars, divider);
    }
  }

  /** What happens to one user. */
  datatype Disposition = NoCampaigns | LinkFailed | UserNotFound | Send(link: string)

  /**
   * The decision: empty content first, then a FALSE-like link, then the
   * not-found marker anywhere in the link.
   */
  function Dispose(content: string, link: LinkResult): (d: Disposition)
    ensures d.NoCampaigns? <==> content == ""
    ensures d.LinkFailed? <==> content != "" && LinkIsFalse(link)
    ensures d.UserNotFound? <==> content != "" && !LinkIsFalse(link) && Strings.ContainsSub(link.text, NotFoundMarker)
    ensures d.Send? ==> link == LinkText(d.link) && d.link != "" && d.link != "0" && !Strings.ContainsSub(d.link, NotFoundMarker)
  {
    if content == "" then NoCampaigns
    else if LinkIsFalse(link) then LinkFailed
    else if Strings.ContainsSub(link.text, NotFoundMarker) then UserNotFound
    else Send(link.text)
  }

  /** The foreign inputs of the stage: the divider markup and the link generator. */
  datatype MergeEnv = MergeEnv(divider: string, linkFor: (string, Option<int>) -> LinkResult)

  function UserContent(e: Entry, vars: map<nat, MergeVar>, env: MergeEnv): string {
    CampaignsContent(e.user.campaigns, |e.user.campaigns|, vars, env.divider)
  }

  function UserDisposition(e: Entry, vars: map<nat, MergeVar>, env: MergeEnv): Disposition {
    Dispose(UserContent(e, vars, env), env.linkFor(e.user.email, e.user.drupalUid))
  }

  /** The user leaves the queue in this stage. */
  predicate Acked(e: Entry, vars: map<nat, MergeVar>, env: MergeEnv) {
    UserDisposition(e, vars, env).NoCampaigns? || UserDisposition(e, vars, env).UserNotFound?
  }

  predicate Sent(e: Entry, vars: map<nat, MergeVar>, env: MergeEnv) {
    UserDisposition(e, vars, env).Send?
  }

  /** One entry of Mandrill's `merge_vars`. */
  datatype RecipientVars = RecipientVars(rcpt: string, vars: seq<MergeVar>)

  /** The entry of a user being sent a digest. */
  function UserVars(e: Entry, vars: map<nat, MergeVar>, env: MergeEnv): RecipientVars {
    var link := match UserDisposition(e, vars, env) case Send(l) => l case _ => "";
    RecipientVars(e.user.email, [MergeVar("FNAME", e.user.fname),
                                 MergeVar("CAMPAIGNS", UserContent(e, vars, env)),
                                 MergeVar("SUBSCRIPTIONS_LINK", link)])
  }

  datatype MergeResult = MergeResult(mergeVars: seq<RecipientVars>, users: seq<Entry>, acks: seq<DeliveryTag>)

  /** `composeMergeVars` over a batch. */
  function ComposeMergeVars(users: seq<Entry>, vars: map<nat, MergeVar>, env: MergeEnv): (r: MergeResult)
    ensures |r.mergeVars| == |r.users| <= |users|
    ensures forall i :: 0 <= i < |r.users| ==> Sent(r.users[i], vars, env) && r.users[i] in users
    ensures forall j :: 0 <= j < |users| && Sent(users[j], vars, env) ==> users[j] in r.users
    ensures forall j :: 0 <= j < |users| && Acked(users[j], vars, env) ==> users[j].user.deliveryTag in r.acks
    ensures forall i :: 0 <= i < |r.mergeVars| ==>
              && r.mergeVars[i].rcpt == r.users[i].user.email
              && UserDisposition(r.users[i], vars, env).Send?
              && |r.mergeVars[i].vars| == 3
              && r.mergeVars[i].vars[0] == MergeVar("FNAME", r.users[i].user.fname)
              && r.mergeVars[i].vars[1] == MergeVar("CAMPAIGNS", UserContent(r.users[i], vars, env))
              && r.mergeVars[i].vars[1].content != ""
              && r.mergeVars[i].vars[2] == MergeVar("SUBSCRIPTIONS_LINK", UserDisposition(r.users[i], vars, env).link)
  {
    var kept := FilterMap((e: Entry) => Sent(e, vars, env), (e: Entry) => e, users);
    var acks := FilterMap((e: Entry) => Acked(e, vars, env), (e: Entry) => e.user.deliveryTag, users);
    FilterMapPreserves((e: Entry) => Sent(e, vars, env), (e: Entry) => e, users,
                       (e: Entry) => Sent(e, vars, env) && e in users);
    MergeResult(seq(|kept|, i requires 0 <= i < |kept| => UserVars(kept[i], vars, env)), kept, acks)
  }

  /**
   * Tags are never duplicated or invented: the acknowledged tags and those of the
   * users still to be sent come from distinct users of the batch.
   */
  lemma {:induction false} ComposeConservesTags(users: seq<Entry>, vars: map<nat, MergeVar>, env: MergeEnv)
    ensures var r := ComposeMergeVars(users, vars, env);
            multiset(r.acks) + multiset(Tags(r.users)) <= multiset(Tags(users))
    decreases |users|
  {
    if users != [] {
      ComposeConservesTags(users[1..], vars, env);
      var r := ComposeMergeVars(users, vars, env);
      var t := ComposeMergeVars(users[1..], vars, env);
      var h := if Sent(users[0], vars, env) then [users[0]] else [];
      assert r.users == h + t.users;
      TagsAppend(h, t.users);
      assert Tags(users) == [users[0].user.deliveryTag] + Tags(users[1..]);
    }
  }

  /** Every acknowledgement is the tag of a user with nothing to send or no Drupal account. */
  lemma {:induction false} ComposeAckOrigin(users: seq<Entry>, vars: map<nat, MergeVar>, env: MergeEnv, i: nat) returns (j: nat)
    requires i < |ComposeMergeVars(users, vars, env).acks|
    ensures j < |users| && Acked(users[j], vars, env)
    ensures ComposeMergeVars(users, vars, env).acks[i] == users[j].user.deliveryTag
  {
    j := FilterMapOrigin((e: Entry) => Acked(e, vars, env), (e: Entry) => e.user.deliveryTag, users, i);
  }

  /**
   * A user whose subscriptions link could not be generated is neither acknowledged
   * nor sent to: the message stays queued for the next run.
   */
  lemma {:induction false} LinkFailedStaysQueued(users: seq<Entry>, vars: map<nat, MergeVar>, env: MergeEnv, j: nat)
    requires NoDup(Tags(users))
    requires j < |users| && UserDisposition(users[j], vars, env).LinkFailed?
    ensures users[j].user.deliveryTag !in ComposeMergeVars(users, vars, env).acks
    ensures users[j].user.deliveryTag !in Tags(ComposeMergeVars(users, vars, env).users)
  {
    var tag := users[j].user.deliveryTag;
    assert forall i :: 0 <= i < |users| && i != j ==> users[i].user.deliveryTag != tag by {
      forall i | 0 <= i < |users| && i != j ensures users[i].user.deliveryTag != tag {
        assert Tags(users)[i] != Tags(users)[j];
      }
    }
    FilterMapExcludes((e: Entry) => Acked(e, vars, env), (e: Entry) => e.user.deliveryTag, users, j);
    var kept := ComposeMergeVars(users, vars, env).users;
    forall i | 0 <= i < |kept| ensures Tags(kept)[i] != tag {
      var k :| 0 <= k < |users| && users[k] == kept[i];
      assert k != j;
    }
  }

  /** Splitting the batch splits the kept users, the merge vars and the acks. */
  lemma ComposeAppend(a: seq<Entry>, b: seq<Entry>, vars: map<nat, MergeVar>, env: MergeEnv)
    ensures ComposeMergeVars(a + b, vars, env).users == ComposeMergeVars(a, vars, env).users + ComposeMergeVars(b, vars, env).users
    ensures ComposeMergeVars(a + b, vars, env).acks == ComposeMergeVars(a, vars, env).acks + ComposeMergeVars(b, vars, env).acks
  {
    FilterMapAppend((e: Entry) => Sent(e, vars, env), (e: Entry) => e, a, b);
    FilterMapAppend((e: Entry) => Acked(e, vars, env), (e: Entry) => e.user.deliveryTag, a, b);
  }
}
