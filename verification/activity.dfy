/**
 * `processDigestCampaignActivity`: drop every signup that already carries a
 * report-back, acknowledge (and drop) the users left with no signups, and collect
 * the nids of the remaining signups as the campaigns to fetch.
 */
module CampaignActivity {
  import opened Common
  import opened Seqs
  import opened DigestTypes

  /** The signups of a `campaigns` array that have no report-back, keys kept. */
  function LiveSlots(slots: seq<Slot>): (r: seq<Slot>)
    ensures forall k :: 0 <= k < |r| ==> !r[k].activity.reportback && r[k] in slots
    ensures forall k :: 0 <= k < |slots| && !slots[k].activity.reportback ==> slots[k] in r
  {
    Filter((s: Slot) => !s.activity.reportback, slots)
  }

  /** The user still has a signup to write about. */
  predicate HasLiveSignup(e: Entry) {
    |LiveSlots(e.user.campaigns)| > 0
  }

  /** The user as it leaves the stage: same index and fields, report-backs removed. */
  function Pruned(e: Entry): Entry {
    Entry(e.index, e.user.(campaigns := LiveSlots(e.user.campaigns)))
  }

  /** The shape of a survivor: at least one signup, none of them reported back. */
  predicate IsSurvivor(e: Entry) {
    && |e.user.campaigns| > 0
    && forall k :: 0 <= k < |e.user.campaigns| ==> !e.user.campaigns[k].activity.reportback
  }

  /** The nids of every signup without a report-back, over the whole batch. */
  function LiveNids(users: seq<Entry>): set<nat> {
    set j, k | 0 <= j < |users| && 0 <= k < |users[j].user.campaigns| &&
               !users[j].user.campaigns[k].activity.reportback :: users[j].user.campaigns[k].activity.nid
  }

  /** The nids of one user's signups without a report-back. */
  function LiveSlotNids(slots: seq<Slot>): set<nat> {
    set k | 0 <= k < |slots| && !slots[k].activity.reportback :: slots[k].activity.nid
  }

  lemma LiveSlotNidsCons(slots: seq<Slot>)
    requires |slots| > 0
    ensures LiveSlotNids(slots) ==
              (if slots[0].activity.reportback then {} else {slots[0].activity.nid}) + LiveSlotNids(slots[1..])
  {
    forall n | n in LiveSlotNids(slots)
      ensures n in (if slots[0].activity.reportback then {} else {slots[0].activity.nid}) + LiveSlotNids(slots[1..])
    {
      var k :| 0 <= k < |slots| && !slots[k].activity.reportback && slots[k].activity.nid == n;
      if k > 0 {
        assert slots[1..][k - 1] == slots[k];
      }
    }
    forall n | n in LiveSlotNids(slots[1..]) ensures n in LiveSlotNids(slots) {
      var k :| 0 <= k < |slots[1..]| && !slots[1..][k].activity.reportback && slots[1..][k].activity.nid == n;
      assert slots[1..][k] == slots[k + 1];
    }
  }

  lemma LiveNidsCons(users: seq<Entry>)
    requires |users| > 0
    ensures LiveNids(users) == LiveSlotNids(users[0].user.campaigns) + LiveNids(users[1..])
  {
    forall n | n in LiveNids(users)
      ensures n in LiveSlotNids(users[0].user.campaigns) + LiveNids(users[1..])
    {
      var j, k :| 0 <= j < |users| && 0 <= k < |users[j].user.campaigns| &&
                  !users[j].user.campaigns[k].activity.reportback && users[j].user.campaigns[k].activity.nid == n;
      if j > 0 {
        assert users[1..][j - 1] == users[j];
      }
    }
    forall n | n in LiveNids(users[1..]) ensures n in LiveNids(users) {
      var j, k :| 0 <= j < |users[1..]| && 0 <= k < |users[1..][j].user.campaigns| &&
                  !users[1..][j].user.campaigns[k].activity.reportback && users[1..][j].user.campaigns[k].activity.nid == n;
      assert users[1..][j] == users[j + 1];
    }
  }

  /**
   * `$targetCampaigns[$nid] = $nid` over one user's signups: a nid is appended the
   * first time it is seen, so the keys stay distinct and in first-seen order.
   */
  function AddNids(acc: seq<nat>, slots: seq<Slot>): (r: seq<nat>)
    ensures NoDup(acc) ==> NoDup(r)
    ensures forall n :: n in r <==> n in acc || n in LiveSlotNids(slots)
    ensures |acc| <= |r| && r[..|acc|] == acc
    decreases |slots|
  {
    if slots == [] then acc
    else
      var a := slots[0].activity;
      var next := if !a.reportback && a.nid !in acc then acc + [a.nid] else acc;
      LiveSlotNidsCons(slots);
      assert NoDup(acc) ==> NoDup(next);
      var r := AddNids(next, slots[1..]);
      assert r[..|acc|] == r[..|next|][..|acc|];
      r
  }

  /** `$targetCampaigns` after the whole batch has been walked. */
  function TargetNids(acc: seq<nat>, users: seq<Entry>): (r: seq<nat>)
    ensures NoDup(acc) ==> NoDup(r)
    ensures forall n :: n in r <==> n in acc || n in LiveNids(users)
    decreases |users|
  {
    if users == [] then acc
    else
      LiveNidsCons(users);
      TargetNids(AddNids(acc, users[0].user.campaigns), users[1..])
  }

  /** The three results of the stage: surviving users, nids to fetch, acknowledged tags. */
  datatype ActivityResult = ActivityResult(users: seq<Entry>, targetCampaigns: seq<nat>, acks: seq<DeliveryTag>)

  /** `processDigestCampaignActivity` over a batch. */
  function ProcessDigestCampaignActivity(users: seq<Entry>): (r: ActivityResult)
    ensures |r.users| + |r.acks| == |users|
    ensures forall i :: 0 <= i < |r.users| ==> IsSurvivor(r.users[i])
    ensures forall j :: 0 <= j < |users| && HasLiveSignup(users[j]) ==> Pruned(users[j]) in r.users
    ensures forall j :: 0 <= j < |users| && !HasLiveSignup(users[j]) ==> users[j].user.deliveryTag in r.acks
    ensures NoDup(r.targetCampaigns)
    ensures forall n :: n in r.targetCampaigns <==> n in LiveNids(users)
  {
    var kept := FilterMap(HasLiveSignup, Pruned, users);
    var acks := FilterMap((e: Entry) => !HasLiveSignup(e), (e: Entry) => e.user.deliveryTag, users);
    ActivityCounts(users);
    FilterMapPreserves(HasLiveSignup, Pruned, users, (e: Entry) => IsSurvivor(e));
    ActivityResult(kept, TargetNids([], users), acks)
  }

  /**
   * Every survivor is the pruned form of a batch entry that had a signup left:
   * same batch index, same address, name, tag and uid, report-backs removed.
   */
  lemma SurvivorOrigin(users: seq<Entry>, i: nat) returns (j: nat)
    requires i < |ProcessDigestCampaignActivity(users).users|
    ensures j < |users| && HasLiveSignup(users[j])
    ensures var e := ProcessDigestCampaignActivity(users).users[i];
            && e.index == users[j].index
            && e.user == users[j].user.(campaigns := LiveSlots(users[j].user.campaigns))
  {
    j := FilterMapOrigin(HasLiveSignup, Pruned, users, i);
  }

  lemma {:induction false} ActivityCounts(users: seq<Entry>)
    ensures |FilterMap(HasLiveSignup, Pruned, users)| +
            |FilterMap((e: Entry) => !HasLiveSignup(e), (e: Entry) => e.user.deliveryTag, users)| == |users|
    decreases |users|
  {
    if users != [] {
      ActivityCounts(users[1..]);
    }
  }

  /**
   * No delivery tag is lost or invented: the tags acknowledged here and the tags
   * of the survivors together are exactly the batch's tags.
   */
  lemma {:induction false} ActivityConservesTags(users: seq<Entry>)
    ensures var r := ProcessDigestCampaignActivity(users);
            multiset(r.acks) + multiset(Tags(r.users)) == multiset(Tags(users))
    decreases |users|
  {
    if users != [] {
      ActivityConservesTags(users[1..]);
      var r := ProcessDigestCampaignActivity(users);
      var t := ProcessDigestCampaignActivity(users[1..]);
      var h := if HasLiveSignup(users[0]) then [Pruned(users[0])] else [];
      assert r.users == h + t.users;
      TagsAppend(h, t.users);
      assert Tags(users) == [users[0].user.deliveryTag] + Tags(users[1..]);
    }
  }

  /** With distinct delivery tags in the batch, acks and surviving tags are all distinct. */
  lemma AcksDistinct(users: seq<Entry>)
    requires NoDup(Tags(users))
    ensures var r := ProcessDigestCampaignActivity(users);
            NoDup(r.acks + Tags(r.users))
  {
    var r := ProcessDigestCampaignActivity(users);
    ActivityConservesTags(users);
    assert multiset(r.acks + Tags(r.users)) == multiset(Tags(users));
    SubMultisetNoDup(r.acks + Tags(r.users), Tags(users));
  }

  /**
   * With distinct delivery tags in the batch, a user left without signups is
   * acknowledged exactly once here and is not among the survivors.
   */
  lemma {:induction false} AcksOnceAndRemoved(users: seq<Entry>, j: nat)
    requires NoDup(Tags(users))
    requires j < |users| && !HasLiveSignup(users[j])
    ensures var r := ProcessDigestCampaignActivity(users);
            multiset(r.acks)[users[j].user.deliveryTag] == 1 && users[j].user.deliveryTag !in Tags(r.users)
  {
    var r := ProcessDigestCampaignActivity(users);
    AcksDistinct(users);
    AckedOnce(r.acks, Tags(r.users), users[j].user.deliveryTag);
  }

  lemma AckedOnce(acks: seq<DeliveryTag>, kept: seq<DeliveryTag>, t: DeliveryTag)
    requires NoDup(acks + kept) && t in acks
    ensures multiset(acks)[t] == 1 && t !in kept
  {
    NoDupCounts(acks + kept, t);
    assert multiset(acks + kept) == multiset(acks) + multiset(kept);
  }

  /** The stage treats users one by one: splitting the batch splits survivors and acks. */
  lemma ActivityAppend(a: seq<Entry>, b: seq<Entry>)
    ensures ProcessDigestCampaignActivity(a + b).users ==
              ProcessDigestCampaignActivity(a).users + ProcessDigestCampaignActivity(b).users
    ensures ProcessDigestCampaignActivity(a + b).acks ==
              ProcessDigestCampaignActivity(a).acks + ProcessDigestCampaignActivity(b).acks
  {
    FilterMapAppend(HasLiveSignup, Pruned, a, b);
    FilterMapAppend((e: Entry) => !HasLiveSignup(e), (e: Entry) => e.user.deliveryTag, a, b);
  }
}
