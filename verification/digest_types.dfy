/**
 * The batch the legacy digest generator (MBC_UserDigest) works on: target users
 * read from the user-digest queue, each holding the campaign activity listed in
 * its message, kept under the array keys PHP gives them.
 */
module DigestTypes {
  import opened Common

  /** One entry of a queued user's `campaigns` list: a signup, possibly reported back. */
  datatype Activity = Activity(nid: nat, signup: int, reportback: bool)

  /**
   * An activity together with the key it sits under in the user's `campaigns`
   * array. Keys start dense (JSON lists) and become sparse when entries are unset.
   */
  datatype Slot = Slot(key: nat, activity: Activity)

  /** A target user as assembled from one queue message. */
  datatype TargetUser = TargetUser(
    email: string,
    fname: string,
    campaigns: seq<Slot>,
    deliveryTag: DeliveryTag,
    drupalUid: Option<int>)

  /** A target user with the index it sits under in the batch array. */
  datatype Entry = Entry(index: nat, user: TargetUser)

  /** The delivery tags of a batch, in batch order. */
  function Tags(users: seq<Entry>): (r: seq<DeliveryTag>)
    ensures |r| == |users|
    ensures forall i :: 0 <= i < |users| ==> r[i] == users[i].user.deliveryTag
  {
    if users == [] then [] else [users[0].user.deliveryTag] + Tags(users[1..])
  }

  lemma TagsAppend(a: seq<Entry>, b: seq<Entry>)
    ensures Tags(a + b) == Tags(a) + Tags(b)
  {
  }

  /** The e-mail addresses of a batch, in batch order. */
  function Emails(users: seq<Entry>): (r: seq<string>)
    ensures |r| == |users|
    ensures forall i :: 0 <= i < |users| ==> r[i] == users[i].user.email
  {
    if users == [] then [] else [users[0].user.email] + Emails(users[1..])
  }

  /** The activities of a `campaigns` array, dropping the keys. */
  function Activities(slots: seq<Slot>): (r: seq<Activity>)
    ensures |r| == |slots|
    ensures forall k :: 0 <= k < |slots| ==> r[k] == slots[k].activity
  {
    if slots == [] then [] else [slots[0].activity] + Activities(slots[1..])
  }

  /** The array keys are the positions: the list was (re)built by appending. */
  predicate DenseKeys(slots: seq<Slot>) {
    forall k :: 0 <= k < |slots| ==> slots[k].key == k
  }
}
