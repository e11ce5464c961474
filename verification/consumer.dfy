/**
 * The streaming digest consumer (MBC_DigestEmail_Consumer): one call per queued
 * message, over the state `(users, campaigns cache, batchSize)`. A message is
 * admitted only while fewer than `batchSize` users wait; an admitted message is
 * checked (`canProcess`), its campaigns are resolved through the memoising cache
 * (`setter`), the user is kept if it still has campaigns (`process`), and the
 * message is acknowledged. Afterwards the flush predicate (`sendBatch`) decides
 * whether the waiting users go out as one batch.
 */
module DigestConsumer {
  import opened Common
  import opened Seqs
  import Strings
  import opened CampaignObject
  import opened DigestRules

  /** One `campaigns` entry of a queued message. */
  datatype Signup = Signup(nid: nat, signup: int, reportback: bool)

  /** A consumed message; `payload` is the handle its ack refers to. */
  datatype Message = Message(
    email: Option<string>,
    drupalUid: Option<int>,
    firstName: Option<string>,
    language: Option<string>,
    campaigns: Option<seq<Signup>>,
    payload: DeliveryTag)

  /** A campaign a user object holds: the node and the signup time. */
  datatype UserCampaign = UserCampaign(nid: nat, signup: int)

  /** The user object built from one message. */
  datatype DigestUser = DigestUser(
    email: Option<string>,
    firstName: Option<string>,
    language: Option<string>,
    drupalUid: Option<int>,
    campaigns: seq<UserCampaign>,
    payload: DeliveryTag)

  /** A cache slot: a built campaign object, or the recorded construction failure. */
  datatype CacheEntry = Built(campaign: Campaign) | Failed(nid: nat, error: CampaignError)

  /**
   * The collaborators a step calls: the content API (for campaign construction)
   * and the user object's own campaign post-processing, whose code is not part of
   * this model.
   */
  datatype Oracles = Oracles(
    api: ApiConfig,
    processUserCampaigns: (DigestUser, map<nat, CacheEntry>) -> seq<UserCampaign>)

  /**
   * The consumer's state. `users` is `None` once it has been unset by a flush;
   * `builds` logs every campaign construction, `acks` every acknowledgement, and
   * `batches` the users handed over at each flush.
   */
  datatype ConsumerState = ConsumerState(
    batchSize: int,
    users: Option<seq<DigestUser>>,
    campaigns: map<nat, CacheEntry>,
    builds: seq<nat>,
    acks: seq<DeliveryTag>,
    batches: seq<seq<DigestUser>>)

  // ---------------------------------------------------------------------------
  // waitingUserMessages, sendBatch
  // ---------------------------------------------------------------------------

  /** The number of users waiting; zero once the list has been unset. */
  function WaitingUserMessages(users: Option<seq<DigestUser>>): (n: nat)
    ensures users.None? ==> n == 0
    ensures users.Some? ==> n == |users.value|
  {
    match users
    case None => 0
    case Some(us) => |us|
  }

  /**
   * The flush decision, written as the source's three tests. It is the closed
   * form "a full batch waits, or users wait and the queue is drained".
   */
  function SendBatch(waiting: nat, queued: int, batchSize: int): (flush: bool)
    ensures flush <==> waiting >= batchSize || (waiting > 0 && queued == 0)
  {
    if waiting >= batchSize then true
    else if waiting == 0 && queued == 0 then false
    else if waiting < batchSize && queued == 0 then true
    else false
  }

  // ---------------------------------------------------------------------------
  // canProcess
  // ---------------------------------------------------------------------------

  /** A PHP array key: numeric strings in canonical decimal form become integers. */
  datatype ArrayKey = IntKey(i: int) | StringKey(s: string)

  const PhpIntMax: nat := 9223372036854775807

  /** Digits without a leading zero (other than "0" itself). */
  predicate CanonicalDigits(d: string) {
    |d| > 0 && Strings.AllDigits(d) && (d[0] != '0' || d == "0")
  }

  /**
   * The key `$this->users[$email]` looks up. A missing email is NULL, which PHP
   * turns into the empty string key.
   */
  function ArrayKeyOf(email: Option<string>): (k: ArrayKey)
    ensures email.None? ==> k == StringKey("")
    ensures email.Some? && k.StringKey? ==> k.s == email.value
    ensures email.Some? && '@' in email.value ==> k.StringKey?
  {
    match email
    case None => StringKey("")
    case Some(s) =>
      if CanonicalDigits(s) && Strings.DigitsValue(s) <= PhpIntMax then
        assert '@' !in s by {
          forall i | 0 <= i < |s| ensures s[i] != '@' {
            assert Strings.IsDigit(s[i]);
          }
        }
        IntKey(Strings.DigitsValue(s))
      else if |s| > 1 && s[0] == '-' && s[1] != '0' && CanonicalDigits(s[1..])
              && Strings.DigitsValue(s[1..]) <= PhpIntMax + 1 then
        assert '@' !in s by {
          forall i | 0 <= i < |s| ensures s[i] != '@' {
            if i > 0 {
              assert s[i] == s[1..][i - 1];
              assert Strings.IsDigit(s[1..][i - 1]);
            }
          }
        }
        IntKey(0 - (Strings.DigitsValue(s[1..]) as int))
      else
        StringKey(s)
  }

  /** `isset($this->users[$key])`: the users list is indexed 0, 1, 2, ... */
  predicate UsersHasKey(users: Option<seq<DigestUser>>, key: ArrayKey) {
    users.Some? && key.IntKey? && 0 <= key.i < |users.value|
  }

  /** Addresses of the mobile-import placeholder form; `$` also matches before a final newline. */
  predicate IsMobilePlaceholder(email: string) {
    Strings.EndsWith(email, "@mobile.import") || Strings.EndsWith(email, "@mobile.import\n")
  }

  /**
   * The admission check as written. The duplicate test looks the email up as an
   * array key, and the report-back test sits under `!isset($campaigns)`, so it
   * never runs over a real list; a missing `campaigns` is rejected by the final
   * test (`count(FALSE)` is 1 in PHP 7).
   */
  function CanProcess(users: Option<seq<DigestUser>>, msg: Message): (ok: bool)
    ensures ok <==>
              && !UsersHasKey(users, ArrayKeyOf(msg.email))
              && msg.email.Some?
              && !IsMobilePlaceholder(msg.email.value)
              && msg.drupalUid.Some?
              && msg.campaigns.Some?
  {
    if UsersHasKey(users, ArrayKeyOf(msg.email)) then false
    else if msg.email.None? then false
    else if IsMobilePlaceholder(msg.email.value) then false
    else if msg.drupalUid.None? then false
    else if msg.campaigns.None? then false
    else true
  }

  /** The as-written duplicate test never fires for an address containing '@'. */
  lemma DuplicateCheckNeverFires(users: Option<seq<DigestUser>>, email: string)
    requires '@' in email
    ensures !UsersHasKey(users, ArrayKeyOf(Some(email)))
  {
  }

  /** The as-written check admits a message whose signups carry report-backs. */
  lemma ReportBackNeverRejected(users: Option<seq<DigestUser>>, msg: Message)
    requires msg.email.Some? && '@' in msg.email.value && !IsMobilePlaceholder(msg.email.value)
    requires msg.drupalUid.Some? && msg.campaigns.Some?
    requires exists i :: 0 <= i < |msg.campaigns.value| && msg.campaigns.value[i].reportback
    ensures CanProcess(users, msg)
  {
    DuplicateCheckNeverFires(users, msg.email.value);
  }

  /** Some waiting user already has this address. */
  predicate HasEmail(users: Option<seq<DigestUser>>, email: string) {
    users.Some? && exists i :: 0 <= i < |users.value| && users.value[i].email == Some(email)
  }

  predicate HasReportback(signups: seq<Signup>) {
    exists i :: 0 <= i < |signups| && signups[i].reportback
  }

  /**
   * The admission check as its comments describe it: the duplicate test compares
   * addresses, and a message carrying a report-back is rejected.
   */
  function CanProcessIntended(users: Option<seq<DigestUser>>, msg: Message): (ok: bool)
    ensures ok ==> msg.email.Some? && !HasEmail(users, msg.email.value)
    ensures ok ==> msg.campaigns.Some? && !HasReportback(msg.campaigns.value)
    ensures ok <==> CanProcess(None, msg) && !HasEmail(users, msg.email.value) && !HasReportback(msg.campaigns.value)
  {
    if msg.email.None? then false
    else if HasEmail(users, msg.email.value) then false
    else if IsMobilePlaceholder(msg.email.value) then false
    else if msg.drupalUid.None? then false
    else if msg.campaigns.None? then false
    else if HasReportback(msg.campaigns.value) then false
    else true
  }

  // ---------------------------------------------------------------------------
  // setter: the memoising campaign cache
  // ---------------------------------------------------------------------------

  /** A cache entry for `nid`: the built object, or the caught failure. */
  function BuildEntry(api: ApiConfig, nid: nat): (e: CacheEntry)
    ensures e.Built? <==> Build(api, nid).Success?
    ensures e.Failed? ==> e.nid == nid
  {
    match Build(api, nid)
    case Success(c) => Built(c)
    case Failure(err) => Failed(nid, err)
  }

  /** The nids a list of signups references. */
  function NidSet(signups: seq<Signup>): set<nat> {
    set i | 0 <= i < |signups| :: signups[i].nid
  }

  /** Reference: the signups whose (final) cache entry is a campaign object, in order. */
  function Usable(signups: seq<Signup>, cache: map<nat, CacheEntry>): seq<UserCampaign> {
    if signups == [] then []
    else
      (if signups[0].nid in cache && cache[signups[0].nid].Built?
       then [UserCampaign(signups[0].nid, signups[0].signup)] else [])
      + Usable(signups[1..], cache)
  }

  datatype CacheResult = CacheResult(campaigns: map<nat, CacheEntry>, built: seq<nat>, kept: seq<UserCampaign>)

  lemma NidSetCons(signups: seq<Signup>)
    requires signups != []
    ensures NidSet(signups) == {signups[0].nid} + NidSet(signups[1..])
  {
    forall n | n in NidSet(signups) ensures n in {signups[0].nid} + NidSet(signups[1..]) {
      var i :| 0 <= i < |signups| && signups[i].nid == n;
      if i > 0 {
        assert signups[1..][i - 1] == signups[i];
      }
    }
    forall n | n in NidSet(signups[1..]) ensures n in NidSet(signups) {
      var i :| 0 <= i < |signups[1..]| && signups[1..][i].nid == n;
      assert signups[i + 1] == signups[1..][i];
    }
  }

  /** The cache after the signup at the head of the list has been resolved. */
  function ResolveHead(api: ApiConfig, cache: map<nat, CacheEntry>, s: Signup): map<nat, CacheEntry> {
    if s.nid in cache then cache else cache[s.nid := BuildEntry(api, s.nid)]
  }

  /**
   * The setter's loop over the message's signups: build a missing entry (caching
   * a failure as well), then keep the signup iff its entry is a campaign object.
   * Existing entries are never rebuilt or replaced.
   */
  function CacheSignups(api: ApiConfig, cache: map<nat, CacheEntry>, signups: seq<Signup>): (r: CacheResult)
    ensures r.campaigns.Keys == cache.Keys + NidSet(signups)
    ensures forall k :: k in cache ==> r.campaigns[k] == cache[k]
    ensures forall k :: k in r.campaigns && k !in cache ==> r.campaigns[k] == BuildEntry(api, k)
    decreases |signups|
  {
    if signups == [] then
      CacheResult(cache, [], [])
    else
      var s := signups[0];
      var cache1 := ResolveHead(api, cache, s);
      var built1 := if s.nid in cache then [] else [s.nid];
      var kept1 := if cache1[s.nid].Built? then [UserCampaign(s.nid, s.signup)] else [];
      var rest := CacheSignups(api, cache1, signups[1..]);
      NidSetCons(signups);
      CacheResult(rest.campaigns, built1 + rest.built, kept1 + rest.kept)
  }

  /** Each construction the loop makes is of a nid that was missing, and none is made twice. */
  lemma {:induction false} CacheSignupsBuildsOnce(api: ApiConfig, cache: map<nat, CacheEntry>, signups: seq<Signup>)
    ensures var r := CacheSignups(api, cache, signups);
            && NoDup(r.built)
            && (forall k :: k in r.built ==> k in r.campaigns && k !in cache)
            && (forall k :: k in r.campaigns && k !in cache ==> k in r.built)
    decreases |signups|
  {
    if signups != [] {
      var s := signups[0];
      var cache1 := ResolveHead(api, cache, s);
      CacheSignupsBuildsOnce(api, cache1, signups[1..]);
      var rest := CacheSignups(api, cache1, signups[1..]);
      var r := CacheSignups(api, cache, signups);
      if s.nid !in cache {
        assert r.built == [s.nid] + rest.built;
        assert s.nid !in rest.built;
      } else {
        assert r.built == rest.built;
      }
    }
  }

  /** The loop keeps exactly the signups whose final cache entry is a campaign object, in message order. */
  lemma {:induction false} CacheSignupsKeepsUsable(api: ApiConfig, cache: map<nat, CacheEntry>, signups: seq<Signup>)
    ensures var r := CacheSignups(api, cache, signups);
            r.kept == Usable(signups, r.campaigns)
    decreases |signups|
  {
    if signups != [] {
      var s := signups[0];
      var cache1 := ResolveHead(api, cache, s);
      CacheSignupsKeepsUsable(api, cache1, signups[1..]);
      var rest := CacheSignups(api, cache1, signups[1..]);
      assert s.nid in cache1;
      assert rest.campaigns[s.nid] == cache1[s.nid];
    }
  }

  /** What `setter` leaves behind: the updated cache, the constructions it made, and the user (FALSE is `None`). */
  datatype SetterOutcome = SetterOutcome(campaigns: map<nat, CacheEntry>, built: seq<nat>, user: Option<DigestUser>)

  /** `setter($message)`: resolve every signup through the cache and build the user object. */
  function Setter(api: ApiConfig, cache: map<nat, CacheEntry>, msg: Message): (r: SetterOutcome)
    ensures r.campaigns.Keys == cache.Keys + NidSet(msg.campaigns.GetOr([]))
    ensures forall k :: k in cache ==> r.campaigns[k] == cache[k]
    ensures NoDup(r.built) && forall k :: k in r.built <==> k in r.campaigns && k !in cache
    ensures r.user.Some? <==> |Usable(msg.campaigns.GetOr([]), r.campaigns)| > 0
    ensures r.user.Some? ==>
              && r.user.value.campaigns == Usable(msg.campaigns.GetOr([]), r.campaigns)
              && r.user.value.email == msg.email
              && r.user.value.payload == msg.payload
  {
    var res := CacheSignups(api, cache, msg.campaigns.GetOr([]));
    CacheSignupsBuildsOnce(api, cache, msg.campaigns.GetOr([]));
    CacheSignupsKeepsUsable(api, cache, msg.campaigns.GetOr([]));
    var user := DigestUser(msg.email, msg.firstName, msg.language, msg.drupalUid, res.kept, msg.payload);
    SetterOutcome(res.campaigns, res.built, if |res.kept| > 0 then Some(user) else None)
  }

  /** A kept campaign has a built cache entry and is one of the message's signups: a cached failure is never kept. */
  lemma UsableSkipsFailures(signups: seq<Signup>, cache: map<nat, CacheEntry>, uc: UserCampaign)
    requires uc in Usable(signups, cache)
    ensures uc.nid in cache && cache[uc.nid].Built?
    ensures exists i :: 0 <= i < |signups| && signups[i].nid == uc.nid && signups[i].signup == uc.signup
    decreases |signups|
  {
    if signups != [] {
      var head := if signups[0].nid in cache && cache[signups[0].nid].Built?
                  then [UserCampaign(signups[0].nid, signups[0].signup)] else [];
      if uc !in head {
        assert uc in Usable(signups[1..], cache);
        UsableSkipsFailures(signups[1..], cache, uc);
        var i :| 0 <= i < |signups[1..]| && signups[1..][i].nid == uc.nid && signups[1..][i].signup == uc.signup;
        assert signups[i + 1] == signups[1..][i];
      }
    }
  }

  // ---------------------------------------------------------------------------
  // process, and the per-message step
  // ---------------------------------------------------------------------------

  /** `process()`: the user is appended (recreating an unset list) iff it keeps a campaign. */
  function Process(users: Option<seq<DigestUser>>, user: DigestUser, cache: map<nat, CacheEntry>,
                   processUserCampaigns: (DigestUser, map<nat, CacheEntry>) -> seq<UserCampaign>): (r: Option<seq<DigestUser>>)
    ensures WaitingUserMessages(r) <= WaitingUserMessages(users) + 1
    ensures |processUserCampaigns(user, cache)| > 0 <==>
              r == Some(users.GetOr([]) + [user.(campaigns := processUserCampaigns(user, cache))])
    ensures |processUserCampaigns(user, cache)| == 0 ==> r == users
    ensures r != users ==>
              && r.Some?
              && r.value == users.GetOr([]) + [user.(campaigns := processUserCampaigns(user, cache))]
              && |processUserCampaigns(user, cache)| > 0
  {
    var refined := user.(campaigns := processUserCampaigns(user, cache));
    if |refined.campaigns| > 0 then Some(users.GetOr([]) + [refined]) else users
  }

  /** An admitted message: setter, then process when setter returned a user. */
  function Admit(s: ConsumerState, msg: Message, env: Oracles): ConsumerState {
    var so := Setter(env.api, s.campaigns, msg);
    var s1 := s.(campaigns := so.campaigns, builds := s.builds + so.built);
    if so.user.Some? then
      s1.(users := Process(s1.users, so.user.value, s1.campaigns, env.processUserCampaigns))
    else s1
  }

  /**
   * One call of `consumeDigestUserQueue`, given the admission decision `admit`
   * and the ready count the queue reports afterwards.
   */
  function StepWith(s: ConsumerState, msg: Message, queued: int, admit: bool, env: Oracles): (t: ConsumerState)
    ensures t.batchSize == s.batchSize
    ensures t.acks == s.acks + (if WaitingUserMessages(s.users) < s.batchSize then [msg.payload] else [])
    ensures !(WaitingUserMessages(s.users) < s.batchSize && admit) ==> t.campaigns == s.campaigns && t.builds == s.builds
    ensures s.campaigns.Keys <= t.campaigns.Keys && forall k :: k in s.campaigns ==> t.campaigns[k] == s.campaigns[k]
    ensures t.batches == s.batches || (t.users.None? && |t.batches| == |s.batches| + 1 && t.batches[..|s.batches|] == s.batches)
  {
    var s1 :=
      if WaitingUserMessages(s.users) < s.batchSize then
        var s0 := if admit then Admit(s, msg, env) else s;
        s0.(acks := s0.acks + [msg.payload])
      else s;
    if SendBatch(WaitingUserMessages(s1.users), queued, s1.batchSize) then
      s1.(batches := s1.batches + [s1.users.GetOr([])], users := None)
    else s1
  }

  /**
   * The consumer step with the admission check the comments describe: a message
   * without an address or a Drupal uid, with an address already waiting, or with a
   * report-back is acknowledged without building anything.
   */
  function Step(s: ConsumerState, msg: Message, queued: int, env: Oracles): (t: ConsumerState)
    ensures t.batchSize == s.batchSize
    ensures msg.email.None? || msg.drupalUid.None? || HasEmail(s.users, msg.email.value)
            || (msg.campaigns.Some? && HasReportback(msg.campaigns.value)) ==>
              t.campaigns == s.campaigns && t.builds == s.builds
  {
    StepWith(s, msg, queued, CanProcessIntended(s.users, msg), env)
  }

  /**
   * The consumer step exactly as written: only a missing address, Drupal uid or
   * campaign list, or a mobile placeholder address, keeps a message from being
   * resolved; a repeated address or a report-back does not.
   */
  function StepAsWritten(s: ConsumerState, msg: Message, queued: int, env: Oracles): (t: ConsumerState)
    ensures t.batchSize == s.batchSize
    ensures msg.email.None? || msg.drupalUid.None? || msg.campaigns.None? || IsMobilePlaceholder(msg.email.value) ==>
              t.campaigns == s.campaigns && t.builds == s.builds
    ensures WaitingUserMessages(s.users) < s.batchSize && msg.email.Some? && '@' in msg.email.value
            && !IsMobilePlaceholder(msg.email.value) && msg.drupalUid.Some? && msg.campaigns.Some? ==>
              t.campaigns.Keys == s.campaigns.Keys + NidSet(msg.campaigns.value)
  {
    StepWith(s, msg, queued, CanProcess(s.users, msg), env)
  }

  /** The admission check a reading uses: as written, or as the comments describe it. */
  function Admission(rules: Rules, users: Option<seq<DigestUser>>, msg: Message): (ok: bool)
    ensures rules.AsWritten? ==> ok == CanProcess(users, msg)
    ensures rules.Intended? ==> ok == CanProcessIntended(users, msg)
  {
    match rules
    case AsWritten => CanProcess(users, msg)
    case Intended => CanProcessIntended(users, msg)
  }

  /** The consumer step under a reading of the admission check. */
  function StepUnder(rules: Rules, s: ConsumerState, msg: Message, queued: int, env: Oracles): (t: ConsumerState)
    ensures rules.AsWritten? ==> t == StepAsWritten(s, msg, queued, env)
    ensures rules.Intended? ==> t == Step(s, msg, queued, env)
  {
    StepWith(s, msg, queued, Admission(rules, s.users, msg), env)
  }

  // ---------------------------------------------------------------------------
  // Properties of one step
  // ---------------------------------------------------------------------------

  /**
   * Below the batch size a message is acknowledged exactly once, whatever the
   * checks decide; at or above it, it is neither processed nor acknowledged.
   */
  lemma StepAcks(s: ConsumerState, msg: Message, queued: int, admit: bool, env: Oracles)
    ensures var t := StepWith(s, msg, queued, admit, env);
            if WaitingUserMessages(s.users) < s.batchSize then t.acks == s.acks + [msg.payload]
            else t.acks == s.acks && t.campaigns == s.campaigns && t.builds == s.builds
    ensures StepWith(s, msg, queued, admit, env).batchSize == s.batchSize
  {
  }

  /** The users waiting after admission and before the flush decision. */
  function Admitted(s: ConsumerState, msg: Message, admit: bool, env: Oracles): Option<seq<DigestUser>> {
    if WaitingUserMessages(s.users) < s.batchSize && admit then Admit(s, msg, env).users else s.users
  }

  /**
   * At most one user joins per message; a flush happens exactly when the flush
   * predicate holds on the post-admission count, hands over those users, and
   * resets the waiting count to zero.
   */
  lemma StepFlush(s: ConsumerState, msg: Message, queued: int, admit: bool, env: Oracles)
    ensures WaitingUserMessages(Admitted(s, msg, admit, env)) <= WaitingUserMessages(s.users) + 1
    ensures var t := StepWith(s, msg, queued, admit, env);
            var waiting := WaitingUserMessages(Admitted(s, msg, admit, env));
            if SendBatch(waiting, queued, s.batchSize) then
              t.users.None? && WaitingUserMessages(t.users) == 0
              && t.batches == s.batches + [Admitted(s, msg, admit, env).GetOr([])]
            else
              t.users == Admitted(s, msg, admit, env) && t.batches == s.batches
  {
    if WaitingUserMessages(s.users) < s.batchSize && admit {
      var so := Setter(env.api, s.campaigns, msg);
      if so.user.Some? {
        var s1 := s.(campaigns := so.campaigns, builds := s.builds + so.built);
        assert Admit(s, msg, env).users == Process(s1.users, so.user.value, s1.campaigns, env.processUserCampaigns);
      }
    }
  }

  /** Every nid in the construction log is a cache key, and each was built once. */
  predicate CacheInv(s: ConsumerState) {
    NoDup(s.builds)
    && (forall k :: k in s.builds ==> k in s.campaigns)
    && (forall k :: k in s.campaigns ==> k in s.builds)
  }

  lemma NoDupAppend<T>(a: seq<T>, b: seq<T>)
    requires NoDup(a) && NoDup(b)
    requires forall x :: x in b ==> x !in a
    ensures NoDup(a + b)
  {
    forall i, j | 0 <= i < j < |a + b| ensures (a + b)[i] != (a + b)[j] {
      if j >= |a| && i < |a| {
        assert (a + b)[j] == b[j - |a|];
        assert (a + b)[j] in b;
      } else if i >= |a| {
        assert (a + b)[i] == b[i - |a|] && (a + b)[j] == b[j - |a|];
      }
    }
  }

  /**
   * The cache is memoising: an existing entry is never rebuilt or replaced, each
   * nid is constructed at most once over the consumer's life, and an admitted
   * message leaves every nid it references as a key.
   */
  lemma StepCache(s: ConsumerState, msg: Message, queued: int, admit: bool, env: Oracles)
    requires CacheInv(s)
    ensures var t := StepWith(s, msg, queued, admit, env);
            && CacheInv(t)
            && s.campaigns.Keys <= t.campaigns.Keys
            && (forall k :: k in s.campaigns ==> t.campaigns[k] == s.campaigns[k])
            && (WaitingUserMessages(s.users) < s.batchSize && admit ==>
                  NidSet(msg.campaigns.GetOr([])) <= t.campaigns.Keys)
  {
    if WaitingUserMessages(s.users) < s.batchSize && admit {
      var so := Setter(env.api, s.campaigns, msg);
      NoDupAppend(s.builds, so.built);
      var t := StepWith(s, msg, queued, admit, env);
      assert t.campaigns == so.campaigns && t.builds == s.builds + so.built;
    }
  }

  /** No two waiting users share an address. */
  predicate EmailsDistinct(users: Option<seq<DigestUser>>) {
    users.Some? ==>
      forall i, j :: 0 <= i < j < |users.value| ==> users.value[i].email != users.value[j].email
  }

  /** With the intended admission check the waiting users never share an address. */
  lemma StepKeepsEmailsDistinct(s: ConsumerState, msg: Message, queued: int, env: Oracles)
    requires EmailsDistinct(s.users)
    ensures EmailsDistinct(Step(s, msg, queued, env).users)
  {
    var admit := CanProcessIntended(s.users, msg);
    if WaitingUserMessages(s.users) < s.batchSize && admit {
      var so := Setter(env.api, s.campaigns, msg);
      if so.user.Some? {
        var s1 := s.(campaigns := so.campaigns, builds := s.builds + so.built);
        var r := Process(s1.users, so.user.value, s1.campaigns, env.processUserCampaigns);
        assert Admit(s, msg, env).users == r;
        if r != s.users {
          var u := so.user.value.(campaigns := env.processUserCampaigns(so.user.value, s1.campaigns));
          assert u.email == msg.email;
          AppendFreshAddress(s.users, u);
        }
      }
    }
  }

  /** Appending a user whose address is not yet waiting keeps the addresses distinct. */
  lemma AppendFreshAddress(users: Option<seq<DigestUser>>, u: DigestUser)
    requires EmailsDistinct(users)
    requires u.email.Some? && !HasEmail(users, u.email.value)
    ensures EmailsDistinct(Some(users.GetOr([]) + [u]))
  {
    var us := users.GetOr([]);
    var r := us + [u];
    forall i, j | 0 <= i < j < |r| ensures r[i].email != r[j].email {
      if j == |us| {
        assert r[i] == us[i];
      } else {
        assert r[i] == us[i] && r[j] == us[j];
      }
    }
  }

  // ---------------------------------------------------------------------------
  // Runs over a sequence of messages
  // ---------------------------------------------------------------------------

  /** A consumed message together with the ready count the queue reports after it. */
  datatype Delivery = Delivery(msg: Message, queued: int)

  /**
   * Consumes the deliveries in order with the step of the given reading.
   * Acknowledgements and handed-over batches only grow, cache entries are never
   * dropped or replaced, and each delivery adds at most one acknowledgement.
   */
  function Run(rules: Rules, s: ConsumerState, ds: seq<Delivery>, env: Oracles): (r: ConsumerState)
    ensures r.batchSize == s.batchSize
    ensures |s.acks| <= |r.acks| <= |s.acks| + |ds| && r.acks[..|s.acks|] == s.acks
    ensures |s.batches| <= |r.batches| && r.batches[..|s.batches|] == s.batches
    ensures s.campaigns.Keys <= r.campaigns.Keys && forall k :: k in s.campaigns ==> r.campaigns[k] == s.campaigns[k]
    decreases |ds|
  {
    if ds == [] then s else Run(rules, StepUnder(rules, s, ds[0].msg, ds[0].queued, env), ds[1..], env)
  }

  function Payloads(ds: seq<Delivery>): seq<DeliveryTag> {
    if ds == [] then [] else [ds[0].msg.payload] + Payloads(ds[1..])
  }

  lemma NoDupDropAt<T>(a: seq<T>, x: T, b: seq<T>)
    requires NoDup(a + [x] + b)
    ensures NoDup(a + b)
  {
    var c := a + [x] + b;
    forall i, j | 0 <= i < j < |a + b| ensures (a + b)[i] != (a + b)[j] {
      var i' := if i < |a| then i else i + 1;
      var j' := if j < |a| then j else j + 1;
      assert (a + b)[i] == c[i'] && (a + b)[j] == c[j'];
    }
  }

  /**
   * Over a run under either reading, the cache stays memoising, and if the
   * messages carry distinct payloads not acknowledged before, no payload is ever
   * acknowledged twice. Only with the intended check do waiting users keep
   * distinct addresses; `DuplicateAddressAdmittedTwice` shows the code as written
   * does not.
   */
  lemma {:induction false} RunInvariants(rules: Rules, s: ConsumerState, ds: seq<Delivery>, env: Oracles)
    requires CacheInv(s)
    requires NoDup(s.acks + Payloads(ds))
    ensures CacheInv(Run(rules, s, ds, env))
    ensures rules.Intended? && EmailsDistinct(s.users) ==> EmailsDistinct(Run(rules, s, ds, env).users)
    ensures NoDup(Run(rules, s, ds, env).acks)
    ensures |Run(rules, s, ds, env).acks| <= |s.acks| + |ds|
    decreases |ds|
  {
    if ds == [] {
      assert s.acks + Payloads(ds) == s.acks;
    } else {
      var d := ds[0];
      var admit := Admission(rules, s.users, d.msg);
      var t := StepUnder(rules, s, d.msg, d.queued, env);
      StepCache(s, d.msg, d.queued, admit, env);
      if rules.Intended? && EmailsDistinct(s.users) {
        StepKeepsEmailsDistinct(s, d.msg, d.queued, env);
      }
      StepAcks(s, d.msg, d.queued, admit, env);
      assert s.acks + Payloads(ds) == s.acks + [d.msg.payload] + Payloads(ds[1..]);
      if WaitingUserMessages(s.users) < s.batchSize {
        assert t.acks + Payloads(ds[1..]) == s.acks + [d.msg.payload] + Payloads(ds[1..]);
      } else {
        NoDupDropAt(s.acks, d.msg.payload, Payloads(ds[1..]));
      }
      RunInvariants(rules, t, ds[1..], env);
    }
  }

  // ---------------------------------------------------------------------------
  // The duplicate check, as written and as intended, on a concrete input
  // ---------------------------------------------------------------------------

  /** A content API that answers every request with a complete campaign. */
  function AlwaysFoundApi(): ApiConfig {
    var obj := ContentApi.ContentObject(7, None, None, Some("Teens for Jeans"), None, Some("cover.jpg"),
                                        None, None, None, None, [], None);
    ApiConfig("http://api", ContentApi.NoPort,
              (url: string) => Some(ContentApi.HttpResult(ContentApi.ObjectBody(obj), 200)),
              (t: string) => t)
  }

  function SampleEnv(): Oracles {
    Oracles(AlwaysFoundApi(), (u: DigestUser, c: map<nat, CacheEntry>) => u.campaigns)
  }

  function SampleMessage(payload: DeliveryTag): Message {
    Message(Some("a@x.org"), Some(42), Some("Ann"), None, Some([Signup(7, 100, false)]), payload)
  }

  function EmptyState(): ConsumerState {
    ConsumerState(500, None, map[], [], [], [])
  }

  /** The user object the sample message yields. */
  function SampleUser(payload: DeliveryTag): DigestUser {
    DigestUser(Some("a@x.org"), Some("Ann"), None, Some(42), [UserCampaign(7, 100)], payload)
  }

  lemma SampleSetter(cache: map<nat, CacheEntry>, payload: DeliveryTag)
    requires 7 in cache ==> cache[7].Built?
    ensures var so := Setter(AlwaysFoundApi(), cache, SampleMessage(payload));
            so.user == Some(SampleUser(payload)) && 7 in so.campaigns && so.campaigns[7].Built?
  {
    var api := AlwaysFoundApi();
    assert Build(api, 7).Success?;
    var so := Setter(api, cache, SampleMessage(payload));
    assert so.campaigns[7].Built?;
    assert Usable([Signup(7, 100, false)], so.campaigns) == [UserCampaign(7, 100)];
  }

  /** An admitted sample message below the batch size appends its user and is acknowledged. */
  lemma SampleAdmittedStep(s: ConsumerState, payload: DeliveryTag)
    requires s.batchSize == 500 && WaitingUserMessages(s.users) < 499
    requires 7 in s.campaigns ==> s.campaigns[7].Built?
    ensures var t := StepWith(s, SampleMessage(payload), 10, true, SampleEnv());
            && t.users == Some(s.users.GetOr([]) + [SampleUser(payload)])
            && t.acks == s.acks + [payload]
            && t.batchSize == 500 && 7 in t.campaigns && t.campaigns[7].Built?
  {
    var env := SampleEnv();
    SampleSetter(s.campaigns, payload);
    var so := Setter(env.api, s.campaigns, SampleMessage(payload));
    var s1 := s.(campaigns := so.campaigns, builds := s.builds + so.built);
    assert Admit(s, SampleMessage(payload), env).users == Process(s1.users, SampleUser(payload), s1.campaigns, env.processUserCampaigns);
  }

  /** The sample message passes both admission checks on an empty consumer. */
  lemma SampleFirstAdmitted()
    ensures CanProcess(None, SampleMessage(1)) && CanProcessIntended(None, SampleMessage(1))
    ensures StepAsWritten(EmptyState(), SampleMessage(1), 10, SampleEnv()).users == Some([SampleUser(1)])
    ensures Step(EmptyState(), SampleMessage(1), 10, SampleEnv()) == StepAsWritten(EmptyState(), SampleMessage(1), 10, SampleEnv())
  {
    assert !IsMobilePlaceholder("a@x.org");
    SampleAdmittedStep(EmptyState(), 1);
    assert EmptyState().users.GetOr([]) + [SampleUser(1)] == [SampleUser(1)];
  }

  /**
   * As written, the same address arriving twice is admitted twice, so one batch
   * holds two users with one address.
   */
  lemma DuplicateAddressAdmittedTwice()
    ensures var s1 := StepAsWritten(EmptyState(), SampleMessage(1), 10, SampleEnv());
            var t := StepAsWritten(s1, SampleMessage(2), 10, SampleEnv());
            t.users.Some? && |t.users.value| == 2 && !EmailsDistinct(t.users)
  {
    var env := SampleEnv();
    SampleFirstAdmitted();
    var s1 := StepAsWritten(EmptyState(), SampleMessage(1), 10, env);
    DuplicateCheckNeverFires(s1.users, "a@x.org");
    assert !IsMobilePlaceholder("a@x.org");
    assert CanProcess(s1.users, SampleMessage(2));
    SampleAdmittedStep(s1, 2);
    assert s1.users.GetOr([]) + [SampleUser(2)] == [SampleUser(1), SampleUser(2)];
    var t := StepAsWritten(s1, SampleMessage(2), 10, env);
    assert t.users == Some([SampleUser(1), SampleUser(2)]);
    assert t.users.value[0].email == t.users.value[1].email;
  }

  /** With the intended check the second message is rejected, yet still acknowledged. */
  lemma DuplicateAddressAdmittedOnce()
    ensures var s1 := Step(EmptyState(), SampleMessage(1), 10, SampleEnv());
            var t := Step(s1, SampleMessage(2), 10, SampleEnv());
            t.users == Some([SampleUser(1)]) && t.acks == [1, 2]
  {
    var env := SampleEnv();
    SampleFirstAdmitted();
    SampleAdmittedStep(EmptyState(), 1);
    var s1 := Step(EmptyState(), SampleMessage(1), 10, env);
    assert s1.users.value[0].email == Some("a@x.org");
    assert HasEmail(s1.users, "a@x.org");
    assert !CanProcessIntended(s1.users, SampleMessage(2));
    assert s1.acks == [1];
  }
}
