/**
 * `filterCampaigns`: for each user, keep the signups whose campaign has both a
 * global merge var and a detail, put staff picks before the rest, order each
 * group (by signup time as intended, left in message order as written) and keep
 * at most MAX_CAMPAIGNS, re-keyed from 0.
 */
module CampaignSelection {
  import opened Common
  import opened Seqs
  import opened ContentApi
  import opened DigestTypes
  import opened CampaignDetails
  import opened CampaignMarkup
  import opened DigestRules

  const MaxCampaigns: nat := 5

  /**
   * The `usort` comparator as written. PHP groups nested ternaries to the left,
   * so it reads `(($a - $b) ? 0 : ($a > $b)) ? 1 : -1`.
   */
  function ComparatorAsWritten(a: Activity, b: Activity): (c: int)
    ensures c == -1
  {
    var inner: bool := if a.signup - b.signup != 0 then false else a.signup > b.signup;
    if inner then 1 else -1
  }

  /** The comparator evidently meant: earlier signups first. */
  function Comparator(a: Activity, b: Activity): (c: int)
    ensures c == 0 <==> a.signup == b.signup
    ensures c < 0 <==> a.signup < b.signup
  {
    if a.signup == b.signup then 0 else if a.signup > b.signup then 1 else -1
  }

  /**
   * As written, every pair compares "less" both ways round, so `usort` gets no
   * order information: the order inside each group is left to the sort routine.
   */
  lemma ComparatorAsWrittenIsConstant(a: Activity, b: Activity)
    ensures ComparatorAsWritten(a, b) == -1 && ComparatorAsWritten(b, a) == -1
    ensures a.signup != b.signup ==> Comparator(a, b) == -Comparator(b, a) != 0
  {
  }

  /** The intended comparator is a consistent order: antisymmetric and transitive. */
  lemma ComparatorIsOrder(a: Activity, b: Activity, c: Activity)
    ensures Comparator(a, b) == -Comparator(b, a)
    ensures Comparator(a, b) <= 0 && Comparator(b, c) <= 0 ==> Comparator(a, c) <= 0
  {
  }

  /**
   * One insertion step of PHP's sort for short arrays: `x` moves left past every
   * element the comparator puts after it.
   */
  function InsertLeft(cmp: (Activity, Activity) -> int, sorted: seq<Activity>, x: Activity): (r: seq<Activity>)
    ensures |r| == |sorted| + 1
    ensures multiset(r) == multiset(sorted) + multiset{x}
    decreases |sorted|
  {
    if sorted == [] then [x]
    else
      var n := |sorted| - 1;
      assert sorted == sorted[..n] + [sorted[n]];
      if cmp(sorted[n], x) > 0 then InsertLeft(cmp, sorted[..n], x) + [sorted[n]]
      else sorted + [x]
  }

  /**
   * `usort` on an array of at most 16 elements (PHP 7's insertion sort): every
   * element moves only past elements that compare greater than it.
   */
  function InsertionSort(cmp: (Activity, Activity) -> int, s: seq<Activity>): (r: seq<Activity>)
    ensures |r| == |s|
    ensures multiset(r) == multiset(s)
    decreases |s|
  {
    if s == [] then []
    else
      var n := |s| - 1;
      assert s == s[..n] + [s[n]];
      InsertLeft(cmp, InsertionSort(cmp, s[..n]), s[n])
  }

  /** A comparator that never answers "greater" moves nothing. */
  lemma {:induction false} InsertionSortNoPositive(cmp: (Activity, Activity) -> int, s: seq<Activity>)
    requires forall a, b :: cmp(a, b) <= 0
    ensures InsertionSort(cmp, s) == s
    decreases |s|
  {
    if s != [] {
      var n := |s| - 1;
      var init := s[..n];
      InsertionSortNoPositive(cmp, init);
      assert InsertionSort(cmp, s) == InsertLeft(cmp, init, s[n]);
      assert InsertLeft(cmp, init, s[n]) == init + [s[n]];
      assert s == init + [s[n]];
    }
  }

  /** A group sorted with the comparator as written stays in message order. */
  lemma UsortAsWrittenKeepsOrder(s: seq<Activity>)
    ensures InsertionSort(ComparatorAsWritten, s) == s
  {
    forall a, b ensures ComparatorAsWritten(a, b) <= 0 {
      ComparatorAsWrittenIsConstant(a, b);
    }
    InsertionSortNoPositive(ComparatorAsWritten, s);
  }

  predicate SortedBySignup(s: seq<Activity>) {
    forall i, j :: 0 <= i < j < |s| ==> s[i].signup <= s[j].signup
  }

  /** Inserts `x` before the first element that does not sign up earlier. */
  function Insert(x: Activity, s: seq<Activity>): (r: seq<Activity>)
    ensures |r| == |s| + 1
    ensures multiset(r) == multiset(s) + multiset{x}
  {
    if s == [] then [x]
    else if Comparator(x, s[0]) <= 0 then
      assert s == [s[0]] + s[1..];
      [x] + s
    else
      assert s == [s[0]] + s[1..];
      [s[0]] + Insert(x, s[1..])
  }

  lemma {:induction false} InsertSorted(x: Activity, s: seq<Activity>)
    requires SortedBySignup(s)
    ensures SortedBySignup(Insert(x, s))
    decreases |s|
  {
    if s != [] && Comparator(x, s[0]) > 0 {
      var rest := Insert(x, s[1..]);
      InsertSorted(x, s[1..]);
      forall k | 0 <= k < |rest| ensures s[0].signup <= rest[k].signup {
        assert rest[k] in multiset(rest);
        assert rest[k] == x || rest[k] in multiset(s[1..]);
        if rest[k] != x {
          var m :| 0 <= m < |s[1..]| && s[1..][m] == rest[k];
          assert s[1..][m] == s[m + 1];
        }
      }
      assert Insert(x, s) == [s[0]] + rest;
    }
  }

  /** Insertion sort by signup time. */
  function SortBySignup(s: seq<Activity>): (r: seq<Activity>)
    ensures |r| == |s|
    ensures multiset(r) == multiset(s)
    ensures SortedBySignup(r)
  {
    if s == [] then [] else
      assert s == [s[0]] + s[1..];
      var rest := SortBySignup(s[1..]);
      InsertSorted(s[0], rest);
      Insert(s[0], rest)
  }

  /** The activities signed up at time `v`. */
  function SignedUpAt(v: int): Activity -> bool {
    (a: Activity) => a.signup == v
  }

  lemma {:induction false} InsertStable(x: Activity, t: seq<Activity>, v: int)
    ensures Filter(SignedUpAt(v), Insert(x, t)) ==
              (if x.signup == v then [x] else []) + Filter(SignedUpAt(v), t)
    decreases |t|
  {
    if t == [] {
    } else if Comparator(x, t[0]) <= 0 {
      assert Insert(x, t)[1..] == t;
    } else {
      InsertStable(x, t[1..], v);
      assert Insert(x, t)[1..] == Insert(x, t[1..]);
    }
  }

  /** The sort is stable: activities with the same signup time keep their order. */
  lemma {:induction false} SortStable(s: seq<Activity>, v: int)
    ensures Filter(SignedUpAt(v), SortBySignup(s)) == Filter(SignedUpAt(v), s)
    decreases |s|
  {
    if s != [] {
      SortStable(s[1..], v);
      InsertStable(s[0], SortBySignup(s[1..]), v);
    }
  }

  /** The first detail with the given nid; the detail loop breaks at the first match. */
  function FirstDetail(details: seq<Detail>, nid: nat): (r: Option<Detail>)
    ensures r.Some? ==> r.value in details && r.value.drupalNid == nid
    ensures r.None? <==> forall i :: 0 <= i < |details| ==> details[i].drupalNid != nid
  {
    if details == [] then None
    else if details[0].drupalNid == nid then Some(details[0])
    else
      assert forall i :: 1 <= i < |details| ==> details[1..][i - 1] == details[i];
      FirstDetail(details[1..], nid)
  }

  /** The signup's campaign has a global merge var and a detail. */
  predicate Known(a: Activity, details: seq<Detail>, vars: map<nat, MergeVar>) {
    a.nid in vars && FirstDetail(details, a.nid).Some?
  }

  /** The first detail for the signup's campaign marks it a staff pick (`== 'true'`). */
  predicate StaffPick(a: Activity, details: seq<Detail>) {
    match FirstDetail(details, a.nid)
    case Some(d) => IsStaffPick(d.isStaffPick)
    case None => false
  }

  function StaffPicks(slots: seq<Slot>, details: seq<Detail>, vars: map<nat, MergeVar>): seq<Activity> {
    FilterMap((s: Slot) => Known(s.activity, details, vars) && StaffPick(s.activity, details),
              (s: Slot) => s.activity, slots)
  }

  function NonStaffPicks(slots: seq<Slot>, details: seq<Detail>, vars: map<nat, MergeVar>): seq<Activity> {
    FilterMap((s: Slot) => Known(s.activity, details, vars) && !StaffPick(s.activity, details),
              (s: Slot) => s.activity, slots)
  }

  /** The list as rebuilt by appending: key k holds the k-th activity. */
  function Rekey(acts: seq<Activity>): (r: seq<Slot>)
    ensures |r| == |acts| && DenseKeys(r) && Activities(r) == acts
  {
    seq(|acts|, k requires 0 <= k < |acts| => Slot(k, acts[k]))
  }

  /** `array_slice($list, 0, MAX_CAMPAIGNS)` when the list is longer. */
  function Take(s: seq<Activity>, n: nat): (r: seq<Activity>)
    ensures |r| == if |s| < n then |s| else n
    ensures r == s[..|r|]
  {
    if |s| > n then s[..n] else s
  }

  /** No non-staff pick comes before a staff pick. */
  predicate StaffFirst(s: seq<Activity>, details: seq<Detail>) {
    forall i, j :: 0 <= i < j < |s| && StaffPick(s[j], details) ==> StaffPick(s[i], details)
  }

  /** Each group, staff picks and the rest, is in signup order. */
  predicate GroupsSorted(s: seq<Activity>, details: seq<Detail>) {
    forall i, j :: 0 <= i < j < |s| && StaffPick(s[i], details) == StaffPick(s[j], details) ==>
      s[i].signup <= s[j].signup
  }

  /**
   * The order `usort` leaves one group in. As written that is PHP's insertion
   * sort driven by the constant comparator, which leaves the group as it was;
   * with the intended comparator the group is ordered by signup time.
   */
  function GroupOrder(rules: Rules, g: seq<Activity>): (r: seq<Activity>)
    ensures |r| == |g| && multiset(r) == multiset(g)
    ensures rules.Intended? ==> SortedBySignup(r)
    ensures rules.AsWritten? ==> r == g
  {
    match rules
    case AsWritten => UsortAsWrittenKeepsOrder(g); InsertionSort(ComparatorAsWritten, g)
    case Intended => SortBySignup(g)
  }

  /** The ordered staff picks followed by the ordered other picks. */
  function Ordered(slots: seq<Slot>, details: seq<Detail>, vars: map<nat, MergeVar>, rules: Rules): seq<Activity> {
    GroupOrder(rules, StaffPicks(slots, details, vars)) + GroupOrder(rules, NonStaffPicks(slots, details, vars))
  }

  /** Sorting keeps any property every element has. */
  lemma {:induction false} SortKeeps(s: seq<Activity>, rules: Rules, q: Activity -> bool)
    requires forall i :: 0 <= i < |s| ==> q(s[i])
    ensures forall i :: 0 <= i < |GroupOrder(rules, s)| ==> q(GroupOrder(rules, s)[i])
  {
    var r := GroupOrder(rules, s);
    forall i | 0 <= i < |r| ensures q(r[i]) {
      assert r[i] in multiset(s);
    }
  }

  /** Staff picks followed by other picks put staff picks first. */
  lemma ConcatShape(a: seq<Activity>, b: seq<Activity>, details: seq<Detail>, vars: map<nat, MergeVar>)
    requires forall i :: 0 <= i < |a| ==> Known(a[i], details, vars) && StaffPick(a[i], details)
    requires forall i :: 0 <= i < |b| ==> Known(b[i], details, vars) && !StaffPick(b[i], details)
    ensures StaffFirst(a + b, details)
    ensures SortedBySignup(a) && SortedBySignup(b) ==> GroupsSorted(a + b, details)
    ensures forall i :: 0 <= i < |a + b| ==> Known((a + b)[i], details, vars)
  {
  }

  lemma OrderedShape(slots: seq<Slot>, details: seq<Detail>, vars: map<nat, MergeVar>, rules: Rules)
    ensures var o := Ordered(slots, details, vars, rules);
            && StaffFirst(o, details)
            && (rules.Intended? ==> GroupsSorted(o, details))
            && (rules.AsWritten? ==> o == StaffPicks(slots, details, vars) + NonStaffPicks(slots, details, vars))
            && (forall i :: 0 <= i < |o| ==> Known(o[i], details, vars))
            && multiset(o) == multiset(StaffPicks(slots, details, vars)) + multiset(NonStaffPicks(slots, details, vars))
  {
    var isStaff := (x: Activity) => Known(x, details, vars) && StaffPick(x, details);
    var isOther := (x: Activity) => Known(x, details, vars) && !StaffPick(x, details);
    FilterMapPreserves((s: Slot) => Known(s.activity, details, vars) && StaffPick(s.activity, details),
                       (s: Slot) => s.activity, slots, isStaff);
    FilterMapPreserves((s: Slot) => Known(s.activity, details, vars) && !StaffPick(s.activity, details),
                       (s: Slot) => s.activity, slots, isOther);
    SortKeeps(StaffPicks(slots, details, vars), rules, isStaff);
    SortKeeps(NonStaffPicks(slots, details, vars), rules, isOther);
    ConcatShape(GroupOrder(rules, StaffPicks(slots, details, vars)), GroupOrder(rules, NonStaffPicks(slots, details, vars)), details, vars);
  }

  /** A prefix of a list keeps its shape. */
  lemma TakeShape(o: seq<Activity>, n: nat, details: seq<Detail>, vars: map<nat, MergeVar>)
    requires StaffFirst(o, details)
    requires forall i :: 0 <= i < |o| ==> Known(o[i], details, vars)
    ensures var t := Take(o, n);
            && StaffFirst(t, details)
            && (GroupsSorted(o, details) ==> GroupsSorted(t, details))
            && (forall i :: 0 <= i < |t| ==> Known(t[i], details, vars))
            && multiset(t) <= multiset(o)
  {
    var t := Take(o, n);
    assert o == t + o[|t|..];
  }

  /** The user had at least one signup to show. */
  predicate AnyKnown(e: Entry, details: seq<Detail>, vars: map<nat, MergeVar>) {
    |StaffPicks(e.user.campaigns, details, vars)| > 0 || |NonStaffPicks(e.user.campaigns, details, vars)| > 0
  }

  /** The activities kept for a user: the first MAX_CAMPAIGNS of the ordered matches. */
  function Selected(slots: seq<Slot>, details: seq<Detail>, vars: map<nat, MergeVar>, rules: Rules): seq<Activity> {
    Take(Ordered(slots, details, vars, rules), MaxCampaigns)
  }

  /** The properties `filterCampaigns` promises of the kept list under either reading. */
  predicate SelectionShape(acts: seq<Activity>, staff: seq<Activity>, other: seq<Activity>, details: seq<Detail>, vars: map<nat, MergeVar>) {
    && |acts| == (if |staff| + |other| < MaxCampaigns then |staff| + |other| else MaxCampaigns)
    && (forall i :: 0 <= i < |acts| ==> Known(acts[i], details, vars))
    && StaffFirst(acts, details)
    && multiset(acts) <= multiset(staff) + multiset(other)
    && (|staff| < |acts| ==> multiset(staff) <= multiset(acts))
  }

  lemma SelectedOrdered(slots: seq<Slot>, details: seq<Detail>, vars: map<nat, MergeVar>, rules: Rules)
    ensures var t := Selected(slots, details, vars, rules);
            && (forall i :: 0 <= i < |t| ==> Known(t[i], details, vars))
            && StaffFirst(t, details)
            && (rules.Intended? ==> GroupsSorted(t, details))
            && (rules.AsWritten? ==> t == Take(StaffPicks(slots, details, vars) + NonStaffPicks(slots, details, vars), MaxCampaigns))
            && multiset(t) <= multiset(StaffPicks(slots, details, vars)) + multiset(NonStaffPicks(slots, details, vars))
  {
    OrderedShape(slots, details, vars, rules);
    TakeShape(Ordered(slots, details, vars, rules), MaxCampaigns, details, vars);
  }

  /** When anything but staff picks is kept, every staff pick is kept. */
  lemma SelectedStaffPriority(slots: seq<Slot>, details: seq<Detail>, vars: map<nat, MergeVar>, rules: Rules)
    ensures var t := Selected(slots, details, vars, rules);
            var staff := StaffPicks(slots, details, vars);
            |staff| < |t| ==> multiset(staff) <= multiset(t)
  {
    var staff := StaffPicks(slots, details, vars);
    var sorted := GroupOrder(rules, staff);
    var o := Ordered(slots, details, vars, rules);
    var t := Selected(slots, details, vars, rules);
    if |staff| < |t| {
      PrefixCovers(sorted, GroupOrder(rules, NonStaffPicks(slots, details, vars)), |t|);
    }
  }

  /** A prefix longer than `a` of `a + b` holds all of `a`. */
  lemma PrefixCovers(a: seq<Activity>, b: seq<Activity>, k: nat)
    requires |a| < k <= |a + b|
    ensures multiset(a) <= multiset((a + b)[..k])
  {
    var t := (a + b)[..k];
    assert t == a + t[|a|..];
    assert multiset(t) == multiset(a) + multiset(t[|a|..]);
  }

  lemma SelectedShape(slots: seq<Slot>, details: seq<Detail>, vars: map<nat, MergeVar>, rules: Rules)
    ensures SelectionShape(Selected(slots, details, vars, rules), StaffPicks(slots, details, vars),
                           NonStaffPicks(slots, details, vars), details, vars)
  {
    SelectedOrdered(slots, details, vars, rules);
    SelectedStaffPriority(slots, details, vars, rules);
  }

  /** `filterCampaigns` for one user. */
  function FilterUser(e: Entry, details: seq<Detail>, vars: map<nat, MergeVar>, rules: Rules): (r: Entry)
    ensures r.index == e.index && r.user.(campaigns := e.user.campaigns) == e.user
    ensures !AnyKnown(e, details, vars) ==> r == e
    ensures AnyKnown(e, details, vars) ==> DenseKeys(r.user.campaigns) && 0 < |r.user.campaigns| <= MaxCampaigns
  {
    if AnyKnown(e, details, vars) then
      e.(user := e.user.(campaigns := Rekey(Selected(e.user.campaigns, details, vars, rules))))
    else e
  }

  /**
   * A user with a known signup gets at most MAX_CAMPAIGNS of them, known ones
   * only, staff picks first, and every staff pick whenever anything else is
   * kept. As written each group keeps message order; with the intended
   * comparator each group is in signup order.
   */
  lemma FilterUserShape(e: Entry, details: seq<Detail>, vars: map<nat, MergeVar>, rules: Rules)
    requires AnyKnown(e, details, vars)
    ensures var acts := Activities(FilterUser(e, details, vars, rules).user.campaigns);
            var staff := StaffPicks(e.user.campaigns, details, vars);
            var other := NonStaffPicks(e.user.campaigns, details, vars);
            && SelectionShape(acts, staff, other, details, vars)
            && (rules.Intended? ==> GroupsSorted(acts, details))
            && (rules.AsWritten? ==> acts == Take(staff + other, MaxCampaigns))
  {
    SelectedShape(e.user.campaigns, details, vars, rules);
    SelectedOrdered(e.user.campaigns, details, vars, rules);
  }

  /** `filterCampaigns` over the batch: only the campaign lists change. */
  function FilterCampaigns(users: seq<Entry>, details: seq<Detail>, vars: map<nat, MergeVar>, rules: Rules): (r: seq<Entry>)
    ensures |r| == |users|
    ensures Tags(r) == Tags(users) && Emails(r) == Emails(users)
    ensures forall i :: 0 <= i < |r| ==> r[i].index == users[i].index && r[i].user.fname == users[i].user.fname
    ensures forall i :: 0 <= i < |r| ==> r[i] == users[i] || |r[i].user.campaigns| <= MaxCampaigns
    ensures forall i :: 0 <= i < |r| ==> r[i] == FilterUser(users[i], details, vars, rules)
  {
    var r := seq(|users|, i requires 0 <= i < |users| => FilterUser(users[i], details, vars, rules));
    SameTagsAndEmails(r, users);
    r
  }

  /**
   * Over the batch, every user with a known signup keeps at most MAX_CAMPAIGNS
   * known signups, staff picks first, drawn from its own matches.
   */
  lemma FilterCampaignsShape(users: seq<Entry>, details: seq<Detail>, vars: map<nat, MergeVar>, rules: Rules, i: nat)
    requires i < |users| && AnyKnown(users[i], details, vars)
    ensures var acts := Activities(FilterCampaigns(users, details, vars, rules)[i].user.campaigns);
            SelectionShape(acts, StaffPicks(users[i].user.campaigns, details, vars),
                           NonStaffPicks(users[i].user.campaigns, details, vars), details, vars)
  {
    FilterUserShape(users[i], details, vars, rules);
  }

  lemma SameTagsAndEmails(a: seq<Entry>, b: seq<Entry>)
    requires |a| == |b|
    requires forall i :: 0 <= i < |a| ==> a[i].user.deliveryTag == b[i].user.deliveryTag && a[i].user.email == b[i].user.email
    ensures Tags(a) == Tags(b) && Emails(a) == Emails(b)
  {
  }
}
