/**
 * Campaign markup for the legacy digest (`buildCampaignMarkup`): placeholders of
 * a markup template are replaced one after another with a campaign's values,
 * the news/tip block chosen by the tip rule; `composeGlobalMergeVars` keys the
 * rendered blocks by campaign nid and adds the member count under key 0.
 */
module CampaignMarkup {
  import opened Common
  import Strings
  import opened CampaignDetails
  import opened DigestRules

  /** A value is present and not the empty string (`isset($v) && $v != ''`). */
  predicate NonEmpty(v: Option<string>) {
    v.Some? && v.value != ""
  }

  /** Which of the four news/tip outcomes a campaign gets. */
  datatype TipBranch = NewsTip | HeaderTip | DefaultTip | NoTip

  /** The tip block's title and body. */
  datatype TipContent = TipContent(title: string, body: string)

  const NewsTitle := "News from the team:"
  const DefaultTipTitle := "Tip from the team:"

  /**
   * The branch as written. Lines 537-539 give `during_tip_header` the default ''
   * before the inner test, so that test always finds the header set.
   */
  function TipBranchAsWritten(d: Detail): (b: TipBranch)
    ensures b == NewsTip <==> NonEmpty(d.latestNews)
    ensures b == HeaderTip <==> !NonEmpty(d.latestNews) && NonEmpty(d.duringTip)
    ensures b != DefaultTip
  {
    var header := Some(d.duringTipHeader.GetOr(""));
    if NonEmpty(d.latestNews) then NewsTip
    else if NonEmpty(d.duringTip) then
      (if header.Some? && d.duringTip.value != "" then HeaderTip else DefaultTip)
    else NoTip
  }

  /** The branch the fallback title is evidently meant for: no usable header. */
  function TipBranchIntended(d: Detail): TipBranch {
    if NonEmpty(d.latestNews) then NewsTip
    else if NonEmpty(d.duringTip) then (if NonEmpty(d.duringTipHeader) then HeaderTip else DefaultTip)
    else NoTip
  }

  /** The title and body each branch puts in the block. */
  function TipFor(d: Detail, b: TipBranch): TipContent {
    match b
    case NewsTip => TipContent(NewsTitle, d.latestNews.GetOr(""))
    case HeaderTip => TipContent(d.duringTipHeader.GetOr("") + ":", d.duringTip.GetOr(""))
    case DefaultTip => TipContent(DefaultTipTitle, d.duringTip.GetOr(""))
    case NoTip => TipContent("", "")
  }

  /**
   * The block as written: news first; otherwise a tip is titled with its header
   * followed by ':', the empty string standing in for a missing header.
   */
  function TipAsWritten(d: Detail): (t: TipContent)
    ensures NonEmpty(d.latestNews) ==> t == TipContent(NewsTitle, d.latestNews.value)
    ensures !NonEmpty(d.latestNews) && NonEmpty(d.duringTip) ==>
              t == TipContent(d.duringTipHeader.GetOr("") + ":", d.duringTip.value)
    ensures t.body != "" <==> NonEmpty(d.latestNews) || NonEmpty(d.duringTip)
  {
    TipFor(d, TipBranchAsWritten(d))
  }

  /** The tip rule: latest news first, then the first step's tip, otherwise nothing. */
  function Tip(d: Detail): (t: TipContent)
    ensures NonEmpty(d.latestNews) ==> t == TipContent(NewsTitle, d.latestNews.value)
    ensures !NonEmpty(d.latestNews) && NonEmpty(d.duringTip) ==>
              t.body == d.duringTip.value &&
              t.title == (if NonEmpty(d.duringTipHeader) then d.duringTipHeader.value + ":" else DefaultTipTitle)
    ensures t.body != "" <==> NonEmpty(d.latestNews) || NonEmpty(d.duringTip)
    ensures t.title == "" <==> t.body == ""
  {
    TipFor(d, TipBranchIntended(d))
  }

  /** As written, the fallback title "Tip from the team:" is never chosen. */
  lemma DefaultTipUnreachable(d: Detail)
    ensures TipBranchAsWritten(d) != DefaultTip
    ensures TipAsWritten(d).title != "" <==> TipAsWritten(d).body != ""
  {
  }

  /**
   * The code as written and the intended rule disagree exactly on a tip without
   * a usable header: the code titles it ":" (or the empty header plus ':').
   */
  lemma TipDiffersExactlyWithoutHeader(d: Detail)
    ensures TipAsWritten(d) != Tip(d) <==>
              !NonEmpty(d.latestNews) && NonEmpty(d.duringTip) && !NonEmpty(d.duringTipHeader)
    ensures TipAsWritten(d) != Tip(d) ==> TipAsWritten(d).title == ":"
  {
    if !NonEmpty(d.latestNews) && NonEmpty(d.duringTip) && !NonEmpty(d.duringTipHeader) {
      assert TipAsWritten(d).title == ":";
      assert Tip(d).title == DefaultTipTitle;
      assert DefaultTipTitle[0] != ':';
    }
  }

  /** A campaign with a tip but no header. */
  function HeaderlessTipCampaign(): Detail {
    Detail(7, Some("Teens for Jeans"), None, "", "cover.jpg", None, None, None, None, None, None, Some("Bring jeans"))
  }

  /** The concrete case: the tip is titled ":" instead of "Tip from the team:". */
  lemma HeaderlessTipTitledColon()
    ensures TipAsWritten(HeaderlessTipCampaign()) == TipContent(":", "Bring jeans")
    ensures Tip(HeaderlessTipCampaign()) == TipContent(DefaultTipTitle, "Bring jeans")
  {
  }

  /**
   * The tip block a run renders. Under either reading news comes first, a block
   * has a title exactly when it has a body, and the body is the news or the tip.
   */
  function TipUnder(rules: Rules, d: Detail): (t: TipContent)
    ensures NonEmpty(d.latestNews) ==> t == TipContent(NewsTitle, d.latestNews.value)
    ensures !NonEmpty(d.latestNews) && NonEmpty(d.duringTip) ==> t.body == d.duringTip.value
    ensures t.body != "" <==> NonEmpty(d.latestNews) || NonEmpty(d.duringTip)
    ensures t.title == "" <==> t.body == ""
    ensures rules.Intended? ==> t == Tip(d)
    ensures rules.AsWritten? ==> t == TipAsWritten(d)
  {
    match rules
    case AsWritten => DefaultTipUnreachable(d); TipAsWritten(d)
    case Intended => Tip(d)
  }

  const ImagePlaceholder := "*|CAMPAIGN_IMAGE_URL|*"
  const TitlePlaceholder := "*|CAMPAIGN_TITLE|*"
  const LinkPlaceholder := "*|CAMPAIGN_LINK|*"
  const DoItTitlePlaceholder := "*|DO_IT_TITLE|*"
  const DoItBodyPlaceholder := "*|DO_IT_BODY|*"
  const FactProblemPlaceholder := "*|FACT_PROBLEM|*"
  const FactSolutionPlaceholder := "*|FACT_SOLUTION|*"
  const CallToActionPlaceholder := "*|CALL_TO_ACTION|*"
  const TipHeaderPlaceholder := "*|DURING_TIP_HEADER|*"
  const TipTitlePlaceholder := "*|TIP_TITLE|*"
  const TipBodyPlaceholder := "*|DURING_TIP|*"

  /** Applies `str_replace` for each (placeholder, value) pair, in order. */
  function ApplyAll(s: string, subs: seq<(string, string)>): (r: string)
    ensures (forall i :: 0 <= i < |subs| ==> !Strings.ContainsSub(s, subs[i].0)) ==> r == s
    decreases |subs|
  {
    if subs == [] then s
    else
      assert forall i :: 1 <= i < |subs| ==> subs[1..][i - 1] == subs[i];
      ApplyAll(Strings.ReplaceAll(s, subs[0].0, subs[0].1), subs[1..])
  }

  /**
   * The replacements in source order. `do_it_title` and `do_it_body` are never
   * set by `gatherCampaigns`, so they are always ''; a NULL value renders as ''.
   */
  function Substitutions(d: Detail, tip: TipContent): (subs: seq<(string, string)>)
    ensures |subs| == 11
    ensures subs[9] == (TipTitlePlaceholder, tip.title) && subs[10] == (TipBodyPlaceholder, tip.body)
  {
    [ (ImagePlaceholder, d.imageCampaignCover),
      (TitlePlaceholder, d.title.GetOr("")),
      (LinkPlaceholder, d.url),
      (DoItTitlePlaceholder, ""),
      (DoItBodyPlaceholder, ""),
      (FactProblemPlaceholder, d.factProblem.GetOr("")),
      (FactSolutionPlaceholder, d.factSolution.GetOr("")),
      (CallToActionPlaceholder, d.callToAction.GetOr("")),
      (TipHeaderPlaceholder, d.duringTipHeader.GetOr("")),
      (TipTitlePlaceholder, tip.title),
      (TipBodyPlaceholder, tip.body) ]
  }

  /** `buildCampaignMarkup` under the given reading of the tip rule. */
  function BuildCampaignMarkup(template: string, d: Detail, rules: Rules): (r: string)
    ensures (forall i :: 0 <= i < 11 ==> !Strings.ContainsSub(template, Substitutions(d, TipUnder(rules, d))[i].0)) ==>
              r == template
  {
    ApplyAll(template, Substitutions(d, TipUnder(rules, d)))
  }

  /** A string without a `*` holds no placeholder. */
  lemma {:induction false} NoStarNoPlaceholder(s: string, pat: string)
    requires |pat| > 0 && pat[0] == '*'
    requires forall i :: 0 <= i < |s| ==> s[i] != '*'
    ensures !Strings.ContainsSub(s, pat)
    decreases |s|
  {
    if |s| > 0 {
      NoStarNoPlaceholder(s[1..], pat);
    }
  }

  /** No `*` in the string. */
  predicate NoStar(s: string) {
    forall i :: 0 <= i < |s| ==> s[i] != '*'
  }

  /** `*|NAME|*`: a star at each end and none between. */
  predicate IsPlaceholder(p: string) {
    |p| >= 2 && p[0] == '*' && p[|p| - 1] == '*' && forall i :: 0 < i < |p| - 1 ==> p[i] != '*'
  }

  /** The eleven placeholders are well formed and pairwise different. */
  lemma PlaceholdersDistinct(d: Detail, tip: TipContent)
    ensures var subs := Substitutions(d, tip);
            && (forall k :: 0 <= k < 11 ==> IsPlaceholder(subs[k].0))
            && (forall k, i :: 0 <= k < 11 && 0 <= i < 11 && k != i ==> subs[k].0 != subs[i].0)
  {
  }

  /** A placeholder between two star-free texts holds no other placeholder. */
  lemma OtherPlaceholderAbsent(pre: string, p: string, rest: string, q: string)
    requires IsPlaceholder(p) && IsPlaceholder(q) && p != q && NoStar(pre) && NoStar(rest)
    ensures !Strings.ContainsSub(pre + p + rest, q)
  {
    var s := pre + p + rest;
    assert forall x :: 0 <= x < |s| && s[x] == '*' ==> x == |pre| || x == |pre| + |p| - 1;
    assert s[|pre|..|pre| + |p|] == p;
    if Strings.ContainsSub(s, q) {
      var at := Strings.ContainsSubAt(s, q);
      assert false;
    }
  }

  /** `str_replace` of a placeholder passes over star-free text in front. */
  lemma {:induction false} ReplaceAfterStarFree(pre: string, t: string, p: string, v: string)
    requires NoStar(pre) && |p| > 0 && p[0] == '*'
    ensures Strings.ReplaceAll(pre + t, p, v) == pre + Strings.ReplaceAll(t, p, v)
    decreases |pre|
  {
    if pre == [] {
      assert pre + t == t;
    } else {
      var tail := pre[1..];
      assert pre + t == [pre[0]] + (tail + t);
      ReplaceAfterStarFree(tail, t, p, v);
      ReplaceSkipsFirst([pre[0]] + (tail + t), p, v);
      assert pre == [pre[0]] + tail;
    }
  }

  /** A subject that does not start with the pattern's first character keeps it. */
  lemma ReplaceSkipsFirst(s: string, p: string, v: string)
    requires |s| > 0 && |p| > 0 && s[0] != p[0]
    ensures Strings.ReplaceAll(s, p, v) == [s[0]] + Strings.ReplaceAll(s[1..], p, v)
  {
    if |s| < |p| {
      assert Strings.ReplaceAll(s[1..], p, v) == s[1..];
      assert s == [s[0]] + s[1..];
    } else {
      assert s[..|p|][0] == s[0];
    }
  }

  /** Replacing a placeholder between star-free texts. */
  lemma ReplaceEmbeddedPlaceholder(pre: string, p: string, rest: string, v: string)
    requires IsPlaceholder(p) && NoStar(pre) && NoStar(rest)
    ensures Strings.ReplaceAll(pre + p + rest, p, v) == pre + v + rest
  {
    var t := p + rest;
    assert t[..|p|] == p;
    assert t[|p|..] == rest;
    NoStarNoPlaceholder(rest, p);
    ReplaceAfterStarFree(pre, t, p, v);
    assert pre + p + rest == pre + t;
  }

  /** Well-formed, pairwise different placeholders. */
  predicate DistinctPlaceholders(subs: seq<(string, string)>) {
    && (forall k :: 0 <= k < |subs| ==> IsPlaceholder(subs[k].0))
    && (forall k, i :: 0 <= k < |subs| && 0 <= i < |subs| && k != i ==> subs[k].0 != subs[i].0)
  }

  /**
   * Applying distinct placeholders in order to one of them between star-free
   * texts replaces it by its value and leaves the texts alone.
   */
  lemma {:induction false} ApplyAllRendersOne(subs: seq<(string, string)>, i: nat, pre: string, rest: string)
    requires DistinctPlaceholders(subs)
    requires i < |subs| && NoStar(pre) && NoStar(rest) && NoStar(subs[i].1)
    ensures ApplyAll(pre + subs[i].0 + rest, subs) == pre + subs[i].1 + rest
  {
    var p, v := subs[i].0, subs[i].1;
    var s := pre + p + rest;
    var front, tail := subs[..i], subs[i + 1..];
    forall k | 0 <= k < |front| ensures !Strings.ContainsSub(s, front[k].0) {
      OtherPlaceholderAbsent(pre, p, rest, subs[k].0);
    }
    assert subs == front + ([subs[i]] + tail);
    ApplyAllAppend(s, front, [subs[i]] + tail);
    assert ([subs[i]] + tail)[1..] == tail;
    ReplaceEmbeddedPlaceholder(pre, p, rest, v);
    assert NoStar(pre + v + rest);
    forall k | 0 <= k < |tail| ensures !Strings.ContainsSub(pre + v + rest, tail[k].0) {
      assert tail[k] == subs[i + 1 + k];
      NoStarNoPlaceholder(pre + v + rest, tail[k].0);
    }
  }

  /**
   * Each placeholder renders to its value: a template made of one placeholder
   * with star-free text on either side becomes the same text around the
   * placeholder's value, whenever the value itself has no `*`.
   */
  lemma PlaceholderRendered(d: Detail, rules: Rules, i: nat, pre: string, rest: string)
    requires i < 11 && NoStar(pre) && NoStar(rest)
    requires NoStar(Substitutions(d, TipUnder(rules, d))[i].1)
    ensures var sub := Substitutions(d, TipUnder(rules, d))[i];
            BuildCampaignMarkup(pre + sub.0 + rest, d, rules) == pre + sub.1 + rest
  {
    var subs := Substitutions(d, TipUnder(rules, d));
    PlaceholdersDistinct(d, TipUnder(rules, d));
    ApplyAllRendersOne(subs, i, pre, rest);
  }

  /** The tip-title placeholder renders to the title the tip rule chose. */
  lemma TipTitleRendered(d: Detail, rules: Rules)
    requires NoStar(TipUnder(rules, d).title)
    ensures BuildCampaignMarkup(TipTitlePlaceholder, d, rules) == TipUnder(rules, d).title
  {
    var title := TipUnder(rules, d).title;
    assert Substitutions(d, TipUnder(rules, d))[9] == (TipTitlePlaceholder, title);
    PlaceholderRendered(d, rules, 9, "", "");
    assert "" + TipTitlePlaceholder + "" == TipTitlePlaceholder;
    assert "" + title + "" == title;
  }

  lemma {:induction false} ApplyAllAppend(s: string, a: seq<(string, string)>, b: seq<(string, string)>)
    ensures ApplyAll(s, a + b) == ApplyAll(ApplyAll(s, a), b)
    decreases |a|
  {
    if a == [] {
      assert a + b == b;
    } else {
      assert (a + b)[1..] == a[1..] + b;
      ApplyAllAppend(Strings.ReplaceAll(s, a[0].0, a[0].1), a[1..], b);
    }
  }

  /** One entry of Mandrill's `global_merge_vars`. */
  datatype MergeVar = MergeVar(name: string, content: string)

  /** The merge var of one campaign: named after its nid, holding its markup. */
  function CampaignVar(template: string, d: Detail, rules: Rules): MergeVar {
    MergeVar("campaign-" + Strings.NatToString(d.drupalNid), BuildCampaignMarkup(template, d, rules))
  }

  /** The campaign entries, keyed by nid; a later detail with the same nid overwrites. */
  function CampaignVars(template: string, details: seq<Detail>, rules: Rules): map<nat, MergeVar>
    decreases |details|
  {
    if details == [] then map[]
    else
      var n := |details| - 1;
      CampaignVars(template, details[..n], rules)[details[n].drupalNid := CampaignVar(template, details[n], rules)]
  }

  lemma {:induction false} CampaignVarsKeys(template: string, details: seq<Detail>, rules: Rules)
    ensures CampaignVars(template, details, rules).Keys == NidsOf(details)
    decreases |details|
  {
    if details != [] {
      var n := |details| - 1;
      CampaignVarsKeys(template, details[..n], rules);
      var m := CampaignVars(template, details[..n], rules);
      assert CampaignVars(template, details, rules).Keys == m.Keys + {details[n].drupalNid};
      NidsOfSnoc(details);
    }
  }

  /** The nids of a list of details. */
  function NidsOf(details: seq<Detail>): set<nat> {
    set i | 0 <= i < |details| :: details[i].drupalNid
  }

  lemma NidsOfSnoc(details: seq<Detail>)
    requires details != []
    ensures NidsOf(details) == NidsOf(details[..|details| - 1]) + {details[|details| - 1].drupalNid}
  {
    var n := |details| - 1;
    var init := details[..n];
    forall x | x in NidsOf(details) ensures x in NidsOf(init) + {details[n].drupalNid} {
      var i :| 0 <= i < |details| && details[i].drupalNid == x;
      if i < n {
        assert init[i].drupalNid == x;
      }
    }
    forall x | x in NidsOf(init) ensures x in NidsOf(details) {
      var i :| 0 <= i < n && init[i].drupalNid == x;
      assert details[i].drupalNid == x;
    }
  }

  /** The entry under a nid is the merge var of the last detail carrying it. */
  lemma {:induction false} CampaignVarsLastWins(template: string, details: seq<Detail>, rules: Rules, i: nat)
    requires i < |details|
    requires forall j :: i < j < |details| ==> details[j].drupalNid != details[i].drupalNid
    ensures details[i].drupalNid in CampaignVars(template, details, rules)
    ensures CampaignVars(template, details, rules)[details[i].drupalNid] == CampaignVar(template, details[i], rules)
    decreases |details|
  {
    var n := |details| - 1;
    if i < n {
      assert details[..n][i] == details[i];
      assert forall j :: i < j < n ==> details[..n][j] == details[j];
      CampaignVarsLastWins(template, details[..n], rules, i);
    }
  }

  /** `composeGlobalMergeVars`: the campaign entries plus MEMBER_COUNT under key 0. */
  function ComposeGlobalMergeVars(template: string, details: seq<Detail>, memberCount: string, rules: Rules): (m: map<nat, MergeVar>)
    ensures m.Keys == {0} + NidsOf(details)
    ensures m[0] == MergeVar("MEMBER_COUNT", memberCount)
    ensures forall k :: k in m && k != 0 ==> m[k].name == "campaign-" + Strings.NatToString(k)
    ensures forall i :: 0 <= i < |details| && details[i].drupalNid != 0 &&
                        (forall j :: i < j < |details| ==> details[j].drupalNid != details[i].drupalNid) ==>
              m[details[i].drupalNid] == CampaignVar(template, details[i], rules)
  {
    CampaignVarsFacts(template, details, rules);
    CampaignVars(template, details, rules)[0 := MergeVar("MEMBER_COUNT", memberCount)]
  }

  /** The keys, names and last-wins entries of the campaign map, in one place. */
  lemma CampaignVarsFacts(template: string, details: seq<Detail>, rules: Rules)
    ensures var vars := CampaignVars(template, details, rules);
            && vars.Keys == NidsOf(details)
            && (forall k :: k in vars ==> vars[k].name == "campaign-" + Strings.NatToString(k))
            && (forall i :: 0 <= i < |details| && (forall j :: i < j < |details| ==> details[j].drupalNid != details[i].drupalNid) ==>
                  details[i].drupalNid in vars && vars[details[i].drupalNid] == CampaignVar(template, details[i], rules))
  {
    var vars := CampaignVars(template, details, rules);
    CampaignVarsKeys(template, details, rules);
    forall i | 0 <= i < |details| && (forall j :: i < j < |details| ==> details[j].drupalNid != details[i].drupalNid)
      ensures details[i].drupalNid in vars && vars[details[i].drupalNid] == CampaignVar(template, details[i], rules)
    {
      CampaignVarsLastWins(template, details, rules, i);
    }
    forall k | k in vars ensures vars[k].name == "campaign-" + Strings.NatToString(k) {
      LastWithNid(template, details, rules, k);
    }
  }

  /** Every campaign entry is named after the nid it sits under. */
  lemma {:induction false} LastWithNid(template: string, details: seq<Detail>, rules: Rules, k: nat)
    requires k in CampaignVars(template, details, rules)
    ensures CampaignVars(template, details, rules)[k].name == "campaign-" + Strings.NatToString(k)
    decreases |details|
  {
    var n := |details| - 1;
    if details[n].drupalNid != k {
      assert forall i :: 0 <= i < n ==> details[..n][i] == details[i];
      LastWithNid(template, details[..n], rules, k);
    }
  }
}
