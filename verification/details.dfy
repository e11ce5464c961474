/**
 * Campaign details for the legacy digest: `getCampaignDetails` fetches every
 * target campaign from the content API, and `gatherCampaigns` keeps the active
 * campaigns that have a cover image, copying the fields the markup needs.
 */
module CampaignDetails {
  import opened Common
  import opened Seqs
  import opened ContentApi
  import opened CampaignObject

  /** The per-campaign array `gatherCampaigns` builds; `None` is a missing or NULL value. */
  datatype Detail = Detail(
    drupalNid: nat,
    title: Option<string>,
    isStaffPick: Option<StaffValue>,
    url: string,
    imageCampaignCover: string,
    callToAction: Option<string>,
    factProblem: Option<string>,
    latestNews: Option<string>,
    imageCampaignHeader: Option<string>,
    factSolution: Option<string>,
    duringTipHeader: Option<string>,
    duringTip: Option<string>)

  /** The response for one target campaign. */
  function FetchCampaign(api: ApiConfig, nid: nat): Option<HttpResult> {
    api.fetch(ApiUrl(api.host, api.port, nid))
  }

  /** `$result != NULL && is_array($result) && $result[0] !== FALSE`. */
  predicate Usable(res: Option<HttpResult>) {
    res.Some? && res.value.body != FalseBody
  }

  /**
   * `getCampaignDetails`: the body of every usable response, in target order.
   * The HTTP status is not looked at, so an "access denied" body is passed on too.
   */
  function GetCampaignDetails(api: ApiConfig, targets: seq<nat>): (r: seq<Body>)
    ensures |r| <= |targets|
    ensures forall k :: 0 <= k < |targets| && Usable(FetchCampaign(api, targets[k])) ==>
              FetchCampaign(api, targets[k]).value.body in r
    ensures forall i :: 0 <= i < |r| ==> r[i] != FalseBody
    ensures (forall k :: 0 <= k < |targets| ==> Usable(FetchCampaign(api, targets[k]))) ==>
              |r| == |targets| &&
              forall k :: 0 <= k < |targets| ==> r[k] == FetchCampaign(api, targets[k]).value.body
    ensures (forall k :: 0 <= k < |targets| ==> !Usable(FetchCampaign(api, targets[k]))) ==> r == []
  {
    var usable := (nid: nat) => Usable(FetchCampaign(api, nid));
    var body := (nid: nat) => BodyOf(FetchCampaign(api, nid));
    FilterMapAll(usable, body, targets);
    FilterMapNone(usable, body, targets);
    FilterMapPreserves(usable, body, targets, (b: Body) => b != FalseBody);
    FilterMap(usable, body, targets)
  }

  /** Every body passed on is the body of a usable response to one of the targets. */
  lemma {:induction false} GetCampaignDetailsOrigin(api: ApiConfig, targets: seq<nat>, i: nat) returns (k: nat)
    requires i < |GetCampaignDetails(api, targets)|
    ensures k < |targets| && Usable(FetchCampaign(api, targets[k]))
    ensures GetCampaignDetails(api, targets)[i] == FetchCampaign(api, targets[k]).value.body
  {
    k := FilterMapOrigin((nid: nat) => Usable(FetchCampaign(api, nid)), (nid: nat) => BodyOf(FetchCampaign(api, nid)), targets, i);
  }

  /** Targets are fetched independently and in order: the bodies keep target order. */
  lemma {:induction false} GetCampaignDetailsAppend(api: ApiConfig, a: seq<nat>, b: seq<nat>)
    ensures GetCampaignDetails(api, a + b) == GetCampaignDetails(api, a) + GetCampaignDetails(api, b)
  {
    FilterMapAppend((nid: nat) => Usable(FetchCampaign(api, nid)), (nid: nat) => BodyOf(FetchCampaign(api, nid)), a, b);
  }

  function BodyOf(res: Option<HttpResult>): Body {
    match res
    case Some(h) => h.body
    case None => NullBody
  }

  /** `gatherCampaigns`' test: an active campaign node with a cover image. */
  predicate Eligible(b: Body) {
    && b.ObjectBody?
    && b.obj.status == Some("active")
    && b.obj.kind == Some("campaign")
    && b.obj.imageCoverSrc.Some?
  }

  /** The detail array built for one eligible node. */
  function ToDetail(b: Body, stripTags: string -> string): Detail {
    match b
    case ObjectBody(o) =>
      Detail(
        drupalNid := o.nid,
        title := o.title,
        isStaffPick := o.isStaffPick,
        url := NodeUrl(o.nid),
        imageCampaignCover := o.imageCoverSrc.GetOr(""),
        callToAction := o.callToAction,
        factProblem := o.factProblem,
        latestNews := o.latestNewsCopy,
        imageCampaignHeader := o.imageHeaderSrc,
        factSolution := o.factSolution,
        duringTipHeader := FirstStepHeader(o),
        duringTip := MapOption(FirstStepCopy(o), stripTags))
    case _ => Detail(0, None, None, "", "", None, None, None, None, None, None, None)
  }

  /** A detail's link is the public page of the node it was built from. */
  predicate LinksToNode(d: Detail) {
    d.url == NodeUrl(d.drupalNid)
  }

  /** `gatherCampaigns` over the fetched bodies. */
  function GatherCampaigns(bodies: seq<Body>, stripTags: string -> string): (r: seq<Detail>)
    ensures |r| <= |bodies|
    ensures forall j :: 0 <= j < |bodies| && Eligible(bodies[j]) ==> ToDetail(bodies[j], stripTags) in r
    ensures forall i :: 0 <= i < |r| ==> LinksToNode(r[i])
    ensures (forall j :: 0 <= j < |bodies| ==> !Eligible(bodies[j])) ==> r == []
  {
    var r := FilterMap(Eligible, (b: Body) => ToDetail(b, stripTags), bodies);
    FilterMapPreserves(Eligible, (b: Body) => ToDetail(b, stripTags), bodies, LinksToNode);
    FilterMapNone(Eligible, (b: Body) => ToDetail(b, stripTags), bodies);
    r
  }

  /**
   * Every kept detail was built from an eligible body: an active campaign node
   * with a cover image, whose fields it copies.
   */
  lemma DetailOrigin(bodies: seq<Body>, stripTags: string -> string, i: nat) returns (j: nat)
    requires i < |GatherCampaigns(bodies, stripTags)|
    ensures j < |bodies| && Eligible(bodies[j])
    ensures var d := GatherCampaigns(bodies, stripTags)[i];
            var o := bodies[j].obj;
            && d.drupalNid == o.nid && d.title == o.title && d.isStaffPick == o.isStaffPick
            && d.imageCampaignCover == o.imageCoverSrc.value && d.latestNews == o.latestNewsCopy
            && d.duringTipHeader == FirstStepHeader(o)
            && (d.duringTip.Some? <==> FirstStepCopy(o).Some?)
  {
    j := FilterMapOrigin(Eligible, (b: Body) => ToDetail(b, stripTags), bodies, i);
  }

  /** The filter keeps input order: gathering a concatenation concatenates. */
  lemma GatherAppend(a: seq<Body>, b: seq<Body>, stripTags: string -> string)
    ensures GatherCampaigns(a + b, stripTags) == GatherCampaigns(a, stripTags) + GatherCampaigns(b, stripTags)
  {
    FilterMapAppend(Eligible, (x: Body) => ToDetail(x, stripTags), a, b);
  }
}
