/**
 * Building one campaign object (MBC_DigestEmail_Campaign): fetch the campaign
 * node from the content API, classify the HTTP outcome, then copy the required
 * and optional fields. Every thrown exception becomes a `Failure`.
 */
module CampaignObject {
  import opened Common
  import opened ContentApi

  /**
   * Why a campaign object could not be built. `Crashed` is not an exception: a
   * 403 whose body decoded to an object makes the message built for the
   * exception index that object as an array, which raises a PHP `Error`.
   */
  datatype CampaignError =
    | RejectedArray(url: string)
    | AccessDenied(url: string)
    | Crashed(url: string)
    | Unreachable(url: string)
    | MissingTitle(nid: nat)
    | MissingCoverImage(nid: nat)

  /**
   * A built campaign. `duringTip` is the property the class declares for the tip
   * copy; the copy itself is stored under `duringTipCopy`.
   */
  datatype Campaign = Campaign(
    drupalNid: nat,
    url: string,
    title: string,
    imageCampaignCover: string,
    callToAction: Option<string>,
    duringTipHeader: Option<string>,
    duringTipCopy: Option<string>,
    duringTip: Option<string>,
    isStaffPick: Option<StaffValue>,
    latestNews: Option<string>)

  /**
   * The configured content API endpoint and the two foreign functions a build
   * calls: the HTTP GET helper (`None` when it returns nothing) and `strip_tags`.
   */
  datatype ApiConfig = ApiConfig(
    host: string,
    port: Port,
    fetch: string -> Option<HttpResult>,
    stripTags: string -> string)

  /** Classifies the HTTP outcome: only a 200 carrying an object is usable. */
  function GatherSettings(result: Option<HttpResult>, url: string): (r: Result<ContentObject, CampaignError>)
    ensures r.Success? <==> result.Some? && result.value.status == 200 && result.value.body.ObjectBody?
    ensures r.Success? ==> r.value == result.value.body.obj
    ensures r.Failure? && result.Some? && result.value.status == 200 && result.value.body.ArrayBody? ==>
              r.error == RejectedArray(url)
    ensures r.Failure? && result.Some? && result.value.status == 403 ==>
              r.error == (if result.value.body.ObjectBody? then Crashed(url) else AccessDenied(url))
    ensures r.Failure? && (result.None? || (result.value.status != 200 && result.value.status != 403)) ==>
              r.error == Unreachable(url)
    ensures r.Failure? ==> !r.error.MissingTitle? && !r.error.MissingCoverImage?
  {
    match result
    case None => Failure(Unreachable(url))
    case Some(HttpResult(body, status)) =>
      if status == 200 && body.ObjectBody? then Success(body.obj)
      else if status == 200 && body.ArrayBody? then Failure(RejectedArray(url))
      else if status == 403 && body.ObjectBody? then Failure(Crashed(url))
      else if status == 403 then Failure(AccessDenied(url))
      else Failure(Unreachable(url))
  }

  /**
   * Populates a campaign from the fetched settings. `nid` is the requested node,
   * used in the error; the object's own nid comes from the response.
   */
  function Add(nid: nat, settings: ContentObject, stripTags: string -> string): (r: Result<Campaign, CampaignError>)
    ensures r.Success? <==> settings.title.Some? && settings.imageCoverSrc.Some?
    ensures settings.title.None? ==> r == Failure(MissingTitle(nid))
    ensures settings.title.Some? && settings.imageCoverSrc.None? ==> r == Failure(MissingCoverImage(nid))
    ensures r.Success? ==>
              && r.value.drupalNid == settings.nid
              && r.value.url == NodeUrl(settings.nid)
              && r.value.title == settings.title.value
              && r.value.imageCampaignCover == settings.imageCoverSrc.value
    ensures r.Success? ==>
              && r.value.callToAction == settings.callToAction
              && r.value.duringTipHeader == FirstStepHeader(settings)
              && r.value.isStaffPick == settings.isStaffPick
              && (r.value.duringTipCopy.Some? <==> FirstStepCopy(settings).Some?)
              && (r.value.duringTipCopy.Some? ==> r.value.duringTipCopy.value == stripTags(FirstStepCopy(settings).value))
              && (r.value.latestNews.Some? <==> settings.latestNewsCopy.Some?)
              && (r.value.latestNews.Some? ==> r.value.latestNews.value == stripTags(settings.latestNewsCopy.value))
    ensures r.Success? ==> r.value.duringTip.None?
  {
    if settings.title.None? then Failure(MissingTitle(nid))
    else if settings.imageCoverSrc.None? then Failure(MissingCoverImage(nid))
    else
      Success(Campaign(
        drupalNid := settings.nid,
        url := NodeUrl(settings.nid),
        title := settings.title.value,
        imageCampaignCover := settings.imageCoverSrc.value,
        callToAction := settings.callToAction,
        duringTipHeader := FirstStepHeader(settings),
        duringTipCopy := MapOption(FirstStepCopy(settings), stripTags),
        duringTip := None,
        isStaffPick := settings.isStaffPick,
        latestNews := MapOption(settings.latestNewsCopy, stripTags)))
  }

  /** `new MBC_DigestEmail_Campaign($nid)`: fetch, classify, populate. */
  function Build(api: ApiConfig, nid: nat): (r: Result<Campaign, CampaignError>)
    ensures var res := api.fetch(ApiUrl(api.host, api.port, nid));
            r.Success? <==>
              && res.Some? && res.value.status == 200 && res.value.body.ObjectBody?
              && res.value.body.obj.title.Some? && res.value.body.obj.imageCoverSrc.Some?
    ensures r.Success? ==> r.value.url == NodeUrl(r.value.drupalNid)
  {
    var url := ApiUrl(api.host, api.port, nid);
    match GatherSettings(api.fetch(url), url)
    case Failure(e) => Failure(e)
    case Success(settings) => Add(nid, settings, api.stripTags)
  }
}
