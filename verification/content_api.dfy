/**
 * The campaign content API as both code generations see it: the decoded JSON
 * object for one campaign node, the `(body, status)` pair the HTTP helper returns,
 * the endpoint URL built from the configured host and port, and the public node
 * URL a digest links to.
 */
module ContentApi {
  import opened Common
  import Strings

  /** The raw `is_staff_pick` value: JSON may carry a boolean or a string. */
  datatype StaffValue = StaffBool(flag: bool) | StaffText(text: string)

  /**
   * `isset($v) && $v == 'true'` under PHP's loose comparison: a boolean compares
   * by truth value (the string 'true' is truthy), a string compares as a string.
   */
  predicate IsStaffPick(v: Option<StaffValue>) {
    match v
    case None => false
    case Some(StaffBool(b)) => b
    case Some(StaffText(t)) => t == "true"
  }

  /** One entry of the `step_pre` list. */
  datatype StepPre = StepPre(header: Option<string>, copy: Option<string>)

  /** The fields of a campaign node the digest reads; `None` is missing or NULL. */
  datatype ContentObject = ContentObject(
    nid: nat,
    status: Option<string>,
    kind: Option<string>,
    title: Option<string>,
    isStaffPick: Option<StaffValue>,
    imageCoverSrc: Option<string>,
    imageHeaderSrc: Option<string>,
    callToAction: Option<string>,
    factProblem: Option<string>,
    factSolution: Option<string>,
    stepPre: seq<StepPre>,
    latestNewsCopy: Option<string>)

  /** `$o->step_pre[0]->header`, when set. */
  function FirstStepHeader(o: ContentObject): (r: Option<string>)
    ensures r.Some? ==> |o.stepPre| > 0 && o.stepPre[0].header == r
  {
    if |o.stepPre| > 0 then o.stepPre[0].header else None
  }

  /** `$o->step_pre[0]->copy`, when set. */
  function FirstStepCopy(o: ContentObject): (r: Option<string>)
    ensures r.Some? ==> |o.stepPre| > 0 && o.stepPre[0].copy == r
  {
    if |o.stepPre| > 0 then o.stepPre[0].copy else None
  }

  /**
   * The decoded response body: an object, an array (an error list), nothing, or
   * the FALSE the HTTP helper puts in place of a body it could not fetch.
   */
  datatype Body = ObjectBody(obj: ContentObject) | ArrayBody(items: seq<string>) | NullBody | FalseBody

  /** What the HTTP GET helper returns: `array($body, $statusCode)`. */
  datatype HttpResult = HttpResult(body: Body, status: int)

  /** The configured API port: absent, a number (after `(int)`), or a non-numeric string. */
  datatype Port = NoPort | NumericPort(value: int) | TextPort(text: string)

  /** The port is appended iff `$port != 0 && is_numeric($port)`. */
  predicate AppendsPort(port: Port) {
    port.NumericPort? && port.value != 0
  }

  /** The configured host, with `:port` appended when the port is used. */
  function Endpoint(host: string, port: Port): string {
    if AppendsPort(port) then host + ":" + Strings.IntToString(port.value) else host
  }

  function ContentPath(nid: nat): string {
    "/api/v1/content/" + Strings.NatToString(nid)
  }

  /** The content API URL of one campaign node. */
  function ApiUrl(host: string, port: Port, nid: nat): (r: string)
    ensures |host| <= |r| && r[..|host|] == host
    ensures Strings.EndsWith(r, ContentPath(nid))
    ensures AppendsPort(port) <==> r != host + ContentPath(nid)
    ensures AppendsPort(port) ==> r == host + ":" + Strings.IntToString(port.value) + ContentPath(nid)
  {
    var r := Endpoint(host, port) + ContentPath(nid);
    assert r[..|host|] == host;
    if AppendsPort(port) then
      assert r[|host|] == ':';
      assert (host + ContentPath(nid))[|host|] == '/';
      r
    else
      r
  }

  /** Distinct campaign nodes are fetched from distinct URLs. */
  lemma ApiUrlInjective(host: string, port: Port, a: nat, b: nat)
    requires ApiUrl(host, port, a) == ApiUrl(host, port, b)
    ensures a == b
  {
    var e := Endpoint(host, port);
    var p := "/api/v1/content/";
    assert ApiUrl(host, port, a)[|e| + |p|..] == Strings.NatToString(a);
    assert ApiUrl(host, port, b)[|e| + |p|..] == Strings.NatToString(b);
    Strings.NatToStringInjective(a, b);
  }

  /** The public page of a campaign, anchored at its report-back section. */
  function NodeUrl(nid: nat): string {
    "http://www.dosomething.org/node/" + Strings.NatToString(nid) + "#prove"
  }

  /** Distinct campaign nodes have distinct public URLs. */
  lemma NodeUrlInjective(a: nat, b: nat)
    requires NodeUrl(a) == NodeUrl(b)
    ensures a == b
  {
    var p := "http://www.dosomething.org/node/";
    var sa := Strings.NatToString(a);
    var sb := Strings.NatToString(b);
    assert |NodeUrl(a)| == |p| + |sa| + 6 && |NodeUrl(b)| == |p| + |sb| + 6;
    assert NodeUrl(a)[|p|..|p| + |sa|] == sa;
    assert NodeUrl(b)[|p|..|p| + |sb|] == sb;
    Strings.NatToStringInjective(a, b);
  }
}
