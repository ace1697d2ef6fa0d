/** The Clay webhook client: which webhook a pipeline posts to, the session
    headers, and the shape of an ingest call. The settings record is the
    environment already read; HTTP is represented by the request the client
    would send and the response it gets back. */
module Clay {
  import opened Wrappers

  /** The fields of the settings record the Clay client reads. */
  datatype Settings = Settings(
    clayApiKey: Option<string>,
    clayWebhookUrl: Option<string>,
    clayWebhookUrlBigtech: Option<string>,
    clayWebhookUrlVc: Option<string>,
    clayWebhookUrlUt: Option<string>,
    requestsTimeoutSeconds: int)

  const MissingWebhook := "Missing Clay webhook URL for pipeline. Set CLAY_WEBHOOK_URL_<PIPE> or CLAY_WEBHOOK_URL."

  /** The pipeline-specific setting for a known pipeline name. */
  function SpecificWebhook(settings: Settings, pipeline: string): Option<Option<string>> {
    if pipeline == "bigtech" then Some(settings.clayWebhookUrlBigtech)
    else if pipeline == "vc" then Some(settings.clayWebhookUrlVc)
    else if pipeline == "ut" then Some(settings.clayWebhookUrlUt)
    else None
  }

  /** `webhook_map.get(pipeline)`: the specific URL if set and non-empty, else
      the generic one; nothing for an unknown pipeline. */
  function WebhookFor(settings: Settings, pipeline: string): (r: Option<string>)
    ensures SpecificWebhook(settings, pipeline).None? ==> r.None?
    ensures SpecificWebhook(settings, pipeline).Some? && Truthy(SpecificWebhook(settings, pipeline).value) ==>
              r == SpecificWebhook(settings, pipeline).value
    ensures SpecificWebhook(settings, pipeline).Some? && !Truthy(SpecificWebhook(settings, pipeline).value) ==>
              r == settings.clayWebhookUrl
  {
    match SpecificWebhook(settings, pipeline)
    case None => None
    case Some(specific) => Or(specific, settings.clayWebhookUrl)
  }

  /** A client: the webhook URL, the session headers, the request timeout. */
  datatype ClayClient = ClayClient(webhookUrl: string, headers: map<string, string>, timeoutSeconds: int)

  const ContentType := "Content-Type"
  const Authorization := "Authorization"
  const JsonMediaType := "application/json"

  /** `ClayClient(webhook_url, api_key, timeout_seconds)`. */
  function NewClient(webhookUrl: string, apiKey: Option<string>, timeoutSeconds: int): (c: ClayClient)
    ensures c.webhookUrl == webhookUrl && c.timeoutSeconds == timeoutSeconds
    ensures ContentType in c.headers && c.headers[ContentType] == JsonMediaType
    ensures Authorization in c.headers <==> Truthy(apiKey)
    ensures Authorization in c.headers ==> c.headers[Authorization] == "Bearer " + apiKey.value
    ensures c.headers.Keys <= {ContentType, Authorization}
  {
    var base := map[ContentType := JsonMediaType];
    var headers := if Truthy(apiKey) then base[Authorization := "Bearer " + apiKey.value] else base;
    ClayClient(webhookUrl, headers, timeoutSeconds)
  }

  /** `get_clay_for_pipeline(pipeline)`, with the settings passed in. A client
      is obtained exactly for the three known pipelines, and only when the
      pipeline's own webhook or the generic one is set and non-empty. */
  function ClayFor(settings: Settings, pipeline: string): (r: Result<ClayClient, string>)
    ensures r.Success? <==>
              pipeline in {"bigtech", "vc", "ut"}
              && (Truthy(SpecificWebhook(settings, pipeline).value) || Truthy(settings.clayWebhookUrl))
    ensures r.Success? ==> r.value.webhookUrl != ""
    ensures r.Success? ==> r.value.timeoutSeconds == settings.requestsTimeoutSeconds
    ensures r.Success? ==> (Authorization in r.value.headers <==> Truthy(settings.clayApiKey))
    ensures r.Failure? ==> r.error == MissingWebhook
  {
    var url := WebhookFor(settings, pipeline);
    if !Truthy(url) then Failure(MissingWebhook)
    else Success(NewClient(url.value, settings.clayApiKey, settings.requestsTimeoutSeconds))
  }

  /** The pipeline's own webhook wins over the generic one whenever it is set. */
  lemma SpecificWebhookPreferred(settings: Settings, pipeline: string)
    requires pipeline in {"bigtech", "vc", "ut"}
    requires Truthy(SpecificWebhook(settings, pipeline).value)
    ensures ClayFor(settings, pipeline).Success?
    ensures ClayFor(settings, pipeline).value.webhookUrl == SpecificWebhook(settings, pipeline).value.value
  {
  }

  /** Without a usable pipeline-specific webhook the generic one is used. */
  lemma GenericWebhookFallback(settings: Settings, pipeline: string)
    requires pipeline in {"bigtech", "vc", "ut"}
    requires !Truthy(SpecificWebhook(settings, pipeline).value) && Truthy(settings.clayWebhookUrl)
    ensures ClayFor(settings, pipeline).Success?
    ensures ClayFor(settings, pipeline).value.webhookUrl == settings.clayWebhookUrl.value
  {
  }

  /** A record as the pipelines send it: string keys and string values. */
  type Record = map<string, string>

  /** The POST the client sends: to its webhook, with its headers, a JSON body
      `{"records": records}`, and its timeout. */
  datatype PostRequest = PostRequest(url: string, headers: map<string, string>, body: map<string, seq<Record>>, timeoutSeconds: int)

  function IngestRequest(client: ClayClient, records: seq<Record>): (p: PostRequest)
    ensures p.url == client.webhookUrl && p.headers == client.headers && p.timeoutSeconds == client.timeoutSeconds
    ensures p.body.Keys == {"records"} && p.body["records"] == records
  {
    PostRequest(client.webhookUrl, client.headers, map["records" := records], client.timeoutSeconds)
  }

  /** The webhook's answer: the status code and the raw body. */
  datatype HttpResponse = HttpResponse(status: int, content: string)

  /** `raise_for_status()` fails on client and server error codes. */
  predicate IsHttpError(status: int) {
    400 <= status < 600
  }

  /** The value `ingest_records` returns: an error for a 4xx/5xx status, `{}` for
      an empty body, otherwise the decoded JSON body (`decode` stands for
      `resp.json()`, which may itself fail). */
  function IngestResult<V>(resp: HttpResponse, decode: string -> Result<map<string, V>, string>): (r: Result<map<string, V>, string>)
    ensures IsHttpError(resp.status) ==> r.Failure?
    ensures !IsHttpError(resp.status) && resp.content == "" ==> r == Success(map[])
    ensures !IsHttpError(resp.status) && resp.content != "" ==> r == decode(resp.content)
  {
    if IsHttpError(resp.status) then Failure("HTTPError " + StatusText(resp.status))
    else if resp.content == "" then Success(map[])
    else decode(resp.content)
  }

  /** A three-digit status as text (only used in the error message). */
  function StatusText(status: int): string
    requires 400 <= status < 600
  {
    [(('0' as int) + status / 100) as char, (('0' as int) + (status / 10) % 10) as char, (('0' as int) + status % 10) as char]
  }
}
