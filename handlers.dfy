/**
 The decisions of the two HTTP handlers of main.go, as functions from a
 request to its effect: the response (or the runtime panic) and the
 publications made, in order. The handlers in module Bridge are proved to
 have exactly these effects.
 */
module Handlers {
  import opened GoStrings
  import opened Translator
  import opened Wrappers

  /** An HTTP status and the JSON string written as the body. */
  datatype Response = Response(status: int, body: string)

  const StatusOK := 200
  const StatusBadRequest := 400

  /** Body of the 400 answer of the set handler. */
  const NotEnoughParameters: string := "not enough parameters"

  /** The decoded webhook body; fields the JSON did not supply stay empty. */
  datatype WebHookReq = WebHookReq(key: string, color: string, action: string)

  /**
   How a request ends: with a response, or with Go's index-out-of-range
   panic at the custom case of handleColor, before anything is published.
   */
  datatype Outcome = Responded(response: Response) | IndexOutOfRange

  /** The outcome of one request and the publications it made. */
  datatype Effect = Effect(outcome: Outcome, published: seq<Publication>)

  /** The `rgb` slice the set handler passes on: the split query for custom, nil otherwise. */
  function SetRgb(color: string, rgbQuery: string): (rgb: seq<string>)
    ensures color != "custom" ==> rgb == []
    ensures |rgb| == if color == "custom" then Occurrences(rgbQuery, ',') + 1 else 0
  {
    SplitLength(rgbQuery, ',');
    if color == "custom" then Split(rgbQuery, ',') else []
  }

  /** The `rgb` slice the webhook passes on: the split action for custom, empty otherwise. */
  function WebhookRgb(body: WebHookReq): (rgb: seq<string>)
    ensures body.color != "custom" ==> rgb == []
    ensures |rgb| == if body.color == "custom" then Occurrences(body.action, ',') + 1 else 0
  {
    SplitLength(body.action, ',');
    if body.color == "custom" then Split(body.action, ',') else []
  }

  /**
   The set handler. A custom request whose query does not split into
   exactly three parts (exactly two commas) is answered 400 and publishes
   nothing; every other request calls handleColor once and is answered
   200 "done", unknown colors included.
   */
  function SetEffect(color: string, rgbQuery: string): (e: Effect)
    ensures e.outcome.Responded?
    ensures e.outcome.response.status == StatusBadRequest
        <==> color == "custom" && Occurrences(rgbQuery, ',') != 2
    ensures e.outcome.response.status == StatusBadRequest
        ==> e.outcome.response.body == NotEnoughParameters && e.published == []
    ensures e.outcome.response.status != StatusBadRequest
        ==> e.outcome.response == Response(StatusOK, "done")
    ensures |e.published| <= 1
    ensures |e.published| == 1
        <==> color in Colors && e.outcome.response.status == StatusOK
    ensures forall i :: 0 <= i < |e.published| ==> e.published[i].topic == Topic
  {
    var rgb := SetRgb(color, rgbQuery);
    if color == "custom" && |rgb| != 3 then
      Effect(Responded(Response(StatusBadRequest, NotEnoughParameters)), [])
    else
      Effect(Responded(Response(StatusOK, "done")), ColorPublishes(color, rgb))
  }

  /**
   The webhook handler as written. The split action reaches handleColor
   unchecked, so a custom request whose action has fewer than two commas
   indexes past the end of the slice and panics; every other request is
   answered 200 "OK".
   */
  function WebhookEffect(body: WebHookReq): (e: Effect)
    ensures e.outcome == IndexOutOfRange
        <==> body.color == "custom" && Occurrences(body.action, ',') < 2
    ensures e.outcome == IndexOutOfRange ==> e.published == []
    ensures e.outcome.Responded? ==> e.outcome.response == Response(StatusOK, "OK")
    ensures |e.published| <= 1
    ensures |e.published| == 1 <==> body.color in Colors && e.outcome.Responded?
    ensures forall i :: 0 <= i < |e.published| ==> e.published[i].topic == Topic
  {
    var rgb := WebhookRgb(body);
    if !RgbInBounds(body.color, rgb) then
      Effect(IndexOutOfRange, [])
    else
      Effect(Responded(Response(StatusOK, "OK")), ColorPublishes(body.color, rgb))
  }

  /**
   The webhook with the set handler's check added: a custom action that
   does not split into exactly three parts is answered 400 and publishes
   nothing, so no request panics.
   */
  function CheckedWebhookEffect(body: WebHookReq): (e: Effect)
    ensures e.outcome.Responded?
    ensures e.outcome.response.status == StatusBadRequest
        <==> body.color == "custom" && Occurrences(body.action, ',') != 2
    ensures e.outcome.response.status == StatusBadRequest ==> e.published == []
    ensures e.outcome.response.status != StatusBadRequest
        ==> e.outcome.response == Response(StatusOK, "OK")
  {
    var rgb := WebhookRgb(body);
    if body.color == "custom" && |rgb| != 3 then
      Effect(Responded(Response(StatusBadRequest, NotEnoughParameters)), [])
    else
      Effect(Responded(Response(StatusOK, "OK")), ColorPublishes(body.color, rgb))
  }

  /** An accepted custom query publishes "set/" followed by the query with its commas turned into '/'. */
  lemma SetCustomPayload(rgbQuery: string)
    requires Occurrences(rgbQuery, ',') == 2
    ensures SetEffect("custom", rgbQuery).published
        == [Publication(Topic, "set/" + ReplaceAll(rgbQuery, ',', '/'))]
  {
    var rgb := Split(rgbQuery, ',');
    SplitLength(rgbQuery, ',');
    assert SetEffect("custom", rgbQuery).published == ColorPublishes("custom", rgb);
    CommandMatchesTable("custom", rgb);
    var fields := ["set"] + rgb[..3];
    assert fields[1..] == rgb;
    JoinSplitReplaces(rgbQuery, ',', '/');
    assert Join(fields, '/') == "set" + ['/'] + ReplaceAll(rgbQuery, ',', '/');
    assert "set" + ['/'] == "set/";
  }

  /** The query "10,20,30" publishes set/10/20/30. */
  lemma SetWellFormedQuery()
    ensures SetEffect("custom", "10,20,30")
        == Effect(Responded(Response(StatusOK, "done")), [Publication(Topic, "set/10/20/30")])
  {
    var rgb := ["10", "20", "30"];
    SplitRgbQuery();
    CustomIsVerbatim(rgb);
    assert "set/" + rgb[0] + "/" + rgb[1] + "/" + rgb[2] == "set/10/20/30";
  }

  /** An empty or missing query is rejected. */
  lemma SetEmptyQueryRejected()
    ensures SetEffect("custom", "")
        == Effect(Responded(Response(StatusBadRequest, NotEnoughParameters)), [])
  {
  }

  /** A webhook custom action with fewer than two commas cannot meet handleColor's requirement. */
  lemma WebhookCannotEstablishBounds(action: string)
    requires Occurrences(action, ',') < 2
    ensures !RgbInBounds("custom", Split(action, ','))
  {
    SplitLength(action, ',');
  }

  /** The empty action and a two-part action both panic. */
  lemma WebhookShortActionsPanic(key: string)
    ensures WebhookEffect(WebHookReq(key, "custom", "")).outcome == IndexOutOfRange
    ensures WebhookEffect(WebHookReq(key, "custom", "10,20")).outcome == IndexOutOfRange
  {
  }

  /**
   A custom action with at least two commas publishes its first three parts
   verbatim; parts beyond the third are ignored.
   */
  lemma WebhookUsesFirstThreeParts(body: WebHookReq)
    requires body.color == "custom" && Occurrences(body.action, ',') >= 2
    ensures var p := Split(body.action, ',');
      |p| >= 3 &&
      WebhookEffect(body)
        == Effect(Responded(Response(StatusOK, "OK")),
                  [Publication(Topic, "set/" + p[0] + "/" + p[1] + "/" + p[2])])
  {
    SplitLength(body.action, ',');
  }

  /** For any color but custom, the webhook publishes what the set handler publishes. */
  lemma WebhookMatchesSet(body: WebHookReq, rgbQuery: string)
    requires body.color != "custom"
    ensures WebhookEffect(body).published == SetEffect(body.color, rgbQuery).published
  {
  }

  /**
   A body that failed to bind, left with empty fields, is still answered
   200 "OK"; `off` publishes set/0/0/0 like the set handler's `off`.
   */
  lemma WebhookExamples()
    ensures WebhookEffect(WebHookReq("", "", ""))
        == Effect(Responded(Response(StatusOK, "OK")), [])
    ensures WebhookEffect(WebHookReq("", "off", "")).published
        == SetEffect("off", "").published
        == [Publication(Topic, "set/0/0/0")]
  {
  }

  /** The corrected webhook never panics and agrees with the set handler on what it publishes. */
  lemma CheckedWebhookAgrees(body: WebHookReq)
    ensures CheckedWebhookEffect(body).outcome != IndexOutOfRange
    ensures CheckedWebhookEffect(body).published == SetEffect(body.color, body.action).published
    ensures WebhookEffect(body).outcome.Responded?
        && (body.color != "custom" || Occurrences(body.action, ',') == 2)
        ==> CheckedWebhookEffect(body) == WebhookEffect(body)
  {
  }
}
