/**
 The effectful side of main.go: the shared MQTT client, `publish`,
 `handleColor` and the two HTTP handlers. The client is reduced to the log
 of what has been published through it; each handler is proved to append
 exactly the publications its pure decision in module Handlers names and
 to answer with its response.
 */
module Bridge {
  import opened Wrappers
  import opened GoStrings
  import opened Translator
  import opened Handlers

  /** The long-lived MQTT client every handler publishes through. */
  class Client {
    /** Every publication made so far, oldest first. */
    var sent: seq<Publication>

    constructor ()
      ensures sent == []
    {
      sent := [];
    }
  }

  /** `publish`: one publication on `topic`, appended to the client's log. */
  method Publish(client: Client, topic: string, message: string)
    modifies client
    ensures client.sent == old(client.sent) + [Publication(topic, message)]
  {
    client.sent := client.sent + [Publication(topic, message)];
  }

  /**
   `handleColor`: publishes the command of a recognized color on `Topic`
   and nothing for any other color. The custom case reads three parts of
   `rgb`, which the caller must supply.
   */
  method HandleColor(client: Client, color: string, rgb: seq<string>)
    requires RgbInBounds(color, rgb)
    modifies client
    ensures client.sent == old(client.sent) + ColorPublishes(color, rgb)
    ensures color !in Colors ==> client.sent == old(client.sent)
    ensures color in Colors
        ==> |client.sent| == |old(client.sent)| + 1 && client.sent[|old(client.sent)|].topic == Topic
  {
    var cmd := Command(color, rgb);
    if cmd.Some? {
      Publish(client, Topic, cmd.value);
    }
  }

  /** The `set/:color` handler; `rgbQuery` is the `rgb` query value, "" when absent. */
  method HandleSet(client: Client, color: string, rgbQuery: string) returns (response: Response)
    modifies client
    ensures response == SetEffect(color, rgbQuery).outcome.response
    ensures client.sent == old(client.sent) + SetEffect(color, rgbQuery).published
  {
    var rgb: seq<string> := [];
    if color == "custom" {
      rgb := Split(rgbQuery, ',');
      if |rgb| != 3 {
        response := Response(StatusBadRequest, NotEnoughParameters);
        return;
      }
    }
    HandleColor(client, color, rgb);
    response := Response(StatusOK, "done");
  }

  /**
   The `/webhook` handler as written. The body has already been decoded;
   a binding error is only logged, so the handler goes on with whatever
   fields were filled. When the custom case would index past the end of
   the split action, the request ends in IndexOutOfRange instead.
   */
  method HandleWebhook(client: Client, body: WebHookReq) returns (outcome: Outcome)
    modifies client
    ensures outcome == WebhookEffect(body).outcome
    ensures client.sent == old(client.sent) + WebhookEffect(body).published
  {
    var rgb: seq<string> := [];
    if body.color == "custom" {
      rgb := Split(body.action, ',');
    }
    if !RgbInBounds(body.color, rgb) {
      // the Go runtime's bounds check on rgb[1] or rgb[2] fails before publish is called
      outcome := IndexOutOfRange;
      return;
    }
    HandleColor(client, body.color, rgb);
    outcome := Responded(Response(StatusOK, "OK"));
  }
}
