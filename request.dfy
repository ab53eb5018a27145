/** `HandwritingOCR._make_transcription_request`: the chat-completions request
    body built from one model profile and the base64-encoded page image. */
module Request {
  import opened Wrappers
  import opened Json

  /** The prefix that turns base64 JPEG data into a data URL
      (section 3 of RFC 2397). */
  const DataUrlPrefix: string := "data:image/jpeg;base64,"

  /** The single user message: the prompt as a text part, the image as an
      image_url part. */
  function Messages(prompt: Json, base64Image: string): Json
  {
    JArray([JObject(map[
      "role" := JString("user"),
      "content" := JArray([
        JObject(map["type" := JString("text"), "text" := prompt]),
        JObject(map["type" := JString("image_url"),
                    "image_url" := JObject(map["url" := JString(DataUrlPrefix + base64Image)])])
      ])
    ])])
  }

  /** The profile's keys other than "model" and "prompt", which the request
      passes through as top-level parameters. */
  function Parameters(config: map<string, Json>): (params: map<string, Json>)
    ensures params.Keys == config.Keys - {"model", "prompt"}
    ensures forall k :: k in params ==> params[k] == config[k]
  {
    map k | k in config && k != "model" && k != "prompt" :: config[k]
  }

  /** The request body for a profile that has a model and a prompt. The model
      and the message come first; the loop over the profile then sets every
      other key at top level, so a "messages" key in the profile replaces the
      built message. */
  function RequestBody(config: map<string, Json>, base64Image: string): (body: map<string, Json>)
    requires "model" in config && "prompt" in config
    ensures body.Keys == config.Keys - {"prompt"} + {"messages"}
    ensures "prompt" !in body
    ensures body["model"] == config["model"]
    ensures forall k :: k in config && k !in {"model", "prompt", "messages"} ==> body[k] == config[k]
    ensures body["messages"] ==
      if "messages" in config then config["messages"] else Messages(config["prompt"], base64Image)
  {
    map["model" := config["model"], "messages" := Messages(config["prompt"], base64Image)] + Parameters(config)
  }

  /** The message of a missing-key `KeyError`. */
  function KeyError(key: string): string
  {
    "KeyError: '" + key + "'"
  }

  /** Builds the body as the source does: the fixed part first (reading
      "model", then "prompt"), then one pass over the profile's keys. The
      order of that pass does not matter, since every key is set at most once. */
  method MakeTranscriptionRequest(config: map<string, Json>, base64Image: string)
    returns (body: Result<map<string, Json>, string>)
    ensures "model" !in config ==> body == Err(KeyError("model"))
    ensures "model" in config && "prompt" !in config ==> body == Err(KeyError("prompt"))
    ensures "model" in config && "prompt" in config ==> body == Ok(RequestBody(config, base64Image))
  {
    if "model" !in config {
      return Err(KeyError("model"));
    }
    if "prompt" !in config {
      return Err(KeyError("prompt"));
    }
    var apiParams := map["model" := config["model"], "messages" := Messages(config["prompt"], base64Image)];
    var remaining := config.Keys;
    while remaining != {}
      invariant remaining <= config.Keys
      invariant apiParams == map["model" := config["model"], "messages" := Messages(config["prompt"], base64Image)]
                             + map k | k in config.Keys - remaining && k != "model" && k != "prompt" :: config[k]
      decreases remaining
    {
      var key :| key in remaining;
      if key != "model" && key != "prompt" {
        apiParams := apiParams[key := config[key]];
      }
      remaining := remaining - {key};
    }
    assert config.Keys - remaining == config.Keys;
    return Ok(apiParams);
  }
}
