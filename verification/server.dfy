/** The HTTP service of `server.py`: configuration from the environment, the
    start-up load of the OmniParser handle, and the `/`, `/health` and
    `/parse` endpoints. The service state is a single optional parser handle
    of an abstract type `H`; the OmniParser constructor and its `parse` are
    opaque functions that may fail, and the measured latency is an opaque
    number supplied by the clock. */
module Server {
  import opened Wrappers

  /** Environment variables by name. */
  type Environment = map<string, string>

  /** The five configuration values read at import time. The detection
      threshold is kept as the text of the variable; its float parsing is not
      modelled. */
  datatype Config = Config(
    somModelPath: string,
    captionModelName: string,
    captionModelPath: string,
    device: string,
    boxThreshold: string)

  /** `os.environ.get(key, default)`. */
  function Getenv(env: Environment, key: string, default: string): (v: string)
    ensures key in env ==> v == env[key]
    ensures key !in env ==> v == default
  {
    if key in env then env[key] else default
  }

  /** The configuration block of `server.py`. */
  function ConfigFromEnv(env: Environment): (c: Config)
    ensures "DEVICE" in env ==> c.device == env["DEVICE"]
    ensures "SOM_MODEL_PATH" in env ==> c.somModelPath == env["SOM_MODEL_PATH"]
    ensures "CAPTION_MODEL_NAME" in env ==> c.captionModelName == env["CAPTION_MODEL_NAME"]
    ensures "CAPTION_MODEL_PATH" in env ==> c.captionModelPath == env["CAPTION_MODEL_PATH"]
    ensures "BOX_THRESHOLD" in env ==> c.boxThreshold == env["BOX_THRESHOLD"]
    ensures "SOM_MODEL_PATH" !in env ==> c.somModelPath == "weights/icon_detect/model.pt"
    ensures "CAPTION_MODEL_NAME" !in env ==> c.captionModelName == "florence2"
    ensures "CAPTION_MODEL_PATH" !in env ==> c.captionModelPath == "microsoft/Florence-2-base"
    ensures "DEVICE" !in env ==> c.device == "cpu"
    ensures "BOX_THRESHOLD" !in env ==> c.boxThreshold == "0.05"
  {
    Config(
      Getenv(env, "SOM_MODEL_PATH", "weights/icon_detect/model.pt"),
      Getenv(env, "CAPTION_MODEL_NAME", "florence2"),
      Getenv(env, "CAPTION_MODEL_PATH", "microsoft/Florence-2-base"),
      Getenv(env, "DEVICE", "cpu"),
      Getenv(env, "BOX_THRESHOLD", "0.05"))
  }

  /** A value of the dictionary handed to the OmniParser constructor. */
  datatype ConfigValue = Str(text: string) | Flag(flag: bool)

  /** The constructor's configuration dictionary. The threshold goes under the
      misspelt key `BOX_TRESHOLD`, and PaddleOCR is always switched off. */
  function LoaderConfig(c: Config): (d: map<string, ConfigValue>)
    ensures d.Keys == {"som_model_path", "caption_model_name", "caption_model_path", "device", "BOX_TRESHOLD", "use_paddleocr"}
    ensures "BOX_THRESHOLD" !in d
    ensures d["use_paddleocr"] == Flag(false)
    ensures d["BOX_TRESHOLD"] == Str(c.boxThreshold)
    ensures d["som_model_path"] == Str(c.somModelPath) && d["device"] == Str(c.device)
    ensures d["caption_model_name"] == Str(c.captionModelName)
    ensures d["caption_model_path"] == Str(c.captionModelPath)
  {
    map[
      "som_model_path" := Str(c.somModelPath),
      "caption_model_name" := Str(c.captionModelName),
      "caption_model_path" := Str(c.captionModelPath),
      "device" := Str(c.device),
      "BOX_TRESHOLD" := Str(c.boxThreshold),
      "use_paddleocr" := Flag(false)]
  }

  /** JSON values of the response bodies. */
  datatype Json =
    | JBool(b: bool)
    | JNum(n: real)
    | JStr(s: string)
    | JArr(items: seq<Json>)
    | JObj(fields: map<string, Json>)

  /** What an endpoint produces: a returned body with its status code, or a
      raised `HTTPException`, which FastAPI turns into `{"detail": ...}`. */
  datatype Reply = Response(status: int, body: map<string, Json>) | HttpError(status: int, detail: string)

  /** The process-wide state: the configuration and the global `omniparser`
      handle, `None` until a load succeeds. */
  datatype Service<H> = Service(config: Config, parser: Option<H>)

  /** The OmniParser constructor: a handle, or the message of the exception it
      (or the import before it) raised. */
  type Constructor<H> = map<string, ConfigValue> -> Result<H, string>

  /** `Omniparser.parse`: the labelled image and the element list, or the
      message of the exception it raised. */
  type ParseFn<!H> = (H, string) -> Result<(string, seq<Json>), string>

  const UnavailableMessage: string := "OmniParser not loaded. Check logs for details."
  const NotLoadedDetail: string := "OmniParser is not loaded. Please check the service logs."
  const ParseErrorPrefix: string := "Error parsing image: "

  /** `load_omniparser`: on success installs the new handle and returns
      `True`; on failure returns `False` and leaves the service as it was.
      No `Exception` escapes either way. */
  function LoadOmniparser<H>(svc: Service<H>, construct: Constructor<H>): (r: (Service<H>, bool))
    ensures r.0.config == svc.config
    ensures r.1 <==> construct(LoaderConfig(svc.config)).Success?
    ensures r.1 ==> r.0.parser == Some(construct(LoaderConfig(svc.config)).value)
    ensures !r.1 ==> r.0.parser == svc.parser
  {
    match construct(LoaderConfig(svc.config))
    case Success(handle) => (svc.(parser := Some(handle)), true)
    case Failure(_) => (svc, false)
  }

  /** Import time plus the start-up event: configuration from the
      environment, no handle, then one load attempt. */
  function Startup<H>(env: Environment, construct: Constructor<H>): (svc: Service<H>)
    ensures svc.config == ConfigFromEnv(env)
    ensures svc.parser.Some? <==> construct(LoaderConfig(ConfigFromEnv(env))).Success?
  {
    LoadOmniparser(Service(ConfigFromEnv(env), None), construct).0
  }

  /** The `models` object reported by `/health`. */
  function ModelsJson(c: Config): Json
  {
    JObj(map[
      "som_model_path" := JStr(c.somModelPath),
      "caption_model_name" := JStr(c.captionModelName),
      "caption_model_path" := JStr(c.captionModelPath)])
  }

  /** `GET /`: a fixed liveness message. */
  function Root(): (r: Reply)
    ensures r.Response? && r.status == 200 && r.body.Keys == {"message"}
    ensures r.body["message"] == JStr("OmniParser API is running")
  {
    Response(200, map["message" := JStr("OmniParser API is running")])
  }

  /** `GET /health`: 503 with a message and no device while no handle is
      loaded, 200 with the device once one is; both report the models. */
  function HealthCheck<H>(svc: Service<H>): (r: Reply)
    ensures r.Response?
    ensures r.status == 503 <==> svc.parser.None?
    ensures r.status == 200 <==> svc.parser.Some?
    ensures "models" in r.body && r.body["models"] == ModelsJson(svc.config)
    ensures "status" in r.body
    ensures svc.parser.None? ==>
      r.body.Keys == {"status", "message", "models"} && r.body["status"] == JStr("unavailable")
      && r.body["message"] == JStr(UnavailableMessage)
    ensures svc.parser.Some? ==>
      r.body.Keys == {"status", "models", "device"} && r.body["status"] == JStr("healthy")
      && r.body["device"] == JStr(svc.config.device)
  {
    if svc.parser.None? then
      Response(503, map[
        "status" := JStr("unavailable"),
        "message" := JStr(UnavailableMessage),
        "models" := ModelsJson(svc.config)])
    else
      Response(200, map[
        "status" := JStr("healthy"),
        "models" := ModelsJson(svc.config),
        "device" := JStr(svc.config.device)])
  }

  /** `POST /parse`: 503 without a handle; otherwise the request's base64 text
      goes to the parser as it is, and its failure becomes a 500 carrying the
      message, its success a 200 body holding exactly the parser's outputs. */
  function Parse<H>(svc: Service<H>, base64Image: string, parse: ParseFn<H>, latency: real): (r: Reply)
    ensures svc.parser.None? ==> r == HttpError(503, NotLoadedDetail)
    ensures svc.parser.Some? && parse(svc.parser.value, base64Image).Failure? ==>
      r == HttpError(500, ParseErrorPrefix + parse(svc.parser.value, base64Image).error)
    ensures svc.parser.Some? && parse(svc.parser.value, base64Image).Success? ==>
      var out := parse(svc.parser.value, base64Image).value;
      && r.Response? && r.status == 200
      && r.body.Keys == {"success", "som_image_base64", "elements", "latency"}
      && r.body["success"] == JBool(true)
      && r.body["som_image_base64"] == JStr(out.0)
      && r.body["elements"] == JArr(out.1)
  {
    match svc.parser
    case None => HttpError(503, NotLoadedDetail)
    case Some(handle) =>
      match parse(handle, base64Image)
      case Failure(message) => HttpError(500, ParseErrorPrefix + message)
      case Success((labelledImage, elements)) =>
        Response(200, map[
          "success" := JBool(true),
          "som_image_base64" := JStr(labelledImage),
          "elements" := JArr(elements),
          "latency" := JNum(latency)])
  }

  /** The requests the service answers. */
  datatype Request = GetRoot | GetHealth | PostParse(base64Image: string)

  /** One request against the service: the reply, and the service afterwards,
      which no request changes. */
  function Serve<H>(svc: Service<H>, req: Request, parse: ParseFn<H>, latency: real): (r: (Service<H>, Reply))
    ensures r.0 == svc
    ensures req.GetHealth? ==> r.1.status in {200, 503}
    ensures req.PostParse? ==> r.1.status in {200, 500, 503}
  {
    match req
    case GetRoot => (svc, Root())
    case GetHealth => (svc, HealthCheck(svc))
    case PostParse(image) => (svc, Parse(svc, image, parse, latency))
  }

  /** A run of requests against the service, answered in order. Each request
      measures its own latency and meets the parser as it is at that moment,
      so `latencies[i]` and `parses[i]` belong to `reqs[i]`: the same image can
      fail once and succeed later. */
  function ServeAll<H>(svc: Service<H>, reqs: seq<Request>, parses: seq<ParseFn<H>>, latencies: seq<real>): (r: (Service<H>, seq<Reply>))
    requires |parses| == |reqs| && |latencies| == |reqs|
    ensures r.0 == svc
    ensures |r.1| == |reqs|
    ensures forall i :: 0 <= i < |reqs| ==> r.1[i] == Serve(svc, reqs[i], parses[i], latencies[i]).1
    decreases |reqs|
  {
    if |reqs| == 0 then (svc, [])
    else
      var (after, first) := Serve(svc, reqs[0], parses[0], latencies[0]);
      var (final, rest) := ServeAll(after, reqs[1..], parses[1..], latencies[1..]);
      (final, [first] + rest)
  }

  // ---------------------------------------------------------------------
  // Lemmas
  // ---------------------------------------------------------------------

  /** With no overrides in the environment the configuration is the built-in
      default. */
  lemma DefaultConfig()
    ensures ConfigFromEnv(map[]) ==
      Config("weights/icon_detect/model.pt", "florence2", "microsoft/Florence-2-base", "cpu", "0.05")
  {
  }

  /** The configuration depends only on its five variables: environments that
      agree on them yield the same configuration. */
  lemma ConfigReadsOnlyItsVariables(env: Environment, env': Environment)
    requires forall k :: k in {"SOM_MODEL_PATH", "CAPTION_MODEL_NAME", "CAPTION_MODEL_PATH", "DEVICE", "BOX_THRESHOLD"} ==>
      Getenv(env, k, "") == Getenv(env', k, "") && (k in env <==> k in env')
    ensures ConfigFromEnv(env) == ConfigFromEnv(env')
  {
  }

  /** After start-up the health endpoint reports healthy exactly when the
      constructor succeeded; a failed load leaves the service up and degraded. */
  lemma StartupHealth<H>(env: Environment, construct: Constructor<H>)
    ensures HealthCheck(Startup(env, construct)).status == 200
      <==> construct(LoaderConfig(ConfigFromEnv(env))).Success?
    ensures construct(LoaderConfig(ConfigFromEnv(env))).Failure? ==>
      HealthCheck(Startup(env, construct)).body["status"] == JStr("unavailable")
  {
  }

  /** `/health` reports 503 exactly when `/parse` refuses with 503, whatever
      the image and the parser do. */
  lemma HealthAndParseAgree<H>(svc: Service<H>, base64Image: string, parse: ParseFn<H>, latency: real)
    ensures HealthCheck(svc).status == 503 <==> Parse(svc, base64Image, parse, latency).status == 503
  {
  }

  /** Without a handle `/parse` does not depend on the parser at all. */
  lemma ParseWithoutHandleIgnoresParser<H>(svc: Service<H>, base64Image: string,
                                           parse1: ParseFn<H>, parse2: ParseFn<H>, latency1: real, latency2: real)
    requires svc.parser.None?
    ensures Parse(svc, base64Image, parse1, latency1) == Parse(svc, base64Image, parse2, latency2)
  {
  }

  /** A failing reload keeps the handle an earlier load installed, so a loaded
      service stays healthy. */
  lemma FailedReloadKeepsHandle<H>(svc: Service<H>, construct: Constructor<H>)
    requires svc.parser.Some? && construct(LoaderConfig(svc.config)).Failure?
    ensures HealthCheck(LoadOmniparser(svc, construct).0) == HealthCheck(svc)
    ensures HealthCheck(LoadOmniparser(svc, construct).0).status == 200
  {
  }
}
