/**
 * The body of `onMouseUp` after a large enough selection (content.js): a
 * fixed sequence of steps inside one `try`, each of which may fail, with a
 * single `catch` that shows an error toast.  The screenshot, the crop, the
 * settings store and the recognition service are external; their answers
 * are given as an `Env` and the model records which of them were asked.
 */
module CapturePipeline {
  import opened Wrappers
  import opened Geometry

  /** An external answer: a value or the message of the error thrown. */
  datatype Answer<T> = Ok(value: T) | Fail(message: string)

  /** What the recognition service returns, passed through to the card. */
  datatype Recognised = Recognised(original: Option<string>, translation: Option<string>,
                                   language: Option<string>)

  /** The settings the pipeline reads: `apiKey` and `targetLang`. */
  datatype Config = Config(apiKey: Option<string>, targetLang: Option<string>)

  /** The answers the outside world gives to one capture attempt. */
  datatype Env = Env(
    screenshot: Answer<string>,  // `captureTab`: a data URL, or `response.error`
    cropped: string,             // what `cropImage` draws for the data URL and the box
    config: Answer<Config>,      // the settings read: the stored values, or its error
    recognition: Answer<Recognised>)

  /** One request the pipeline makes, with its arguments. */
  datatype Step =
    | CaptureTab
    | Crop(dataUrl: string, rect: Rect)
    | ReadConfig
    | Recognise(image: string, apiKey: string, targetLang: string)
    | Render(result: Recognised, apiKey: string)

  /** What the user is shown at the end of the attempt. */
  datatype Shown = Card(result: Recognised) | Toast(title: string, message: string)

  datatype Run = Run(steps: seq<Step>, shown: Shown)

  const ErrorTitle: string := "Lỗi xử lý"
  const MissingKeyMessage: string := "Chưa cấu hình API key!"
  const DefaultTargetLang: string := "vi"

  /** The position of each kind of step in the fixed order. */
  function Rank(s: Step): nat {
    match s
    case CaptureTab => 0
    case Crop(_, _) => 1
    case ReadConfig => 2
    case Recognise(_, _, _) => 3
    case Render(_, _) => 4
  }

  /** The steps were made in the fixed order, none skipped. */
  predicate InOrder(steps: seq<Step>) {
    forall i :: 0 <= i < |steps| ==> Rank(steps[i]) == i
  }

  /** `config.targetLang || 'vi'`: the service is never asked for an empty
      language; an unset or empty setting means Vietnamese. */
  function TargetLang(c: Config): (r: string)
    ensures r != ""
    ensures Falsy(c.targetLang) <==> r == DefaultTargetLang && c.targetLang != Some(DefaultTargetLang)
    ensures !Falsy(c.targetLang) ==> r == c.targetLang.value
  {
    if Falsy(c.targetLang) then DefaultTargetLang else c.targetLang.value
  }

  /** The attempt for the committed box `rect`. */
  function RunPipeline(rect: Rect, env: Env): (r: Run)
    ensures 1 <= |r.steps| <= 5 && InOrder(r.steps)
    ensures r.shown.Card? <==> |r.steps| == 5
  {
    match env.screenshot
    case Fail(m) => Run([CaptureTab], Toast(ErrorTitle, m))
    case Ok(dataUrl) =>
      var upToConfig := [CaptureTab, Crop(dataUrl, rect), ReadConfig];
      match env.config
      case Fail(m) => Run(upToConfig, Toast(ErrorTitle, m))
      case Ok(config) =>
        if Falsy(config.apiKey) then
          Run(upToConfig, Toast(ErrorTitle, MissingKeyMessage))
        else
          var key := config.apiKey.value;
          var asked := upToConfig + [Recognise(env.cropped, key, TargetLang(config))];
          match env.recognition
          case Fail(m) => Run(asked, Toast(ErrorTitle, m))
          case Ok(result) => Run(asked + [Render(result, key)], Card(result))
  }

  /** A screenshot error stops before the crop and before the settings are read. */
  lemma ScreenshotErrorStopsFirst(rect: Rect, env: Env)
    requires env.screenshot.Fail?
    ensures RunPipeline(rect, env).steps == [CaptureTab]
    ensures RunPipeline(rect, env).shown == Toast(ErrorTitle, env.screenshot.message)
  {
  }

  /** A settings read that fails stops after it, before the recognition
      service is called, and shows the error of the read. */
  lemma ConfigErrorStopsBeforeRecognition(rect: Rect, env: Env)
    requires env.screenshot.Ok? && env.config.Fail?
    ensures RunPipeline(rect, env).steps ==
            [CaptureTab, Crop(env.screenshot.value, rect), ReadConfig]
    ensures RunPipeline(rect, env).shown == Toast(ErrorTitle, env.config.message)
  {
  }

  /** A missing API key stops before the recognition service is called. */
  lemma MissingKeyStopsBeforeRecognition(rect: Rect, env: Env)
    requires env.screenshot.Ok? && env.config.Ok? && Falsy(env.config.value.apiKey)
    ensures forall i :: 0 <= i < |RunPipeline(rect, env).steps| ==>
              !RunPipeline(rect, env).steps[i].Recognise?
    ensures RunPipeline(rect, env).shown == Toast(ErrorTitle, MissingKeyMessage)
  {
  }

  /** The result is rendered exactly when every step succeeded; otherwise the
      attempt ends in an error toast and nothing is rendered. */
  lemma RenderedIffAllSucceed(rect: Rect, env: Env)
    ensures var r := RunPipeline(rect, env);
      (r.shown.Card? <==> env.screenshot.Ok? && env.config.Ok? && !Falsy(env.config.value.apiKey) &&
                          env.recognition.Ok?) &&
      (r.shown.Toast? ==> r.shown.title == ErrorTitle &&
                          forall i :: 0 <= i < |r.steps| ==> !r.steps[i].Render?) &&
      (r.shown.Card? ==> r.shown.result == env.recognition.value &&
                         r.steps[4] == Render(env.recognition.value, env.config.value.apiKey.value))
  {
  }

  /** The service is asked about the cropped image of the committed box, with
      the stored key and the stored target language (Vietnamese by default). */
  lemma RecognitionArguments(rect: Rect, env: Env)
    requires |RunPipeline(rect, env).steps| >= 4
    ensures env.screenshot.Ok? && env.config.Ok?
    ensures RunPipeline(rect, env).steps[1] == Crop(env.screenshot.value, rect)
    ensures RunPipeline(rect, env).steps[3] ==
            Recognise(env.cropped, env.config.value.apiKey.value, TargetLang(env.config.value))
    ensures env.config.value.apiKey.Some? && env.config.value.apiKey.value != ""
  {
  }
}
