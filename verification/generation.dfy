/**
  The diagram-generation flow of the web app: `generate_diagram` and the two
  button handlers built on it, `on_generate` and `on_rerender`.

  What happens outside the process is passed in: the configuration values,
  the drafting handler's prompt object and content check, the language
  model, the deflate compressor, the HTTP GET of the rendering server (with
  its status check) and the PNG decoder.  Each of these either returns or
  raises, and the flow is a decision over those outcomes: which code, which
  image and which status text come back.
 */
module Generation {
  import opened Outcomes
  import opened Text
  import opened Template
  import opened PlantUmlEncoding
  import opened FenceStrip
  import opened DraftHandler

  /** The configuration values the flow reads.  Reading the API key is a call
      that may raise (`KeyError` when no key is configured). */
  datatype Config = Config(
    llmApiKey: Raises<string>,
    apiKeyMissingMsg: string,
    diagramSuccessMsg: string,
    fallbackTemplate: string,
    serverUrlTemplate: string)

  /** The drafting handler's collaborators: its prompt object, its context text
      and its content check. */
  datatype Handler = Handler(
    render: map<string, string> -> Raises<string>,
    context: string,
    check: string -> Raises<string>)

  /** An HTTP response, as far as the flow looks at it. */
  datatype Response = Response(contentType: Option<string>, content: seq<byte>)

  /** The outside services of rendering.  `fetch` is the GET together with the
      status check: it raises for a failed request or an error status. */
  datatype Services = Services(
    deflate: seq<byte> -> seq<byte>,
    fetch: string -> Raises<Response>,
    openImage: seq<byte> -> Raises<()>)

  /** A preview: a decoded PNG, or the placeholder drawn in its place. */
  datatype Image = Png(content: seq<byte>) | Placeholder(width: nat, height: nat, caption: string)

  /** What `generate_diagram` returns. */
  datatype Generated = Generated(code: string, image: Option<Image>, status: string)

  const PlaceholderCaption := "Diagram preview unavailable"
  const RerenderedMsg := "Re-rendered from PlantUML code."

  /** The `Content-Type` header, or "" when the response has none. */
  function ContentType(resp: Response): string
  {
    if resp.contentType.Some? then resp.contentType.value else ""
  }

  function RenderingFailed(e: Exception): string
  {
    " | Diagram rendering failed: " + e.message
  }

  function UnexpectedContentType(ct: string): string
  {
    " | PlantUML server error: Unexpected content-type '" + ct + "'."
  }

  function ConversionFailed(e: Exception): string
  {
    " | Image conversion failed: " + e.message
  }

  /** The status note one failed fetch adds. */
  ghost predicate IsFetchNote(note: string)
  {
    || (exists e :: note == RenderingFailed(e))
    || (exists ct :: note == UnexpectedContentType(ct))
    || (exists e :: note == ConversionFailed(e))
  }

  /** Fetching and decoding the image at `url`: the image, if any, and the note
      to append to the status.  There is an image exactly when the request
      succeeds, the content type is exactly `image/png` and the content
      decodes; otherwise the note names the first of these that failed. */
  function FetchImage(svc: Services, url: string): (preview: (Option<Image>, string))
    ensures preview.0.Some? <==>
      && svc.fetch(url).Returned?
      && ContentType(svc.fetch(url).value) == "image/png"
      && svc.openImage(svc.fetch(url).value.content).Returned?
    ensures preview.0.Some? ==> preview.0.value == Png(svc.fetch(url).value.content) && preview.1 == ""
    ensures preview.0.None? ==> IsFetchNote(preview.1)
    ensures svc.fetch(url).Raised? ==> preview.1 == RenderingFailed(svc.fetch(url).error)
    ensures svc.fetch(url).Returned? && ContentType(svc.fetch(url).value) != "image/png" ==>
      preview.1 == UnexpectedContentType(ContentType(svc.fetch(url).value))
    ensures svc.fetch(url).Returned? && ContentType(svc.fetch(url).value) == "image/png"
            && svc.openImage(svc.fetch(url).value.content).Raised? ==>
      preview.1 == ConversionFailed(svc.openImage(svc.fetch(url).value.content).error)
  {
    match svc.fetch(url)
    case Raised(e) => (None, RenderingFailed(e))
    case Returned(resp) =>
      var ct := ContentType(resp);
      if ct != "image/png" then (None, UnexpectedContentType(ct))
      else
        match svc.openImage(resp.content)
        case Raised(e) => (None, ConversionFailed(e))
        case Returned(_) => (Some(Png(resp.content)), "")
  }

  /** `PLANTUML_SERVER_URL_TEMPLATE.format(encoded=_plantuml_encode(text))`. */
  function ImageUrl(cfg: Config, deflate: seq<byte> -> seq<byte>, text: string): Raises<string>
  {
    Format(cfg.serverUrlTemplate, map["encoded" := Encode(deflate, text)])
  }

  /** The rendering step shared by `generate_diagram` and `on_rerender`: build the
      URL for `text` (which may raise), fetch, and append the note to `status`.
      A failure to build the URL passes through; otherwise the status is kept
      as a prefix, followed by nothing when the image came back and by one
      fetch note when it did not. */
  function RenderPreview(cfg: Config, svc: Services, text: string, status: string): (r: Raises<(Option<Image>, string)>)
    ensures r.Raised? <==> ImageUrl(cfg, svc.deflate, text).Raised?
    ensures r.Raised? ==> r.error == ImageUrl(cfg, svc.deflate, text).error
    ensures r.Returned? ==>
      var url := ImageUrl(cfg, svc.deflate, text).value;
      && status <= r.value.1
      && (r.value.0.Some? <==>
            && svc.fetch(url).Returned?
            && ContentType(svc.fetch(url).value) == "image/png"
            && svc.openImage(svc.fetch(url).value.content).Returned?)
      && (r.value.0.Some? ==> r.value.0.value == Png(svc.fetch(url).value.content) && r.value.1 == status)
      && (r.value.0.None? ==> IsFetchNote(r.value.1[|status|..]))
  {
    match ImageUrl(cfg, svc.deflate, text)
    case Raised(e) => Raised(e)
    case Returned(url) =>
      var preview := FetchImage(svc, url);
      assert (status + preview.1)[|status|..] == preview.1;
      Returned((preview.0, status + preview.1))
  }

  /** The text handed to the drafting handler's failure path. */
  function LlmErrorStatus(e: Exception): string
  {
    "LLM error: " + e.message + ". Showing fallback stub."
  }

  /** The code and status before rendering.  The handler's code comes with the
      success message; when the handler raised, the fallback template
      formatted with the diagram type and description comes with a status
      naming the error.  Only a fallback template that cannot be formatted
      makes this raise.  The model state is the handler's. */
  function Draft<S>(cfg: Config, h: Handler, llm: Option<Llm<S>>, description: string, diagramType: string,
                    theme: Option<string>, s: S): (out: (Raises<(string, string)>, S))
    ensures var p := Process(h.render, h.context, h.check, DraftRequest(diagramType, description, theme), llm, s);
      var stub := Format(cfg.fallbackTemplate, map["diagram_type" := diagramType, "description" := description]);
      && out.1 == p.1
      && (out.0.Raised? <==> p.0.Raised? && stub.Raised?)
      && (p.0.Returned? ==> out.0 == Returned((p.0.value, cfg.diagramSuccessMsg)))
      && (p.0.Raised? && stub.Returned? ==> out.0 == Returned((stub.value, LlmErrorStatus(p.0.error))))
  {
    var drafted := Process(h.render, h.context, h.check, DraftRequest(diagramType, description, theme), llm, s);
    match drafted.0
    case Returned(code) => (Returned((code, cfg.diagramSuccessMsg)), drafted.1)
    case Raised(e) =>
      match Format(cfg.fallbackTemplate, map["diagram_type" := diagramType, "description" := description])
      case Returned(stub) => (Returned((stub, LlmErrorStatus(e))), drafted.1)
      case Raised(e2) => (Raised(e2), drafted.1)
  }

  /** A handler without a model raises `ValueError` before any call, so the
      fallback template is shown with a status naming that error. */
  lemma NoModelFallsBack<S>(cfg: Config, h: Handler, description: string, diagramType: string,
                            theme: Option<string>, s: S)
    requires Format(cfg.fallbackTemplate, map["diagram_type" := diagramType, "description" := description]).Returned?
    ensures var stub := Format(cfg.fallbackTemplate, map["diagram_type" := diagramType, "description" := description]);
      Draft<S>(cfg, h, None, description, diagramType, theme, s) == (Returned((stub.value, LlmErrorStatus(MissingLlm))), s)
    ensures MissingLlm.kind == ValueError
  {
  }

  /** Reading the API key raised `KeyError`. */
  predicate KeyMissing(cfg: Config)
  {
    cfg.llmApiKey.Raised? && cfg.llmApiKey.error.kind == KeyError
  }

  /** `generate_diagram(description, diagram_type, theme)`.  Without an API key it
      returns at once: no model call (the model state is unchanged), no code, no
      image, the configured message.  Any other exception from reading the key
      propagates.  The second component is the model state. */
  function GenerateDiagram<S>(cfg: Config, h: Handler, llm: Option<Llm<S>>, svc: Services,
                              description: string, diagramType: string, theme: Option<string>,
                              s: S): (out: (Raises<Generated>, S))
    ensures KeyMissing(cfg) ==> out == (Returned(Generated("", None, cfg.apiKeyMissingMsg)), s)
    ensures cfg.llmApiKey.Raised? && !KeyMissing(cfg) ==> out == (Raised(cfg.llmApiKey.error), s)
    ensures out.0.Returned? ==> Trimmed(out.0.value.code)
  {
    if KeyMissing(cfg) then (Returned(Generated("", None, cfg.apiKeyMissingMsg)), s)
    else if cfg.llmApiKey.Raised? then (Raised(cfg.llmApiKey.error), s)
    else
      var drafted := Draft(cfg, h, llm, description, diagramType, theme, s);
      match drafted.0
      case Raised(e) => (Raised(e), drafted.1)
      case Returned(draft) =>
        var code := StripFences(draft.0);
        match RenderPreview(cfg, svc, code, draft.1)
        case Raised(e) => (Raised(e), drafted.1)
        case Returned(preview) => (Returned(Generated(code, preview.0, preview.1)), drafted.1)
  }

  /** `on_generate`: `generate_diagram` without a theme, with a missing image
      replaced by a 600 by 300 placeholder. */
  function OnGenerate<S>(cfg: Config, h: Handler, llm: Option<Llm<S>>, svc: Services,
                         description: string, diagramType: string, s: S): (out: (Raises<(string, Image, string)>, S))
    ensures var g := GenerateDiagram(cfg, h, llm, svc, description, diagramType, None, s);
      && out.1 == g.1
      && out.0.Raised? == g.0.Raised?
      && (g.0.Raised? ==> out.0.error == g.0.error)
      && (g.0.Returned? ==>
            && out.0.value.0 == g.0.value.code
            && out.0.value.2 == g.0.value.status
            && (g.0.value.image.Some? ==> out.0.value.1 == g.0.value.image.value)
            && (g.0.value.image.None? ==> out.0.value.1 == Placeholder(600, 300, PlaceholderCaption)))
  {
    var g := GenerateDiagram(cfg, h, llm, svc, description, diagramType, None, s);
    match g.0
    case Raised(e) => (Raised(e), g.1)
    case Returned(Generated(code, image, status)) =>
      var shown := if image.Some? then image.value else Placeholder(600, 300, PlaceholderCaption);
      (Returned((code, shown, status)), g.1)
  }

  /** `on_rerender`: render the code box text as it is, not fence-stripped and not
      trimmed, with a missing image replaced by a 400 by 200 placeholder.  The
      status is the fixed message followed by at most one fetch note. */
  function OnRerender(cfg: Config, svc: Services, code: string): (r: Raises<(Image, string)>)
    ensures r.Raised? <==> ImageUrl(cfg, svc.deflate, code).Raised?
    ensures r.Returned? ==>
      var url := ImageUrl(cfg, svc.deflate, code).value;
      var fetched := && svc.fetch(url).Returned?
                     && ContentType(svc.fetch(url).value) == "image/png"
                     && svc.openImage(svc.fetch(url).value.content).Returned?;
      && RerenderedMsg <= r.value.1
      && (fetched ==> r.value.0 == Png(svc.fetch(url).value.content) && r.value.1 == RerenderedMsg)
      && (!fetched ==> r.value.0 == Placeholder(400, 200, PlaceholderCaption)
                       && IsFetchNote(r.value.1[|RerenderedMsg|..]))
  {
    match RenderPreview(cfg, svc, code, RerenderedMsg)
    case Raised(e) => Raised(e)
    case Returned(preview) =>
      var shown := if preview.0.Some? then preview.0.value else Placeholder(400, 200, PlaceholderCaption);
      Returned((shown, preview.1))
  }

  // ---------------------------------------------------------------------------
  // Properties of the flow

  /** When the handler returns code, that code (cleaned) is shown with the
      success message and the note of the fetch of its URL. */
  lemma DraftedPath<S>(cfg: Config, h: Handler, llm: Option<Llm<S>>, svc: Services,
                       description: string, diagramType: string, theme: Option<string>, s: S)
    requires cfg.llmApiKey.Returned?
    requires var p := Process(h.render, h.context, h.check, DraftRequest(diagramType, description, theme), llm, s);
      p.0.Returned? && ImageUrl(cfg, svc.deflate, StripFences(p.0.value)).Returned?
    ensures var p := Process(h.render, h.context, h.check, DraftRequest(diagramType, description, theme), llm, s);
      var code := StripFences(p.0.value);
      var preview := FetchImage(svc, ImageUrl(cfg, svc.deflate, code).value);
      GenerateDiagram(cfg, h, llm, svc, description, diagramType, theme, s)
        == (Returned(Generated(code, preview.0, cfg.diagramSuccessMsg + preview.1)), p.1)
  {
  }

  /** When the handler raises, the fallback template formatted with the diagram
      type and description is shown (cleaned), with a status naming the error. */
  lemma FallbackPath<S>(cfg: Config, h: Handler, llm: Option<Llm<S>>, svc: Services,
                        description: string, diagramType: string, theme: Option<string>, s: S)
    requires cfg.llmApiKey.Returned?
    requires Process(h.render, h.context, h.check, DraftRequest(diagramType, description, theme), llm, s).0.Raised?
    requires Format(cfg.fallbackTemplate, map["diagram_type" := diagramType, "description" := description]).Returned?
    requires ImageUrl(cfg, svc.deflate, StripFences(
               Format(cfg.fallbackTemplate, map["diagram_type" := diagramType, "description" := description]).value)).Returned?
    ensures var p := Process(h.render, h.context, h.check, DraftRequest(diagramType, description, theme), llm, s);
      var stub := Format(cfg.fallbackTemplate, map["diagram_type" := diagramType, "description" := description]).value;
      var code := StripFences(stub);
      var preview := FetchImage(svc, ImageUrl(cfg, svc.deflate, code).value);
      GenerateDiagram(cfg, h, llm, svc, description, diagramType, theme, s)
        == (Returned(Generated(code, preview.0, LlmErrorStatus(p.0.error) + preview.1)), p.1)
  {
  }

  /** The code shown and the model calls made do not depend on the rendering
      server or the image decoder. */
  lemma CodeIndependentOfRendering<S>(cfg: Config, h: Handler, llm: Option<Llm<S>>, svc1: Services, svc2: Services,
                                      description: string, diagramType: string, theme: Option<string>, s: S)
    requires svc1.deflate == svc2.deflate
    ensures var g1 := GenerateDiagram(cfg, h, llm, svc1, description, diagramType, theme, s);
      var g2 := GenerateDiagram(cfg, h, llm, svc2, description, diagramType, theme, s);
      && g1.1 == g2.1
      && g1.0.Returned? == g2.0.Returned?
      && (g1.0.Returned? ==> g1.0.value.code == g2.0.value.code)
  {
  }
}
