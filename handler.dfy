/** The HTTP handler: construction from a story and functional options, and
    the per-request decision that turns a URL path into a rendered chapter, a
    "not found" reply or a server error. Writing to the connection, logging
    and the template engine itself are outside the model: a request ends in an
    Outcome value, and template execution is supplied by the caller. */
module Handler {
  import opened Strings
  import opened Model
  import opened Render

  /** A parsed template: the built-in default one, parsed once at start-up,
      or any other, identified by its source text. */
  datatype Template = Default | Custom(source: string)

  /** A `*template.Template`, which may be nil. */
  datatype TemplateRef = Nil | Ref(template: Template)

  /** A functional option: the closure `WithTemplate(t)` returns, or a nil
      option value. */
  datatype HandlerOption = WithTemplate(t: TemplateRef) | NilOption

  datatype Handler = Handler(story: Story, template: TemplateRef)

  /** NewHandler either returns a handler or panics on calling a nil option. */
  datatype Construction = Constructed(handler: Handler) | ConstructionPanic

  /** `NewHandler`: start from the default template and apply the options in
      order. The story is kept as given; the template is the one set by the
      last option (nil included), or the default one when there is no option;
      a nil option panics. */
  method NewHandler(s: Story, opts: seq<HandlerOption>) returns (r: Construction)
    ensures r.ConstructionPanic? <==> NilOption in opts
    ensures r.Constructed? ==> r.handler.story == s
    ensures r.Constructed? ==>
              r.handler.template == if opts == [] then Ref(Default) else opts[|opts| - 1].t
  {
    var h := Handler(s, Ref(Default));
    for i := 0 to |opts|
      invariant NilOption !in opts[..i]
      invariant h.story == s
      invariant h.template == if i == 0 then Ref(Default) else opts[i - 1].t
    {
      match opts[i]
      case NilOption =>
        return ConstructionPanic;
      case WithTemplate(t) =>
        h := h.(template := t);
      assert opts[..i + 1] == opts[..i] + [opts[i]];
    }
    assert opts[..|opts|] == opts;
    return Constructed(h);
  }

  /** The chapter name a request path selects: trim white space, read an
      empty path or "/" as "/intro", then drop the first character, whatever
      it is. The name is "intro", or else a piece of the path that is
      shorter than it and does not end in white space. */
  function ChapterName(rawPath: string): (name: string)
    ensures name == "intro" || (|name| < |rawPath| && (name == [] || !IsSpace(name[|name| - 1])))
  {
    var path := TrimSpace(rawPath);
    var path := if path == "" || path == "/" then "/intro" else path;
    path[1..]
  }

  /** What executing a template on a chapter gives: its output, or an error. */
  datatype ExecResult = Executed(output: Page) | ExecFailed(err: string)

  /** The default template, when it executes without error, writes the
      default page of the chapter. */
  ghost predicate ExecutesDefault(execute: (Template, Chapter) -> ExecResult) {
    forall c :: execute(Default, c).Executed? ==> execute(Default, c).output == DefaultPage(c)
  }

  /** How one request ends. */
  datatype Outcome =
    | Rendered(output: Page)      // the template's output, status 200
    | ServerError(err: string)    // error logged, 500 "Something went wrong...", then a panic
    | ChapterNotFound             // 404 "Chapter not found..."
    | NilTemplatePanic            // Execute on a nil template panics before writing anything

  /** `ServeHTTP`: look the chapter name up in the story, which is only read.
      A missing name is "not found", with no fallback chapter; a present one
      is rendered through the handler's template, exactly the chapter stored
      under that name, and a failing execution is a server error, never
      "not found". */
  function ServeHTTP(h: Handler, rawPath: string, execute: (Template, Chapter) -> ExecResult): (o: Outcome)
    ensures o.ChapterNotFound? <==> ChapterName(rawPath) !in h.story
    ensures o.NilTemplatePanic? <==> ChapterName(rawPath) in h.story && h.template == Nil
    ensures o.Rendered? ==>
              h.template.Ref? && ChapterName(rawPath) in h.story
              && execute(h.template.template, h.story[ChapterName(rawPath)]) == Executed(o.output)
    ensures o.ServerError? ==>
              h.template.Ref? && ChapterName(rawPath) in h.story
              && execute(h.template.template, h.story[ChapterName(rawPath)]) == ExecFailed(o.err)
  {
    var name := ChapterName(rawPath);
    if name in h.story then
      match h.template
      case Nil => NilTemplatePanic
      case Ref(t) =>
        match execute(t, h.story[name])
        case Executed(out) => Rendered(out)
        case ExecFailed(err) => ServerError(err)
    else
      ChapterNotFound
  }

  /** What the handler writes to the response writer: a status and a body,
      or nothing. Whether the client receives it is up to `net/http`. */
  datatype Reply = Reply(status: nat, body: Page) | NoReply

  const StatusOK: nat := 200
  const StatusNotFound: nat := 404
  const StatusInternalServerError: nat := 500

  /** `http.Error` writes its message followed by a newline, as plain text. */
  const NotFoundBody: string := "Chapter not found...\n"
  const ServerErrorBody: string := "Something went wrong...\n"

  /** What the handler writes for an outcome: the template's output with
      status 200, a fixed plain-text 404 or 500 body that reveals nothing of
      the error, and nothing when the handler panics before writing. */
  function ReplyOf(o: Outcome): (r: Reply)
    ensures r.NoReply? <==> o.NilTemplatePanic?
    ensures r.Reply? ==> (r.status == StatusOK <==> o.Rendered?)
    ensures r.Reply? ==> (r.status == StatusNotFound <==> o.ChapterNotFound?)
    ensures r.Reply? ==> (r.status == StatusInternalServerError <==> o.ServerError?)
    ensures o.Rendered? ==> r.body == o.output
    ensures o.ChapterNotFound? ==> r.body == [Text(NotFoundBody)]
    ensures o.ServerError? ==> r.body == [Text(ServerErrorBody)]
  {
    match o
    case Rendered(out) => Reply(StatusOK, out)
    case ServerError(_) => Reply(StatusInternalServerError, [Text(ServerErrorBody)])
    case ChapterNotFound => Reply(StatusNotFound, [Text(NotFoundBody)])
    case NilTemplatePanic => NoReply
  }

  // Path resolution.

  /** Any path that trims to "" or "/" names the chapter "intro". */
  lemma RootIsIntro(lead: string, trail: string)
    requires AllSpace(lead) && AllSpace(trail)
    ensures ChapterName(lead + trail) == "intro"
    ensures ChapterName(lead + "/" + trail) == "intro"
  {
  }

  /** Every other path names what follows its first non-space character, up
      to its trailing white space: the first character is dropped whether or
      not it is "/", so the name is one shorter than the trimmed path. */
  lemma DropsFirstCharacter(lead: string, first: char, rest: string, trail: string)
    requires AllSpace(lead) && AllSpace(trail)
    requires !IsSpace(first) && (rest == [] || !IsSpace(rest[|rest| - 1]))
    requires !(first == '/' && rest == [])
    ensures ChapterName(lead + [first] + rest + trail) == rest
  {
    var t := [first] + rest;
    var path := lead + [first] + rest + trail;
    assert path == lead + t + trail;
    TrimSpaceUnique(lead, t, trail);
    assert TrimSpace(path) == t;
    assert t != "" && t != "/";
    assert t[1..] == rest;
  }

  /** "/intro" names the chapter "intro". */
  lemma IntroPathIsIntro()
    ensures ChapterName("/intro") == "intro"
  {
  }

  /** "", "/", "  /  " and "/intro" all get the same outcome. */
  lemma IntroAliases(h: Handler, execute: (Template, Chapter) -> ExecResult, lead: string, trail: string)
    requires AllSpace(lead) && AllSpace(trail)
    ensures ServeHTTP(h, lead + trail, execute) == ServeHTTP(h, "/intro", execute)
    ensures ServeHTTP(h, lead + "/" + trail, execute) == ServeHTTP(h, "/intro", execute)
  {
    RootIsIntro(lead, trail);
    IntroPathIsIntro();
  }

  /** A link target "/" + c resolves to c without its trailing white space,
      and to "intro" when nothing is left of c. */
  lemma LinkTargetResolves(o: Option)
    ensures ChapterName(LinkTarget(o)) ==
              if TrimRight(o.chapter) == [] then "intro" else TrimRight(o.chapter)
  {
  }

  // Outcomes.

  /** With the default template, a rendered page is the default page of the
      chapter stored under the requested name, and reads back as exactly
      that chapter. */
  lemma RendersStoredChapter(h: Handler, rawPath: string, execute: (Template, Chapter) -> ExecResult)
    requires h.template == Ref(Default) && ExecutesDefault(execute)
    requires ServeHTTP(h, rawPath, execute).Rendered?
    ensures ChapterName(rawPath) in h.story
    ensures ServeHTTP(h, rawPath, execute).output == DefaultPage(h.story[ChapterName(rawPath)])
    ensures ReadPage(ServeHTTP(h, rawPath, execute).output) == Read(h.story[ChapterName(rawPath)])
  {
    DefaultPageReadsBack(h.story[ChapterName(rawPath)]);
  }

  /** Following a link: requesting the target of an option whose chapter is
      non-empty and does not end in white space looks up exactly that
      chapter, so it is "not found" exactly when the link dangles, and with
      the default template it shows that chapter. */
  lemma FollowLink(h: Handler, o: Option, execute: (Template, Chapter) -> ExecResult)
    requires o.chapter != [] && !IsSpace(o.chapter[|o.chapter| - 1])
    ensures ChapterName(LinkTarget(o)) == o.chapter
    ensures ServeHTTP(h, LinkTarget(o), execute).ChapterNotFound? <==> o.chapter !in h.story
    ensures (h.template == Ref(Default) && ExecutesDefault(execute)
             && ServeHTTP(h, LinkTarget(o), execute).Rendered?) ==>
              ServeHTTP(h, LinkTarget(o), execute).output == DefaultPage(h.story[o.chapter])
  {
  }

  // The scenario of a one-chapter story.

  const IntroChapter := Chapter("Intro", ["Welcome."], [Option("Go", "end")])
  const IntroStory: Story := map["intro" := IntroChapter]

  /** Requesting "/" shows the intro chapter's title, paragraph and a link to
      "/end" labelled "Go". */
  lemma IntroScenario(execute: (Template, Chapter) -> ExecResult)
    requires ExecutesDefault(execute) && execute(Default, IntroChapter).Executed?
    ensures ServeHTTP(Handler(IntroStory, Ref(Default)), "/", execute)
              == Rendered([Heading("Intro"), Paragraph("Welcome."), Link("/end", "Go")])
  {
    var path := "/";
    assert path == [] + "/" + [];
    RootIsIntro([], []);
    assert ChapterName(path) in IntroStory;
    var p := DefaultPage(IntroChapter);
    assert LinkTarget(IntroChapter.options[0]) == "/end";
    assert |p| == 3 && p[1] == Paragraph("Welcome.") && p[2] == Link("/end", "Go");
    assert p == [Heading("Intro"), Paragraph("Welcome."), Link("/end", "Go")];
  }

  /** Requesting "/end" is "not found": the intro chapter links to "end",
      and that link renders normally, but no chapter "end" exists. */
  lemma DanglingScenario(execute: (Template, Chapter) -> ExecResult)
    ensures DefaultPage(IntroChapter)[2] == Link("/end", "Go")
    ensures ServeHTTP(Handler(IntroStory, Ref(Default)), "/end", execute) == ChapterNotFound
  {
    assert LinkTarget(IntroChapter.options[0]) == "/end";
  }
}
