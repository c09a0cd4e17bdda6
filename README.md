# cyoa — a model of the choose-your-own-adventure story server

The system serves an interactive story over HTTP. A story is a map from chapter
name to chapter. Each chapter has a title, paragraphs in order and options in
order. An option is a labelled link to another chapter, given by name. A
single handler serves every request. It trims the request path, reads `""`
and `"/"` as `"/intro"`, drops the first character to get a chapter name,
and looks that name up. A chapter that is found is rendered through the
handler's template. The default template shows the title, then the
paragraphs, then one link per option pointing at `"/" + option.Chapter`. A
name that is not found gets a 404.

The model has four modules:

- `Strings` (`strings.dfy`) models `strings.TrimSpace` with Go's `unicode.IsSpace`
  white-space set. Like Go's code, it finds a start index and a stop index.
  `TrimBounds` is proved to cut off only white space at the two ends, and
  `TrimSpaceUnique` proves that nothing else could be cut off.
- `Model` (`model.dfy`) holds `Story`, `Chapter` and `Option`, and `JsonStory`
  over an abstract decoder result.
- `Render` (`render.dfy`) models the default template as a sequence of
  abstract page elements (`Heading`, `Paragraph`, `Link`). It also has a
  reader `ReadPage`, proved to be the exact inverse of `DefaultPage` in both
  directions. So the page shows the whole chapter in order, and nothing else.
- `Handler` (`handler.dfy`) holds `NewHandler`, a loop that applies the
  options in order, and `ChapterName`, the path resolution. It also holds
  `ServeHTTP`, which ends a request in an `Outcome`, and `ReplyOf`, which
  gives the status and body the handler writes to the response writer for
  each outcome. Lemmas cover the aliases of
  `"intro"` and the dropped first character. Another proves that following a
  rendered link looks up the option's target chapter.

Three behaviours of the code are kept as written:

- `WithTemplate(nil)` installs a nil template. It does not fall back to the
  default template. Executing a nil template panics, so the model has the
  outcome `NilTemplatePanic`.
- A failed template execution writes a 500 reply and then panics. The model
  keeps this as the outcome `ServerError`.
- Passing a nil option to `NewHandler` panics when the option is called
  (`ConstructionPanic`).

Template execution is an external collaborator. `ServeHTTP` takes it as a
parameter `execute: (Template, Chapter) -> ExecResult`. The predicate
`ExecutesDefault` states the one thing assumed of it: when the default
template succeeds, its output is `DefaultPage(c)`. `ServeHTTP` is a function,
so two requests for the same path on the same handler and with the same
`execute` give the same outcome. In Go, `execute` can differ from one request
to the next. A write error, for example from a client that disconnects, can
make one request a `ServerError` and the next one `Rendered`.
The story is only read.

## Model

| member | source | states |
|---|---|---|
| `Strings.TrimBounds` | story.go:122 | the cut points of the trimmed path: everything before the start and from the stop on is white space, and the piece between neither starts nor ends with white space |
| `Strings.TrimSpace` | story.go:122 | the trimmed path neither starts nor ends with white space and is no longer than the raw path |
| `Strings.TrimSpaceUnique` | story.go:122 | for white space `p`, `q` and a string `t` already trimmed, trimming `p + t + q` gives exactly `t`: TrimSpace cuts off all the white space at the ends and nothing else |
| `Model.JsonStory` | story.go:140-147 | a decoding error is returned as it is, together with a nil (empty) story, never the partly filled one; without an error the decoded story is returned |
| `Render.ParagraphElements` | story.go:41-43 | one paragraph element per paragraph, in the same order |
| `Render.LinkTarget` | story.go:47 | the href is "/" followed by exactly the option's chapter name |
| `Render.LinkElements` | story.go:45-49 | one link per option, in the same order, with the option's text as label and LinkTarget as href |
| `Render.DefaultPage` | story.go:40-49 | the page is the title heading, then every paragraph in order, then one link per option in order, and nothing else (length 1 + paragraphs + options) |
| `Render.DefaultPageReadsBack` | story.go:40-49 | reading the default page of a chapter gives back exactly that chapter (title, paragraphs, options with targets) |
| `Render.ReadPageExact` | story.go:40-49 | a page that reads as a chapter is exactly the default page of that chapter |
| `Handler.NewHandler` | story.go:102-114 | the story is stored unchanged; with no options the template is the default one; otherwise it is the one set by the last option, so the last WithTemplate wins; a nil option panics, and only then |
| `Handler.ChapterName` | story.go:122-126 | the chapter name is "intro", or else shorter than the raw path and not ending in white space |
| `Handler.ServeHTTP` | story.go:121-138 | "not found" exactly when the name is absent, with no fallback; otherwise the template renders exactly the chapter stored under the name; a failed execution is a server error, never "not found"; a nil template panics |
| `Handler.ReplyOf` | story.go:129-137 | what the handler writes to the response writer: status 200 with the template output, 404 with "Chapter not found...", 500 with "Something went wrong..." (no error detail), nothing on the nil-template panic |
| `Handler.RootIsIntro` | story.go:122-126 | every path that trims to "" or "/" names "intro" |
| `Handler.DropsFirstCharacter` | story.go:122-126 | any other path names the trimmed path minus its first character, whether or not that character is "/" |
| `Handler.IntroPathIsIntro` | story.go:126 | "/intro" itself names the chapter "intro" |
| `Handler.IntroAliases` | story.go:121-128 | "", "/", "/" with surrounding white space, and "/intro" give the same outcome |
| `Handler.LinkTargetResolves` | story.go:122-126 | the target "/" + c of a rendered link names c without its trailing white space, or "intro" if nothing of c is left |
| `Handler.RendersStoredChapter` | story.go:128-129 | with the default template, a rendered reply is the default page of the chapter stored under the requested name and reads back as that chapter |
| `Handler.FollowLink` | story.go:121-137 | following a link whose target is non-empty and does not end in white space looks up exactly that target: "not found" exactly when it dangles, and otherwise the default page of that chapter |
| `Handler.IntroScenario` | story.go:121-135 | for the one-chapter story, "/" shows "Intro", "Welcome." and a link to "/end" labelled "Go" |
| `Handler.DanglingScenario` | story.go:121-138 | for the same story, the intro page carries the link to "/end", and requesting "/end" is "not found" |

## Left out

- HTML markup, HTML escaping and the CSS of the default template. The page is modelled as a sequence of abstract elements.
- The template engine (`html/template` parsing and execution) is a parameter. Custom templates such as `Custom(source)` have no modelled semantics. Their output is whatever the parameter returns.
- The global `tpl` set in `init` is the constant `Default`. A default template that fails to parse would stop the program at start-up; this is not modelled.
- Strings are sequences of characters. Go's `path[1:]` drops one byte, and the model drops one character. The two agree whenever the first character is ASCII, as `/` is.
- URL escaping of the href by the template engine and URL decoding of the request path by `net/http` are not modelled. Links and paths are compared as decoded paths. A chapter name containing `?`, `#`, `%` or dot segments would not survive a real browser round trip. Neither would a name starting with `/` or `\`. For example, `"/evil.com"` gives the href `"//evil.com"`, which a browser reads as a protocol-relative URL to another host, while the model's `ChapterName` resolves it to `"/evil.com"`.
- ReplyOf: gives what the handler writes to the response writer, not what the client receives. After a failed execution the handler writes the 500 reply and then panics. `net/http` recovers the panic and closes the connection without flushing the buffered reply, so the client most likely gets no reply at all, as with `NilTemplatePanic`. ReplyOf also assumes the template wrote nothing before it failed. If it had written output, the 200 status would already be recorded in the writer's buffer, the 500 status would be ignored, and the error text would be appended to the partial page.
- The panic after the 500 reply (outcome `ServerError`), and its recovery by `net/http` (which drops the connection), are modelled only as a terminal outcome. The same holds for `NilTemplatePanic` and `ConstructionPanic`.
- `log.Printf` of the render error, the response headers that `http.Error` sets, and the HTTP method, query and body, which the handler ignores.
- `JsonStory`: JSON syntax, field matching and duplicate keys belong to `encoding/json`. The decoder's result is an input `Decoding`.
- `cmd/cyoaweb/main.go` (flag parsing, opening the file, `ListenAndServe`) and concurrent request dispatch. These are process glue with no logic of their own.
