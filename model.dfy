/** The story data model: a story is a map from chapter name to chapter; a
    chapter has a title, paragraphs in order and options in order; an option
    is a labelled reference to another chapter by name (it may dangle). */
module Model {

  datatype Option = Option(text: string, chapter: string)

  datatype Chapter = Chapter(title: string, paragraphs: seq<string>, options: seq<Option>)

  /** Chapter names are the keys, so they are unique. Go's nil map reads like
      the empty map, and is modelled as `map[]`. */
  type Story = map<string, Chapter>

  /** Go's `error`: nil, or an error carrying its message. */
  datatype Error = NoError | Failed(msg: string)

  /** What the JSON decoder leaves behind: the story value as far as it got
      (the decoder may fill part of it before reporting, for instance, a field
      of the wrong type) and the error it returned. JSON syntax itself belongs
      to the decoder and is not part of this model. */
  datatype Decoding = Decoding(filled: Story, err: Error)

  /** `JsonStory`: decode a story. On a decoding error the caller gets the
      error and a nil story, never the partly filled one; otherwise the decoded
      story, with no error. */
  function JsonStory(decoded: Decoding): (r: (Story, Error))
    ensures r.1 == decoded.err
    ensures r.1.Failed? ==> r.0 == map[]
    ensures r.1.NoError? ==> r.0 == decoded.filled
  {
    if decoded.err.Failed? then (map[], decoded.err) else (decoded.filled, NoError)
  }
}
