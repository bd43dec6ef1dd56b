/** The pure part of the home page: how it turns the `noteId` search
    parameter into the id of the note to open, and the editor's starting
    text. The database query is a parameter. */
module HomePage {
  import opened Wrappers
  import opened Urls
  import opened Middleware

  /** `searchParams.noteId` as the page receives it: absent, one string, or
      an array when the parameter is repeated. */
  datatype NoteIdParam = Missing | Single(value: string) | Several(values: seq<string>)

  /** How the framework builds that value from the URL's query. */
  function ParamOf(q: Query, name: string): NoteIdParam {
    var vs := Values(q, name);
    if |vs| == 0 then Missing
    else if |vs| == 1 then Single(vs[0])
    else Several(vs)
  }

  /** `Array.isArray(p) ? p[0] : p || ""`. `None` is `undefined`, which only
      an empty array yields. */
  function NormalizeNoteId(p: NoteIdParam): (r: Option<string>)
    ensures p.Several? && |p.values| > 0 ==> r == Some(p.values[0])
    ensures p.Single? ==> r == Some(p.value)
    ensures p.Missing? ==> r == Some("")
    ensures p == Several([]) ==> r == None
  {
    match p
    case Several(vs) => if |vs| > 0 then Some(vs[0]) else None
    case Single(s) => Some(if s != "" then s else "")
    case Missing => Some("")
  }

  /** The page opens the note the middleware reads: the first `noteId`
      value, or `""` when there is none; so the middleware lets a request
      reach the page without resolving a note exactly when the page's id is
      not empty. */
  lemma {:induction false} PageReadsFirstNoteId(q: Query)
    ensures NormalizeNoteId(ParamOf(q, "noteId")) == Some(Get(q, "noteId").GetOr(""))
    ensures HasNoteId(q) <==> NormalizeNoteId(ParamOf(q, "noteId")) != Some("")
  {
    GetIsFirstValue(q, "noteId");
  }

  /** A signed-in user whose request for `/` passes through reaches the page
      with a non-empty note id. */
  lemma SignedInRootPassthroughHasNote(req: Request, baseOrigin: string, be: Backend)
    requires Classify(req.url.path) == AppRoot && be.auth.user.Some?
    requires Session(req, baseOrigin, be).0.Returned? && Session(req, baseOrigin, be).0.response.Next?
    ensures exists id :: id != "" && NormalizeNoteId(ParamOf(req.url.query, "noteId")) == Some(id)
  {
    PageReadsFirstNoteId(req.url.query);
    assert HasNoteId(req.url.query);
    var id := Get(req.url.query, "noteId").value;
    assert NormalizeNoteId(ParamOf(req.url.query, "noteId")) == Some(id);
  }

  datatype Note = Note(id: string, authorId: UserId, text: string)

  /** The `where` of the note query, `{ id: noteId, authorId: user?.id }`;
      `None` stands for `undefined`. */
  datatype NoteWhere = NoteWhere(id: Option<string>, authorId: Option<UserId>)

  /** `note?.text || ""`. */
  function StartingText(note: Option<Note>): (r: string)
    ensures note.None? ==> r == ""
    ensures note.Some? ==> r == note.value.text
  {
    if note.Some? && note.value.text != "" then note.value.text else ""
  }

  /** What the page hands to the editor. */
  datatype EditorProps = EditorProps(noteId: Option<string>, startingNoteText: string)

  /** The page for a `noteId` parameter and the signed-in user, with the
      note query `findUnique` as a parameter. Glue only: it composes
      `NormalizeNoteId`, the query and `StartingText`, and its contract
      follows from theirs. */
  function HomePageProps(param: NoteIdParam, user: Option<UserId>, findUnique: NoteWhere -> Option<Note>): (r: EditorProps)
    ensures r.noteId == NormalizeNoteId(param)
    ensures var found := findUnique(NoteWhere(NormalizeNoteId(param), user));
      r.startingNoteText == if found.Some? then found.value.text else ""
  {
    var noteId := NormalizeNoteId(param);
    var note := findUnique(NoteWhere(noteId, user));
    EditorProps(noteId, StartingText(note))
  }
}
