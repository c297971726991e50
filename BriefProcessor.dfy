/**
 * `BriefHTMLProcessor` of src/briefProcessor.js: rewriting the shared asset
 * paths of a brief to a local server, writing the result to a temporary file,
 * and removing that file again. The parsed document is seen as the elements of
 * its `head` and the content of its `body`, in which the `link` and `script`
 * elements stand as elements between pieces of markup text; files hold documents.
 */
module BriefProcessor {
  import opened Wrappers
  import opened Paths
  import opened Replace

  const DefaultServerUrl := "http://localhost:5001"
  const SharedStylesheet := "../shared/dist/main.css"
  const SharedBundle := "../shared/src/getbundle.js"
  const SharedAssets := "../shared/assets/"
  const TempFileName := "temp-index.html"

  /** An element, by its tag name and its attributes. */
  datatype Element = Element(tag: string, attrs: map<string, string>)

  /** A piece of the body's content: markup text, or an element the selectors can reach. */
  datatype Piece = Text(html: string) | Tag(element: Element)

  datatype Document = Document(head: seq<Element>, body: seq<Piece>)

  // ---------------------------------------------------------------------------
  // processHTML
  // ---------------------------------------------------------------------------

  /** The attribute test `[attr*=needle]` of a selector whose tag is `tag`. */
  predicate Selects(e: Element, tag: string, attr: string, needle: string) {
    e.tag == tag && attr in e.attrs && Contains(e.attrs[attr], needle)
  }

  /** `.attr(attr, value)` on the element when the selector matches it. */
  function SetIfSelected(e: Element, tag: string, attr: string, needle: string, value: string): Element {
    if Selects(e, tag, attr, needle) then e.(attrs := e.attrs[attr := value]) else e
  }

  /**
   * The two attribute rewrites on one element: the stylesheet rewrite only reaches
   * `head` descendants (`head link[...]`), the bundle rewrite any `script`.
   */
  function RewriteElement(e: Element, url: string, inHead: bool): Element {
    var e' := if inHead then SetIfSelected(e, "link", "href", SharedStylesheet, url + "/dist/main.css") else e;
    SetIfSelected(e', "script", "src", SharedBundle, url + "/main.js")
  }

  /** The body's content after the attribute rewrites. */
  function RewriteBody(body: seq<Piece>, url: string): (r: seq<Piece>)
    ensures |r| == |body|
  {
    seq(|body|, i requires 0 <= i < |body| =>
      match body[i]
      case Text(t) => Text(t)
      case Tag(e) => Tag(RewriteElement(e, url, false)))
  }

  /** The inner HTML of a body, with `serialize` as the serialiser of one element. */
  function BodyHTML(body: seq<Piece>, serialize: Element -> string): string {
    if body == [] then ""
    else
      (match body[0] case Text(t) => t case Tag(e) => serialize(e)) + BodyHTML(body[1..], serialize)
  }

  /**
   * `processHTML(htmlContent)` with `this.localServerUrl == url`, as evidently
   * intended: the `head` and `body` elements are rewritten, then the body's inner
   * HTML, serialised after those rewrites, gets every shared assets path replaced
   * and becomes the body's new content.
   */
  function ProcessHTML(doc: Document, url: string, serialize: Element -> string): Document {
    var body := BodyHTML(RewriteBody(doc.body, url), serialize);
    Document(seq(|doc.head|, i requires 0 <= i < |doc.head| => RewriteElement(doc.head[i], url, true)),
             [Text(ReplaceAll(body, SharedAssets, url + "/assets/"))])
  }

  /**
   * A `head` link whose `href` contains the shared stylesheet path gets its whole
   * `href` replaced by the local stylesheet; a `head` script whose `src` contains
   * the shared bundle path gets its whole `src` replaced by the local bundle;
   * every other element, and every other attribute, is left as it was.
   */
  lemma RewritesSelectedAttributes(doc: Document, url: string, serialize: Element -> string, i: nat)
    requires i < |doc.head|
    ensures var e, r := doc.head[i], ProcessHTML(doc, url, serialize).head[i];
      && |ProcessHTML(doc, url, serialize).head| == |doc.head|
      && r.tag == e.tag && r.attrs.Keys == e.attrs.Keys
      && (Selects(e, "link", "href", SharedStylesheet) ==> r.attrs["href"] == url + "/dist/main.css")
      && (Selects(e, "script", "src", SharedBundle) ==> r.attrs["src"] == url + "/main.js")
      && (forall a | a in e.attrs ::
            (a == "href" && Selects(e, "link", "href", SharedStylesheet)) ||
            (a == "src" && Selects(e, "script", "src", SharedBundle)) ||
            r.attrs[a] == e.attrs[a])
      && (!Selects(e, "link", "href", SharedStylesheet) && !Selects(e, "script", "src", SharedBundle) ==> r == e)
  {
  }

  /**
   * In the body, a script whose `src` contains the shared bundle path gets its
   * whole `src` replaced by the local bundle; links and text are left as they
   * were, and so is every other element and attribute.
   */
  lemma RewritesBodyScripts(body: seq<Piece>, url: string, i: nat)
    requires i < |body|
    ensures var p, r := body[i], RewriteBody(body, url)[i];
      && (p.Text? ==> r == p)
      && (p.Tag? ==>
            && r.Tag? && r.element.tag == p.element.tag && r.element.attrs.Keys == p.element.attrs.Keys
            && (Selects(p.element, "script", "src", SharedBundle) ==> r.element.attrs["src"] == url + "/main.js")
            && (!Selects(p.element, "script", "src", SharedBundle) ==> r == p))
  {
  }

  /** Running the attribute rewrites a second time changes nothing. */
  lemma AttributeRewritesAreIdempotent(e: Element, url: string, inHead: bool)
    ensures RewriteElement(RewriteElement(e, url, inHead), url, inHead) == RewriteElement(e, url, inHead)
  {
    var link := if inHead then SetIfSelected(e, "link", "href", SharedStylesheet, url + "/dist/main.css") else e;
    var once := RewriteElement(e, url, inHead);
    if inHead {
      assert SetIfSelected(once, "link", "href", SharedStylesheet, url + "/dist/main.css") == once by {
        if once.tag == "link" {
          assert once == link;
        }
      }
    }
  }

  /** A body without a selected script is left as it was by the attribute rewrites. */
  lemma {:induction false} RewriteBodyWithoutScripts(body: seq<Piece>, url: string)
    requires forall i | 0 <= i < |body| :: !(body[i].Tag? && Selects(body[i].element, "script", "src", SharedBundle))
    ensures RewriteBody(body, url) == body
  {
    var r := RewriteBody(body, url);
    forall i | 0 <= i < |body| ensures r[i] == body[i] {
      RewritesBodyScripts(body, url, i);
    }
  }

  /**
   * A body with no script to rewrite and without the shared assets path keeps
   * its inner HTML, whatever the server URL.
   */
  lemma BodyWithoutAssetsIsUnchanged(doc: Document, url: string, serialize: Element -> string)
    requires forall i | 0 <= i < |doc.body| :: !(doc.body[i].Tag? && Selects(doc.body[i].element, "script", "src", SharedBundle))
    requires !Contains(BodyHTML(doc.body, serialize), SharedAssets)
    ensures ProcessHTML(doc, url, serialize).body == [Text(BodyHTML(doc.body, serialize))]
  {
    RewriteBodyWithoutScripts(doc.body, url);
    ReplaceAllWithoutMatch(BodyHTML(doc.body, serialize), SharedAssets, url + "/assets/");
  }

  /**
   * With a server URL without `$`, the body's inner HTML, as serialised after the
   * script rewrite, is cut at every left-to-right, non-overlapping occurrence of
   * the shared assets path, and the pieces, none of which contains that path, are
   * joined with the local assets path.
   */
  lemma BodyAssetsAreReplaced(doc: Document, url: string, serialize: Element -> string)
    requires NoDollar(url)
    ensures var html := BodyHTML(RewriteBody(doc.body, url), serialize);
      && ProcessHTML(doc, url, serialize).body == [Text(Join(Split(html, SharedAssets), url + "/assets/"))]
      && (forall p | p in Split(html, SharedAssets) :: !Contains(p, SharedAssets))
      && Join(Split(html, SharedAssets), SharedAssets) == html
  {
    var html := BodyHTML(RewriteBody(doc.body, url), serialize);
    assert NoDollar(url + "/assets/") by {
      forall i | 0 <= i < |url + "/assets/"| ensures (url + "/assets/")[i] != '$' {
        if i >= |url| { assert (url + "/assets/")[i] == "/assets/"[i - |url|]; }
      }
    }
    ReplaceAllIsSplitJoin(html, SharedAssets, url + "/assets/");
    SplitPartsLackPattern(html, SharedAssets);
    SplitJoinRoundTrip(html, SharedAssets);
  }

  // ---------------------------------------------------------------------------
  // processHTML as written
  // ---------------------------------------------------------------------------

  /**
   * What `String(f)` gives for the bound function handed to `.html(...)`: the
   * text of a function with native code.
   */
  const BoundFunctionText := "function () { [native code] }"

  /**
   * `processHTML` as written: `.html(value)` takes a string (or a selection),
   * and converts anything else with `String(value)`, so the body's content
   * becomes the text of the bound function; the callback is never called.
   */
  function ProcessHTMLAsWritten(doc: Document, url: string): Document {
    Document(seq(|doc.head|, i requires 0 <= i < |doc.head| => RewriteElement(doc.head[i], url, true)),
             [Text(BoundFunctionText)])
  }

  /**
   * As written, the body is lost: a brief whose body is `<p>hi</p>` comes out
   * with the function's text as its body, where the intended result keeps it.
   */
  lemma AsWrittenLosesBody(url: string, serialize: Element -> string)
    ensures var doc := Document([], [Text("<p>hi</p>")]);
      && ProcessHTML(doc, url, serialize).body == [Text("<p>hi</p>")]
      && ProcessHTMLAsWritten(doc, url).body == [Text(BoundFunctionText)]
      && ProcessHTMLAsWritten(doc, url) != ProcessHTML(doc, url, serialize)
  {
    var doc := Document([], [Text("<p>hi</p>")]);
    assert BodyHTML(doc.body, serialize) == "<p>hi</p>" by {
      assert doc.body[1..] == [];
    }
    assert !Contains("<p>hi</p>", SharedAssets);
    BodyWithoutAssetsIsUnchanged(doc, url, serialize);
    assert BoundFunctionText[0] != "<p>hi</p>"[0];
  }

  // ---------------------------------------------------------------------------
  // The file system: fs.readFile, fs.writeFile, fs.pathExists, fs.remove
  // ---------------------------------------------------------------------------

  /** Why a file operation rejected. */
  datatype FsError = ReadFailed(path: Path) | WriteFailed(path: Path)

  datatype Result<T> = Ok(value: T) | Failed(error: FsError)

  /** The files of `files` that are not `p` and not under it. */
  function FilesOutside(files: map<Path, Document>, p: Path): (r: map<Path, Document>)
    ensures forall q | q in r :: !Within(q, p) && q in files && r[q] == files[q]
    ensures forall q | q in files && !Within(q, p) :: q in r
  {
    map q | q in files && !Within(q, p) :: files[q]
  }

  /** The directories of `dirs` that are not `p` and not under it. */
  function DirsOutside(dirs: set<Path>, p: Path): (r: set<Path>)
    ensures forall q :: q in r <==> q in dirs && !Within(q, p)
  {
    set q | q in dirs && !Within(q, p)
  }

  /** Removing `p` twice is removing it once. */
  lemma RemoveIsIdempotent(files: map<Path, Document>, dirs: set<Path>, p: Path)
    ensures FilesOutside(FilesOutside(files, p), p) == FilesOutside(files, p)
    ensures DirsOutside(DirsOutside(dirs, p), p) == DirsOutside(dirs, p)
  {
  }

  /** The disk: files with their documents, and the directories that exist. */
  class Disk {
    var files: map<Path, Document>
    var dirs: set<Path>

    constructor (files: map<Path, Document>, dirs: set<Path>)
      ensures this.files == files && this.dirs == dirs
    {
      this.files := files;
      this.dirs := dirs;
    }

    /** `fs.pathExists(p)`, which never rejects. */
    predicate PathExists(p: Path)
      reads this
    {
      p in files || p in dirs
    }

    /** `fs.readFile(p)`: rejects when there is no such file. */
    method ReadFile(p: Path) returns (r: Option<Document>)
      ensures r == if p in files then Some(files[p]) else None
    {
      r := if p in files then Some(files[p]) else None;
    }

    /** `fs.writeFile(p, doc)`: rejects unless the parent directory exists and `p` is not a directory. */
    method WriteFile(p: Path, doc: Document) returns (ok: bool)
      modifies this
      ensures ok <==> p != [] && Dirname(p) in old(dirs) && p !in old(dirs)
      ensures files == if ok then old(files)[p := doc] else old(files)
      ensures dirs == old(dirs)
    {
      ok := p != [] && Dirname(p) in dirs && p !in dirs;
      if ok {
        files := files[p := doc];
      }
    }

    /** `fs.remove(p)`: removes `p` and everything under it; a missing path is no error. */
    method Remove(p: Path)
      modifies this
      ensures files == FilesOutside(old(files), p) && dirs == DirsOutside(old(dirs), p)
    {
      files := FilesOutside(files, p);
      dirs := DirsOutside(dirs, p);
    }
  }

  // ---------------------------------------------------------------------------
  // processBriefFile and cleanup
  // ---------------------------------------------------------------------------

  /** What `processBriefFile` resolves with. */
  datatype BriefFile = BriefFile(tempFilePath: Path, processedHTML: Document)

  /** `path.join(outputDir, 'temp-index.html')`. */
  function TempPath(outputDir: Path): (p: Path)
    ensures Dirname(p) == outputDir && Basename(p) == TempFileName
  {
    outputDir + [TempFileName]
  }

  /**
   * `processBriefFile(inputPath, outputDir)` on a disk with `files` and `dirs`:
   * its outcome and the files afterwards.
   */
  function BriefFileEffect(files: map<Path, Document>, dirs: set<Path>, inputPath: Path, outputDir: Path, url: string,
                           serialize: Element -> string)
    : (Result<BriefFile>, map<Path, Document>)
  {
    var temp := TempPath(outputDir);
    if inputPath !in files then (Failed(ReadFailed(inputPath)), files)
    else if outputDir !in dirs || temp in dirs then (Failed(WriteFailed(temp)), files)
    else
      var processed := ProcessHTML(files[inputPath], url, serialize);
      (Ok(BriefFile(temp, processed)), files[temp := processed])
  }

  /**
   * `processBriefFile` succeeds exactly when the input exists and the temporary
   * file can be written; it then resolves with the temporary path in the output
   * directory, whatever the input is called, and with the processed document,
   * which is exactly what the temporary file holds; no other file changes.
   */
  lemma BriefFileWritesTemp(files: map<Path, Document>, dirs: set<Path>, inputPath: Path, outputDir: Path, url: string, serialize: Element -> string)
    ensures var (r, files') := BriefFileEffect(files, dirs, inputPath, outputDir, url, serialize);
      && (r.Ok? <==> inputPath in files && outputDir in dirs && outputDir + [TempFileName] !in dirs)
      && (r.Ok? ==>
            && r.value.tempFilePath == outputDir + [TempFileName]
            && r.value.processedHTML == ProcessHTML(files[inputPath], url, serialize)
            && files'[r.value.tempFilePath] == r.value.processedHTML)
      && (forall q | q != outputDir + [TempFileName] :: (q in files' <==> q in files) && (q in files ==> files'[q] == files[q]))
  {
  }

  /**
   * Processing a brief and cleaning up leaves every file outside the temporary
   * file as it was; a file left at the temporary path from before, and anything
   * under that path, is gone afterwards.
   */
  lemma BriefThenCleanupRestores(files: map<Path, Document>, dirs: set<Path>, inputPath: Path, outputDir: Path, url: string, serialize: Element -> string)
    ensures var (r, files') := BriefFileEffect(files, dirs, inputPath, outputDir, url, serialize);
      r.Ok? ==> CleanupEffect(files', dirs, TempPath(outputDir)).0 == FilesOutside(files, TempPath(outputDir))
  {
  }

  /** With nothing at or under the temporary path beforehand, processing and cleaning up restores the files exactly. */
  lemma BriefThenCleanupRestoresFresh(files: map<Path, Document>, dirs: set<Path>, inputPath: Path, outputDir: Path, url: string, serialize: Element -> string)
    requires forall q | q in files :: !Within(q, TempPath(outputDir))
    ensures var (r, files') := BriefFileEffect(files, dirs, inputPath, outputDir, url, serialize);
      r.Ok? ==> CleanupEffect(files', dirs, TempPath(outputDir)).0 == files
  {
  }

  /** `cleanup(p)` on a disk with `files` and `dirs`: `p` is removed only when it exists. */
  function CleanupEffect(files: map<Path, Document>, dirs: set<Path>, p: Path): (map<Path, Document>, set<Path>) {
    if p in files || p in dirs then (FilesOutside(files, p), DirsOutside(dirs, p)) else (files, dirs)
  }

  /**
   * When `p` exists, `cleanup(p)` removes it and everything under it and nothing
   * else; when it does not, nothing changes. Either way nothing is left at `p`,
   * and a second `cleanup(p)` changes nothing.
   */
  lemma CleanupIsIdempotent(files: map<Path, Document>, dirs: set<Path>, p: Path)
    ensures var (files', dirs') := CleanupEffect(files, dirs, p);
      && p !in files' && p !in dirs'
      && (forall q | !Within(q, p) :: (q in files' <==> q in files) && (q in dirs' <==> q in dirs))
      && (forall q | q in files' :: files'[q] == files[q])
      && ((p in files || p in dirs) ==> forall q | Within(q, p) :: q !in files' && q !in dirs')
      && (!(p in files || p in dirs) ==> files' == files && dirs' == dirs)
      && CleanupEffect(files', dirs', p) == (files', dirs')
  {
    assert Within(p, p);
  }

  class BriefHTMLProcessor {
    const localServerUrl: string

    /** `new BriefHTMLProcessor(localServerUrl)`; `None` is an omitted or `undefined` argument. */
    constructor (localServerUrl: Option<string>)
      ensures this.localServerUrl == localServerUrl.GetOr(DefaultServerUrl)
      ensures localServerUrl.None? ==> this.localServerUrl == "http://localhost:5001"
    {
      this.localServerUrl := localServerUrl.GetOr(DefaultServerUrl);
    }

    /** `processBriefFile(inputPath, outputDir)`, with `serialize` as the parser's serialiser of one element. */
    method ProcessBriefFile(disk: Disk, inputPath: Path, outputDir: Path, serialize: Element -> string) returns (r: Result<BriefFile>)
      modifies disk
      ensures (r, disk.files) == BriefFileEffect(old(disk.files), old(disk.dirs), inputPath, outputDir, localServerUrl, serialize)
      ensures disk.dirs == old(disk.dirs)
    {
      var content := disk.ReadFile(inputPath);
      if content.None? {
        return Failed(ReadFailed(inputPath));
      }
      var processed := ProcessHTML(content.value, localServerUrl, serialize);
      var temp := outputDir + [TempFileName];
      var ok := disk.WriteFile(temp, processed);
      if !ok {
        return Failed(WriteFailed(temp));
      }
      r := Ok(BriefFile(temp, processed));
    }

    /** `cleanup(tempFilePath)`. */
    method Cleanup(disk: Disk, tempFilePath: Path)
      modifies disk
      ensures (disk.files, disk.dirs) == CleanupEffect(old(disk.files), old(disk.dirs), tempFilePath)
    {
      var present := disk.PathExists(tempFilePath);
      if present {
        disk.Remove(tempFilePath);
      }
    }
  }
}
