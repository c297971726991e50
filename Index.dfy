/**
 * src/index.js: classifying files by extension, dispatching one file, and the
 * recursive walk that mirrors the input tree into the output tree. The file
 * system and the logger are seen through the actions they are asked to do.
 */
module Index {
  import opened Wrappers
  import opened Paths

  // ---------------------------------------------------------------------------
  // Classification
  // ---------------------------------------------------------------------------

  /** `isHTMLFile`: the extension is exactly `.html`, case included. */
  predicate IsHTMLFile(filePath: Path) {
    Extname(Basename(filePath)) == ".html"
  }

  /** `isCopyableFile`: the lower-cased extension is neither `.png` nor `.webp`. */
  predicate IsCopyableFile(filePath: Path) {
    var ext := ToLowerAscii(Extname(Basename(filePath)));
    ext != ".png" && ext != ".webp"
  }

  /** A file is HTML exactly when its name is a non-empty stem followed by `.html`. */
  lemma HtmlFileIsSuffix(filePath: Path)
    ensures IsHTMLFile(filePath) <==> EndsAfterStem(Basename(filePath), ".html")
  {
    ExtnameIs(Basename(filePath), ".html");
  }

  /**
   * A file is copyable exactly when its lower-cased name does not end, after a
   * non-empty stem, with `.png` or `.webp`.
   */
  lemma CopyableFileIsNotImage(filePath: Path)
    ensures IsCopyableFile(filePath) <==>
      !EndsAfterStem(ToLowerAscii(Basename(filePath)), ".png") && !EndsAfterStem(ToLowerAscii(Basename(filePath)), ".webp")
  {
    var lowered := ToLowerAscii(Basename(filePath));
    ExtnameLower(Basename(filePath));
    assert ToLowerAscii(Extname(Basename(filePath))) == Extname(lowered);
    ExtnameIs(lowered, ".png");
    ExtnameIs(lowered, ".webp");
  }

  /** Every HTML file is also copyable. */
  lemma HtmlFileIsCopyable(filePath: Path)
    ensures IsHTMLFile(filePath) ==> IsCopyableFile(filePath)
  {
    if IsHTMLFile(filePath) {
      LowerHtml();
    }
  }

  lemma LowerHtml()
    ensures ToLowerAscii(".html") == ".html"
  {
  }

  /** The test is case-sensitive: `page.HTML` is no HTML file, but it is copied; upper-case images are not copied. */
  lemma UpperCaseExtensions()
    ensures !IsHTMLFile(["page.HTML"]) && IsCopyableFile(["page.HTML"])
    ensures !IsCopyableFile(["shot.PNG"])
  {
    LastDotAt("page.HTML", 4);
    assert "page.HTML"[4..] == ".HTML";
    var h := ToLowerAscii(".HTML");
    assert h[1] == 'h';
    LastDotAt("shot.PNG", 4);
    assert "shot.PNG"[4..] == ".PNG";
    var p := ToLowerAscii(".PNG");
    assert p == ".png";
  }

  // ---------------------------------------------------------------------------
  // Effects
  // ---------------------------------------------------------------------------

  /** What the walk asks of the file system and the logger. */
  datatype Action =
    | EnsureDir(dir: Path)
    | ReadDir(dir: Path)
    | Thumbnail(src: Path, dst: Path)  // processHTMLFile: read, template, render
    | Copy(src: Path, dst: Path)
    | LogError(message: Message)

  /** The error messages of the walk, by what they name. */
  datatype Message =
    | NoInputDir                      // generateThumbnails: inputDir is not defined
    | WalkFailed                      // generateThumbnails: its catch
    | FileFailed(file: Path)          // processFile and processHTMLFile: their catch
    | DirFailed(dir: Path)            // fileUtils.createDirectory, before it rethrows
    | CopyFailed(src: Path, dst: Path)  // fileUtils.copyFile, before it rethrows

  /** A directory entry as `fs.readdir(..., { withFileTypes: true })` reports it. */
  datatype Entry =
    | Dir(name: string, children: seq<Entry>)
    | File(name: string)
    | Other(name: string)  // neither a file nor a directory, e.g. a socket

  /** The name every thumbnail gets, whatever the HTML file is called. */
  const ThumbName := "thumb.webp"

  /** `a`, followed by the errors logged on the way out when it fails. */
  function Attempt(a: Action, logs: seq<Action>, fails: set<Action>): seq<Action> {
    if a in fails then [a] + logs else [a]
  }

  /**
   * `fileUtils.copyFile(src, dst)` inside `processFile(file, ...)`: the wrapper
   * logs a failed copy and rethrows, and `processFile`'s `catch` logs it again.
   */
  function CopyTrace(file: Path, dst: Path, fails: set<Action>): seq<Action> {
    Attempt(Copy(file, dst), [LogError(CopyFailed(file, dst)), LogError(FileFailed(file))], fails)
  }

  /**
   * `processFile(filePath, outputDir)`: make the output directory, then render a
   * thumbnail and copy an HTML file, or copy any other copyable file. A failed
   * render is caught inside `processHTMLFile`, so the copy still happens.
   */
  function ProcessFileTrace(filePath: Path, outputDir: Path, fails: set<Action>): seq<Action> {
    ClassifiedTrace(filePath, outputDir, IsHTMLFile(filePath), IsCopyableFile(filePath), fails)
  }

  /** `processFile` for a file classified as `html` and `copyable`. */
  function ClassifiedTrace(filePath: Path, outputDir: Path, html: bool, copyable: bool, fails: set<Action>): seq<Action> {
    if EnsureDir(outputDir) in fails then [EnsureDir(outputDir), LogError(FileFailed(filePath))]
    else [EnsureDir(outputDir)] + DispatchTrace(filePath, outputDir, html, copyable, fails)
  }

  /** The branch of `processFile` after the output directory is made, for a file classified as `html` and `copyable`. */
  function DispatchTrace(filePath: Path, outputDir: Path, html: bool, copyable: bool, fails: set<Action>): seq<Action> {
    var copy := CopyTrace(filePath, outputDir + [Basename(filePath)], fails);
    if html then Attempt(Thumbnail(filePath, outputDir + [ThumbName]), [LogError(FileFailed(filePath))], fails) + copy
    else if copyable then copy
    else []
  }

  /**
   * `generateThumbnails(inputDir, outputDir)` where `listing` is what reading
   * `inputDir` yields: a missing input directory is only logged; otherwise make
   * the output directory (`fileUtils.createDirectory`, which logs its own failure
   * before rethrowing), list the input and handle each entry, a directory into
   * the output directory of the same name and a file into `outputDir` itself.
   */
  function WalkTrace(inputDir: Path, outputDir: Path, listing: seq<Entry>, fails: set<Action>): seq<Action>
    decreases listing, 2
  {
    if inputDir == [] then [LogError(NoInputDir)]
    else if EnsureDir(outputDir) in fails then [EnsureDir(outputDir), LogError(DirFailed(outputDir)), LogError(WalkFailed)]
    else [EnsureDir(outputDir)] + ListingTrace(inputDir, outputDir, listing, fails)
  }

  /** Reading the input directory, then the tasks of what it lists; a failed read is logged. */
  function ListingTrace(inputDir: Path, outputDir: Path, listing: seq<Entry>, fails: set<Action>): seq<Action>
    decreases listing, 1
  {
    if ReadDir(inputDir) in fails then [ReadDir(inputDir), LogError(WalkFailed)]
    else [ReadDir(inputDir)] + EntriesTrace(inputDir, outputDir, listing, fails)
  }

  /** The tasks of one listing, one after the other. */
  function EntriesTrace(inputDir: Path, outputDir: Path, entries: seq<Entry>, fails: set<Action>): seq<Action>
    decreases entries, 0
  {
    if entries == [] then []
    else EntryTrace(inputDir, outputDir, entries[0], fails) + EntriesTrace(inputDir, outputDir, entries[1..], fails)
  }

  /** The task of one entry. */
  function EntryTrace(inputDir: Path, outputDir: Path, entry: Entry, fails: set<Action>): seq<Action>
    decreases entry, 0
  {
    match entry
    case Dir(name, children) => WalkTrace(inputDir + [name], outputDir + [name], children, fails)
    case File(name) => ProcessFileTrace(inputDir + [name], outputDir, fails)
    case Other(_) => []
  }

  // ---------------------------------------------------------------------------
  // Dispatch of one file
  // ---------------------------------------------------------------------------

  /**
   * The output directory comes first; when it cannot be made, the file only gets
   * an error logged. Every error logged names this file, and a failed copy is
   * logged twice, by the wrapper and by `processFile`.
   */
  lemma ProcessFileMakesDirectoryFirst(filePath: Path, outputDir: Path, fails: set<Action>)
    ensures var t := ProcessFileTrace(filePath, outputDir, fails);
      var dst := outputDir + [Basename(filePath)];
      && t[0] == EnsureDir(outputDir)
      && (EnsureDir(outputDir) in fails ==> t == [EnsureDir(outputDir), LogError(FileFailed(filePath))])
      && (forall a | a in t :: a.LogError? ==> a.message == FileFailed(filePath) || a.message == CopyFailed(filePath, dst))
      && (Copy(filePath, dst) in t && Copy(filePath, dst) in fails ==>
            t[|t| - 3..] == [Copy(filePath, dst), LogError(CopyFailed(filePath, dst)), LogError(FileFailed(filePath))])
  {
    ClassifiedMakesDirectoryFirst(filePath, outputDir, IsHTMLFile(filePath), IsCopyableFile(filePath), fails);
  }

  /** `ProcessFileMakesDirectoryFirst` for any classification of the file. */
  lemma ClassifiedMakesDirectoryFirst(filePath: Path, outputDir: Path, html: bool, copyable: bool, fails: set<Action>)
    ensures var t := ClassifiedTrace(filePath, outputDir, html, copyable, fails);
      var dst := outputDir + [Basename(filePath)];
      && t[0] == EnsureDir(outputDir)
      && (EnsureDir(outputDir) in fails ==> t == [EnsureDir(outputDir), LogError(FileFailed(filePath))])
      && (forall a | a in t :: a.LogError? ==> a.message == FileFailed(filePath) || a.message == CopyFailed(filePath, dst))
      && (Copy(filePath, dst) in t && Copy(filePath, dst) in fails ==>
            t[|t| - 3..] == [Copy(filePath, dst), LogError(CopyFailed(filePath, dst)), LogError(FileFailed(filePath))])
  {
    if EnsureDir(outputDir) !in fails {
      var d := DispatchTrace(filePath, outputDir, html, copyable, fails);
      DispatchLogs(filePath, outputDir, html, copyable, fails);
      Prefixed(EnsureDir(outputDir), d);
    }
  }

  /** An action in front of a trace adds only itself and keeps the trace's last three. */
  lemma Prefixed(x: Action, d: seq<Action>)
    ensures forall a | a in [x] + d :: a == x || a in d
    ensures |d| >= 3 ==> ([x] + d)[|d| + 1 - 3..] == d[|d| - 3..]
  {
  }

  /** The logs of the branch after the directory is made, for any classification of the file. */
  lemma DispatchLogs(filePath: Path, outputDir: Path, html: bool, copyable: bool, fails: set<Action>)
    ensures var d := DispatchTrace(filePath, outputDir, html, copyable, fails);
      var dst := outputDir + [Basename(filePath)];
      && (forall a | a in d :: a.LogError? ==> a.message == FileFailed(filePath) || a.message == CopyFailed(filePath, dst))
      && (forall a | a in d :: a.Thumbnail? ==> html && a.dst == outputDir + [ThumbName])
      && (forall a | a in d ::
            || a == LogError(FileFailed(filePath)) || a == Thumbnail(filePath, outputDir + [ThumbName])
            || a == Copy(filePath, dst) || a == LogError(CopyFailed(filePath, dst)))
      && (Copy(filePath, dst) in d && Copy(filePath, dst) in fails ==>
            d[|d| - 3..] == [Copy(filePath, dst), LogError(CopyFailed(filePath, dst)), LogError(FileFailed(filePath))])
  {
    var dst := outputDir + [Basename(filePath)];
    var thumb := Attempt(Thumbnail(filePath, outputDir + [ThumbName]), [LogError(FileFailed(filePath))], fails);
    var copy := CopyTrace(filePath, dst, fails);
    var d := DispatchTrace(filePath, outputDir, html, copyable, fails);
    assert d == (if html then thumb + copy else if copyable then copy else []);
    DispatchPieces(filePath, outputDir, dst, fails, thumb, copy);
    if html {
      assert forall a | a in d :: a in thumb || a in copy;
      if Copy(filePath, dst) in fails {
        assert d[|d| - 3..] == copy;
      }
    }
  }

  /** The actions of the render step and of the copy step. */
  lemma DispatchPieces(filePath: Path, outputDir: Path, dst: Path, fails: set<Action>, thumb: seq<Action>, copy: seq<Action>)
    requires thumb == Attempt(Thumbnail(filePath, outputDir + [ThumbName]), [LogError(FileFailed(filePath))], fails)
    requires copy == CopyTrace(filePath, dst, fails)
    ensures forall a | a in thumb :: a == Thumbnail(filePath, outputDir + [ThumbName]) || a == LogError(FileFailed(filePath))
    ensures forall a | a in copy :: a == Copy(filePath, dst) || a == LogError(CopyFailed(filePath, dst)) || a == LogError(FileFailed(filePath))
    ensures Copy(filePath, dst) in fails ==> copy == [Copy(filePath, dst), LogError(CopyFailed(filePath, dst)), LogError(FileFailed(filePath))]
    ensures Copy(filePath, dst) !in fails ==> copy == [Copy(filePath, dst)]
  {
  }

  /**
   * An HTML file is rendered to `outputDir/thumb.webp` and then copied under its
   * own name, even when the render fails.
   */
  lemma ProcessHtmlFile(filePath: Path, outputDir: Path, fails: set<Action>)
    requires IsHTMLFile(filePath) && EnsureDir(outputDir) !in fails
    ensures var t := ProcessFileTrace(filePath, outputDir, fails);
      && |t| >= 3 && t[1] == Thumbnail(filePath, outputDir + [ThumbName])
      && Copy(filePath, outputDir + [Basename(filePath)]) in t[2..]
  {
    var t := ProcessFileTrace(filePath, outputDir, fails);
    var thumb := Attempt(Thumbnail(filePath, outputDir + [ThumbName]), [LogError(FileFailed(filePath))], fails);
    var copy := CopyTrace(filePath, outputDir + [Basename(filePath)], fails);
    assert t == [EnsureDir(outputDir)] + thumb + copy;
    assert t[2..] == thumb[1..] + copy;
  }

  /** Another copyable file is only copied, under its own name; no thumbnail is made. */
  lemma ProcessCopyableFile(filePath: Path, outputDir: Path, fails: set<Action>)
    requires !IsHTMLFile(filePath) && IsCopyableFile(filePath) && EnsureDir(outputDir) !in fails
    ensures var t := ProcessFileTrace(filePath, outputDir, fails);
      && |t| >= 2 && t[1] == Copy(filePath, outputDir + [Basename(filePath)])
      && forall a | a in t :: !a.Thumbnail?
  {
  }

  /** A `.png` or `.webp` file (in any case) gets the directory and nothing else. */
  lemma ProcessImageFile(filePath: Path, outputDir: Path, fails: set<Action>)
    requires !IsCopyableFile(filePath)
    ensures forall a | a in ProcessFileTrace(filePath, outputDir, fails) :: a.EnsureDir? || a.LogError?
  {
    HtmlFileIsCopyable(filePath);
  }

  /** A thumbnail is only made for an HTML file, and always at `outputDir/thumb.webp`. */
  lemma ThumbnailOnlyForHtml(filePath: Path, outputDir: Path, fails: set<Action>)
    ensures forall a | a in ProcessFileTrace(filePath, outputDir, fails) ::
      a.Thumbnail? ==> a.dst == outputDir + [ThumbName] && IsHTMLFile(filePath)
  {
    DispatchLogs(filePath, outputDir, IsHTMLFile(filePath), IsCopyableFile(filePath), fails);
  }

  /** Two HTML files of one directory render to the same thumbnail path. */
  lemma ThumbnailPathIgnoresName(dir: Path, a: string, b: string, outputDir: Path, fails: set<Action>)
    requires IsHTMLFile(dir + [a]) && IsHTMLFile(dir + [b]) && EnsureDir(outputDir) !in fails
    ensures var ta, tb := ProcessFileTrace(dir + [a], outputDir, fails), ProcessFileTrace(dir + [b], outputDir, fails);
      && |ta| >= 2 && |tb| >= 2 && ta[1].Thumbnail? && tb[1].Thumbnail?
      && ta[1].dst == tb[1].dst == outputDir + [ThumbName]
  {
    ProcessHtmlFile(dir + [a], outputDir, fails);
    ProcessHtmlFile(dir + [b], outputDir, fails);
  }

  // ---------------------------------------------------------------------------
  // The walk
  // ---------------------------------------------------------------------------

  /** The tasks of a listing are the tasks of its parts, so no entry is skipped for a sibling's failure. */
  lemma {:induction false} EntriesAppend(inputDir: Path, outputDir: Path, a: seq<Entry>, b: seq<Entry>, fails: set<Action>)
    ensures EntriesTrace(inputDir, outputDir, a + b, fails)
         == EntriesTrace(inputDir, outputDir, a, fails) + EntriesTrace(inputDir, outputDir, b, fails)
    decreases a
  {
    if a == [] {
      assert a + b == b;
    } else {
      assert (a + b)[1..] == a[1..] + b;
      EntriesAppend(inputDir, outputDir, a[1..], b, fails);
    }
  }

  /**
   * An action stays inside the mirrored trees rooted at `inRoot` and `outRoot`:
   * directories are made under the output root and read under the input root,
   * a copy keeps its path relative to the roots, a thumbnail lands in the output
   * directory that mirrors its source's directory, and every error message names
   * an input file, an output directory or a mirrored copy, if a path at all.
   */
  predicate Mirrors(a: Action, inRoot: Path, outRoot: Path) {
    match a
    case EnsureDir(d) => Within(d, outRoot)
    case ReadDir(d) => Within(d, inRoot)
    case Thumbnail(src, dst) => |src| > |inRoot| && Within(src, inRoot) && dst == outRoot + src[|inRoot|..|src| - 1] + [ThumbName]
    case Copy(src, dst) => |src| > |inRoot| && Within(src, inRoot) && dst == outRoot + src[|inRoot|..]
    case LogError(m) =>
      match m
      case FileFailed(p) => Within(p, inRoot)
      case DirFailed(d) => Within(d, outRoot)
      case CopyFailed(src, dst) => |src| > |inRoot| && Within(src, inRoot) && dst == outRoot + src[|inRoot|..]
      case _ => true
  }

  /** `inputDir` and `outputDir` sit at the same place below their roots. */
  predicate SamePlace(inputDir: Path, outputDir: Path, inRoot: Path, outRoot: Path) {
    Within(inputDir, inRoot) && Within(outputDir, outRoot) && inputDir[|inRoot|..] == outputDir[|outRoot|..]
  }

  /** `processFile` only makes the output directory, renders the thumbnail, copies the file and logs errors about it. */
  lemma ProcessFileActions(filePath: Path, outputDir: Path, fails: set<Action>)
    ensures forall a | a in ProcessFileTrace(filePath, outputDir, fails) ::
      || a == EnsureDir(outputDir) || a == LogError(FileFailed(filePath))
      || a == Thumbnail(filePath, outputDir + [ThumbName]) || a == Copy(filePath, outputDir + [Basename(filePath)])
      || a == LogError(CopyFailed(filePath, outputDir + [Basename(filePath)]))
  {
    var html, copyable := IsHTMLFile(filePath), IsCopyableFile(filePath);
    if EnsureDir(outputDir) !in fails {
      var d := DispatchTrace(filePath, outputDir, html, copyable, fails);
      DispatchLogs(filePath, outputDir, html, copyable, fails);
      Prefixed(EnsureDir(outputDir), d);
    }
  }

  lemma ProcessFileMirrors(inputDir: Path, outputDir: Path, name: string, fails: set<Action>, inRoot: Path, outRoot: Path)
    requires SamePlace(inputDir, outputDir, inRoot, outRoot)
    ensures forall a | a in ProcessFileTrace(inputDir + [name], outputDir, fails) :: Mirrors(a, inRoot, outRoot)
  {
    var src := inputDir + [name];
    ProcessFileActions(src, outputDir, fails);
    assert Basename(src) == name;
    assert src[..|inRoot|] == inRoot;
    assert outputDir == outRoot + src[|inRoot|..|src| - 1];
    assert outputDir + [name] == outRoot + src[|inRoot|..];
    assert (outputDir + [name])[..|outRoot|] == outRoot;
    assert (outputDir + [ThumbName])[..|outRoot|] == outRoot;
    assert Mirrors(Copy(src, outputDir + [name]), inRoot, outRoot);
    assert Mirrors(Thumbnail(src, outputDir + [ThumbName]), inRoot, outRoot);
  }

  lemma {:induction false} WalkMirrors(inputDir: Path, outputDir: Path, listing: seq<Entry>, fails: set<Action>, inRoot: Path, outRoot: Path)
    requires SamePlace(inputDir, outputDir, inRoot, outRoot)
    ensures forall a | a in WalkTrace(inputDir, outputDir, listing, fails) :: Mirrors(a, inRoot, outRoot)
    decreases listing, 1
  {
    if inputDir != [] && EnsureDir(outputDir) !in fails && ReadDir(inputDir) !in fails {
      EntriesMirrors(inputDir, outputDir, listing, fails, inRoot, outRoot);
    }
  }

  lemma {:induction false} EntriesMirrors(inputDir: Path, outputDir: Path, entries: seq<Entry>, fails: set<Action>, inRoot: Path, outRoot: Path)
    requires SamePlace(inputDir, outputDir, inRoot, outRoot)
    ensures forall a | a in EntriesTrace(inputDir, outputDir, entries, fails) :: Mirrors(a, inRoot, outRoot)
    decreases entries, 0
  {
    if entries != [] {
      EntryMirrors(inputDir, outputDir, entries[0], fails, inRoot, outRoot);
      EntriesMirrors(inputDir, outputDir, entries[1..], fails, inRoot, outRoot);
    }
  }

  lemma {:induction false} EntryMirrors(inputDir: Path, outputDir: Path, entry: Entry, fails: set<Action>, inRoot: Path, outRoot: Path)
    requires SamePlace(inputDir, outputDir, inRoot, outRoot)
    ensures forall a | a in EntryTrace(inputDir, outputDir, entry, fails) :: Mirrors(a, inRoot, outRoot)
    decreases entry, 0
  {
    match entry
    case Dir(name, children) =>
      var i, o := inputDir + [name], outputDir + [name];
      assert i[..|inRoot|] == inRoot && o[..|outRoot|] == outRoot;
      assert i[|inRoot|..] == inputDir[|inRoot|..] + [name];
      assert o[|outRoot|..] == outputDir[|outRoot|..] + [name];
      WalkMirrors(i, o, children, fails, inRoot, outRoot);
    case File(name) =>
      ProcessFileMirrors(inputDir, outputDir, name, fails, inRoot, outRoot);
    case Other(_) =>
  }

  /** The output tree mirrors the input tree: every action of a walk stays within the two roots, in step. */
  lemma GenerateThumbnailsMirrors(inputDir: Path, outputDir: Path, listing: seq<Entry>, fails: set<Action>)
    ensures forall a | a in WalkTrace(inputDir, outputDir, listing, fails) :: Mirrors(a, inputDir, outputDir)
  {
    WalkMirrors(inputDir, outputDir, listing, fails, inputDir, outputDir);
  }

  /** The files of a listing, as paths relative to the listed directory. */
  function Files(entries: seq<Entry>): set<Path>
    decreases entries, 0
  {
    if entries == [] then {} else EntryFiles(entries[0]) + Files(entries[1..])
  }

  function EntryFiles(entry: Entry): set<Path>
    decreases entry, 1
  {
    match entry
    case Dir(name, children) => set r | r in Files(children) :: [name] + r
    case File(name) => {[name]}
    case Other(_) => {}
  }

  /** What a walk in which nothing fails does for the file at `inputDir + r`. */
  predicate Handled(trace: seq<Action>, inputDir: Path, outputDir: Path, r: Path) {
    && |r| > 0
    && (IsHTMLFile(inputDir + r) ==> Thumbnail(inputDir + r, outputDir + r[..|r| - 1] + [ThumbName]) in trace)
    && (IsCopyableFile(inputDir + r) ==> Copy(inputDir + r, outputDir + r) in trace)
  }

  /**
   * When nothing fails, every file anywhere below the input directory is handled:
   * an HTML file is rendered into the mirrored directory, and every copyable
   * file is copied to its mirrored path.
   */
  lemma {:induction false} WalkHandlesEveryFile(inputDir: Path, outputDir: Path, listing: seq<Entry>)
    requires inputDir != []
    ensures forall r | r in Files(listing) :: Handled(WalkTrace(inputDir, outputDir, listing, {}), inputDir, outputDir, r)
    decreases listing, 1
  {
    EntriesHandleEveryFile(inputDir, outputDir, listing);
  }

  lemma {:induction false} EntriesHandleEveryFile(inputDir: Path, outputDir: Path, entries: seq<Entry>)
    requires inputDir != []
    ensures forall r | r in Files(entries) :: Handled(EntriesTrace(inputDir, outputDir, entries, {}), inputDir, outputDir, r)
    decreases entries, 0
  {
    if entries != [] {
      var head := EntryTrace(inputDir, outputDir, entries[0], {});
      var tail := EntriesTrace(inputDir, outputDir, entries[1..], {});
      EntryHandlesEveryFile(inputDir, outputDir, entries[0]);
      EntriesHandleEveryFile(inputDir, outputDir, entries[1..]);
      forall r | r in Files(entries)
        ensures Handled(head + tail, inputDir, outputDir, r)
      {
        if r in EntryFiles(entries[0]) {
          assert Handled(head, inputDir, outputDir, r);
        } else {
          assert Handled(tail, inputDir, outputDir, r);
        }
      }
    }
  }

  lemma {:induction false} EntryHandlesEveryFile(inputDir: Path, outputDir: Path, entry: Entry)
    requires inputDir != []
    ensures forall r | r in EntryFiles(entry) :: Handled(EntryTrace(inputDir, outputDir, entry, {}), inputDir, outputDir, r)
    decreases entry, 0
  {
    match entry
    case Dir(name, children) =>
      SubdirectoryHandlesEveryFile(inputDir, outputDir, name, children);
    case File(name) =>
      HtmlFileIsCopyable(inputDir + [name]);
      assert [name][..0] == [];
      assert outputDir + [name][..0] == outputDir;
    case Other(_) =>
  }

  /** Joining `[name] + q` below `dir` is joining `q` below `dir + [name]`, for the path and its directory. */
  lemma JoinBelow(dir: Path, name: string, q: Path)
    requires q != []
    ensures dir + ([name] + q) == (dir + [name]) + q
    ensures dir + ([name] + q)[..|q|] == (dir + [name]) + q[..|q| - 1]
  {
    assert ([name] + q)[..|q|] == [name] + q[..|q| - 1];
  }

  lemma {:induction false} SubdirectoryHandlesEveryFile(inputDir: Path, outputDir: Path, name: string, children: seq<Entry>)
    requires inputDir != []
    ensures forall r | r in EntryFiles(Dir(name, children)) ::
      Handled(WalkTrace(inputDir + [name], outputDir + [name], children, {}), inputDir, outputDir, r)
    decreases children, 2
  {
    var i, o := inputDir + [name], outputDir + [name];
    var t := WalkTrace(i, o, children, {});
    WalkHandlesEveryFile(i, o, children);
    forall r | r in EntryFiles(Dir(name, children))
      ensures Handled(t, inputDir, outputDir, r)
    {
      var q :| q in Files(children) && r == [name] + q;
      assert Handled(t, i, o, q);
      JoinBelow(inputDir, name, q);
      JoinBelow(outputDir, name, q);
    }
  }

  // ---------------------------------------------------------------------------
  // The effectful walk
  // ---------------------------------------------------------------------------

  /**
   * The file system and the logger: an action fails exactly when it is in
   * `fails`, and every action, logged errors included, is appended to `trace`.
   */
  class FileSystem {
    const fails: set<Action>
    var trace: seq<Action>

    constructor (fails: set<Action>)
      ensures this.fails == fails && trace == []
    {
      this.fails := fails;
      trace := [];
    }

    method Do(a: Action) returns (ok: bool)
      modifies this
      ensures ok <==> a !in fails
      ensures trace == old(trace) + [a]
    {
      ok := a !in fails;
      trace := trace + [a];
    }

    /** `logger.error` with message `m`. */
    method Log(m: Message)
      modifies this
      ensures trace == old(trace) + [LogError(m)]
    {
      trace := trace + [LogError(m)];
    }
  }

  /** One awaited step inside a `try` whose `catch` logs `m`. */
  method Try(fs: FileSystem, a: Action, m: Message)
    modifies fs
    ensures fs.trace == old(fs.trace) + Attempt(a, [LogError(m)], fs.fails)
  {
    var ok := fs.Do(a);
    if !ok {
      fs.Log(m);
    }
  }

  /** `fileUtils.createDirectory(dir)`: a failure is logged, then rethrown. */
  method CreateDirectory(fs: FileSystem, dir: Path) returns (ok: bool)
    modifies fs
    ensures ok <==> EnsureDir(dir) !in fs.fails
    ensures fs.trace == old(fs.trace) + Attempt(EnsureDir(dir), [LogError(DirFailed(dir))], fs.fails)
  {
    ok := fs.Do(EnsureDir(dir));
    if !ok {
      fs.Log(DirFailed(dir));
    }
  }

  /** `fileUtils.copyFile(src, dst)`: a failure is logged, then rethrown. */
  method CopyFile(fs: FileSystem, src: Path, dst: Path) returns (ok: bool)
    modifies fs
    ensures ok <==> Copy(src, dst) !in fs.fails
    ensures fs.trace == old(fs.trace) + Attempt(Copy(src, dst), [LogError(CopyFailed(src, dst))], fs.fails)
  {
    ok := fs.Do(Copy(src, dst));
    if !ok {
      fs.Log(CopyFailed(src, dst));
    }
  }

  /** The awaited `fileUtils.copyFile(file, dst)` of `processFile(file, ...)`, whose `catch` logs the rethrown failure. */
  method CopyInto(fs: FileSystem, file: Path, dst: Path)
    modifies fs
    ensures fs.trace == old(fs.trace) + CopyTrace(file, dst, fs.fails)
  {
    var ok := CopyFile(fs, file, dst);
    if !ok {
      fs.Log(FileFailed(file));
    }
  }

  /** `processFile(filePath, outputDir)`. */
  method ProcessFile(fs: FileSystem, filePath: Path, outputDir: Path)
    modifies fs
    ensures fs.trace == old(fs.trace) + ProcessFileTrace(filePath, outputDir, fs.fails)
  {
    var html, copyable := IsHTMLFile(filePath), IsCopyableFile(filePath);
    ProcessClassified(fs, filePath, outputDir, html, copyable);
  }

  /** `processFile` once the file is classified: make the directory, then dispatch; a failure is logged about the file. */
  method ProcessClassified(fs: FileSystem, filePath: Path, outputDir: Path, html: bool, copyable: bool)
    modifies fs
    ensures fs.trace == old(fs.trace) + ClassifiedTrace(filePath, outputDir, html, copyable, fs.fails)
  {
    ghost var start := fs.trace;
    var ok := fs.Do(EnsureDir(outputDir));
    if !ok {
      fs.Log(FileFailed(filePath));
      assert fs.trace == start + [EnsureDir(outputDir), LogError(FileFailed(filePath))];
      return;
    }
    Dispatch(fs, filePath, outputDir, html, copyable);
    assert fs.trace == start + ([EnsureDir(outputDir)] + DispatchTrace(filePath, outputDir, html, copyable, fs.fails));
  }

  /** Render and copy an HTML file, or copy a copyable one; each step's failure is logged about `filePath`. */
  method Dispatch(fs: FileSystem, filePath: Path, outputDir: Path, html: bool, copyable: bool)
    modifies fs
    ensures fs.trace == old(fs.trace) + DispatchTrace(filePath, outputDir, html, copyable, fs.fails)
  {
    ghost var start := fs.trace;
    var dst := outputDir + [Basename(filePath)];
    if html {
      Try(fs, Thumbnail(filePath, outputDir + [ThumbName]), FileFailed(filePath));
      CopyInto(fs, filePath, dst);
      assert fs.trace == start + Attempt(Thumbnail(filePath, outputDir + [ThumbName]), [LogError(FileFailed(filePath))], fs.fails)
                              + CopyTrace(filePath, dst, fs.fails);
    } else if copyable {
      CopyInto(fs, filePath, dst);
    }
  }

  /** `generateThumbnails(inputDir, outputDir)`, with the tasks of the listing run one after the other. */
  method GenerateThumbnails(fs: FileSystem, inputDir: Path, outputDir: Path, listing: seq<Entry>)
    modifies fs
    ensures fs.trace == old(fs.trace) + WalkTrace(inputDir, outputDir, listing, fs.fails)
    decreases listing, 2
  {
    if inputDir == [] {
      fs.Log(NoInputDir);
      return;
    }
    ghost var start := fs.trace;
    var ok := CreateDirectory(fs, outputDir);
    if !ok {
      fs.Log(WalkFailed);
      assert fs.trace == start + [EnsureDir(outputDir), LogError(DirFailed(outputDir)), LogError(WalkFailed)];
      return;
    }
    assert fs.trace == start + [EnsureDir(outputDir)];
    ReadListing(fs, inputDir, outputDir, listing);
    assert fs.trace == start + ([EnsureDir(outputDir)] + ListingTrace(inputDir, outputDir, listing, fs.fails));
  }

  /** `fs.readdir(inputDir)` and the tasks of the entries it yields. */
  method ReadListing(fs: FileSystem, inputDir: Path, outputDir: Path, listing: seq<Entry>)
    modifies fs
    ensures fs.trace == old(fs.trace) + ListingTrace(inputDir, outputDir, listing, fs.fails)
    decreases listing, 1
  {
    var ok := fs.Do(ReadDir(inputDir));
    if !ok {
      fs.Log(WalkFailed);
      return;
    }
    HandleEntries(fs, inputDir, outputDir, listing);
  }

  /** The tasks of a listing, run one after the other (`Promise.all` over tasks that never reject). */
  method HandleEntries(fs: FileSystem, inputDir: Path, outputDir: Path, listing: seq<Entry>)
    modifies fs
    ensures fs.trace == old(fs.trace) + EntriesTrace(inputDir, outputDir, listing, fs.fails)
    decreases listing, 0
  {
    ghost var start := fs.trace;
    for i := 0 to |listing|
      invariant fs.trace == start + EntriesTrace(inputDir, outputDir, listing[..i], fs.fails)
    {
      HandleEntry(fs, inputDir, outputDir, listing[i]);
      EntriesStep(inputDir, outputDir, listing, i, fs.fails);
    }
    assert listing[..|listing|] == listing;
  }

  /** One more entry of a listing adds its own task at the end. */
  lemma EntriesStep(inputDir: Path, outputDir: Path, listing: seq<Entry>, i: nat, fails: set<Action>)
    requires i < |listing|
    ensures EntriesTrace(inputDir, outputDir, listing[..i + 1], fails)
         == EntriesTrace(inputDir, outputDir, listing[..i], fails) + EntryTrace(inputDir, outputDir, listing[i], fails)
  {
    assert listing[..i + 1] == listing[..i] + [listing[i]];
    EntriesAppend(inputDir, outputDir, listing[..i], [listing[i]], fails);
    assert EntriesTrace(inputDir, outputDir, [listing[i]], fails) == EntryTrace(inputDir, outputDir, listing[i], fails) by {
      assert [listing[i]][1..] == [];
    }
  }

  /** The task one entry of a listing becomes: recurse into a directory, process a file, skip anything else. */
  method HandleEntry(fs: FileSystem, inputDir: Path, outputDir: Path, entry: Entry)
    modifies fs
    ensures fs.trace == old(fs.trace) + EntryTrace(inputDir, outputDir, entry, fs.fails)
    decreases entry, 0
  {
    match entry {
      case Dir(name, children) =>
        GenerateThumbnails(fs, inputDir + [name], outputDir + [name], children);
      case File(name) =>
        ProcessFile(fs, inputDir + [name], outputDir);
      case Other(_) =>
    }
  }
}
