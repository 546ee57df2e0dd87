/** Per-file handling inside a batch: the file's extension (as Node's
    path.extname finds it), its lower-cased form, the dispatch to the image
    or video compositor, and the error list a sequence of files produces. */
module Media {

  datatype Option<T> = None | Some(value: T)

  /** An uploaded file as the batch sees it. */
  datatype UploadedFile = UploadedFile(originalname: string, path: string)

  /** What watermarking one file came to: done, or the message of the error it raised. */
  datatype Outcome = Done | Failed(message: string)

  /** One entry of a batch's error list. */
  datatype FileError = FileError(file: string, error: string)

  /** The two compositors, seen from the batch: whatever they do to the
      file system, each either finishes or raises an error with a message. */
  datatype Compositors = Compositors(image: UploadedFile -> Outcome, video: UploadedFile -> Outcome)

  datatype MediaKind = ImageMedia | VideoMedia | Unsupported

  const ImageExtensions: seq<string> := [".jpg", ".jpeg", ".png", ".gif", ".webp"]
  const VideoExtensions: seq<string> := [".mp4", ".mov", ".avi", ".mkv", ".webm"]

  /** String.prototype.toLowerCase on one character, for ASCII letters. */
  function LowerChar(c: char): char
  {
    if 'A' <= c <= 'Z' then (c as int + 32) as char else c
  }

  function ToLower(s: string): (r: string)
    ensures |r| == |s|
    ensures forall i :: 0 <= i < |s| ==> r[i] == LowerChar(s[i])
  {
    if s == [] then [] else [LowerChar(s[0])] + ToLower(s[1..])
  }

  /** Index of the last '.' in s, if any. */
  function LastDot(s: string): (r: Option<nat>)
    ensures r.Some? ==> r.value < |s| && s[r.value] == '.'
    ensures r.Some? ==> forall j :: r.value < j < |s| ==> s[j] != '.'
    ensures r.None? ==> forall j :: 0 <= j < |s| ==> s[j] != '.'
  {
    if s == [] then None
    else if s[|s| - 1] == '.' then Some(|s| - 1)
    else LastDot(s[..|s| - 1])
  }

  /** path.extname for a bare file name: from the last '.' to the end,
      except that a name without a '.', a name whose only leading '.' is the
      last one (".bashrc") and the name ".." have no extension. */
  function Extname(name: string): (ext: string)
    ensures ext != "" ==> |ext| < |name| && ext == name[|name| - |ext|..]
    ensures ext != "" ==> ext[0] == '.' && forall j :: 1 <= j < |ext| ==> ext[j] != '.'
    ensures ext == "" <==> LastDot(name).None? || LastDot(name) == Some(0) || name == ".."
  {
    match LastDot(name)
    case None => ""
    case Some(i) => if i == 0 || name == ".." then "" else name[i..]
  }

  /** The lower-cased extension the batch dispatches on. */
  function LowerExt(name: string): string
  {
    ToLower(Extname(name))
  }

  function Classify(ext: string): MediaKind
  {
    if ext in ImageExtensions then ImageMedia
    else if ext in VideoExtensions then VideoMedia
    else Unsupported
  }

  function KindOf(name: string): MediaKind
  {
    Classify(LowerExt(name))
  }

  function UnsupportedMessage(ext: string): string
  {
    "Unsupported file format: " + ext
  }

  /** One iteration of the batch loop: dispatch on the lower-cased
      extension, or fail at once for an extension in neither list. Image
      files get the image compositor's outcome, video files the video
      compositor's, whatever the case of their extension. */
  function ProcessOne(file: UploadedFile, c: Compositors): (r: Outcome)
    ensures KindOf(file.originalname) == ImageMedia ==> r == c.image(file)
    ensures KindOf(file.originalname) == VideoMedia ==> r == c.video(file)
    ensures KindOf(file.originalname) == Unsupported ==>
      r == Failed("Unsupported file format: " + LowerExt(file.originalname))
  {
    var ext := LowerExt(file.originalname);
    if ext in ImageExtensions then c.image(file)
    else if ext in VideoExtensions then c.video(file)
    else Failed(UnsupportedMessage(ext))
  }

  /** The per-file step of the batch for given compositors. */
  function Dispatch(c: Compositors): UploadedFile -> Outcome
  {
    file => ProcessOne(file, c)
  }

  /** The error entry one file contributes: none if it was watermarked,
      its name and message if it failed. */
  function ErrorEntry(file: UploadedFile, outcome: Outcome): seq<FileError>
  {
    match outcome
    case Done => []
    case Failed(message) => [FileError(file.originalname, message)]
  }

  /** The errors list after the batch loop has run `attempt` over `files`. */
  function Failures(files: seq<UploadedFile>, attempt: UploadedFile -> Outcome): (errors: seq<FileError>)
    ensures |errors| <= |files|
  {
    if files == [] then []
    else
      var last := files[|files| - 1];
      Failures(files[..|files| - 1], attempt) + ErrorEntry(last, attempt(last))
  }

  /** Positions of the failing files: an independent account of the errors. */
  function FailingIndices(files: seq<UploadedFile>, attempt: UploadedFile -> Outcome): set<nat>
  {
    set j: nat | j < |files| && attempt(files[j]).Failed?
  }

  lemma {:induction false} LastDotOfLower(s: string)
    ensures LastDot(ToLower(s)) == LastDot(s)
  {
    if s != [] {
      var t := ToLower(s);
      var init := s[..|s| - 1];
      assert t[..|t| - 1] == ToLower(init);
      LastDotOfLower(init);
    }
  }

  lemma ToLowerSuffix(s: string, i: nat)
    requires i <= |s|
    ensures ToLower(s)[i..] == ToLower(s[i..])
  {
  }

  /** Lower-casing commutes with taking the extension. */
  lemma ExtnameOfLower(s: string)
    ensures Extname(ToLower(s)) == ToLower(Extname(s))
  {
    LastDotOfLower(s);
    var t := ToLower(s);
    assert t == ".." <==> s == ".." by {
      if s == ".." {
        assert t == [LowerChar('.'), LowerChar('.')];
      }
    }
    match LastDot(s)
    case None =>
    case Some(i) =>
      ToLowerSuffix(s, i);
  }

  /** The extension match is case-insensitive: names that agree once lower-cased
      get the same extension and go to the same compositor. */
  lemma KindIgnoresCase(a: string, b: string)
    requires ToLower(a) == ToLower(b)
    ensures LowerExt(a) == LowerExt(b)
    ensures KindOf(a) == KindOf(b)
  {
    ExtnameOfLower(a);
    ExtnameOfLower(b);
  }

  lemma LastDotAt(s: string, i: nat)
    requires i < |s| && s[i] == '.' && '.' !in s[i + 1..]
    ensures LastDot(s) == Some(i)
  {
    assert forall j :: i < j < |s| ==> s[j] == s[i + 1..][j - i - 1];
  }

  lemma ImageExample()
    ensures KindOf("photo.JPG") == ImageMedia
  {
    LastDotAt("photo.JPG", 5);
    assert Extname("photo.JPG") == ".JPG";
    assert ToLower(".JPG") == ".jpg";
  }

  lemma VideoExample()
    ensures KindOf("clip.final.MKV") == VideoMedia
  {
    LastDotAt("clip.final.MKV", 10);
    assert Extname("clip.final.MKV") == ".MKV";
    assert ToLower(".MKV") == ".mkv";
  }

  lemma UnsupportedExample()
    ensures KindOf("notes.txt") == Unsupported && LowerExt("notes.txt") == ".txt"
  {
    LastDotAt("notes.txt", 5);
    assert Extname("notes.txt") == ".txt";
    assert ToLower(".txt") == ".txt";
  }

  lemma DotfileExample()
    ensures KindOf(".mp4") == Unsupported && LowerExt(".mp4") == ""
  {
    LastDotAt(".mp4", 0);
  }

  /** The batch's error list over a concatenation is the two lists in turn. */
  lemma {:induction false} FailuresAppend(a: seq<UploadedFile>, b: seq<UploadedFile>, attempt: UploadedFile -> Outcome)
    ensures Failures(a + b, attempt) == Failures(a, attempt) + Failures(b, attempt)
  {
    if b == [] {
      assert a + b == a;
    } else {
      var init, last := b[..|b| - 1], b[|b| - 1];
      var ab := a + b;
      assert ab[..|ab| - 1] == a + init && ab[|ab| - 1] == last;
      calc {
        Failures(ab, attempt);
        Failures(a + init, attempt) + ErrorEntry(last, attempt(last));
        { FailuresAppend(a, init, attempt); }
        Failures(a, attempt) + Failures(init, attempt) + ErrorEntry(last, attempt(last));
        Failures(a, attempt) + Failures(b, attempt);
      }
    }
  }

  /** One more iteration of the batch loop appends the file's entry. */
  lemma FailuresStep(files: seq<UploadedFile>, i: nat, attempt: UploadedFile -> Outcome)
    requires i < |files|
    ensures Failures(files[..i + 1], attempt) == Failures(files[..i], attempt) + ErrorEntry(files[i], attempt(files[i]))
  {
    assert files[..i + 1][..i] == files[..i];
  }

  /** Errors keep input order: the entry of file j comes after those of the
      files before it and before those of the files after it. */
  lemma FailuresInOrder(files: seq<UploadedFile>, j: nat, attempt: UploadedFile -> Outcome)
    requires j < |files|
    ensures Failures(files, attempt)
         == Failures(files[..j], attempt) + ErrorEntry(files[j], attempt(files[j])) + Failures(files[j + 1..], attempt)
  {
    assert files == files[..j + 1] + files[j + 1..];
    FailuresAppend(files[..j + 1], files[j + 1..], attempt);
    FailuresStep(files, j, attempt);
  }

  /** Every error entry names a failing file of the batch and carries its message. */
  lemma {:induction false} FailuresSound(files: seq<UploadedFile>, attempt: UploadedFile -> Outcome, e: FileError)
    requires e in Failures(files, attempt)
    ensures exists j :: 0 <= j < |files| && attempt(files[j]).Failed?
                     && e == FileError(files[j].originalname, attempt(files[j]).message)
  {
    var n := |files| - 1;
    if e in Failures(files[..n], attempt) {
      FailuresSound(files[..n], attempt, e);
      var j :| 0 <= j < n && attempt(files[..n][j]).Failed?
               && e == FileError(files[..n][j].originalname, attempt(files[..n][j]).message);
      assert files[..n][j] == files[j];
    } else {
      assert e in ErrorEntry(files[n], attempt(files[n]));
    }
  }

  /** Every failing file has its entry in the error list. */
  lemma FailuresComplete(files: seq<UploadedFile>, attempt: UploadedFile -> Outcome, j: nat)
    requires j < |files| && attempt(files[j]).Failed?
    ensures FileError(files[j].originalname, attempt(files[j]).message) in Failures(files, attempt)
  {
    FailuresInOrder(files, j, attempt);
  }

  /** The failing indices of a batch are those of all but its last file,
      plus the last index when that file fails. */
  lemma FailingIndicesStep(files: seq<UploadedFile>, attempt: UploadedFile -> Outcome)
    requires files != []
    ensures var n := |files| - 1;
      && n !in FailingIndices(files[..n], attempt)
      && FailingIndices(files, attempt)
         == FailingIndices(files[..n], attempt) + (if attempt(files[n]).Failed? then {n} else {})
  {
    var n := |files| - 1;
    forall j: nat | j < n
      ensures files[..n][j] == files[j]
    {
    }
  }

  /** A batch with K failing files has exactly K error entries. */
  lemma {:induction false} FailuresCount(files: seq<UploadedFile>, attempt: UploadedFile -> Outcome)
    ensures |Failures(files, attempt)| == |FailingIndices(files, attempt)|
  {
    if files != [] {
      FailuresCount(files[..|files| - 1], attempt);
      FailingIndicesStep(files, attempt);
    }
  }
}
