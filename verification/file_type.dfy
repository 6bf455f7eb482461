/**
 * File-name extensions the way Node's posix `path.extname` computes them,
 * and the whitelist pipe that upload routes put in front of a file.
 */
module FileType {
  import opened Wrappers
  import opened Http
  import opened JsText

  /** The path with every trailing `/` removed. */
  function StripTrailingSlashes(p: string): (r: string)
    ensures |r| <= |p| && r == p[..|r|]
    ensures r == [] || r[|r| - 1] != '/'
    ensures forall k :: |r| <= k < |p| ==> p[k] == '/'
  {
    if p != [] && p[|p| - 1] == '/' then StripTrailingSlashes(p[..|p| - 1]) else p
  }

  /** The part after the last `/` (the whole string when there is none). */
  function LastComponent(p: string): (r: string)
    ensures '/' !in r
    ensures |r| <= |p| && r == p[|p| - |r|..]
    ensures '/' !in p ==> r == p
    ensures |r| < |p| ==> p[|p| - |r| - 1] == '/'
  {
    if p == [] then []
    else if p[|p| - 1] == '/' then []
    else LastComponent(p[..|p| - 1]) + [p[|p| - 1]]
  }

  /** The index of the last `.` in `c`, if any. */
  function LastDot(c: string): (r: Option<nat>)
    ensures r.None? <==> '.' !in c
    ensures r.Some? ==> r.value < |c| && c[r.value] == '.' && '.' !in c[r.value + 1..]
  {
    if c == [] then None
    else if c[|c| - 1] == '.' then Some(|c| - 1)
    else
      var r := LastDot(c[..|c| - 1]);
      assert c == c[..|c| - 1] + [c[|c| - 1]];
      r
  }

  /**
   * `path.extname`: in the last component of the path (trailing slashes
   * ignored), from the last `.` to the end; empty when the component has no
   * `.`, when its only candidate `.` is its first character, and for `..`.
   */
  function ExtName(p: string): (r: string)
    ensures r == [] || (r[0] == '.' && '.' !in r[1..])
    ensures '/' !in r
    ensures var c := LastComponent(StripTrailingSlashes(p));
      r != [] <==> (LastDot(c).Some? && LastDot(c).value > 0 && c != "..")
  {
    var c := LastComponent(StripTrailingSlashes(p));
    var dot := LastDot(c);
    if dot.None? || dot.value == 0 || c == ".." then ""
    else c[dot.value..]
  }

  /** In `stem.ext` with no `.` in ext, the last dot is the one after the stem. */
  lemma {:induction false} LastDotBeforeExt(stem: string, ext: string)
    requires '.' !in ext
    ensures LastDot(stem + "." + ext) == Some(|stem|)
  {
    var p := stem + "." + ext;
    if ext == [] {
      assert p[|p| - 1] == '.';
    } else {
      var init := ext[..|ext| - 1];
      assert p[|p| - 1] == ext[|ext| - 1];
      assert p[..|p| - 1] == stem + "." + init;
      LastDotBeforeExt(stem, init);
    }
  }

  /** `stem.ext` has no `/` when neither part has one. */
  lemma NoSlashInStemExt(stem: string, ext: string)
    requires '/' !in stem && '/' !in ext
    ensures '/' !in stem + "." + ext
  {
    var p := stem + "." + ext;
    forall i | 0 <= i < |p| ensures p[i] != '/' {
      if i < |stem| {
        assert p[i] == stem[i];
      } else if i > |stem| {
        assert p[i] == ext[i - |stem| - 1];
      }
    }
  }

  /** A path without `/` is its own last component, trailing slashes and all. */
  lemma SlashFreeIsComponent(p: string)
    requires '/' !in p
    ensures LastComponent(StripTrailingSlashes(p)) == p
  {
    if p != [] {
      assert p[|p| - 1] != '/';
    }
  }

  /**
   * A slash-free name other than `..` whose last `.` is past its first
   * character has the extension from that `.` on.
   */
  lemma ExtNameFromDot(p: string, k: nat)
    requires '/' !in p && p != ".."
    requires LastDot(p) == Some(k) && k > 0
    ensures ExtName(p) == p[k..]
  {
    SlashFreeIsComponent(p);
  }

  /** A name `stem.ext` whose stem has no `/` and whose ext has neither `.` nor `/` has extension `.ext`. */
  lemma ExtNameOfStemAndExt(stem: string, ext: string)
    requires stem != [] && '/' !in stem
    requires ext != [] && '.' !in ext && '/' !in ext
    ensures ExtName(stem + "." + ext) == "." + ext
  {
    var p := stem + "." + ext;
    var dotExt := "." + ext;
    assert p == stem + dotExt;
    assert p[|stem|..] == dotExt;
    NoSlashInStemExt(stem, ext);
    LastDotBeforeExt(stem, ext);
    assert |p| != 2;
    ExtNameFromDot(p, |stem|);
  }

  /** A name without any `.` has an empty extension. */
  lemma NoDotNoExtension(name: string)
    requires '.' !in name
    ensures ExtName(name) == ""
  {
    var s := StripTrailingSlashes(name);
    var c := LastComponent(s);
    assert '.' !in c by {
      forall i | 0 <= i < |c| ensures c[i] != '.' {
        assert c[i] == s[|s| - |c| + i] == name[|s| - |c| + i];
      }
    }
  }

  /** A dot-file such as `.png` has an empty extension. */
  lemma DotFileNoExtension(ext: string)
    requires '.' !in ext && '/' !in ext
    ensures ExtName("." + ext) == ""
  {
    var p := "." + ext;
    if ext != [] {
      assert p[|p| - 1] == ext[|ext| - 1];
    }
    assert StripTrailingSlashes(p) == p;
    assert '/' !in p by {
      forall i | 0 <= i < |p| ensures p[i] != '/' {
        if i > 0 { assert p[i] == ext[i - 1]; }
      }
    }
    var dot := LastDot(p);
    assert dot.value == 0;
  }

  /** ASCII `toLowerCase` of one character. */
  function LowerChar(c: char): (r: char)
    ensures !('A' <= r <= 'Z')
    ensures r == c <==> !('A' <= c <= 'Z')
  {
    if 'A' <= c <= 'Z' then (c as int - 'A' as int + 'a' as int) as char else c
  }

  /** `toLowerCase`, restricted to the ASCII letters. */
  function ToLower(s: string): (r: string)
    ensures |r| == |s|
    ensures forall i :: 0 <= i < |s| ==> r[i] == LowerChar(s[i])
  {
    if s == [] then [] else [LowerChar(s[0])] + ToLower(s[1..])
  }

  /** Only the file name is lower-cased: an entry holding an upper-case letter never equals a computed extension. */
  lemma UpperCaseEntryNeverMatches(name: string, entry: string)
    requires exists j :: 0 <= j < |entry| && 'A' <= entry[j] <= 'Z'
    ensures ToLower(ExtName(name)) != entry
  {
  }

  /** A file as multer hands it over: the client's name and the content. */
  datatype UploadedFile = UploadedFile(originalname: string, buffer: seq<bv8>)

  const MsgNoFile := "No file provided"
  const MsgNotAllowed := "File type now allowed. Allowed types: "

  class FileTypeValidationPipe {
    const allowedExtensions: seq<string>

    constructor(allowedExtensions: seq<string>)
      ensures this.allowedExtensions == allowedExtensions
    {
      this.allowedExtensions := allowedExtensions;
    }

    /**
     * `transform`: a missing file is a BadRequest; a file whose lower-cased
     * extension is not listed is a BadRequest naming the list; any other file
     * passes through unchanged.
     */
    function Transform(value: Option<UploadedFile>): (r: Result<UploadedFile, Error>)
      ensures value.None? ==> r == Failure(BadRequest(MsgNoFile))
      ensures value.Some? ==> (r.Success? <==> ToLower(ExtName(value.value.originalname)) in allowedExtensions)
      ensures r.Success? ==> r.value == value.value
      ensures value.Some? && r.Failure? ==> r.error == BadRequest(MsgNotAllowed + Join(allowedExtensions, ","))
    {
      if value.None? then Failure(BadRequest(MsgNoFile))
      else
        var fileExtension := ToLower(ExtName(value.value.originalname));
        var isValid := fileExtension in allowedExtensions;
        if !isValid then Failure(BadRequest(MsgNotAllowed + Join(allowedExtensions, ",")))
        else Success(value.value)
    }

    /** A name without an extension (no `.`, or a dot-file) passes only if the empty extension is listed. */
    lemma NoExtensionRejected(file: UploadedFile)
      requires ExtName(file.originalname) == ""
      ensures Transform(Some(file)).Success? <==> "" in allowedExtensions
    {
      assert ToLower("") == "";
    }
  }
}
