/** The upload validator: a MIME allow-list, a case-insensitive `.txt`/`.csv` escape hatch on the file
    name's extension, and a 10 MiB size limit. */
module Upload {
  import opened Base
  import Text

  /** The MIME types the file filter admits whatever the file is called. */
  const AllowedMimeTypes: seq<string> := [
    "image/jpeg",
    "image/png",
    "image/webp",
    "image/gif",
    "application/pdf",
    "application/msword",
    "application/vnd.openxmlformats-officedocument.wordprocessingml.document",
    "application/vnd.ms-excel",
    "application/vnd.openxmlformats-officedocument.spreadsheetml.sheet",
    "application/vnd.ms-powerpoint",
    "application/vnd.openxmlformats-officedocument.presentationml.presentation",
    "text/plain",
    "text/csv"
  ]

  /** `limits.fileSize`, in bytes. */
  const MaxFileSize: nat := 10 * 1024 * 1024

  // ---------------------------------------------------------------------------------------------
  // `path.extname` (POSIX), over indices of the path.

  /** The end of the path once its trailing slashes are dropped. */
  function SegmentEnd(p: string, e: nat): (r: nat)
    requires e <= |p|
    ensures r <= e && (r == 0 || p[r - 1] != '/')
    ensures forall i :: r <= i < e ==> p[i] == '/'
  {
    if e > 0 && p[e - 1] == '/' then SegmentEnd(p, e - 1) else e
  }

  /** The start of the last segment ending at `e`: just after the last slash before `e`. */
  function SegmentStart(p: string, e: nat): (r: nat)
    requires e <= |p|
    ensures r <= e && (r == 0 || p[r - 1] == '/')
    ensures forall i :: r <= i < e ==> p[i] != '/'
  {
    if e == 0 || p[e - 1] == '/' then e else SegmentStart(p, e - 1)
  }

  /** The last dot in `p[s..e]`. */
  function LastDot(p: string, s: nat, e: nat): (r: Option<nat>)
    requires s <= e <= |p|
    ensures r.Some? ==> s <= r.value < e && p[r.value] == '.' && forall j :: r.value < j < e ==> p[j] != '.'
    ensures r.None? <==> forall j :: s <= j < e ==> p[j] != '.'
  {
    if e == s then None
    else if p[e - 1] == '.' then Some(e - 1)
    else LastDot(p, s, e - 1)
  }

  /** `path.extname(p)`: from the last dot of the last segment to the segment's end; empty when the segment
      has no dot, when its only dot leads it (`.bashrc`), and for `..`. */
  function Ext(p: string): (r: string)
    ensures r == [] || (r[0] == '.' && (forall i :: 0 < i < |r| ==> r[i] != '.') && '/' !in r)
  {
    var e := SegmentEnd(p, |p|);
    var s := SegmentStart(p, e);
    match LastDot(p, s, e)
    case None => []
    case Some(d) => if d == s || (e == s + 2 && p[s] == '.' && p[s + 1] == '.') then [] else p[d..e]
  }

  /** Which dot counts: a name made of a non-empty, slash-free stem, a dot and a tail free of dots and
      slashes has that tail as its extension, except the bare `..`. */
  lemma ExtOfName(stem: string, tail: string)
    requires stem != [] && '/' !in stem && '.' !in tail && '/' !in tail
    requires !(stem == "." && tail == [])
    ensures Ext(stem + "." + tail) == "." + tail
  {
    var p := stem + "." + tail;
    assert p[|stem|] == '.';
    assert forall i :: 0 <= i < |p| ==> p[i] != '/' by {
      forall i | 0 <= i < |p| ensures p[i] != '/' {
        if i < |stem| { assert p[i] == stem[i]; } else if i > |stem| { assert p[i] == tail[i - |stem| - 1]; }
      }
    }
    assert forall j :: |stem| < j < |p| ==> p[j] != '.' by {
      forall j | |stem| < j < |p| ensures p[j] != '.' { assert p[j] == tail[j - |stem| - 1]; }
    }
    assert SegmentEnd(p, |p|) == |p|;
    StartWithoutSlash(p, |p|);
    DotWithin(p, 0, |p|, |stem|);
    assert |p| == 2 ==> |stem| == 1 && tail == [] && stem == [p[0]];
    assert p[|stem|..] == "." + tail;
  }

  /** A slash-free prefix is a single segment. */
  lemma {:induction false} StartWithoutSlash(p: string, e: nat)
    requires e <= |p| && forall i :: 0 <= i < e ==> p[i] != '/'
    ensures SegmentStart(p, e) == 0
  {
    if e > 0 {
      StartWithoutSlash(p, e - 1);
    }
  }

  /** The dot at `d` is the last one in `p[s..e]` when no dot follows it. */
  lemma {:induction false} DotWithin(p: string, s: nat, e: nat, d: nat)
    requires s <= d < e <= |p| && p[d] == '.' && forall j :: d < j < e ==> p[j] != '.'
    ensures LastDot(p, s, e) == Some(d)
    decreases e
  {
    if e - 1 != d {
      DotWithin(p, s, e - 1, d);
    }
  }

  // ---------------------------------------------------------------------------------------------
  // The filter.

  datatype Verdict = Accept | Reject(reason: string)

  /** The extension the filter compares: `path.extname(originalname).toLowerCase()`. */
  function TextExtension(originalName: string): bool {
    var ext := Text.Lower(Ext(originalName));
    ext == ".txt" || ext == ".csv"
  }

  /** `fileFilter`. */
  function FileFilter(originalName: string, mimetype: string): (r: Verdict)
    ensures r == Accept <==> mimetype in AllowedMimeTypes || TextExtension(originalName)
    ensures r != Accept ==> r == Reject("File type not allowed")
  {
    if mimetype in AllowedMimeTypes || TextExtension(originalName) then Accept else Reject("File type not allowed")
  }

  /** An upload as a whole: the filter decides when the file part begins, the size limit applies to its
      bytes (a file of exactly the limit passes). */
  function Admit(originalName: string, mimetype: string, size: nat): (r: Verdict)
    ensures r == Accept <==> FileFilter(originalName, mimetype) == Accept && size <= MaxFileSize
    ensures FileFilter(originalName, mimetype) != Accept ==> r == Reject("File type not allowed")
    ensures FileFilter(originalName, mimetype) == Accept && size > MaxFileSize ==> r == Reject("File too large")
  {
    var filtered := FileFilter(originalName, mimetype);
    if filtered != Accept then filtered
    else if size > MaxFileSize then Reject("File too large")
    else Accept
  }

  /** A name with a `.txt` or `.csv` extension in any letter case passes whatever its MIME type. */
  lemma TextNamesPass(stem: string, tail: string, mimetype: string)
    requires stem != [] && '/' !in stem && '.' !in tail && '/' !in tail
    requires Text.Lower(tail) == "txt" || Text.Lower(tail) == "csv"
    ensures FileFilter(stem + "." + tail, mimetype) == Accept
  {
    ExtOfName(stem, tail);
    LowerKeepsDot(tail);
    assert Text.Lower(Ext(stem + "." + tail)) == "." + Text.Lower(tail);
  }

  /** Lower-casing leaves a leading dot alone. */
  lemma LowerKeepsDot(tail: string)
    ensures Text.Lower("." + tail) == "." + Text.Lower(tail)
  {
    var ext := Text.Lower("." + tail);
    assert forall i :: 0 < i < |ext| ==> ext[i] == Text.Lower(tail)[i - 1] by {
      forall i | 0 < i < |ext| ensures ext[i] == Text.Lower(tail)[i - 1] {
        assert ("." + tail)[i] == tail[i - 1];
      }
    }
  }

  /** A dotfile named only by its would-be extension has none: `.txt` sent as an unlisted type is refused. */
  lemma DotfileIsNotText()
    ensures FileFilter(".txt", "application/zip") == Reject("File type not allowed")
  {
    var p := ".txt";
    assert SegmentEnd(p, 4) == 4;
    StartWithoutSlash(p, 4);
    DotWithin(p, 0, 4, 0);
    assert Ext(p) == [];
    assert "application/zip" !in AllowedMimeTypes;
  }
}
