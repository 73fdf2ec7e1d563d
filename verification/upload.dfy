/**
 * The upload middleware (server/middleware/upload.js): the name a stored
 * file gets and the MIME allowlist, plus the public path under which the
 * handlers record an upload (`mapFiles` in
 * server/controllers/reportController.js and its twins).
 */
module Uploads {
  import opened Common
  import opened Text
  import Radix

  /** `name.replace(/\s+/g, "_")`: every maximal run of white space becomes one "_". */
  function ReplaceSpaceRuns(s: string): (r: string)
    ensures |r| <= |s|
    ensures NoSpace(r)
    ensures r == [] <==> s == []
    decreases |s|
  {
    if s == [] then []
    else if IsSpace(s[0]) then
      TrimStartOfSpaces(s[1..]);
      assert TrimStart(s) == TrimStart(s[1..]);
      "_" + ReplaceSpaceRuns(TrimStart(s))
    else [s[0]] + ReplaceSpaceRuns(s[1..])
  }

  /** A name without white space is kept as it is, so sanitising twice is sanitising once. */
  lemma {:induction false} ReplaceSpaceRunsIdentity(s: string)
    requires NoSpace(s)
    ensures ReplaceSpaceRuns(s) == s
  {
    if s != [] {
      ReplaceSpaceRunsIdentity(s[1..]);
    }
  }

  lemma ReplaceSpaceRunsIdempotent(s: string)
    ensures ReplaceSpaceRuns(ReplaceSpaceRuns(s)) == ReplaceSpaceRuns(s)
  {
    ReplaceSpaceRunsIdentity(ReplaceSpaceRuns(s));
  }

  /** `TrimStart` never lengthens, and empties a string of white space. */
  lemma {:induction false} TrimStartOfSpaces(s: string)
    ensures |TrimStart(s)| <= |s|
    ensures AllSpace(s) ==> TrimStart(s) == []
  {
    if s != [] && IsSpace(s[0]) {
      TrimStartOfSpaces(s[1..]);
    }
  }

  /** Trimming `a + b` trims `a`, and `b` too when `a` trims to nothing; `b` itself has no leading white space. */
  lemma {:induction false} TrimStartAppend(a: string, b: string)
    requires b == [] || !IsSpace(b[0])
    ensures TrimStart(a + b) == if TrimStart(a) == [] then b else TrimStart(a) + b
  {
    if a == [] {
      assert a + b == b;
    } else {
      assert (a + b)[0] == a[0] && (a + b)[1..] == a[1..] + b;
      TrimStartAppend(a[1..], b);
    }
  }

  /** A non-empty run of white space, followed by anything that does not continue it, becomes exactly one "_". */
  lemma ReplaceSpaceRunsCollapses(w: string, b: string)
    requires w != [] && AllSpace(w)
    requires b == [] || !IsSpace(b[0])
    ensures ReplaceSpaceRuns(w + b) == "_" + ReplaceSpaceRuns(b)
  {
    TrimStartOfSpaces(w);
    TrimStartAppend(w, b);
    assert (w + b)[0] == w[0];
  }

  /** The characters of a name that are neither white space nor "_", in order. */
  function Visible(s: string): string {
    if s == [] then []
    else if IsSpace(s[0]) || s[0] == '_' then Visible(s[1..])
    else [s[0]] + Visible(s[1..])
  }

  lemma {:induction false} VisibleOfSpaces(s: string)
    requires AllSpace(s)
    ensures Visible(s) == []
  {
    if s != [] {
      VisibleOfSpaces(s[1..]);
    }
  }

  /** Sanitising only rewrites the gaps: every other character survives, in order. */
  lemma {:induction false} ReplaceSpaceRunsKeepsVisible(s: string)
    ensures Visible(ReplaceSpaceRuns(s)) == Visible(s)
  {
    if s != [] {
      if IsSpace(s[0]) {
        var t := TrimStart(s);
        TrimStartSuffix(s);
        ReplaceSpaceRunsKeepsVisible(t);
        var k := |s| - |t|;
        assert s == s[..k] + t;
        VisibleOfSpaces(s[..k]);
        VisibleAppend(s[..k], t);
        assert ("_" + ReplaceSpaceRuns(t))[1..] == ReplaceSpaceRuns(t);
      } else {
        ReplaceSpaceRunsKeepsVisible(s[1..]);
        assert ([s[0]] + ReplaceSpaceRuns(s[1..]))[1..] == ReplaceSpaceRuns(s[1..]);
      }
    }
  }

  lemma {:induction false} VisibleAppend(a: string, b: string)
    ensures Visible(a + b) == Visible(a) + Visible(b)
  {
    if a != [] {
      VisibleAppend(a[1..], b);
      assert (a + b)[1..] == a[1..] + b;
    } else {
      assert a + b == b;
    }
  }

  /** The multer `filename`: the decimal clock reading, "-", then the sanitised original name. */
  function StoredName(now: Time, originalName: string): string {
    Radix.ToRadix(now, 10) + "-" + ReplaceSpaceRuns(originalName)
  }

  /**
   * The stored name splits at its first "-" into the upload time and a
   * suffix without white space that keeps the original's visible characters.
   */
  lemma StoredNameParts(now: Time, originalName: string)
    ensures var name := StoredName(now, originalName);
      var cut := IndexOf(name, '-');
      && Radix.AllDigits(name[..cut], 10) && Radix.FromRadix(name[..cut], 10) == now
      && NoSpace(name[cut + 1..])
      && Visible(name[cut + 1..]) == Visible(originalName)
  {
    var stamp := Radix.ToRadix(now, 10);
    var name := StoredName(now, originalName);
    Radix.DigitsHaveNoDash(stamp, 10);
    assert name[|stamp|] == '-';
    assert name[..|stamp|] == stamp;
    assert IndexOf(name, '-') == |stamp|;
    assert name[|stamp| + 1..] == ReplaceSpaceRuns(originalName);
    Radix.FromToRadix(now, 10);
    ReplaceSpaceRunsKeepsVisible(originalName);
  }

  /** The MIME types the file filter accepts. */
  const AllowedTypes: seq<string> := [
    "image/jpeg", "image/jpg", "image/png", "image/gif",
    "video/mp4", "video/quicktime", "video/3gpp", "video/x-msvideo"]

  /** What the file filter hands to multer's callback: an error, and whether the file is kept. */
  datatype FilterDecision = FilterDecision(error: Option<string>, accepted: bool)

  /** `fileFilter`: accepted exactly when the type is on the list; a refusal carries an error. */
  function FileFilter(mimetype: string): (d: FilterDecision)
    ensures d.accepted <==> mimetype in AllowedTypes
    ensures d.error.Some? <==> !d.accepted
  {
    if mimetype in AllowedTypes then FilterDecision(None, true)
    else FilterDecision(Some("Only image and common video formats allowed"), false)
  }

  /** Eight distinct types, each an image or a video type; matching is exact, so case matters. */
  lemma AllowlistShape()
    ensures |AllowedTypes| == 8
    ensures forall i, j :: 0 <= i < j < 8 ==> AllowedTypes[i] != AllowedTypes[j]
    ensures forall t :: t in AllowedTypes ==> StartsWith(t, "image/") || StartsWith(t, "video/")
    ensures !FileFilter("IMAGE/PNG").accepted && !FileFilter("image/webp").accepted
  {
  }

  const UploadDir: string := "/uploads/"

  /** `mapFiles`: no files gives [], otherwise "/uploads/" + the stored name of each, in order. */
  function MapFiles(files: Option<seq<string>>): (paths: seq<string>)
    ensures files.None? ==> paths == []
    ensures files.Some? ==> |paths| == |files.value|
    ensures files.Some? ==> forall i :: 0 <= i < |paths| ==> paths[i] == UploadDir + files.value[i]
  {
    if files.None? then []
    else seq(|files.value|, i requires 0 <= i < |files.value| => UploadDir + files.value[i])
  }
}
