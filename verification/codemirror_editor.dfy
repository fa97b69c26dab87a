/**
 * Language-mode resolution of the file editor.
 *
 * The editor picks a syntax mode for a file from an ordered table of modes.
 * A mode may carry a filename pattern (a regular expression in the front end,
 * kept here as an abstract test on strings), a list of extensions, and the
 * mime type handed to the editor widget. Resolution first tries every
 * pattern in table order, then falls back to the text after the last `.`.
 */
module CodemirrorEditor {
  import opened Wrappers

  /** One entry of the mode table. */
  datatype Mode = Mode(file: Option<string -> bool>, ext: Option<seq<string>>, mime: string)

  /** `info.file && info.file.test(filename)` */
  predicate PatternMatches(m: Mode, filename: string)
    ensures m.file.None? ==> !PatternMatches(m, filename)
  {
    m.file.Some? && m.file.value(filename)
  }

  /** Some entry of the mode's extension list is exactly `ext` (case-sensitive). */
  predicate ListsExtension(m: Mode, ext: string)
    ensures m.ext.None? ==> !ListsExtension(m, ext)
    ensures m.ext.Some? ==>
      (ListsExtension(m, ext) <==> exists j :: 0 <= j < |m.ext.value| && m.ext.value[j] == ext)
  {
    m.ext.Some? && ext in m.ext.value
  }

  /** `s.lastIndexOf(c)`: the last position holding `c`, or -1 when there is none. */
  function LastIndexOf(s: string, c: char): (r: int)
    ensures -1 <= r < |s|
    ensures r >= 0 ==> s[r] == c
    ensures forall k :: r < k < |s| ==> s[k] != c
  {
    if |s| == 0 then -1
    else if s[|s| - 1] == c then |s| - 1
    else LastIndexOf(s[..|s| - 1], c)
  }

  /**
   * The extension the fallback search uses: the text after the last `.`,
   * when there is a `.` and that text is not empty (an empty string is
   * falsy, so the search is skipped).
   */
  function ExtensionOf(filename: string): (r: Option<string>)
    ensures r.Some? ==> r.value != "" && '.' !in r.value && |r.value| < |filename|
  {
    var dot := LastIndexOf(filename, '.');
    if dot > -1 && filename[dot + 1..] != "" then Some(filename[dot + 1..]) else None
  }

  /** Index of the first mode at or after `from` whose pattern matches `filename`. */
  function FirstPatternMatch(modes: seq<Mode>, filename: string, from: nat): (r: Option<nat>)
    requires from <= |modes|
    decreases |modes| - from
    ensures r.Some? ==> from <= r.value < |modes| && PatternMatches(modes[r.value], filename)
    ensures r.Some? ==> forall k :: from <= k < r.value ==> !PatternMatches(modes[k], filename)
    ensures r.None? ==> forall k :: from <= k < |modes| ==> !PatternMatches(modes[k], filename)
  {
    if from == |modes| then None
    else if PatternMatches(modes[from], filename) then Some(from)
    else FirstPatternMatch(modes, filename, from + 1)
  }

  /** Index of the first mode at or after `from` whose extension list contains `ext`. */
  function FirstExtensionMatch(modes: seq<Mode>, ext: string, from: nat): (r: Option<nat>)
    requires from <= |modes|
    decreases |modes| - from
    ensures r.Some? ==> from <= r.value < |modes| && ListsExtension(modes[r.value], ext)
    ensures r.Some? ==> forall k :: from <= k < r.value ==> !ListsExtension(modes[k], ext)
    ensures r.None? ==> forall k :: from <= k < |modes| ==> !ListsExtension(modes[k], ext)
  {
    if from == |modes| then None
    else if ListsExtension(modes[from], ext) then Some(from)
    else FirstExtensionMatch(modes, ext, from + 1)
  }

  /** Which entry of the table `findModeByFilename` returns, as an index. */
  function FindModeIndex(modes: seq<Mode>, filename: string): (r: Option<nat>)
    ensures r.Some? ==> r.value < |modes|
    ensures r.Some? ==>
      PatternMatches(modes[r.value], filename) ||
      (ExtensionOf(filename).Some? && ListsExtension(modes[r.value], ExtensionOf(filename).value))
    ensures r.Some? && !PatternMatches(modes[r.value], filename) ==>
      forall k :: 0 <= k < |modes| ==> !PatternMatches(modes[k], filename)
  {
    match FirstPatternMatch(modes, filename, 0)
    case Some(i) => Some(i)
    case None =>
      match ExtensionOf(filename)
      case None => None
      case Some(e) => FirstExtensionMatch(modes, e, 0)
  }

  /**
   * `findModeByFilename`: two passes over the table with early returns, the
   * second with an inner loop over the mode's extension list.
   */
  method FindModeByFilename(modes: seq<Mode>, filename: string) returns (r: Option<Mode>)
    ensures r.Some? <==> FindModeIndex(modes, filename).Some?
    ensures r.Some? ==> r.value == modes[FindModeIndex(modes, filename).value]
    ensures r.Some? ==> r.value in modes
  {
    for i := 0 to |modes|
      invariant forall k :: 0 <= k < i ==> !PatternMatches(modes[k], filename)
    {
      var info := modes[i];
      if info.file.Some? && info.file.value(filename) {
        return Some(info);
      }
    }

    var dot := LastIndexOf(filename, '.');
    // `dot > -1 && filename.substring(dot + 1)` is either `false` or a string
    var ext: Option<string> := if dot > -1 then Some(filename[dot + 1..]) else None;

    if ext.Some? && ext.value != "" {
      for i := 0 to |modes|
        invariant forall k :: 0 <= k < i ==> !ListsExtension(modes[k], ext.value)
      {
        var info := modes[i];
        if info.ext.Some? {
          var exts := info.ext.value;
          for j := 0 to |exts|
            invariant forall m :: 0 <= m < j ==> exts[m] != ext.value
          {
            if exts[j] == ext.value {
              return Some(info);
            }
          }
        }
      }
    }

    return None;
  }

  /**
   * The mime type the editor switches to when the filename changes:
   * `findModeByFilename(filename)?.mime || 'text/plain'`.
   */
  method ResolveMime(modes: seq<Mode>, filename: string) returns (mime: string)
    ensures mime != ""
    ensures FindModeIndex(modes, filename).None? ==> mime == "text/plain"
    ensures FindModeIndex(modes, filename).Some? ==>
      var found := modes[FindModeIndex(modes, filename).value].mime;
      mime == found || (found == "" && mime == "text/plain")
  {
    var info := FindModeByFilename(modes, filename);
    if info.Some? && info.value.mime != "" {
      mime := info.value.mime;
    } else {
      mime := "text/plain";
    }
  }

  /** The extension is exactly the non-empty, dot-free suffix that follows a `.`. */
  lemma ExtensionIsSuffixAfterLastDot(filename: string, e: string)
    ensures ExtensionOf(filename) == Some(e) <==>
      e != "" && '.' !in e && |e| < |filename| &&
      filename[|filename| - |e| - 1] == '.' && filename[|filename| - |e|..] == e
  {
  }

  /** No extension search happens exactly when there is no `.` or the name ends in `.`. */
  lemma NoExtensionIff(filename: string)
    ensures ExtensionOf(filename).None? <==>
      '.' !in filename || filename[|filename| - 1] == '.'
  {
  }

  /**
   * A matching pattern decides the result: the first pattern match in the
   * table is returned, whatever the extension lists of earlier modes say.
   */
  lemma PatternMatchWins(modes: seq<Mode>, filename: string, k: nat)
    requires k < |modes| && PatternMatches(modes[k], filename)
    ensures FindModeIndex(modes, filename).Some?
    ensures var i := FindModeIndex(modes, filename).value;
      i <= k && PatternMatches(modes[i], filename) &&
      forall m :: 0 <= m < i ==> !PatternMatches(modes[m], filename)
  {
  }

  /**
   * Without a pattern match, the first mode (lowest index) listing the
   * extension is returned.
   */
  lemma ExtensionMatchLowestIndex(modes: seq<Mode>, filename: string, e: string, k: nat)
    requires forall m :: 0 <= m < |modes| ==> !PatternMatches(modes[m], filename)
    requires ExtensionOf(filename) == Some(e)
    requires k < |modes| && ListsExtension(modes[k], e)
    ensures FindModeIndex(modes, filename).Some?
    ensures var i := FindModeIndex(modes, filename).value;
      i <= k && ListsExtension(modes[i], e) &&
      forall m :: 0 <= m < i ==> !ListsExtension(modes[m], e)
  {
  }

  /** The search fails exactly when no pattern matches and no extension list helps. */
  lemma NotFoundIff(modes: seq<Mode>, filename: string)
    ensures FindModeIndex(modes, filename).None? <==>
      (forall m :: 0 <= m < |modes| ==> !PatternMatches(modes[m], filename)) &&
      (ExtensionOf(filename).None? ||
       forall m :: 0 <= m < |modes| ==> !ListsExtension(modes[m], ExtensionOf(filename).value))
  {
  }

  /**
   * A worked example of the exact comparison in `ListsExtension`: with a
   * single mode listing `js`, `app.js` selects it and `APP.JS` does not.
   */
  lemma ExtensionComparisonIsCaseSensitive()
    ensures var modes := [Mode(None, Some(["js"]), "application/javascript")];
      FindModeIndex(modes, "app.js") == Some(0) && FindModeIndex(modes, "APP.JS") == None
  {
    var modes := [Mode(None, Some(["js"]), "application/javascript")];
    assert LastIndexOf("app.js", '.') == 3;
    assert "app.js"[4..] == "js";
    assert ListsExtension(modes[0], "js");
    assert LastIndexOf("APP.JS", '.') == 3;
    assert "APP.JS"[4..] == "JS";
    assert !ListsExtension(modes[0], "JS");
  }
}
