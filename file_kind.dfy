/**
 * The extension classifier of `previewFile`: documents whose object name ends in
 * one of a fixed set of extensions are transcoded into per-page previews, every
 * other upload is shown directly as a background image.
 */
module FileKind {

  /** `std::wstring::npos`, the largest value of a 64-bit `size_t`. */
  const NPos: nat := 0xFFFF_FFFF_FFFF_FFFF

  /** The extensions that need transcoding (compared case-sensitively). */
  const TranscodeExtensions: set<string> := {"ppt", "pptx", "pdf", "doc", "docx"}

  /** `s.find_last_of(c)`: the position of the last `c` in `s`, or `NPos` when there is none. */
  function FindLastOf(s: string, c: char): (pos: nat)
    requires |s| < NPos
    ensures pos == NPos <==> c !in s
    ensures pos != NPos ==> pos < |s| && s[pos] == c && c !in s[pos + 1..]
  {
    if |s| == 0 then NPos
    else if s[|s| - 1] == c then |s| - 1
    else
      var pos := FindLastOf(s[..|s| - 1], c);
      assert pos != NPos ==> s[pos + 1..] == s[..|s| - 1][pos + 1..] + [s[|s| - 1]];
      assert s == s[..|s| - 1] + [s[|s| - 1]];
      pos
  }

  /**
   * `objName.substr(pos + 1)` with `pos` the last `'.'`. Without a dot, `npos + 1`
   * wraps around to 0 in `size_t` arithmetic, so the whole name is the extension.
   */
  function Extension(name: string): (ext: string)
    requires |name| < NPos
    ensures '.' !in ext
    ensures |ext| <= |name| && ext == name[|name| - |ext|..]
    ensures '.' in name ==> |ext| < |name| && name[|name| - |ext| - 1] == '.'
    ensures '.' !in name ==> ext == name
  {
    var pos := FindLastOf(name, '.');
    var start := (pos + 1) % (NPos + 1);
    name[start..]
  }

  /**
   * Whether `previewFile` sends the object to be transcoded: decided by the text
   * after the last dot, or by the whole name when it has no dot.
   */
  predicate IsTranscode(objName: string): (r: bool)
    requires |objName| < NPos
    ensures '.' in objName ==> (r <==> objName[FindLastOf(objName, '.') + 1..] in TranscodeExtensions)
    ensures '.' !in objName ==> (r <==> objName in TranscodeExtensions)
  {
    Extension(objName) in TranscodeExtensions
  }

  /**
   * The extension of `stem + "." + ext` is `ext` whatever the stem holds, so the
   * decision depends only on what follows the last dot.
   */
  lemma {:induction false} ExtensionOfDotted(stem: string, ext: string)
    requires '.' !in ext
    requires |stem| + 1 + |ext| < NPos
    ensures Extension(stem + "." + ext) == ext
    ensures IsTranscode(stem + "." + ext) <==> ext in TranscodeExtensions
  {
    var name := stem + "." + ext;
    assert name[|stem|] == '.';
    var r := Extension(name);
    assert name[|stem| + 1..] == ext;
  }

  /** A name with no dot is classified by the whole name: `"pdf"` is transcoded, `"report_pdf"` is not. */
  lemma NoDotUsesWholeName()
    ensures IsTranscode("pdf")
    ensures !IsTranscode("report_pdf")
  {
    assert '.' !in "pdf";
    assert '.' !in "report_pdf";
  }
}
