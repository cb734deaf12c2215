/**
 * The image format taken from the output path: the text after the path's
 * last '.', found with `lastIndexOf('.')` and `substring(index + 1)`.
 */
module OutputFormat {
  import opened Wrappers

  /** `s.lastIndexOf(ch)`: the position of the last `ch` in `s`, or -1. */
  function LastIndexOf(s: string, ch: char): (r: int)
    ensures -1 <= r < |s|
    ensures r >= 0 ==> s[r] == ch && forall j :: r < j < |s| ==> s[j] != ch
    ensures r == -1 <==> ch !in s
  {
    if s == [] then -1
    else if s[|s| - 1] == ch then |s| - 1
    else LastIndexOf(s[..|s| - 1], ch)
  }

  /**
   * The format name for `output`, or `None` where the program stops with
   * "Unknown output file format" (no '.' in the path).
   */
  function FormatName(output: string): (r: Option<string>)
    ensures r.None? <==> '.' !in output
    ensures r.Some? ==>
      '.' !in r.value && |r.value| < |output| &&
      output[|output| - |r.value| - 1] == '.' && output[|output| - |r.value|..] == r.value
  {
    var index := LastIndexOf(output, '.');
    if index == -1 then None else Some(output[index + 1..])
  }

  /** A path ending in '.' and a dot-free suffix has that suffix as its format. */
  lemma FormatNameOfJoin(base: string, suffix: string)
    requires '.' !in suffix
    ensures FormatName(base + "." + suffix) == Some(suffix)
  {
    var s := base + "." + suffix;
    assert s[|base|] == '.';
    assert s[|base| + 1..] == suffix;
  }

  lemma FormatNameExamples()
    ensures FormatName("out.png") == Some("png")
    ensures FormatName("a.b.jpg") == Some("jpg")
    ensures FormatName("x.") == Some("")
    ensures FormatName("out") == None
  {
    FormatNameOfJoin("out", "png");
    assert "out" + "." + "png" == "out.png";
    FormatNameOfJoin("a.b", "jpg");
    assert "a.b" + "." + "jpg" == "a.b.jpg";
    FormatNameOfJoin("x", "");
    assert "x" + "." + "" == "x.";
    assert "out"[0] != '.' && "out"[1] != '.' && "out"[2] != '.';
  }
}
