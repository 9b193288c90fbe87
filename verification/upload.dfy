/** The upload filter of the image-classifier web page (app.py): a file is accepted
    when the text after its last dot is an allowed image extension in any ASCII case. */
module Upload {
  import opened Wrappers
  import opened Text

  const AllowedExtensions: set<string> := {"png", "jpg", "jpeg", "gif"}

  /** `filename.rsplit(".", 1)[1]`: the text after the last dot, if there is a dot. */
  function AfterLastDot(s: string): (r: Option<string>)
    ensures r.Some? <==> '.' in s
    ensures r.Some? ==> '.' !in r.value && EndsWith(s, "." + r.value)
    decreases |s|
  {
    if |s| == 0 then None
    else if s[|s| - 1] == '.' then Some("")
    else
      match AfterLastDot(s[..|s| - 1])
      case None => None
      case Some(t) =>
        assert s == s[..|s| - 1] + [s[|s| - 1]];
        Some(t + [s[|s| - 1]])
  }

  /** `allowed_file(filename)`. */
  function AllowedFile(filename: string): (r: bool)
    ensures r ==> '.' in filename
  {
    '.' in filename && Lower(AfterLastDot(filename).value) in AllowedExtensions
  }

  lemma {:induction false} AfterLastDotOfSplit(stem: string, ext: string)
    requires '.' !in ext
    ensures AfterLastDot(stem + "." + ext) == Some(ext)
    decreases |ext|
  {
    var s := stem + "." + ext;
    if |ext| > 0 {
      var e := ext[..|ext| - 1];
      assert s[..|s| - 1] == stem + "." + e;
      AfterLastDotOfSplit(stem, e);
      assert e + [ext[|ext| - 1]] == ext;
    } else {
      assert s[|s| - 1] == '.';
    }
  }

  /** Whatever precedes it, a name is accepted exactly when its final extension is allowed. */
  lemma AllowedFileOfSplit(stem: string, ext: string)
    requires '.' !in ext
    ensures AllowedFile(stem + "." + ext) <==> Lower(ext) in AllowedExtensions
  {
    AfterLastDotOfSplit(stem, ext);
    assert (stem + "." + ext)[|stem|] == '.';
  }

  /** The check ignores case. */
  lemma UpperCaseAccepted()
    ensures AllowedFile("A.PNG")
  {
    AllowedFileOfSplit("A", "PNG");
    assert "A" + "." + "PNG" == "A.PNG";
    assert Lower("PNG") == "png";
  }

  /** Only the last extension counts: an image renamed with a trailing ".png" passes... */
  lemma LastExtensionAccepted()
    ensures AllowedFile("x.exe.png")
  {
    AllowedFileOfSplit("x.exe", "png");
    assert "x.exe" + "." + "png" == "x.exe.png";
    assert Lower("png") == "png";
  }

  /** ...and an executable with ".png" in the middle of its name does not. */
  lemma InnerExtensionIgnored()
    ensures !AllowedFile("x.png.exe")
  {
    AllowedFileOfSplit("x.png", "exe");
    assert "x.png" + "." + "exe" == "x.png.exe";
    assert Lower("exe") == "exe";
    assert "exe" != "png" && "exe" != "jpg" && "exe" != "jpeg" && "exe" != "gif";
  }

  /** A bare extension without a dot is refused. */
  lemma NoDotRefused()
    ensures !AllowedFile("png")
  {
    assert "png"[0] != '.' && "png"[1] != '.' && "png"[2] != '.';
  }
}
