/**
 * The upload filter of the web front end (`allowed_file` and its use in
 * `upload_files`, app/frontend/app.py): a file is accepted when the text
 * after its last '.', lower-cased, is one of the allowed extensions.
 */
module Upload {
  import opened Wrappers

  const AllowedExtensions: set<string> := {"png", "jpg", "jpeg"}

  /** Lower-casing of one character; only the letters A-Z change. */
  function LowerChar(c: char): char {
    if 'A' <= c <= 'Z' then (c as int + 32) as char else c
  }

  function Lower(s: string): (r: string)
    ensures |r| == |s|
  {
    seq(|s|, i requires 0 <= i < |s| => LowerChar(s[i]))
  }

  /** The position of the last '.' in s, if there is one. */
  function LastDot(s: string): (r: Option<nat>)
    ensures r.None? <==> '.' !in s
    ensures r.Some? ==> r.value < |s| && s[r.value] == '.' && '.' !in s[r.value + 1..]
  {
    if |s| == 0 then None
    else if s[|s| - 1] == '.' then Some(|s| - 1)
    else
      var r := LastDot(s[..|s| - 1]);
      assert s == s[..|s| - 1] + [s[|s| - 1]];
      r
  }

  /** `filename.rsplit('.', 1)[1]`: the text after the last '.'. */
  function Extension(s: string): string
    requires '.' in s
  {
    s[LastDot(s).value + 1..]
  }

  /** `allowed_file`: there is a '.', and the extension, lower-cased, is allowed. */
  predicate AllowedFile(filename: string) {
    '.' in filename && Lower(Extension(filename)) in AllowedExtensions
  }

  /** The extension is exactly what follows the last '.', whatever comes before it. */
  lemma ExtensionAfterLastDot(stem: string, ext: string)
    requires '.' !in ext
    ensures '.' in stem + "." + ext
    ensures Extension(stem + "." + ext) == ext
  {
    var s := stem + "." + ext;
    assert s[|stem|] == '.';
    assert s[|stem| + 1..] == ext;
    LastDotUnique(s, |stem|);
  }

  /** A name without a '.' is rejected. */
  lemma NoDotRejected(filename: string)
    requires '.' !in filename
    ensures !AllowedFile(filename)
  {
  }

  /** Position i is a '.' with no '.' after it, and what follows it is an allowed extension. */
  predicate AllowedSplit(filename: string, i: nat) {
    i < |filename| && filename[i] == '.' && '.' !in filename[i + 1..] &&
    Lower(filename[i + 1..]) in AllowedExtensions
  }

  /**
   * A name is accepted iff it splits as stem + "." + ext where ext has no
   * '.' and lower-cases to an allowed extension.
   */
  lemma AllowedFileIff(filename: string)
    ensures AllowedFile(filename) <==> exists i :: AllowedSplit(filename, i)
  {
    if AllowedFile(filename) {
      assert AllowedSplit(filename, LastDot(filename).value);
    }
    forall i | AllowedSplit(filename, i)
      ensures AllowedFile(filename)
    {
      LastDotUnique(filename, i);
    }
  }

  /** A '.' with no '.' after it is the last one. */
  lemma LastDotUnique(s: string, d: nat)
    requires d < |s| && s[d] == '.' && '.' !in s[d + 1..]
    ensures LastDot(s) == Some(d)
  {
  }

  lemma LowerCharDot(c: char)
    ensures LowerChar(c) == '.' <==> c == '.'
    ensures LowerChar(LowerChar(c)) == LowerChar(c)
  {
  }

  /** Lower-casing keeps every '.' where it is and changes no other character into one. */
  lemma LowerDots(s: string)
    ensures forall i :: 0 <= i < |s| ==> (Lower(s)[i] == '.' <==> s[i] == '.')
    ensures '.' in Lower(s) <==> '.' in s
  {
    forall i | 0 <= i < |s| ensures Lower(s)[i] == '.' <==> s[i] == '.' {
      LowerCharDot(s[i]);
    }
  }

  lemma LowerIdempotent(s: string)
    ensures Lower(Lower(s)) == Lower(s)
  {
    forall i | 0 <= i < |s| ensures Lower(Lower(s))[i] == Lower(s)[i] {
      LowerCharDot(s[i]);
    }
  }

  lemma LowerSuffix(s: string, a: nat)
    requires a <= |s|
    ensures Lower(s)[a..] == Lower(s[a..])
  {
  }

  /** Lower-casing a name keeps its last '.' and lower-cases its extension. */
  lemma LowerKeepsDots(s: string)
    ensures '.' in Lower(s) <==> '.' in s
    ensures '.' in s ==> LastDot(Lower(s)) == LastDot(s) && Extension(Lower(s)) == Lower(Extension(s))
  {
    LowerDots(s);
    if '.' in s {
      var d := LastDot(s).value;
      var l := Lower(s);
      assert l[d + 1..] == Lower(s[d + 1..]) by {
        LowerSuffix(s, d + 1);
      }
      assert '.' !in l[d + 1..] by {
        LowerDots(s[d + 1..]);
      }
      assert LastDot(l) == Some(d) by {
        LastDotUnique(l, d);
      }
    }
  }

  /** The test ignores case: names with the same lower-case form are treated alike. */
  lemma CaseInsensitive(f: string, g: string)
    requires Lower(f) == Lower(g)
    ensures AllowedFile(f) == AllowedFile(g)
  {
    LowerKeepsDots(f);
    LowerKeepsDots(g);
    if '.' in f {
      LowerIdempotent(Extension(f));
    }
    if '.' in g {
      LowerIdempotent(Extension(g));
    }
  }

  /** A name stem + "." + ext, with no '.' in ext, is accepted iff ext lower-cases to an allowed extension. */
  lemma AcceptedSplit(stem: string, ext: string)
    requires '.' !in ext
    ensures AllowedFile(stem + "." + ext) <==> Lower(ext) in AllowedExtensions
  {
    ExtensionAfterLastDot(stem, ext);
  }

  /** Only the last '.' counts: "a.tar.png" is accepted. */
  lemma DoubleExtensionAccepted()
    ensures AllowedFile("a.tar.png")
  {
    assert "a.tar.png" == "a.tar" + "." + "png";
    assert Lower("png") == "png";
    AcceptedSplit("a.tar", "png");
  }

  /** Only the last '.' counts: "a.png.gif" is rejected. */
  lemma InnerExtensionIgnored()
    ensures !AllowedFile("a.png.gif")
  {
    assert "a.png.gif" == "a.png" + "." + "gif";
    assert Lower("gif") == "gif";
    AcceptedSplit("a.png", "gif");
  }

  /** Upper-case extensions are accepted: "IMG.JPG" passes the filter. */
  lemma UpperCaseAccepted()
    ensures AllowedFile("IMG.JPG")
  {
    assert "IMG.JPG" == "IMG" + "." + "JPG";
    assert Lower("JPG") == "jpg";
    AcceptedSplit("IMG", "JPG");
  }

  /** An empty extension is rejected. */
  lemma EmptyExtensionRejected()
    ensures !AllowedFile("a.")
  {
    assert "a." == "a" + "." + "";
    AcceptedSplit("a", "");
  }

  /** An extension outside the allowed set is rejected. */
  lemma OtherExtensionRejected()
    ensures !AllowedFile("a.gif")
  {
    assert "a.gif" == "a" + "." + "gif";
    assert Lower("gif") == "gif";
    AcceptedSplit("a", "gif");
  }

  /** An empty stem is accepted: ".png" passes the filter. */
  lemma EmptyStemAccepted()
    ensures AllowedFile(".png")
  {
    assert ".png" == "" + "." + "png";
    assert Lower("png") == "png";
    AcceptedSplit("", "png");
  }

  /** What the upload handler does with the two submitted files. */
  datatype UploadOutcome =
    | Redirect(message: string)                       // back to the form, nothing sent
    | Forward(contentName: string, styleName: string) // posted on to the back end

  /**
   * The checks of the upload handler, in order: both file fields present,
   * both names non-empty, both names allowed. A missing field is None.
   */
  function UploadFiles(content: Option<string>, style: Option<string>): (r: UploadOutcome)
    ensures r.Forward? <==>
      content.Some? && style.Some? && AllowedFile(content.value) && AllowedFile(style.value)
    ensures r.Forward? ==>
      r == Forward(content.value, style.value) && content.value != "" && style.value != ""
  {
    if content.None? || style.None? then
      Redirect("Please upload both content and style images")
    else if content.value == "" || style.value == "" then
      Redirect("Please select both files")
    else if !(AllowedFile(content.value) && AllowedFile(style.value)) then
      Redirect("Invalid file format. Please use PNG or JPG images.")
    else
      Forward(content.value, style.value)
  }
}
