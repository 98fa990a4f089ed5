/**
 * The upload filename check `allowed_file`: a name is accepted when it has a
 * dot and the text after its last dot, lower-cased, is an allowed image
 * extension.
 */
module Upload {
  import opened Text

  /** The application's configured allow-list of image extensions. */
  const AllowedExtensions: set<string> := {"png", "jpg", "jpeg", "gif"}

  /** allowed_file: a dot is present and the last-dot suffix, lower-cased, is allowed. */
  function AllowedFile(filename: string): (ok: bool)
    ensures ok ==> '.' in filename
  {
    '.' in filename && Lower(RSplitOnce(filename, '.')[1]) in AllowedExtensions
  }

  /**
   * Every name with a dot is some `stem + "." + ext` with no dot in `ext`; for
   * such a name the verdict depends on `ext` alone, and on nothing in `stem`.
   */
  lemma AllowedFileBySuffix(stem: string, ext: string)
    requires '.' !in ext
    ensures AllowedFile(stem + "." + ext) <==> Lower(ext) in AllowedExtensions
  {
    RSplitOnceOf(stem, '.', ext);
  }

  /** The check is case-insensitive: lower-casing the whole name never changes the verdict. */
  lemma AllowedFileIgnoresCase(filename: string)
    ensures AllowedFile(Lower(filename)) == AllowedFile(filename)
  {
    if '.' in filename {
      var parts := RSplitOnce(filename, '.');
      var stem, ext := parts[0], parts[1];
      LowerConcat(stem + ".", ext);
      LowerConcat(stem, ".");
      assert Lower(".") == ".";
      LowerKeepsNonLetter('.', ext);
      AllowedFileBySuffix(stem, ext);
      AllowedFileBySuffix(Lower(stem), Lower(ext));
      LowerIdempotent(ext);
    } else {
      LowerKeepsNonLetter('.', filename);
    }
  }

  /** Only the last suffix counts, in any case: `a.tar.PNG` is an image name. */
  lemma AcceptsLastSuffixInAnyCase()
    ensures AllowedFile("a.tar.PNG")
  {
    AllowedFileBySuffix("a.tar", "PNG");
    assert "a.tar" + "." + "PNG" == "a.tar.PNG";
    assert Lower("PNG") == "png";
  }

  /** A name that is only a dot and an extension is accepted. */
  lemma AcceptsEmptyStem()
    ensures AllowedFile(".gif")
  {
    AllowedFileBySuffix("", "gif");
    assert "" + "." + "gif" == ".gif";
    assert Lower("gif") == "gif";
  }

  /** An image extension that is not the last suffix does not help: `x.png.exe` is refused. */
  lemma RejectsEarlierSuffix()
    ensures !AllowedFile("x.png.exe")
  {
    var ext := "exe";
    assert ext !in AllowedExtensions by {
      assert ext[0] == 'e';
      assert "png"[0] == 'p' && "jpg"[0] == 'j' && "jpeg"[0] == 'j' && "gif"[0] == 'g';
    }
    assert Lower(ext) == ext;
    assert '.' !in ext by {
      assert ext[0] != '.' && ext[1] != '.' && ext[2] != '.';
    }
    AllowedFileBySuffix("x.png", ext);
    assert "x.png" + "." + ext == "x.png.exe";
  }

  /** A bare extension without a dot is refused, and so is a name ending in a dot. */
  lemma RejectsMissingSuffix()
    ensures !AllowedFile("png")
    ensures !AllowedFile("photo.")
  {
    assert "png"[0] != '.' && "png"[1] != '.' && "png"[2] != '.';
    AllowedFileBySuffix("photo", "");
    assert "photo" + "." + "" == "photo.";
  }
}
