/**
 * Where an accepted upload is stored and what the rendered meme is called:
 * `os.path.join(UPLOAD_FOLDER, name)` and `"meme_" + os.path.basename(...)`,
 * with POSIX path rules.
 */
module Naming {
  import opened Text
  import Upload

  /** The configured upload folder. */
  const UploadFolder: string := "uploads"

  /** The prefix put in front of the stored name to name the rendered image. */
  const OutputPrefix: string := "meme_"

  /**
   * posixpath.join for two components: an absolute second component replaces
   * the first; otherwise the two are joined by exactly one added '/' unless the
   * first is empty or already ends in '/'.
   */
  function JoinPath(dir: string, name: string): (path: string)
    ensures |name| <= |path| && path[|path| - |name|..] == name
    ensures |name| > 0 && name[0] == '/' ==> path == name
    ensures !(|name| > 0 && name[0] == '/') ==> |dir| <= |path| && path[..|dir|] == dir
    ensures |path| > |name| ==> path[|path| - |name| - 1] == '/'
    ensures !(|name| > 0 && name[0] == '/') ==>
      |path| == |dir| + |name| + (if dir == [] || dir[|dir| - 1] == '/' then 0 else 1)
  {
    if |name| > 0 && name[0] == '/' then name
    else if dir == [] || dir[|dir| - 1] == '/' then dir + name
    else dir + "/" + name
  }

  /** posixpath.basename: the longest suffix of `path` without a '/'. */
  function Basename(path: string): (base: string)
    ensures '/' !in base
    ensures |base| <= |path| && path[|path| - |base|..] == base
    ensures |base| < |path| ==> path[|path| - |base| - 1] == '/'
  {
    path[LastIndexOf(path, '/') + 1..]
  }

  /** A directory prefix that ends in '/' never shows in the basename. */
  lemma BasenameAfterSlash(prefix: string, name: string)
    requires |prefix| > 0 && prefix[|prefix| - 1] == '/'
    ensures Basename(prefix + name) == Basename(name)
  {
    LastIndexOfAppend(prefix, name, '/');
    var i := LastIndexOf(name, '/');
    if '/' in name {
      assert (prefix + name)[|prefix| + i + 1..] == name[i + 1..];
    } else {
      assert (prefix + name)[|prefix|..] == name;
    }
  }

  /** Storing under any folder leaves the basename of the uploaded name as it was. */
  lemma BasenameOfJoin(dir: string, name: string)
    ensures Basename(JoinPath(dir, name)) == Basename(name)
  {
    if |name| > 0 && name[0] == '/' {
    } else if dir == [] {
      assert dir + name == name;
    } else if dir[|dir| - 1] == '/' {
      BasenameAfterSlash(dir, name);
    } else {
      assert dir + "/" + name == (dir + "/") + name;
      BasenameAfterSlash(dir + "/", name);
    }
  }

  /**
   * The name of the rendered meme for an uploaded file name: the prefix and the
   * basename of the stored path, which is the basename of the uploaded name.
   */
  function OutputFilename(uploadName: string): (out: string)
    ensures out == OutputPrefix + Basename(uploadName)
  {
    BasenameOfJoin(UploadFolder, uploadName);
    OutputPrefix + Basename(JoinPath(UploadFolder, uploadName))
  }

  /**
   * The rendered meme's name is a flat file name in the generated folder, and
   * for an upload name without a directory part it is just the prefixed name.
   */
  lemma OutputFilenameIsFlat(uploadName: string)
    ensures '/' !in OutputFilename(uploadName)
    ensures '/' !in uploadName ==> OutputFilename(uploadName) == OutputPrefix + uploadName
  {
    var base := Basename(uploadName);
    assert '/' !in OutputPrefix by {
      assert forall k :: 0 <= k < |OutputPrefix| ==> OutputPrefix[k] != '/';
    }
    assert forall k :: 0 <= k < |OutputPrefix + base| ==>
      (OutputPrefix + base)[k] in OutputPrefix || (OutputPrefix + base)[k] in base;
    if '/' !in uploadName {
      assert LastIndexOf(uploadName, '/') == -1;
      assert base == uploadName;
    }
  }

  /** No allowed extension contains a path separator. */
  lemma AllowedExtensionIsFlat(ext: string)
    requires ext in Upload.AllowedExtensions
    ensures '/' !in ext
  {
    if ext == "jpeg" {
      assert ext[0] != '/' && ext[1] != '/' && ext[2] != '/' && ext[3] != '/';
    } else {
      assert ext[0] != '/' && ext[1] != '/' && ext[2] != '/';
    }
  }

  /** A final part without '/' stays whole at the end of the basename. */
  lemma BasenameKeepsFlatSuffix(path: string, suffix: string)
    requires '/' !in suffix
    ensures Basename(path + suffix) == Basename(path) + suffix
  {
    LastIndexOfAppend(path, suffix, '/');
    var i := LastIndexOf(path, '/');
    assert (path + suffix)[i + 1..] == path[i + 1..] + suffix;
  }

  /** A flat extension survives into the rendered meme's name after the prefixed basename of the stem. */
  lemma OutputFilenameOfSuffixed(stem: string, ext: string)
    requires '/' !in ext
    ensures OutputFilename(stem + "." + ext) == (OutputPrefix + Basename(stem)) + "." + ext
  {
    var dotExt := ['.'] + ext;
    assert '/' !in dotExt by {
      assert dotExt[0] == '.' && dotExt[1..] == ext;
    }
    assert stem + "." + ext == stem + dotExt;
    BasenameKeepsFlatSuffix(stem, dotExt);
    assert OutputPrefix + (Basename(stem) + dotExt) == (OutputPrefix + Basename(stem)) + "." + ext;
  }

  /** The rendered meme keeps the uploaded image's extension, so it passes the upload check too. */
  lemma OutputKeepsAllowedExtension(uploadName: string)
    requires Upload.AllowedFile(uploadName)
    ensures Upload.AllowedFile(OutputFilename(uploadName))
  {
    var parts := RSplitOnce(uploadName, '.');
    var stem, ext := parts[0], parts[1];
    assert '/' !in ext by {
      AllowedExtensionIsFlat(Lower(ext));
      LowerKeepsNonLetter('/', ext);
    }
    OutputFilenameOfSuffixed(stem, ext);
    Upload.AllowedFileBySuffix(OutputPrefix + Basename(stem), ext);
  }
}
