/** One card of the examples grid (src/components/DocumentCard.tsx): which
    file types open in the online office viewer, the view link, the preview
    image path derived from the file name, the "#" placeholder that disables
    the actions, and the tag strip. `new URL(path, origin).href` and
    `encodeURIComponent` are browser functions and enter as parameters. */
module DocumentCard {

  import opened Strings
  import opened Catalog

  /** The file types that open in the office viewer. */
  const OfficeTypes: seq<string> := ["docx", "doc", "xlsx", "xls", "pptx", "ppt"]

  const Sentinel: string := "#"
  const ViewerPrefix: string := "https://docs.google.com/viewer?url="
  const ViewerSuffix: string := "&embedded=true"
  const PreviewsDir: string := "/documents/previews/"

  predicate IsOfficeFile(fileType: string) {
    fileType in OfficeTypes
  }

  /** Of the catalog's four file types, every one except PDF is an office file. */
  lemma OfficeCatalogTypes(ft: FileType)
    ensures IsOfficeFile(FileTypeName(ft)) <==> ft != Pdf
  {
    var p := FileTypeName(Pdf);
    assert p[0] == 'p' && p[1] == 'd' && |p| == 3;
    assert OfficeTypes[1][0] == 'd' && OfficeTypes[3][0] == 'x' && OfficeTypes[5][1] == 'p';
  }

  /** A path that stands for "no file": empty or the "#" placeholder. */
  predicate IsPlaceholder(path: string) {
    path == "" || path == Sentinel
  }

  /** `getViewUrl`: "#" for a placeholder path; the office viewer around the
      encoded absolute URL for an office file; the path itself otherwise. */
  function ViewUrl(path: string, fileType: string, absolute: string -> string, encode: string -> string): (url: string)
    ensures url == Sentinel <==> IsPlaceholder(path)
    ensures !IsPlaceholder(path) && !IsOfficeFile(fileType) ==> url == path
    ensures !IsPlaceholder(path) && IsOfficeFile(fileType) ==>
              IsPrefix(ViewerPrefix, url) && IsSuffix(ViewerSuffix, url)
  {
    if IsPlaceholder(path) then Sentinel
    else if IsOfficeFile(fileType) then ViewerPrefix + encode(absolute(path)) + ViewerSuffix
    else path
  }

  /** The argument handed to the office viewer, read back out of a view URL. */
  function ViewerArgument(url: string): (arg: Option<string>)
    ensures arg.Some? ==> ViewerPrefix + arg.value + ViewerSuffix == url
  {
    if |url| >= |ViewerPrefix| + |ViewerSuffix| && IsPrefix(ViewerPrefix, url) && IsSuffix(ViewerSuffix, url)
    then
      var arg := url[|ViewerPrefix|..|url| - |ViewerSuffix|];
      assert url == url[..|ViewerPrefix|] + arg + url[|url| - |ViewerSuffix|..];
      Some(arg)
    else None
  }

  /** The viewer receives exactly the encoded absolute URL of the file. */
  lemma ViewerGetsEncodedUrl(path: string, fileType: string, absolute: string -> string, encode: string -> string)
    requires !IsPlaceholder(path) && IsOfficeFile(fileType)
    ensures ViewerArgument(ViewUrl(path, fileType, absolute, encode)) == Some(encode(absolute(path)))
  {
    var url := ViewUrl(path, fileType, absolute, encode);
    assert url[|ViewerPrefix|..|url| - |ViewerSuffix|] == encode(absolute(path));
  }

  /** `filename.substring(0, filename.lastIndexOf('.'))`: the name before its
      last '.', and "" when there is none (a -1 end is clamped to 0). */
  function BaseName(filename: string): (b: string)
    ensures IsPrefix(b, filename)
    ensures '.' !in filename ==> b == ""
    ensures '.' in filename ==> |b| < |filename| && filename[|b|] == '.' && '.' !in filename[|b| + 1..]
  {
    var k := LastIndexOf(filename, '.');
    if k == -1 then "" else filename[..k]
  }

  /** `s` ends with `ext` when letter case is ignored (`ext` is lower case). */
  predicate EndsWithIgnoringCase(s: string, ext: string) {
    |ext| <= |s| && Lower(s[|s| - |ext|..]) == ext
  }

  /** The extensions the image rule rewrites, in any letter case. */
  predicate HasImageExtension(s: string) {
    EndsWithIgnoringCase(s, ".jpeg") || EndsWithIgnoringCase(s, ".jpg") || EndsWithIgnoringCase(s, ".png")
  }

  /** A lowered character is '.' only if it was '.'. */
  lemma LowerKeepsDots(s: string)
    ensures forall i :: 0 <= i < |s| ==> (Lower(s)[i] == '.' <==> s[i] == '.')
  {
  }

  /** `s.replace(/\.(jpeg|jpg|png)$/i, '.jpg')`: a trailing image extension
      in any letter case becomes ".jpg"; otherwise nothing changes. */
  function ReplaceImageExtension(s: string): (r: string)
    ensures HasImageExtension(s) ==> r == BaseName(s) + ".jpg"
    ensures !HasImageExtension(s) ==> r == s
  {
    if EndsWithIgnoringCase(s, ".jpeg") then
      ExtensionIsLast(s, ".jpeg");
      s[..|s| - 5] + ".jpg"
    else if EndsWithIgnoringCase(s, ".jpg") then
      ExtensionIsLast(s, ".jpg");
      s[..|s| - 4] + ".jpg"
    else if EndsWithIgnoringCase(s, ".png") then
      ExtensionIsLast(s, ".png");
      s[..|s| - 4] + ".jpg"
    else s
  }

  /** The '.' of a matched extension is the name's last '.'. */
  lemma ExtensionIsLast(s: string, ext: string)
    requires |ext| >= 1 && ext[0] == '.' && '.' !in ext[1..] && EndsWithIgnoringCase(s, ext)
    ensures BaseName(s) == s[..|s| - |ext|]
  {
    var k := |s| - |ext|;
    var t := s[k..];
    LowerKeepsDots(t);
    assert Lower(t)[0] == '.';
    assert s[k] == '.';
    forall i | k + 1 <= i < |s| ensures s[i] != '.' {
      assert Lower(t)[i - k] == ext[1..][i - k - 1];
    }
    assert '.' !in s[k + 1..];
    LastIndexOfUnique(s, '.', k);
  }

  /** `getPreviewPath`: none for a placeholder path or a path ending in '/';
      for an "Infographic" file the image name with its extension normalised;
      otherwise the base name with ".jpg", all under the previews folder. */
  function PreviewPath(path: string): (p: Option<string>)
    ensures p.None? <==> IsPlaceholder(path) || path[|path| - 1] == '/'
    ensures p.Some? ==> IsPrefix(PreviewsDir, p.value)
  {
    if IsPlaceholder(path) then None
    else
      var filename := AfterLast(path, '/');
      if filename == "" then None
      else if Contains(filename, "Infographic") then Some(PreviewsDir + ReplaceImageExtension(filename))
      else Some(PreviewsDir + BaseName(filename) + ".jpg")
  }

  /** Download and view are disabled exactly for a placeholder path. */
  function ActionsDisabled(path: string): (disabled: bool)
    ensures disabled <==> path == "" || path == "#"
  {
    IsPlaceholder(path)
  }

  /** The `download` attribute is set unless the path is the "#" placeholder. */
  function DownloadAttribute(path: string): (download: bool)
    ensures download <==> path != "#"
  {
    path != Sentinel
  }

  /** `tags.slice(0, 3)`: at most the first three tags, in order. */
  function VisibleTags(tags: seq<string>): (shown: seq<string>)
    ensures |shown| == if |tags| < 3 then |tags| else 3
    ensures IsPrefix(shown, tags)
  {
    if |tags| < 3 then tags else tags[..3]
  }

  // ---- Properties ------------------------------------------------------------

  /** The actions are disabled exactly when the view link is the "#" placeholder. */
  lemma DisabledIffNoView(path: string, fileType: string, absolute: string -> string, encode: string -> string)
    ensures ActionsDisabled(path) <==> ViewUrl(path, fileType, absolute, encode) == Sentinel
  {
  }

  /** A placeholder path has neither a view link nor a preview. */
  lemma PlaceholderHasNothing(path: string, fileType: string, absolute: string -> string, encode: string -> string)
    requires IsPlaceholder(path)
    ensures ViewUrl(path, fileType, absolute, encode) == Sentinel
    ensures PreviewPath(path).None?
  {
  }

  /** A file in the documents folder previews as its base name with ".jpg". */
  lemma PreviewOfDocument(name: string)
    requires name != "" && '/' !in name && !Contains(name, "Infographic")
    ensures PreviewPath(DocumentsDir + name) == Some(PreviewsDir + BaseName(name) + ".jpg")
  {
    var path := DocumentsDir + name;
    assert path[|DocumentsDir| - 1] == '/';
    assert path[|path| - |name|..] == name;
    AfterLastSuffix(path, name, '/');
  }

  /** An "Infographic" file in the documents folder previews under its own
      name, with a trailing image extension normalised to ".jpg". */
  lemma PreviewOfInfographic(name: string)
    requires name != "" && '/' !in name && Contains(name, "Infographic")
    ensures PreviewPath(DocumentsDir + name) == Some(PreviewsDir + ReplaceImageExtension(name))
  {
    var path := DocumentsDir + name;
    assert path[|DocumentsDir| - 1] == '/';
    assert path[|path| - |name|..] == name;
    AfterLastSuffix(path, name, '/');
  }

  /** The text after the last separator of `s` is the separator-free tail
      that follows one. */
  lemma AfterLastSuffix(s: string, tail: string, sep: char)
    requires sep !in tail && |tail| < |s| && s[|s| - |tail|..] == tail && s[|s| - |tail| - 1] == sep
    ensures AfterLast(s, sep) == tail
  {
    LastIndexOfUnique(s, sep, |s| - |tail| - 1);
  }

  /** "plan.final.pdf" previews as "plan.final.jpg": only the last extension goes. */
  lemma BaseNameKeepsInnerDots(stem: string, ext: string)
    requires '.' !in ext
    ensures BaseName(stem + "." + ext) == stem
  {
    var f := stem + "." + ext;
    assert f[|stem|] == '.';
    assert f[|stem| + 1..] == ext;
  }

  /** A file name without any '.' has an empty base name, so its preview is
      just ".jpg" in the previews folder. */
  lemma NoDotGivesEmptyBase(name: string)
    requires name != "" && '/' !in name && '.' !in name && !Contains(name, "Infographic")
    ensures PreviewPath(DocumentsDir + name) == Some(PreviewsDir + ".jpg")
  {
    PreviewOfDocument(name);
  }

  /** An image extension in any case is normalised to ".jpg". */
  lemma InfographicExtension(stem: string)
    requires '.' !in stem
    ensures ReplaceImageExtension(stem + ".PNG") == stem + ".jpg"
    ensures ReplaceImageExtension(stem + ".jpeg") == stem + ".jpg"
  {
    var a := stem + ".PNG";
    assert a[|a| - 4..] == ".PNG";
    assert EndsWithIgnoringCase(a, ".png");
    BaseNameKeepsInnerDots(stem, "PNG");
    var b := stem + ".jpeg";
    assert b[|b| - 5..] == ".jpeg";
    assert EndsWithIgnoringCase(b, ".jpeg");
    BaseNameKeepsInnerDots(stem, "jpeg");
  }

  /** Other extensions are kept: an Infographic PDF is not renamed. */
  lemma NonImageKept(stem: string)
    ensures ReplaceImageExtension(stem + ".pdf") == stem + ".pdf"
  {
    var s := stem + ".pdf";
    assert s[|s| - 4..] == ".pdf";
    assert Lower(s[|s| - 4..])[1] == 'p';
    assert Lower(s[|s| - 4..])[2] == 'd';
    if |s| >= 5 {
      assert s[|s| - 5..][2] == 'p';
      assert Lower(s[|s| - 5..])[2] == 'p';
    }
  }
}
