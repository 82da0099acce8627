/** The "under construction" page (src/pages/PlaceholderPage.tsx): its title
    is derived from the current location, and its heading falls back to
    "Page" when the title is empty. */
module PlaceholderPage {

  import opened Strings

  /** The regular-expression word class `\w`: ASCII letters, digits and '_'. */
  predicate IsWordChar(c: char) {
    'a' <= c <= 'z' || 'A' <= c <= 'Z' || '0' <= c <= '9' || c == '_'
  }

  /** `location.split("/")[1]`: the text between the first '/' and the next
      one (or the end); without any '/' there is no such element and the
      source fails on it, which is `None` here. */
  function Segment(location: string): (seg: Option<string>)
    ensures seg.None? <==> '/' !in location
    ensures seg.Some? ==> '/' !in seg.value
    ensures seg.Some? ==> var k := IndexOf(location, '/');
              IsPrefix(seg.value, location[k + 1..])
              && (k + 1 + |seg.value| == |location| || location[k + 1 + |seg.value|] == '/')
  {
    var k := IndexOf(location, '/');
    if k == -1 then None else Some(BeforeFirst(location[k + 1..], '/'))
  }

  /** `s.replace("-", " ")` with a string pattern: only the first '-' becomes a space. */
  function ReplaceFirstHyphen(s: string): (r: string)
    ensures |r| == |s|
    ensures '-' !in s ==> r == s
    ensures '-' in s ==> var k := IndexOf(s, '-');
              r == s[..k] + " " + s[k + 1..]
  {
    var k := IndexOf(s, '-');
    if k == -1 then s else s[..k] + " " + s[k + 1..]
  }

  /** `s.replace(/^\w/, c => c.toUpperCase())`: a leading word character is
      upper-cased; everything else is unchanged. */
  function CapitalizeFirst(s: string): (r: string)
    ensures |r| == |s|
    ensures |s| > 0 && IsWordChar(s[0]) ==> r[0] == UpperChar(s[0])
    ensures |s| > 0 && !IsWordChar(s[0]) ==> r[0] == s[0]
    ensures |s| == 0 || r[1..] == s[1..]
  {
    if |s| > 0 && IsWordChar(s[0]) then [UpperChar(s[0])] + s[1..] else s
  }

  /** The page title, or `None` where the source fails (no '/' in the location). */
  function Title(location: string): (t: Option<string>)
    ensures t.None? <==> '/' !in location
    ensures t.Some? ==> |t.value| == |Segment(location).value|
  {
    match Segment(location)
    case None => None
    case Some(seg) => Some(CapitalizeFirst(ReplaceFirstHyphen(seg)))
  }

  /** The heading: the title, or "Page" when it is empty, then "Under Construction". */
  function Heading(title: string): (h: string)
    ensures title != "" ==> h == title + " Under Construction"
    ensures title == "" ==> h == "Page Under Construction"
  {
    (if title == "" then "Page" else title) + " Under Construction"
  }

  // ---- Properties ------------------------------------------------------------

  /** Only the first hyphen becomes a space; later ones are kept. */
  lemma OnlyFirstHyphenReplaced(a: string, b: string)
    requires '-' !in a
    ensures ReplaceFirstHyphen(a + "-" + b) == a + " " + b
  {
    var s := a + "-" + b;
    assert s[|a|] == '-';
    assert '-' !in s[..|a|] by { assert s[..|a|] == a; }
    assert IndexOf(s, '-') == |a|;
    assert s[..|a|] == a && s[|a| + 1..] == b;
  }

  /** The segment of a location that starts with '/'. */
  lemma SegmentAfterLeadingSlash(x: string)
    ensures Segment("/" + x) == Some(BeforeFirst(x, '/'))
  {
    var l := "/" + x;
    assert l[0] == '/';
    assert IndexOf(l, '/') == 0;
    assert l[1..] == x;
  }

  /** Anything after the second '/' is ignored. */
  lemma LaterSegmentsIgnored(seg: string, rest: string)
    requires '/' !in seg
    ensures Title("/" + seg + "/" + rest) == Title("/" + seg)
  {
    assert "/" + seg + "/" + rest == "/" + (seg + "/" + rest);
    SegmentAfterLeadingSlash(seg + "/" + rest);
    SegmentAfterLeadingSlash(seg);
    BeforeFirstJoin(seg, rest, '/');
  }

  /** The root location has an empty segment, so the heading reads "Page". */
  lemma RootFallsBackToPage()
    ensures Title("/") == Some("")
    ensures Heading(Title("/").value) == "Page Under Construction"
  {
    assert IndexOf("/", '/') == 0;
  }

  /** A location without '/' makes the source fail: there is no title. */
  lemma NoSlashNoTitle()
    ensures Title("client").None?
  {
    assert forall i :: 0 <= i < |"client"| ==> "client"[i] != '/';
  }

  /** A location "/seg" with no further '/' is titled from all of "seg". */
  lemma TitleOfTopLevel(seg: string)
    requires '/' !in seg
    ensures Title("/" + seg) == Some(CapitalizeFirst(ReplaceFirstHyphen(seg)))
  {
    var l := "/" + seg;
    assert l[0] == '/';
    assert IndexOf(l, '/') == 0;
    assert l[1..] == seg;
  }

  /** Capitalising a string that starts with a word character. */
  lemma CapitalizeWord(c: char, tail: string)
    requires IsWordChar(c)
    ensures CapitalizeFirst([c] + tail) == [UpperChar(c)] + tail
  {
    assert ([c] + tail)[1..] == tail;
  }

  lemma HeadSplit(a: string, b: string, c: string)
    requires |a| > 0
    ensures a + b + c == [a[0]] + (a[1..] + b + c)
  {
    assert a == [a[0]] + a[1..];
  }

  /** The title text of a hyphenated segment. */
  lemma HyphenatedText(w1: string, w2: string)
    requires |w1| > 0 && IsWordChar(w1[0]) && '-' !in w1
    ensures CapitalizeFirst(ReplaceFirstHyphen(w1 + "-" + w2)) == [UpperChar(w1[0])] + (w1[1..] + " " + w2)
  {
    OnlyFirstHyphenReplaced(w1, w2);
    HeadSplit(w1, " ", w2);
    CapitalizeWord(w1[0], w1[1..] + " " + w2);
  }

  /** A hyphenated top-level location such as "/client-portal" is titled
      with a capital and a space: "Client portal". */
  lemma HyphenatedTitle(w1: string, w2: string)
    requires |w1| > 0 && IsWordChar(w1[0]) && '-' !in w1 && '/' !in w1 && '/' !in w2
    ensures Title("/" + w1 + "-" + w2) == Some([UpperChar(w1[0])] + (w1[1..] + " " + w2))
  {
    var seg := w1 + "-" + w2;
    assert '/' !in seg;
    assert "/" + w1 + "-" + w2 == "/" + seg;
    TitleOfTopLevel(seg);
    HyphenatedText(w1, w2);
  }

  /** A segment starting with a non-word character keeps it: "/-x" gives " x". */
  lemma LeadingNonWordKept()
    ensures Title("/-x") == Some(" x")
  {
    assert "/-x" == "/" + "-x";
    TitleOfTopLevel("-x");
    assert "-x" == "" + "-" + "x";
    OnlyFirstHyphenReplaced("", "x");
    assert "" + " " + "x" == " x";
  }
}
