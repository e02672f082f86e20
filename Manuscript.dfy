/** What the order page derives from a dropped manuscript file: its
    extension, an estimated word count and a book title taken from the
    file name. Reading the file itself is left to the caller: the text and
    the size in bytes are parameters. */
module Manuscript {

  import opened Wrappers
  import opened Text

  /** The index of the last '.' in `s`, if there is one. */
  function LastDot(s: string): (r: Option<nat>)
    ensures r.None? ==> '.' !in s
    ensures r.Some? ==> r.value < |s| && s[r.value] == '.' && '.' !in s[r.value + 1..]
  {
    if s == [] then None
    else if s[|s| - 1] == '.' then Some(|s| - 1)
    else
      var r := LastDot(s[..|s| - 1]);
      assert s == s[..|s| - 1] + [s[|s| - 1]];
      r
  }

  /** `'.' + name.split('.').pop().toLowerCase()`: a dot followed by the
      lower-cased text after the last dot (the whole name when it has none). */
  function Extension(name: string): (ext: string)
    ensures |ext| >= 1 && ext[0] == '.' && '.' !in ext[1..]
    ensures LastDot(name).None? ==> ext == "." + ToLower(name)
    ensures LastDot(name).Some? ==> ext == "." + ToLower(name[LastDot(name).value + 1..])
  {
    var tail := match LastDot(name) case None => name case Some(k) => name[k + 1..];
    assert forall i :: 0 <= i < |tail| ==> LowerChar(tail[i]) != '.';
    "." + ToLower(tail)
  }

  /** The length of the run of non-space characters `s` starts with. */
  function RunLength(s: string): (k: nat)
    ensures k <= |s|
    ensures forall i :: 0 <= i < k ==> !IsSpace(s[i])
    ensures k == |s| || IsSpace(s[k])
  {
    if s == [] || IsSpace(s[0]) then 0 else 1 + RunLength(s[1..])
  }

  /** `s.split(/\s+/).filter(word => word.length > 0)`: the maximal runs
      of non-space characters, in order. */
  function Words(s: string): (ws: seq<string>)
    ensures forall i :: 0 <= i < |ws| ==> ws[i] != [] && forall j :: 0 <= j < |ws[i]| ==> !IsSpace(ws[i][j])
    decreases |s|
  {
    if s == [] then []
    else if IsSpace(s[0]) then Words(s[1..])
    else
      var k := RunLength(s);
      [s[..k]] + Words(s[k..])
  }

  predicate IsWord(w: string) {
    w != [] && forall j :: 0 <= j < |w| ==> !IsSpace(w[j])
  }

  /** The words joined by single spaces. */
  function Join(ws: seq<string>): string {
    if ws == [] then [] else if |ws| == 1 then ws[0] else ws[0] + " " + Join(ws[1..])
  }

  /** Splitting words joined by single spaces gives the words back. */
  lemma {:induction false} WordsOfJoin(ws: seq<string>)
    requires forall i :: 0 <= i < |ws| ==> IsWord(ws[i])
    ensures Words(Join(ws)) == ws
  {
    if ws != [] {
      var w := ws[0];
      if |ws| == 1 {
        RunLengthOfWord(w, []);
        assert w + [] == w;
        assert Join(ws) == w && w[..|w|] == w && w[|w|..] == [];
      } else {
        var rest := " " + Join(ws[1..]);
        RunLengthOfWord(w, rest);
        assert Join(ws) == w + rest;
        assert (w + rest)[..|w|] == w;
        assert (w + rest)[|w|..] == rest;
        assert rest[1..] == Join(ws[1..]);
        WordsOfJoin(ws[1..]);
      }
    }
  }

  lemma {:induction false} RunLengthOfWord(w: string, rest: string)
    requires IsWord(w)
    requires rest == [] || IsSpace(rest[0])
    ensures RunLength(w + rest) == |w|
    decreases |w|
  {
    if |w| > 1 {
      assert (w + rest)[1..] == w[1..] + rest;
      RunLengthOfWord(w[1..], rest);
    } else {
      assert (w + rest)[1..] == rest;
    }
  }

  /** A single word is split into itself ... */
  lemma WordsOfWord(w: string)
    requires IsWord(w)
    ensures Words(w) == [w]
  {
    RunLengthOfWord(w, []);
    assert w + [] == w;
    assert w[..|w|] == w && w[|w|..] == [];
  }

  /** ... and any white-space character separates: the words of a string
      around it are the words before it followed by the words after it.
      With `Words([]) == []` these two fix the words of every string,
      whatever run of white space lies between them. */
  lemma {:induction false} WordsAtSpace(a: string, c: char, b: string)
    requires IsSpace(c)
    ensures Words(a + [c] + b) == Words(a) + Words(b)
    decreases |a|
  {
    var s := a + [c] + b;
    if a == [] {
      assert s[1..] == b;
      assert Words(a) + Words(b) == Words(b);
    } else if IsSpace(a[0]) {
      assert s[1..] == a[1..] + [c] + b;
      WordsAtSpace(a[1..], c, b);
    } else {
      var k := RunLength(a);
      RunLengthAtSpace(a, c, b);
      assert s[..k] == a[..k];
      assert s[k..] == a[k..] + [c] + b;
      WordsAtSpace(a[k..], c, b);
    }
  }

  lemma {:induction false} RunLengthAtSpace(a: string, c: char, b: string)
    requires IsSpace(c)
    ensures RunLength(a + [c] + b) == RunLength(a)
    decreases |a|
  {
    if a != [] && !IsSpace(a[0]) {
      assert (a + [c] + b)[1..] == a[1..] + [c] + b;
      RunLengthAtSpace(a[1..], c, b);
    }
  }

  /** The word count of a plain-text or Word upload: the words of its
      trimmed text. */
  function CountWords(text: string): nat {
    |Words(Trim(text))|
  }

  /** `Math.round(size / 6)` for a byte count. */
  function SizeEstimate(size: nat): (words: nat)
    ensures words as real - 0.5 <= size as real / 6.0 < words as real + 0.5
  {
    (size + 3) / 6
  }

  /** The word count the page uses to choose a tier: counted for `.txt`
      and `.docx`, estimated from the size for `.epub` and `.pdf`, zero
      for any other extension. */
  function EstimateWords(ext: string, text: string, size: nat): (words: nat)
    ensures ext == ".txt" || ext == ".docx" ==> words == CountWords(text)
    ensures ext == ".epub" || ext == ".pdf" ==> words == SizeEstimate(size)
    ensures ext !in {".txt", ".docx", ".epub", ".pdf"} ==> words == 0
  {
    if ext == ".txt" || ext == ".docx" then CountWords(text)
    else if ext == ".epub" || ext == ".pdf" then SizeEstimate(size)
    else 0
  }

  /** `name.replace(/\.[^/.]+$/, '')`: drop a final extension, i.e. the
      last dot and what follows it, provided that is not empty and holds
      no '/'. */
  function StripExtension(name: string): (r: string)
    ensures |r| <= |name| && r == name[..|r|]
    ensures r != name ==>
              (name[|r|] == '.' && |r| + 1 < |name| && '.' !in name[|r| + 1..] && '/' !in name[|r| + 1..])
  {
    match LastDot(name)
    case Some(k) => if k + 1 < |name| && '/' !in name[k + 1..] then name[..k] else name
    case None => name
  }

  /** Text without dots after a name does not move its last dot. */
  lemma {:induction false} LastDotSkips(p: string, t: string)
    requires '.' !in t
    ensures LastDot(p + t) == LastDot(p)
    decreases |t|
  {
    if t == [] {
      assert p + t == p;
    } else {
      var q := p + t;
      assert q[..|q| - 1] == p + t[..|t| - 1];
      assert q[|q| - 1] == t[|t| - 1];
      LastDotSkips(p, t[..|t| - 1]);
    }
  }

  /** In a name made of a stem, a dot and an extension without dots, the
      last dot is the one after the stem. */
  lemma LastDotOfStemAndExt(stem: string, ext: string)
    requires '.' !in ext
    ensures LastDot(stem + "." + ext) == Some(|stem|)
  {
    LastDotSkips(stem + ".", ext);
  }

  /** Such a name's extension is the lower-cased text after that dot ... */
  lemma ExtensionOfStemAndExt(stem: string, ext: string)
    requires '.' !in ext
    ensures Extension(stem + "." + ext) == "." + ToLower(ext)
  {
    LastDotOfStemAndExt(stem, ext);
    assert (stem + "." + ext)[|stem| + 1..] == ext;
  }

  /** ... and, when the extension is not empty and holds no slash, the
      name loses exactly the dot and the extension. */
  lemma StripExtensionOfStemAndExt(stem: string, ext: string)
    requires ext != [] && '.' !in ext && '/' !in ext
    ensures StripExtension(stem + "." + ext) == stem
  {
    LastDotOfStemAndExt(stem, ext);
    var name := stem + "." + ext;
    assert name[|stem| + 1..] == ext;
  }

  /** `.replace(/_/g, ' ')`. */
  function UnderscoresToSpaces(s: string): (r: string)
    ensures |r| == |s| && '_' !in r
    ensures forall i :: 0 <= i < |s| ==> r[i] == if s[i] == '_' then ' ' else s[i]
  {
    seq(|s|, i requires 0 <= i < |s| => if s[i] == '_' then ' ' else s[i])
  }

  /** The book title proposed for an uploaded file. */
  function TitleFromFileName(name: string): (title: string)
    ensures '_' !in title && |title| <= |name|
  {
    UnderscoresToSpaces(StripExtension(name))
  }

  /** The title of `stem.ext`, for an extension the page strips, is the
      stem with its underscores made spaces ... */
  lemma TitleOfStemAndExt(stem: string, ext: string)
    requires ext != [] && '.' !in ext && '/' !in ext
    ensures TitleFromFileName(stem + "." + ext) == UnderscoresToSpaces(stem)
  {
    StripExtensionOfStemAndExt(stem, ext);
  }

  /** ... and a name without a dot keeps all of it. */
  lemma TitleWithoutDot(name: string)
    requires '.' !in name
    ensures TitleFromFileName(name) == UnderscoresToSpaces(name)
  {
  }

  /** An example: the file `My_First_Novel.EPUB` has the extension `.epub` ... */
  lemma UploadExtensionExample()
    ensures Extension("My_First_Novel.EPUB") == ".epub"
  {
    UploadNameParts();
    ExtensionOfStemAndExt("My_First_Novel", "EPUB");
    LowerEpub();
  }

  lemma UploadNameParts()
    ensures "My_First_Novel.EPUB" == "My_First_Novel" + "." + "EPUB"
  {
  }

  lemma LowerEpub()
    ensures "." + ToLower("EPUB") == ".epub"
  {
    var l := ToLower("EPUB");
    assert l[0] == 'e' && l[1] == 'p' && l[2] == 'u' && l[3] == 'b';
  }

  /** ... and the proposed title `My First Novel`. */
  lemma UploadTitleExample()
    ensures TitleFromFileName("My_First_Novel.EPUB") == "My First Novel"
  {
    UploadNameParts();
    StripExtensionOfStemAndExt("My_First_Novel", "EPUB");
    assert UnderscoresToSpaces("My_First_Novel") == "My First Novel";
  }
}
