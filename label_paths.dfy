/** Where `photoInferenceAndGetInferenceResults` looks for the detector's
    label file: `os.path.splitext(RDEdirectory + image_name)`, then the last
    '/'-separated piece of the root, then '.txt' under `labels/`. The POSIX
    behaviour of `os.path.join`, `str.rfind` and `os.path.splitext` is written
    out here. */
module LabelPaths {

  /** `s.rfind(c)`: the last index holding `c`, or -1. */
  function RFind(s: string, c: char): (i: int)
    ensures -1 <= i < |s|
    ensures i >= 0 ==> s[i] == c
    ensures forall k :: i < k < |s| ==> s[k] != c
  {
    if s == [] then -1
    else if s[|s| - 1] == c then |s| - 1
    else RFind(s[..|s| - 1], c)
  }

  /** True when `p[lo..hi]` holds a character other than '.'. */
  predicate HasNonDot(p: string, lo: int, hi: int)
    requires 0 <= lo <= hi <= |p|
  {
    exists k :: lo <= k < hi && p[k] != '.'
  }

  /** `os.path.splitext(p)`: the extension starts at the last '.' of the last
      path component, unless everything before that '.' in the component is
      dots (so ".bashrc" has no extension). */
  function SplitExt(p: string): (parts: (string, string))
    ensures parts.0 + parts.1 == p
    ensures parts.1 == [] || (parts.1[0] == '.' && '/' !in parts.1 && '.' !in parts.1[1..])
  {
    var sepIndex := RFind(p, '/');
    var dotIndex := RFind(p, '.');
    if dotIndex > sepIndex && HasNonDot(p, sepIndex + 1, dotIndex) then
      (p[..dotIndex], p[dotIndex..])
    else
      (p, [])
  }

  /** `p.split(sep='/')[-1]`: the text after the last '/'. */
  function LastComponent(p: string): (name: string)
    ensures '/' !in name
    ensures |name| <= |p| && p[|p| - |name|..] == name
  {
    p[RFind(p, '/') + 1..]
  }

  /** `os.path.join(a, b)` for a relative `b`. */
  function JoinPath(a: string, b: string): (r: string)
    requires b == [] || b[0] != '/'
    ensures r == a + b || r == a + "/" + b
  {
    if a == [] || a[|a| - 1] == '/' then a + b else a + "/" + b
  }

  /** The joined path starts with `a` and ends with `b`, with at most one
      '/' added between them. */
  lemma JoinPathKeepsBoth(a: string, b: string)
    requires b == [] || b[0] != '/'
    ensures var r := JoinPath(a, b);
      |a| + |b| <= |r| <= |a| + |b| + 1 && r[..|a|] == a && r[|r| - |b|..] == b
  {
    var r := JoinPath(a, b);
    if r == a + "/" + b {
      assert r[..|a|] == a;
      assert r[|r| - |b|..] == b;
    }
  }

  /** `RDEdirectory`: the detector's fixed output slot beside the script. */
  function DetectDirectory(scriptDir: string): (dir: string)
    ensures |dir| > 0 && dir[|dir| - 1] == '/'
  {
    var dir := JoinPath(scriptDir, "runs/detect/exp/");
    assert dir[|dir| - 1] == "runs/detect/exp/"[15];
    dir
  }

  /** `labels_filepath` as the code computes it. */
  function LabelsFilePath(scriptDir: string, imageName: string): (path: string)
  {
    var rdeDirectory := DetectDirectory(scriptDir);
    var pre := SplitExt(rdeDirectory + imageName).0;
    var labelsFilename := LastComponent(pre) + ".txt";
    rdeDirectory + "labels/" + labelsFilename
  }

  // ----- the label file is named after the image's own base name -----

  lemma {:induction false} RFindAppend(x: string, y: string, c: char)
    ensures RFind(x + y, c) == if c in y then |x| + RFind(y, c) else RFind(x, c)
  {
    if y == [] {
      assert x + y == x;
    } else {
      var last := |y| - 1;
      assert (x + y)[..|x + y| - 1] == x + y[..last];
      if y[last] != c {
        RFindAppend(x, y[..last], c);
        assert c in y <==> c in y[..last] by {
          if c in y {
            var k :| 0 <= k < |y| && y[k] == c;
            assert y[..last][k] == c;
          }
        }
      }
    }
  }

  /** Below a directory prefix ending in '/', splitting the extension only
      looks at the final component. */
  lemma SplitExtAfterSeparator(prefix: string, b: string)
    requires |prefix| > 0 && prefix[|prefix| - 1] == '/'
    requires '/' !in b
    ensures SplitExt(prefix + b) == (prefix + SplitExt(b).0, SplitExt(b).1)
  {
    var p := prefix + b;
    RFindAppend(prefix, b, '/');
    RFindAppend(prefix, b, '.');
    assert RFind(p, '/') == |prefix| - 1;
    assert RFind(b, '/') == -1;
    if '.' in b {
      var db := RFind(b, '.');
      assert RFind(p, '.') == |prefix| + db;
      assert HasNonDot(p, |prefix|, |prefix| + db) <==> HasNonDot(b, 0, db) by {
        if HasNonDot(p, |prefix|, |prefix| + db) {
          var k :| |prefix| <= k < |prefix| + db && p[k] != '.';
          assert b[k - |prefix|] == p[k];
        }
        if HasNonDot(b, 0, db) {
          var k :| 0 <= k < db && b[k] != '.';
          assert p[|prefix| + k] == b[k];
        }
      }
      assert p[..|prefix| + db] == prefix + b[..db];
      assert p[|prefix| + db..] == b[db..];
    } else {
      assert RFind(prefix, '.') != |prefix| - 1;
      assert RFind(p, '.') <= RFind(p, '/');
    }
  }

  lemma LastComponentAfterSeparator(prefix: string, r: string)
    requires |prefix| > 0 && prefix[|prefix| - 1] == '/'
    requires '/' !in r
    ensures LastComponent(prefix + r) == r
  {
    RFindAppend(prefix, r, '/');
    assert (prefix + r)[|prefix|..] == r;
  }

  /** A path is what comes before its last component, which is empty or
      ends in '/', followed by that component. */
  lemma SplitAtLastSeparator(p: string)
    ensures var head := p[..|p| - |LastComponent(p)|];
      p == head + LastComponent(p) && (head == [] || head[|head| - 1] == '/')
  {
    var i := RFind(p, '/');
    var b := p[i + 1..];
    assert LastComponent(p) == b;
    var head := p[..i + 1];
    assert |p| - |b| == i + 1;
    assert p == head + b;
    if i >= 0 {
      assert head[i] == p[i];
    }
  }

  lemma ConcatAssociative(x: string, y: string, z: string)
    ensures x + (y + z) == (x + y) + z
  {
  }

  lemma AppendKeepsLastSeparator(dir: string, head: string)
    requires |dir| > 0 && dir[|dir| - 1] == '/'
    requires head == [] || head[|head| - 1] == '/'
    ensures |dir + head| > 0 && (dir + head)[|dir + head| - 1] == '/'
  {
    if head == [] {
      assert dir + head == dir;
    }
  }

  /** Below a directory ending in '/', the path up to the image's last
      component ends in '/' too. */
  lemma DirectoryAndHead(dir: string, p: string)
    requires |dir| > 0 && dir[|dir| - 1] == '/'
    ensures var prefix := dir + p[..|p| - |LastComponent(p)|];
      dir + p == prefix + LastComponent(p) && |prefix| > 0 && prefix[|prefix| - 1] == '/'
  {
    var b := LastComponent(p);
    var head := p[..|p| - |b|];
    SplitAtLastSeparator(p);
    ConcatAssociative(dir, head, b);
    AppendKeepsLastSeparator(dir, head);
  }

  /** The label file is `labels/` + the image's base name with its last
      extension replaced by ".txt": directories in the image name and in the
      script's own path play no part in the file name. */
  lemma LabelsFilePathFromBaseName(scriptDir: string, imageName: string)
    ensures LabelsFilePath(scriptDir, imageName)
         == DetectDirectory(scriptDir) + "labels/" + SplitExt(LastComponent(imageName)).0 + ".txt"
  {
    RootBelowDirectory(DetectDirectory(scriptDir), imageName);
  }

  /** Below a directory ending in '/', the last component of the split-off
      root is the base name's own root. */
  lemma RootBelowDirectory(dir: string, imageName: string)
    requires |dir| > 0 && dir[|dir| - 1] == '/'
    ensures LastComponent(SplitExt(dir + imageName).0) == SplitExt(LastComponent(imageName)).0
  {
    var b := LastComponent(imageName);
    var prefix := dir + imageName[..|imageName| - |b|];
    DirectoryAndHead(dir, imageName);
    SplitExtAfterSeparator(prefix, b);
    var stem := SplitExt(b).0;
    RootKeepsNoSeparator(b);
    LastComponentAfterSeparator(prefix, stem);
  }

  lemma RootKeepsNoSeparator(b: string)
    requires '/' !in b
    ensures '/' !in SplitExt(b).0
  {
    assert b == SplitExt(b).0 + SplitExt(b).1;
  }

  /** A base name with a stem and one extension loses exactly that extension;
      a name whose stem holds a '.' loses only the last extension. */
  lemma SplitExtOfSimpleName(stem: string, ext: string)
    requires '/' !in stem && '/' !in ext && '.' !in ext
    requires exists k :: 0 <= k < |stem| && stem[k] != '.'
    ensures SplitExt(stem + "." + ext) == (stem, "." + ext)
  {
    var p := stem + "." + ext;
    RFindAppend(stem + ".", ext, '.');
    RFindAppend(stem + ".", ext, '/');
    RFindAppend(stem, ".", '/');
    RFindAppend(stem, ".", '.');
    assert RFind(p, '.') == |stem|;
    assert RFind(p, '/') == RFind(stem, '/');
    assert RFind(stem, '/') == -1;
    var k :| 0 <= k < |stem| && stem[k] != '.';
    assert p[k] == stem[k];
    assert p[..|stem|] == stem;
    assert p[|stem|..] == "." + ext;
  }

  /** An image saved as `stem.ext` has its labels in `labels/stem.txt`. */
  lemma LabelsFilePathOfSimpleName(scriptDir: string, stem: string, ext: string)
    requires '/' !in stem && '/' !in ext && '.' !in ext
    requires exists k :: 0 <= k < |stem| && stem[k] != '.'
    ensures LabelsFilePath(scriptDir, stem + "." + ext) == DetectDirectory(scriptDir) + "labels/" + stem + ".txt"
  {
    var name := stem + "." + ext;
    LabelsFilePathFromBaseName(scriptDir, name);
    assert '/' !in name;
    assert LastComponent(name) == name;
    SplitExtOfSimpleName(stem, ext);
  }

  /** The example of a camera image saved beside the script. */
  lemma LabelsFilePathExample()
    ensures LabelsFilePath("", "IMG01.JPG") == "runs/detect/exp/labels/IMG01.txt"
  {
    assert "IMG01"[0] != '.';
    LabelsFilePathOfSimpleName("", "IMG01", "JPG");
    ExampleImageNameText();
    DetectDirectoryBesideScript();
    ExampleLabelsPathText();
  }

  lemma ExampleImageNameText()
    ensures "IMG01" + "." + "JPG" == "IMG01.JPG"
  {
  }

  lemma ExampleLabelsPathText()
    ensures "runs/detect/exp/" + "labels/" + "IMG01" + ".txt" == "runs/detect/exp/labels/IMG01.txt"
  {
  }

  /** A script run from the working directory itself puts the detector's
      output under the relative `runs/detect/exp/`. */
  lemma DetectDirectoryBesideScript()
    ensures DetectDirectory("") == "runs/detect/exp/"
  {
  }
}
