/**
 * The pixel-art gallery of `pixel_arts.py`: every file of a directory, in sorted order,
 * named `<name>_<width>x<height>.<ext>`, becomes a link to `<stem>.png` holding an image
 * of that size.  The directory listing is the input (a list of file names); the URL of
 * the static file server is a parameter.
 */
module PixelArts {
  import opened Results
  import opened Text

  /** The position of the last `c` in `s`, if any (Python `rfind`). */
  function LastIndex(s: string, c: char): (r: Option<nat>)
    ensures r.Some? ==> r.value < |s| && s[r.value] == c && c !in s[r.value + 1..]
    ensures r.None? <==> c !in s
  {
    if s == [] then None
    else if s[|s| - 1] == c then Some(|s| - 1)
    else
      assert s == s[..|s| - 1] + [s[|s| - 1]];
      LastIndex(s[..|s| - 1], c)
  }

  /** `Path.stem`: the name without its last suffix; a leading or trailing dot is no suffix. */
  function Stem(fileName: string): (stem: string)
    ensures |stem| <= |fileName| && stem == fileName[..|stem|]
  {
    match LastIndex(fileName, '.')
    case Some(i) => if 0 < i < |fileName| - 1 then fileName[..i] else fileName
    case None => fileName
  }

  /** The stem of `<stem>.<ext>` is `<stem>`, for a non-empty stem and extension. */
  lemma StemOfSuffixed(stem: string, ext: string)
    requires stem != [] && ext != [] && '.' !in ext
    ensures Stem(stem + "." + ext) == stem
  {
    var s := stem + "." + ext;
    assert s[|stem|] == '.';
    assert s[|stem| + 1..] == ext;
  }

  /** What a file name describes: the picture's name and size. */
  datatype Art = Art(name: string, width: int, height: int)

  /**
   * The per-file parse: the stem splits at '_' into exactly two parts (otherwise the
   * unpacking raises ValueError); the width is the integer before the first 'x' of the
   * size part and the height the integer after it (a size part without 'x' raises
   * IndexError, once the width has been read; a piece that is no integer raises ValueError).
   */
  function ParseStem(stem: string): (r: Result<Art>)
    ensures r.Err? ==> r.error == ValueError || r.error == IndexError
    ensures r.Err? && r.error == IndexError ==> |Split(stem, '_')| == 2 && 'x' !in Split(stem, '_')[1]
    ensures r.Ok? ==>
      && |Split(stem, '_')| == 2
      && r.value.name == Split(stem, '_')[0]
      && stem == r.value.name + "_" + Split(stem, '_')[1]
  {
    var parts := Split(stem, '_');
    if |parts| != 2 then Err(ValueError)
    else
      var name, size := parts[0], parts[1];
      var sides := Split(size, 'x');
      match ParseInt(sides[0])
      case None => Err(ValueError)
      case Some(width) =>
        if |sides| < 2 then
          assert 'x' !in size by {
            if 'x' in size {
              SplitAtSeparator(size, 'x');
            }
          }
          Err(IndexError)
        else
          match ParseInt(sides[1])
          case None => Err(ValueError)
          case Some(height) =>
            assert stem == name + "_" + size by {
              SplitParts(stem, '_');
            }
            Ok(Art(name, width, height))
  }

  /** Text that splits into exactly two pieces is the two pieces around the separator. */
  lemma {:induction false} SplitParts(s: string, c: char)
    requires |Split(s, c)| == 2
    ensures s == Split(s, c)[0] + [c] + Split(s, c)[1]
    decreases |s|
  {
    var parts := Split(s, c);
    var rest := Split(s[1..], c);
    if s[0] == c {
      assert rest == [parts[1]];
      assert c !in s[1..] by {
        if c in s[1..] {
          SplitAtSeparator(s[1..], c);
        }
      }
      SplitNone(s[1..], c);
    } else {
      assert |rest| == 2;
      SplitParts(s[1..], c);
      assert parts[0] == [s[0]] + rest[0];
    }
  }

  /** An integer's text has no letter and no '_' in it. */
  lemma IntTextHasNo(i: int, c: char)
    requires c != '-' && DigitValue(c) == 16
    ensures c !in IntText(i)
  {
    var n := if i < 0 then -i else i;
    assert IsDigits(Decimal(n), 10);
    if i < 0 {
      assert IntText(i) == "-" + Decimal(n);
    }
  }

  /** `<width>x<height>` splits at 'x' into the two numerals. */
  lemma SizeSplits(width: int, height: int)
    ensures var size := IntText(width) + "x" + IntText(height);
      && '_' !in size
      && Split(size, 'x') == [IntText(width), IntText(height)]
  {
    var w, h := IntText(width), IntText(height);
    IntTextHasNo(width, '_');
    IntTextHasNo(height, '_');
    IntTextHasNo(width, 'x');
    IntTextHasNo(height, 'x');
    SplitFirst(w, 'x', h);
    SplitNone(h, 'x');
  }

  /**
   * The file names the gallery expects read back: `<name>_<width>x<height>` parses to
   * that name and size, for a name without '_'.
   */
  lemma ParseStemRoundTrip(name: string, width: int, height: int)
    requires '_' !in name
    ensures ParseStem(name + "_" + IntText(width) + "x" + IntText(height)) == Ok(Art(name, width, height))
  {
    var size := IntText(width) + "x" + IntText(height);
    SizeSplits(width, height);
    SplitFirst(name, '_', size);
    SplitNone(size, '_');
    assert name + "_" + size == name + "_" + IntText(width) + "x" + IntText(height);
    assert Split(name + "_" + size, '_') == [name, size];
    IntTextRoundTrip(width);
    IntTextRoundTrip(height);
  }

  /** A stem without '_', or with more than one, fails the unpacking. */
  lemma UnpackingNeedsOneUnderscore(stem: string)
    requires |Split(stem, '_')| != 2
    ensures ParseStem(stem) == Err(ValueError)
  {
  }

  /** A numeric size part without 'x' reads the width, then fails on the missing height. */
  lemma MissingHeight(name: string, width: int)
    requires '_' !in name
    ensures ParseStem(name + "_" + IntText(width)) == Err(IndexError)
  {
    var w := IntText(width);
    IntTextHasNo(width, '_');
    IntTextHasNo(width, 'x');
    SplitFirst(name, '_', w);
    SplitNone(w, '_');
    SplitNone(w, 'x');
    IntTextRoundTrip(width);
  }

  /** The link the page shows for one file: its `href` and the image inside it. */
  datatype Link = Link(href: string, src: string, width: int, height: int, alt: string)

  /** The link of one file: both URLs point at `<stem>.png`, whatever the file's own extension. */
  function LinkOf(fileName: string, staticUrl: string -> string): (r: Result<Link>)
    ensures r.Ok? ==>
      && r.value.href == r.value.src == ".." + staticUrl("images/pixel-arts/" + Stem(fileName) + ".png")
      && ParseStem(Stem(fileName)) == Ok(Art(r.value.alt, r.value.width, r.value.height))
    ensures r.Err? <==> ParseStem(Stem(fileName)).Err?
  {
    var stem := Stem(fileName);
    match ParseStem(stem)
    case Err(e) => Err(e)
    case Ok(art) =>
      var src := ".." + staticUrl("images/pixel-arts/" + stem + ".png");
      Ok(Link(src, src, art.width, art.height, art.name))
  }

  /**
   * `generate`: one link per file of the directory, in sorted order of the file names
   * (the files share their directory, so paths compare as their names do).
   */
  function Generate(files: seq<string>, staticUrl: string -> string): (r: Result<seq<Link>>)
    ensures r.Ok? <==> forall f :: f in files ==> LinkOf(f, staticUrl).Ok?
    ensures r.Ok? ==>
      && |r.value| == |files|
      && forall i :: 0 <= i < |files| ==> LinkOf(SortStrings(files)[i], staticUrl) == Ok(r.value[i])
    ensures r.Err? ==> exists f :: f in files && LinkOf(f, staticUrl) == Err(r.error)
  {
    SortedSameFiles(files);
    MapResult(SortStrings(files), file => LinkOf(file, staticUrl))
  }

  /** Sorting keeps the files: the same ones, as many of them. */
  lemma SortedSameFiles(files: seq<string>)
    ensures |SortStrings(files)| == |files|
    ensures forall f :: f in files <==> f in SortStrings(files)
  {
    var sorted := SortStrings(files);
    assert |multiset(sorted)| == |multiset(files)|;
    forall f
      ensures f in files <==> f in sorted
    {
      assert f in files <==> f in multiset(files);
    }
  }
}
