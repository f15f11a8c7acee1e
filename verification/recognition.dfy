/**
 * First-match recognition over a directory of pickled face encodings: the
 * query is the first encoding found in the frame, the gallery files are
 * scanned in listing order, and only `.pickle` files are loaded and compared.
 */
module Recognition {
  import opened Wrappers
  import opened Vision

  const PickleSuffix := ".pickle"
  const NoPersonsFound := "no_persons_found"
  const UnknownPerson := "unknown_person"

  /** The gallery directory: its path, its listing in `os.listdir` order, and what unpickling each path yields. */
  datatype Gallery = Gallery(dir: string, files: seq<string>, load: string -> Encoding)

  /** `s.endswith(suffix)`. */
  predicate EndsWith(s: string, suffix: string)
  {
    |suffix| <= |s| && s[|s| - |suffix|..] == suffix
  }

  /** `pat` occurs in `s` starting at index `i`. */
  predicate OccursAt(s: string, pat: string, i: int)
  {
    0 <= i && i + |pat| <= |s| && s[i..i + |pat|] == pat
  }

  /** `s.replace(pat, '')`: every non-overlapping occurrence of `pat`, scanning left to right, is removed. */
  function RemoveAll(s: string, pat: string): string
    requires pat != []
    decreases |s|
  {
    if |s| < |pat| then s
    else if s[..|pat|] == pat then RemoveAll(s[|pat|..], pat)
    else [s[0]] + RemoveAll(s[1..], pat)
  }

  /** The name a gallery file stands for: `filename.replace('.pickle', '')`. */
  function StoredName(filename: string): string
  {
    RemoveAll(filename, PickleSuffix)
  }

  /** The `.pickle` files of a listing, in listing order: the files the scan loads when nothing matches. */
  function PickleFiles(files: seq<string>): (r: seq<string>)
    ensures forall j :: 0 <= j < |r| ==> EndsWith(r[j], PickleSuffix)
    ensures |r| <= |files|
    decreases |files|
  {
    if files == [] then []
    else
      var last := files[|files| - 1];
      PickleFiles(files[..|files| - 1]) + (if EndsWith(last, PickleSuffix) then [last] else [])
  }

  /** The i-th listed file is a `.pickle` file whose stored encoding matches the query within the tolerance. */
  predicate Hit(g: Gallery, lib: FaceLib, query: Encoding, i: int)
    requires 0 <= i < |g.files|
  {
    EndsWith(g.files[i], PickleSuffix) && lib.compare(g.load(JoinPath(g.dir, g.files[i])), query, Tolerance)
  }

  /** Index i is the first hit of the listing. */
  predicate FirstHit(g: Gallery, lib: FaceLib, query: Encoding, i: int)
  {
    0 <= i < |g.files| && Hit(g, lib, query, i) && forall j :: 0 <= j < i ==> !Hit(g, lib, query, j)
  }

  /** Some listed file is a hit. */
  predicate Matched(g: Gallery, lib: FaceLib, query: Encoding)
  {
    exists i :: 0 <= i < |g.files| && Hit(g, lib, query, i)
  }

  /** The query encoding: the first encoding of the faces found in the RGB frame, if any. */
  function Probe(lib: FaceLib, img: Frame): Option<Encoding>
  {
    var rgb := BgrToRgb(img);
    var locations := lib.locate(rgb);
    if locations == [] then None
    else
      var encodings := lib.encode(rgb, locations);
      if encodings == [] then None else Some(encodings[0])
  }

  /**
   * `recognize`: 'no_persons_found' when the frame yields no face or no encoding,
   * otherwise the name of the FIRST matching `.pickle` file in listing order, or
   * 'unknown_person'. `loaded` lists the gallery files the scan unpickled, in order; it
   * observes the scan and is not part of what `recognize` returns.
   */
  method Recognize(img: Frame, g: Gallery, lib: FaceLib) returns (person: string, loaded: seq<string>)
    ensures Probe(lib, img).None? ==> person == NoPersonsFound && loaded == []
    ensures Probe(lib, img).Some? && Matched(g, lib, Probe(lib, img).value) ==>
      exists k :: 0 <= k < |g.files| && FirstHit(g, lib, Probe(lib, img).value, k) &&
        person == StoredName(g.files[k]) && loaded == PickleFiles(g.files[..k + 1])
    ensures Probe(lib, img).Some? && !Matched(g, lib, Probe(lib, img).value) ==>
      person == UnknownPerson && loaded == PickleFiles(g.files)
  {
    var rgbImg := BgrToRgb(img);
    var faceLocations := lib.locate(rgbImg);
    if faceLocations == [] {
      return NoPersonsFound, [];
    }
    var faceEncodings := lib.encode(rgbImg, faceLocations);
    if faceEncodings == [] {
      return NoPersonsFound, [];
    }
    var faceEncoding := faceEncodings[0];
    loaded := [];
    for i := 0 to |g.files|
      invariant forall j :: 0 <= j < i ==> !Hit(g, lib, faceEncoding, j)
      invariant loaded == PickleFiles(g.files[..i])
    {
      var filename := g.files[i];
      assert g.files[..i + 1][..i] == g.files[..i];
      if EndsWith(filename, PickleSuffix) {
        var storedEncoding := g.load(JoinPath(g.dir, filename));
        loaded := loaded + [filename];
        var matches := lib.compare(storedEncoding, faceEncoding, Tolerance);
        if matches {
          assert FirstHit(g, lib, faceEncoding, i);
          return StoredName(filename), loaded;
        }
      }
    }
    assert g.files[..|g.files|] == g.files;
    return UnknownPerson, loaded;
  }

  /** Every `.pickle` file of the listing is among the files the scan would load. */
  lemma {:induction false} PickleFilesKeepsEveryPickle(files: seq<string>, i: nat)
    requires i < |files| && EndsWith(files[i], PickleSuffix)
    ensures files[i] in PickleFiles(files)
    decreases |files|
  {
    if i < |files| - 1 {
      var init := files[..|files| - 1];
      PickleFilesKeepsEveryPickle(init, i);
    }
  }

  /** Removing from a string in which `pat` never occurs leaves it as it was. */
  lemma {:induction false} RemoveAllWithoutOccurrence(s: string, pat: string)
    requires pat != []
    requires forall i :: !OccursAt(s, pat, i)
    ensures RemoveAll(s, pat) == s
    decreases |s|
  {
    if |s| >= |pat| {
      assert !OccursAt(s, pat, 0);
      forall i ensures !OccursAt(s[1..], pat, i) {
        if 0 <= i && i + |pat| <= |s| - 1 {
          assert s[1..][i..i + |pat|] == s[i + 1..i + 1 + |pat|];
          assert !OccursAt(s, pat, i + 1);
        }
      }
      RemoveAllWithoutOccurrence(s[1..], pat);
    }
  }

  /** A trailing `.pickle` is dropped without disturbing what comes before it: no occurrence can straddle it. */
  lemma {:induction false} StoredNameDropsSuffix(a: string)
    ensures StoredName(a + PickleSuffix) == StoredName(a)
    decreases |a|
  {
    var P := PickleSuffix;
    var s := a + P;
    if |a| == 0 {
      assert s == P;
      assert s[|P|..] == [];
    } else if |a| < |P| {
      assert '.' !in P[1..];
      assert P[|a|] == P[1..][|a| - 1];
      assert s[..|P|][|a|] == P[0];
      assert s[..|P|] != P;
      assert s[1..] == a[1..] + P;
      StoredNameDropsSuffix(a[1..]);
    } else if a[..|P|] == P {
      assert s[..|P|] == P;
      assert s[|P|..] == a[|P|..] + P;
      StoredNameDropsSuffix(a[|P|..]);
    } else {
      assert s[..|P|] == a[..|P|];
      assert s[1..] == a[1..] + P;
      StoredNameDropsSuffix(a[1..]);
    }
  }

  /** A file saved as `x.pickle`, where `x` holds no `.pickle`, stands for `x`. */
  lemma StoredNameOfPlainName(x: string)
    requires forall i :: !OccursAt(x, PickleSuffix, i)
    ensures StoredName(x + PickleSuffix) == x
  {
    StoredNameDropsSuffix(x);
    RemoveAllWithoutOccurrence(x, PickleSuffix);
  }

  /** Every occurrence goes, not only the suffix: `a.pickle.pickle` stands for `a`. */
  lemma StoredNameRemovesEveryOccurrence()
    ensures StoredName("a.pickle.pickle") == "a"
  {
    var s := "a.pickle.pickle";
    assert s[..7][0] != PickleSuffix[0];
    assert s[1..][..7] == PickleSuffix;
    assert s[1..][7..][..7] == PickleSuffix;
    assert s[1..][7..][7..] == [];
  }
}
