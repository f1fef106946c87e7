/**
 * `find_a_upload_file`: look a binary file up in a directory listing by the
 * stem and extension of a given name, where a stem longer than 36
 * characters loses its last 36 (the appended GUID), and report the first
 * match and the number of matches.
 */
module FileSearch {
  import opened Wrappers
  import opened PyText

  /** The last position of `ch` in `s`, or -1 (`str.rfind`). */
  function RFind(s: string, ch: char): (k: int)
    ensures -1 <= k < |s|
    ensures k >= 0 ==> s[k] == ch
    ensures forall i :: k < i < |s| ==> s[i] != ch
  {
    if s == [] then -1
    else if s[|s| - 1] == ch then |s| - 1
    else RFind(s[..|s| - 1], ch)
  }

  function Max(a: int, b: int): int {
    if a < b then b else a
  }

  /** Some character strictly between positions `lo` and `hi` is not a dot. */
  predicate HasNonDot(p: string, lo: int, hi: int)
    requires 0 <= lo && hi <= |p|
  {
    exists i :: lo <= i < hi && p[i] != '.'
  }

  /**
   * `ntpath.splitext`: the extension starts at the last dot of the last
   * path component, unless everything before that dot in the component is
   * dots; otherwise the extension is empty.
   */
  function SplitExt(p: string): (string, string) {
    var sepIndex := Max(RFind(p, '\\'), RFind(p, '/'));
    var dotIndex := RFind(p, '.');
    if dotIndex > sepIndex && HasNonDot(p, sepIndex + 1, dotIndex) then (p[..dotIndex], p[dotIndex..])
    else (p, "")
  }

  /**
   * Stem and extension put back together give the name; a non-empty
   * extension is a dot followed by no further dot or separator, after a
   * stem whose last component is not all dots.
   */
  lemma SplitExtParts(p: string)
    ensures SplitExt(p).0 + SplitExt(p).1 == p
    ensures var ext := SplitExt(p).1;
            ext != [] ==> ext[0] == '.' && forall i :: 1 <= i < |ext| ==> ext[i] != '.' && ext[i] != '\\' && ext[i] != '/'
    ensures SplitExt(p).1 == [] ==> SplitExt(p).0 == p
    ensures var sepIndex := Max(RFind(p, '\\'), RFind(p, '/'));
            var dotIndex := RFind(p, '.');
            && (dotIndex > sepIndex && HasNonDot(p, sepIndex + 1, dotIndex) ==> SplitExt(p).1 == p[dotIndex..])
            && (!(dotIndex > sepIndex && HasNonDot(p, sepIndex + 1, dotIndex)) ==> SplitExt(p).1 == [])
  {
    var sepIndex := Max(RFind(p, '\\'), RFind(p, '/'));
    var dotIndex := RFind(p, '.');
    if dotIndex > sepIndex && HasNonDot(p, sepIndex + 1, dotIndex) {
      var ext := p[dotIndex..];
      forall i | 1 <= i < |ext|
        ensures ext[i] != '.' && ext[i] != '\\' && ext[i] != '/'
      {
        assert ext[i] == p[dotIndex + i];
      }
    }
  }

  /** The stem searched for: the name's stem, less its last 36 characters when it is longer than 36. */
  function SearchStem(root: string): (b: string)
    ensures |root| > 36 ==> |b| == |root| - 36
    ensures |root| <= 36 ==> b == root
    ensures b == root[..|b|]
  {
    if |root| > 36 then root[..|root| - 36] else root
  }

  predicate IsMatch(f: string, stem: string, ext: string) {
    StartsWith(f, stem) && EndsWith(f, ext)
  }

  /** The listed names that start with the stem and end with the extension, in listing order. */
  function Matches(listing: seq<string>, stem: string, ext: string): (ms: seq<string>)
    ensures |ms| <= |listing|
  {
    if listing == [] then []
    else
      var last := listing[|listing| - 1];
      Matches(listing[..|listing| - 1], stem, ext) + (if IsMatch(last, stem, ext) then [last] else [])
  }

  lemma {:induction false} MatchesAreTheMatchingNames(listing: seq<string>, stem: string, ext: string)
    ensures forall f :: f in Matches(listing, stem, ext) <==> f in listing && IsMatch(f, stem, ext)
    ensures Matches(listing, stem, ext) != [] ==>
              && FirstMatch(listing, stem, ext) < |listing|
              && Matches(listing, stem, ext)[0] == listing[FirstMatch(listing, stem, ext)]
    decreases |listing|
  {
    if listing != [] {
      var init := listing[..|listing| - 1];
      var last := listing[|listing| - 1];
      MatchesAreTheMatchingNames(init, stem, ext);
      assert listing == init + [last];
      var ms := Matches(init, stem, ext);
      if ms != [] {
        var k := FirstMatch(init, stem, ext);
        assert listing[k] == init[k];
        FirstMatchIs(listing, stem, ext, k);
      } else if IsMatch(last, stem, ext) {
        assert forall i :: 0 <= i < |init| ==> listing[i] == init[i] && init[i] in init;
        FirstMatchIs(listing, stem, ext, |init|);
      }
    }
  }

  /** The position of the first match in the listing, or `|listing|`. */
  function FirstMatch(listing: seq<string>, stem: string, ext: string): (k: nat)
    ensures k <= |listing|
    ensures k < |listing| ==> IsMatch(listing[k], stem, ext)
    ensures forall i :: 0 <= i < k ==> !IsMatch(listing[i], stem, ext)
  {
    if listing == [] then 0
    else if IsMatch(listing[0], stem, ext) then 0
    else 1 + FirstMatch(listing[1..], stem, ext)
  }

  lemma FirstMatchIs(listing: seq<string>, stem: string, ext: string, k: nat)
    requires k < |listing| && IsMatch(listing[k], stem, ext)
    requires forall i :: 0 <= i < k ==> !IsMatch(listing[i], stem, ext)
    ensures FirstMatch(listing, stem, ext) == k
  {
  }

  /** `(first_filename, count)`: the first match (None when there is none) and the number of matches. */
  datatype Found = Found(first: Option<string>, count: nat)

  /**
   * What `find_a_upload_file` returns: `('', 0)` for a missing or empty
   * name, otherwise the first match and the count of matches.
   */
  function FindSpec(listing: seq<string>, name: Option<string>): Found {
    if name.None? || name.value == "" then Found(Some(""), 0)
    else
      var (root, ext) := SplitExt(name.value);
      var ms := Matches(listing, SearchStem(root), ext);
      Found(if ms == [] then None else Some(ms[0]), |ms|)
  }

  /** `find_a_upload_file(searchFolder, fileToSearch)` with the folder's listing given. */
  method FindAUploadFile(listing: seq<string>, name: Option<string>) returns (r: Found)
    ensures r == FindSpec(listing, name)
  {
    if name.None? || name.value == "" {
      return Found(Some(""), 0);
    }
    var (root, ext) := SplitExt(name.value);
    var stem := SearchStem(root);
    var first: Option<string> := None;
    var count: nat := 0;
    var i := 0;
    while i < |listing|
      invariant 0 <= i <= |listing|
      invariant count == |Matches(listing[..i], stem, ext)|
      invariant first == if count == 0 then None else Some(Matches(listing[..i], stem, ext)[0])
    {
      var f := listing[i];
      assert listing[..i + 1][..i] == listing[..i];
      if StartsWith(f, stem) && EndsWith(f, ext) {
        if first.None? {
          first := Some(f);
        }
        count := count + 1;
      }
      i := i + 1;
    }
    assert listing[..i] == listing;
    return Found(first, count);
  }

  /**
   * A listed file of exactly the searched name is always found: the count
   * is at least one and the first match is the earliest matching entry.
   */
  lemma OwnNameIsFound(listing: seq<string>, name: string)
    requires name != [] && name in listing
    ensures var r := FindSpec(listing, Some(name));
            var (root, ext) := SplitExt(name);
            && r.count >= 1
            && r.first == Some(listing[FirstMatch(listing, SearchStem(root), ext)])
  {
    var (root, ext) := SplitExt(name);
    var stem := SearchStem(root);
    SplitExtParts(name);
    assert name[..|stem|] == stem by {
      assert name[..|root|] == root;
    }
    assert IsMatch(name, stem, ext);
    MatchesAreTheMatchingNames(listing, stem, ext);
    var i :| 0 <= i < |listing| && listing[i] == name;
  }
}
