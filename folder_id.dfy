/**
 * Extraction of a Google Drive folder ID from a user-supplied folder reference
 * (app.py, `extract_folder_id`).
 *
 * `extract_folder_id` (app.py) tries three regular expressions in a fixed order with `re.search`
 * and returns group 1 of the first one that matches:
 *   1. `/folders/([a-zA-Z0-9_-]+)`
 *   2. `id=([a-zA-Z0-9_-]+)`
 *   3. `^([a-zA-Z0-9_-]+)$`
 * Each pattern is modelled here as a hand-written character-level matcher.
 */
module FolderIdExtraction {
  import opened Wrappers

  /** The character class `[a-zA-Z0-9_-]` (ASCII ranges only, no case folding). */
  predicate IsIdChar(c: char)
  {
    ('a' <= c <= 'z') || ('A' <= c <= 'Z') || ('0' <= c <= '9') || c == '_' || c == '-'
  }

  /** Every character of `s` is in `[a-zA-Z0-9_-]`. */
  predicate IsIdString(s: string)
  {
    forall i :: 0 <= i < |s| ==> IsIdChar(s[i])
  }

  /** A string the group `([a-zA-Z0-9_-]+)` can capture: non-empty, ID characters only. */
  predicate IsFolderId(s: string)
  {
    |s| > 0 && IsIdString(s)
  }

  /** `t` appears as a contiguous block of `s` starting at position `i`. */
  predicate OccursAt(t: string, s: string, i: nat)
  {
    i + |t| <= |s| && s[i..i + |t|] == t
  }

  /** `t` is a contiguous substring of `s`. */
  ghost predicate Occurs(t: string, s: string)
  {
    exists i: nat :: OccursAt(t, s, i)
  }

  const FoldersMarker := "/folders/"
  const IdMarker := "id="

  /**
   * The pattern `marker([a-zA-Z0-9_-]+)` matches when started at position `i`:
   * `marker` sits at `i` and is followed directly by at least one ID character.
   */
  predicate MarkerAt(s: string, marker: string, i: nat)
  {
    i + |marker| < |s| && s[i..i + |marker|] == marker && IsIdChar(s[i + |marker|])
  }

  /**
   * The greedy group `([a-zA-Z0-9_-]+)` from position `k`: the longest run of
   * ID characters that starts at `k`.
   */
  function IdRun(s: string, k: nat): (r: string)
    requires k <= |s|
    ensures OccursAt(r, s, k)
    ensures IsIdString(r)
    ensures k + |r| == |s| || !IsIdChar(s[k + |r|])
    decreases |s| - k
  {
    if k < |s| && IsIdChar(s[k]) then [s[k]] + IdRun(s, k + 1) else []
  }

  /**
   * The leftmost position at or after `from` where `marker([a-zA-Z0-9_-]+)`
   * matches, as `re.search` scans the subject from left to right.
   */
  function FindMarker(s: string, marker: string, from: nat): (r: Option<nat>)
    ensures r.Some? ==> from <= r.value && MarkerAt(s, marker, r.value)
    ensures r.Some? ==> forall j: nat :: from <= j < r.value ==> !MarkerAt(s, marker, j)
    ensures r.None? ==> forall j: nat :: from <= j ==> !MarkerAt(s, marker, j)
    decreases |s| - from
  {
    if from + |marker| >= |s| then None
    else if MarkerAt(s, marker, from) then Some(from)
    else FindMarker(s, marker, from + 1)
  }

  /**
   * `re.search(r'^([a-zA-Z0-9_-]+)$', s)`. Without MULTILINE, `^` anchors at
   * the start of the subject, while `$` matches at its end and also just
   * before a single newline that ends it; so `"ABC\n"` yields `"ABC"`.
   */
  function BareMatch(s: string): (r: Option<string>)
    ensures r.Some? ==> IsFolderId(r.value) && (s == r.value || s == r.value + "\n")
    ensures r.None? ==> forall t :: IsFolderId(t) ==> s != t && s != t + "\n"
  {
    if IsFolderId(s) then Some(s)
    else if |s| >= 2 && s[|s| - 1] == '\n' && IsFolderId(s[..|s| - 1]) then
      Some(s[..|s| - 1])
    else None
  }

  /** The three entries of the `patterns` list in app.py. */
  datatype Pattern = FolderPath | IdParam | WholeId

  /** The `patterns` list of app.py, in the order it is tried. */
  const Patterns: seq<Pattern> := [FolderPath, IdParam, WholeId]

  /** The literal text in front of the group of a marker pattern. */
  function Marker(p: Pattern): (m: string)
    requires !p.WholeId?
    ensures m == FoldersMarker || m == IdMarker
  {
    if p.FolderPath? then FoldersMarker else IdMarker
  }

  /** `re.search(pattern, url)` followed by `match.group(1)` for one pattern. */
  function Search(p: Pattern, url: string): (r: Option<string>)
    ensures r.Some? ==> IsFolderId(r.value) && Occurs(r.value, url)
    ensures !p.WholeId? ==> (r.None? <==> forall j: nat :: !MarkerAt(url, Marker(p), j))
    ensures p.WholeId? ==> (r.None? <==> forall t :: IsFolderId(t) ==> url != t && url != t + "\n")
  {
    match p
    case WholeId =>
      var r := BareMatch(url);
      if r.Some? then
        assert OccursAt(r.value, url, 0);
        r
      else r
    case _ =>
      match FindMarker(url, Marker(p), 0)
      case Some(i) => CapturedAfter(url, i, Marker(p))
      case None => None
  }

  /**
   * A marker pattern captures the maximal ID run after the leftmost position
   * where its marker is followed by an ID character.
   */
  lemma SearchAtLeftmostMarker(p: Pattern, url: string, i: nat)
    requires !p.WholeId?
    requires MarkerAt(url, Marker(p), i)
    requires forall j: nat :: j < i ==> !MarkerAt(url, Marker(p), j)
    ensures Search(p, url) == Some(IdRun(url, i + |Marker(p)|))
  {
    assert FindMarker(url, Marker(p), 0) == Some(i);
  }

  /** Group 1 of `marker([a-zA-Z0-9_-]+)` matched at position `i`: the greedy run after the marker. */
  function CapturedAfter(url: string, i: nat, marker: string): (r: Option<string>)
    requires MarkerAt(url, marker, i)
    ensures r.Some? && IsFolderId(r.value) && OccursAt(r.value, url, i + |marker|)
    ensures i + |marker| + |r.value| == |url| || !IsIdChar(url[i + |marker| + |r.value|])
  {
    var id := IdRun(url, i + |marker|);
    assert id[0] == url[i + |marker|];
    Some(id)
  }

  /**
   * The `for pattern in patterns` loop with its early `return`: the capture of
   * the first pattern that matches, or `None` when none does.
   */
  function FirstMatch(ps: seq<Pattern>, url: string): (r: Option<string>)
    ensures r.None? <==> forall k :: 0 <= k < |ps| ==> Search(ps[k], url).None?
    ensures r.Some? ==> IsFolderId(r.value) && Occurs(r.value, url)
    decreases |ps|
  {
    if |ps| == 0 then None
    else
      var first := Search(ps[0], url);
      if first.Some? then first
      else
        assert forall k :: 1 <= k < |ps| ==> ps[k] == ps[1..][k - 1];
        FirstMatch(ps[1..], url)
  }

  /** The pattern at index `k` is the first one of `ps` that matches `url`. */
  predicate FirstHit(ps: seq<Pattern>, url: string, k: nat)
  {
    k < |ps| && Search(ps[k], url).Some? && forall j :: 0 <= j < k ==> Search(ps[j], url).None?
  }

  /** A result of the loop is the capture of the first pattern that matches. */
  lemma {:induction false} FirstMatchIsFirstHit(ps: seq<Pattern>, url: string)
    requires FirstMatch(ps, url).Some?
    ensures exists k: nat :: FirstHit(ps, url, k) && Search(ps[k], url) == FirstMatch(ps, url)
    decreases |ps|
  {
    if Search(ps[0], url).Some? {
      assert FirstHit(ps, url, 0);
    } else {
      FirstMatchIsFirstHit(ps[1..], url);
      var k: nat :| FirstHit(ps[1..], url, k) && Search(ps[1..][k], url) == FirstMatch(ps[1..], url);
      assert FirstHit(ps, url, k + 1);
    }
  }

  /** `extract_folder_id(url)`. */
  function ExtractFolderId(url: string): (r: Option<string>)
    ensures r.Some? ==> IsFolderId(r.value) && Occurs(r.value, url)
  {
    FirstMatch(Patterns, url)
  }

  /** The first-match loop over the three patterns, written out. */
  lemma ExtractFolderIdCases(url: string)
    ensures ExtractFolderId(url) ==
      if Search(FolderPath, url).Some? then Search(FolderPath, url)
      else if Search(IdParam, url).Some? then Search(IdParam, url)
      else Search(WholeId, url)
  {
  }

  /** A match of `marker` at `i` fixes the characters of the subject under it. */
  lemma MarkerAtChar(s: string, marker: string, i: nat, k: nat)
    requires MarkerAt(s, marker, i) && k < |marker|
    ensures s[i + k] == marker[k]
  {
  }

  /** A marker holding a non-ID character never matches inside an ID string. */
  lemma NoMarkerInIdString(s: string, marker: string, k: nat)
    requires IsIdString(s) && k < |marker| && !IsIdChar(marker[k])
    ensures forall j: nat :: !MarkerAt(s, marker, j)
  {
  }

  /** The capture from `k` is exactly the ID run `s[k..k+n]` that ends at a non-ID character or at the end. */
  lemma IdRunIs(s: string, k: nat, n: nat)
    requires k + n <= |s| && IsIdString(s[k..k + n])
    requires k + n == |s| || !IsIdChar(s[k + n])
    ensures IdRun(s, k) == s[k..k + n]
  {
  }

  /** A non-empty string of ID characters is returned unchanged (the bare-ID pattern). */
  lemma BareIdReturnedUnchanged(s: string)
    requires IsFolderId(s)
    ensures ExtractFolderId(s) == Some(s)
  {
    NoMarkerInIdString(s, FoldersMarker, 0);
    NoMarkerInIdString(s, IdMarker, 2);
    ExtractFolderIdCases(s);
  }

  /** Extracting again from an extracted ID gives the same ID. */
  lemma ExtractFolderIdIdempotent(url: string)
    ensures ExtractFolderId(url).Some? ==>
      ExtractFolderId(ExtractFolderId(url).value) == ExtractFolderId(url)
  {
    if ExtractFolderId(url).Some? {
      BareIdReturnedUnchanged(ExtractFolderId(url).value);
    }
  }

  /**
   * Precedence of the path form: the leftmost `/folders/` that is followed by
   * an ID character decides the result, whatever `id=` text the URL holds.
   */
  lemma FolderPathWins(url: string, i: nat)
    requires MarkerAt(url, FoldersMarker, i)
    requires forall j: nat :: j < i ==> !MarkerAt(url, FoldersMarker, j)
    ensures ExtractFolderId(url) == Some(IdRun(url, i + |FoldersMarker|))
  {
    ExtractFolderIdCases(url);
    SearchAtLeftmostMarker(FolderPath, url, i);
  }

  /**
   * The query form applies when no `/folders/` is followed by an ID character:
   * the leftmost `id=` followed by an ID character decides, even inside a word
   * such as `grid=`.
   */
  lemma IdParamFallback(url: string, i: nat)
    requires forall j: nat :: !MarkerAt(url, FoldersMarker, j)
    requires MarkerAt(url, IdMarker, i)
    requires forall j: nat :: j < i ==> !MarkerAt(url, IdMarker, j)
    ensures ExtractFolderId(url) == Some(IdRun(url, i + |IdMarker|))
  {
    ExtractFolderIdCases(url);
    SearchAtLeftmostMarker(IdParam, url, i);
  }

  /**
   * `None` comes back exactly when no marker is followed by an ID character and
   * the whole reference is not an ID (optionally ended by one newline).
   */
  lemma NoneIffNoPatternMatches(url: string)
    ensures ExtractFolderId(url).None? <==>
      (forall j: nat :: !MarkerAt(url, FoldersMarker, j)) &&
      (forall j: nat :: !MarkerAt(url, IdMarker, j)) &&
      (forall t :: IsFolderId(t) ==> url != t && url != t + "\n")
  {
  }

  /** Leading or trailing blanks are not trimmed: `" ABC"` is rejected. */
  lemma LeadingSpaceRejected()
    ensures ExtractFolderId(" ABC") == None
  {
    var s := " ABC";
    forall j: nat | MarkerAt(s, IdMarker, j) ensures false {
      MarkerAtChar(s, IdMarker, j, 2);
    }
    assert !IsIdChar(s[0]) && s[3] != '\n';
    NoneIffNoPatternMatches(s);
  }

  /** The empty reference is rejected. */
  lemma EmptyRejected()
    ensures ExtractFolderId("") == None
  {
  }

  /** The `$` anchor of the bare-ID pattern lets one trailing newline through. */
  lemma TrailingNewlineAccepted()
    ensures ExtractFolderId("ABC\n") == Some("ABC")
  {
    var s := "ABC\n";
    assert !IsIdChar(s[3]);
    assert s[..3] == "ABC";
    ExtractFolderIdCases(s);
  }

  /** A bare `id=` query yields the ID after it. */
  lemma QueryFormExample()
    ensures ExtractFolderId("id=XYZ789") == Some("XYZ789")
  {
    var s := "id=XYZ789";
    assert s[..3] == IdMarker && s[3..9] == "XYZ789";
    assert MarkerAt(s, IdMarker, 0);
    IdParamFallback(s, 0);
    IdRunIs(s, 3, 6);
  }

  /** `id=` is found inside a longer word: `grid=Q1` yields `Q1`. */
  lemma IdInsideWordExample()
    ensures ExtractFolderId("grid=Q1") == Some("Q1")
  {
    var s := "grid=Q1";
    assert s[2..5] == IdMarker && s[5..7] == "Q1";
    assert MarkerAt(s, IdMarker, 2);
    forall j: nat | j < 2 && MarkerAt(s, IdMarker, j) ensures false {
      MarkerAtChar(s, IdMarker, j, 2);
    }
    IdParamFallback(s, 2);
    IdRunIs(s, 5, 2);
  }

  /** The path form wins over an `id=` that comes earlier in the reference. */
  lemma FolderPathBeatsEarlierIdExample()
    ensures ExtractFolderId("id=A/folders/B") == Some("B")
  {
    var s := "id=A/folders/B";
    assert s[4..13] == FoldersMarker && s[13..14] == "B";
    assert MarkerAt(s, FoldersMarker, 4);
    forall j: nat | j < 4 && MarkerAt(s, FoldersMarker, j) ensures false {
      MarkerAtChar(s, FoldersMarker, j, 0);
    }
    FolderPathWins(s, 4);
    IdRunIs(s, 13, 1);
  }
}
