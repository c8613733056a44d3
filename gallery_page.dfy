/**
 * The page-level string values of app.py: the default folder link offered in
 * the text box and the embedded folder-view URL handed to the iframe.
 */
module GalleryPage {
  import opened Wrappers
  import opened FolderIdExtraction

  /** The scheme and host shared by every Drive link on the page. */
  const DriveHost := "https://drive.google.com/"

  /**
   * The link pre-filled in the folder URL text box, written as its pieces:
   * `https://drive.google.com/drive/folders/1LfSwuD7WxbS0ZdDeGo0hpiviUx6vMhqs?usp=sharing`.
   */
  const DefaultFolderUrl := DriveHost + "drive" + FoldersMarker + DefaultFolderId + "?usp=sharing"

  /** The folder ID inside the default link. */
  const DefaultFolderId := "1LfSwuD7WxbS0ZdDeGo0hpiviUx6vMhqs"

  /** The folder view Drive serves for embedding: `https://drive.google.com/embeddedfolderview?id=`. */
  const EmbedPrefix := DriveHost + "embeddedfolderview?" + IdMarker

  /** The selectbox label that chooses the thumbnail grid. */
  const GridViewLabel := "Grid View"

  /** The URL fragment that picks the layout of the embedded view. */
  function ViewFragment(viewMode: string): (f: string)
    ensures |f| == 5 && f[0] == '#'
    ensures viewMode == GridViewLabel <==> f == "#grid"
    ensures viewMode != GridViewLabel <==> f == "#list"
  {
    if viewMode == GridViewLabel then "#grid" else "#list"
  }

  /** `embed_url` for the detected folder ID and the selected view mode. */
  function EmbedUrl(folderId: string, viewMode: string): (u: string)
    ensures OccursAt(EmbedPrefix, u, 0)
    ensures OccursAt(folderId, u, |EmbedPrefix|)
    ensures u[|EmbedPrefix| + |folderId|..] == ViewFragment(viewMode)
  {
    EmbedPrefix + folderId + ViewFragment(viewMode)
  }

  /** The pieces spell out the link exactly as app.py writes it. */
  lemma DefaultFolderUrlText()
    ensures DefaultFolderUrl == "https://drive.google.com/drive/folders/1LfSwuD7WxbS0ZdDeGo0hpiviUx6vMhqs?usp=sharing"
  {
    DefaultFolderUrlPath();
    DefaultFolderUrlLink();
    assert "https://drive.google.com/drive/folders/1LfSwuD7WxbS0ZdDeGo0hpiviUx6vMhqs" + "?usp=sharing"
      == "https://drive.google.com/drive/folders/1LfSwuD7WxbS0ZdDeGo0hpiviUx6vMhqs?usp=sharing";
  }

  /** The part of the default link before the folder ID. */
  lemma DefaultFolderUrlPath()
    ensures DriveHost + "drive" + FoldersMarker == "https://drive.google.com/drive/folders/"
  {
  }

  /** The default link up to the end of the folder ID. */
  lemma DefaultFolderUrlLink()
    ensures "https://drive.google.com/drive/folders/" + "1LfSwuD7WxbS0ZdDeGo0hpiviUx6vMhqs"
      == "https://drive.google.com/drive/folders/1LfSwuD7WxbS0ZdDeGo0hpiviUx6vMhqs"
  {
  }

  /** The ID inside the default link is a well-formed folder ID. */
  lemma DefaultFolderIdWellFormed()
    ensures IsFolderId(DefaultFolderId)
  {
  }

  /** The default link has a `/folders/` followed by an ID character right after `https://drive.google.com/drive`. */
  lemma DefaultFolderUrlMarker()
    ensures MarkerAt(DefaultFolderUrl, FoldersMarker, |DriveHost + "drive"|)
  {
  }

  /** No `/folders/` occurs in the default link before that one. */
  lemma DefaultFolderUrlNoEarlierMarker()
    ensures forall j: nat :: j < |DriveHost + "drive"| ==> !MarkerAt(DefaultFolderUrl, FoldersMarker, j)
  {
    var u := DefaultFolderUrl;
    var before := DriveHost + "drive";
    assert 'f' !in before && before[|before| - 1] != '/';
    forall j: nat | j < |before| && MarkerAt(u, FoldersMarker, j) ensures false {
      MarkerAtChar(u, FoldersMarker, j, 1);
      MarkerAtChar(u, FoldersMarker, j, 0);
    }
  }

  /** The default link resolves through its `/folders/` segment; `?usp=sharing` is cut off by the maximal ID run. */
  lemma DefaultFolderUrlId()
    ensures ExtractFolderId(DefaultFolderUrl) == Some(DefaultFolderId)
  {
    var u := DefaultFolderUrl;
    var start := |DriveHost + "drive" + FoldersMarker|;
    DefaultFolderUrlMarker();
    DefaultFolderUrlNoEarlierMarker();
    DefaultFolderIdWellFormed();
    FolderPathWins(u, |DriveHost + "drive"|);
    assert u[start..start + |DefaultFolderId|] == DefaultFolderId;
    assert !IsIdChar(u[start + |DefaultFolderId|]);
    IdRunIs(u, start, |DefaultFolderId|);
  }

  /** Past the prefix, an embed URL holds the ID and the fragment: no `/` and no `=`. */
  lemma EmbedUrlTail(folderId: string, viewMode: string, k: nat)
    requires IsFolderId(folderId)
    requires |EmbedPrefix| <= k < |EmbedUrl(folderId, viewMode)|
    ensures EmbedUrl(folderId, viewMode)[k] != '/' && EmbedUrl(folderId, viewMode)[k] != '='
  {
  }

  /** Every `/` of an embed URL lies in its `https://drive.google.com/` host part. */
  lemma EmbedUrlSlashInHost(folderId: string, viewMode: string, k: nat)
    requires IsFolderId(folderId)
    requires k < |EmbedUrl(folderId, viewMode)| && EmbedUrl(folderId, viewMode)[k] == '/'
    ensures k < |DriveHost|
  {
    if |EmbedPrefix| <= k {
      EmbedUrlTail(folderId, viewMode, k);
    }
  }

  /** No `/folders/` segment starts at position `j` of an embed URL. */
  lemma EmbedUrlNoFolderPathAt(folderId: string, viewMode: string, j: nat)
    requires IsFolderId(folderId)
    ensures !MarkerAt(EmbedUrl(folderId, viewMode), FoldersMarker, j)
  {
    var u := EmbedUrl(folderId, viewMode);
    if MarkerAt(u, FoldersMarker, j) {
      assert 'f' !in DriveHost;
      MarkerAtChar(u, FoldersMarker, j, 1);
      MarkerAtChar(u, FoldersMarker, j, 8);
      EmbedUrlSlashInHost(folderId, viewMode, j + 8);
    }
  }

  /** No `/folders/` segment occurs in an embed URL. */
  lemma EmbedUrlHasNoFolderPath(folderId: string, viewMode: string)
    requires IsFolderId(folderId)
    ensures forall j: nat :: !MarkerAt(EmbedUrl(folderId, viewMode), FoldersMarker, j)
  {
    forall j: nat ensures !MarkerAt(EmbedUrl(folderId, viewMode), FoldersMarker, j) {
      EmbedUrlNoFolderPathAt(folderId, viewMode, j);
    }
  }

  /** The leftmost `id=` of an embed URL that is followed by an ID character ends its prefix. */
  lemma EmbedUrlIdMarker(folderId: string, viewMode: string)
    requires IsFolderId(folderId)
    ensures MarkerAt(EmbedUrl(folderId, viewMode), IdMarker, |EmbedPrefix| - |IdMarker|)
    ensures forall j: nat :: j < |EmbedPrefix| - |IdMarker| ==> !MarkerAt(EmbedUrl(folderId, viewMode), IdMarker, j)
  {
    var u := EmbedUrl(folderId, viewMode);
    var p := |EmbedPrefix|;
    var before := DriveHost + "embeddedfolderview?";
    assert EmbedPrefix == before + IdMarker;
    assert '=' !in before;
    assert u[p - 3..p] == IdMarker;
    assert u[p] == folderId[0];
    forall j: nat | j < p - 3 && MarkerAt(u, IdMarker, j) ensures false {
      MarkerAtChar(u, IdMarker, j, 2);
    }
  }

  /**
   * Round trip: the embed URL built from a folder ID extracts back to that ID,
   * through the `id=` pattern since the URL holds no `/folders/` segment.
   */
  lemma EmbedUrlRoundTrip(folderId: string, viewMode: string)
    requires IsFolderId(folderId)
    ensures ExtractFolderId(EmbedUrl(folderId, viewMode)) == Some(folderId)
  {
    var u := EmbedUrl(folderId, viewMode);
    var p := |EmbedPrefix|;
    EmbedUrlHasNoFolderPath(folderId, viewMode);
    EmbedUrlIdMarker(folderId, viewMode);
    IdParamFallback(u, p - |IdMarker|);
    assert u[p + |folderId|] == ViewFragment(viewMode)[0];
    IdRunIs(u, p, |folderId|);
  }
}
