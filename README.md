# Google Drive folder gallery: folder-ID extraction and embed URL

This project models the logic at the heart of `app.py`, a Streamlit page that
shows a public Google Drive folder in an iframe. The page does two things
with strings, and both are modelled as pure Dafny functions with proofs:

- `extract_folder_id` turns what the user typed (a share link, an `id=` link or
  a bare ID) into a folder ID. It tries three regular expressions in order with
  `re.search` and returns the first capture: `/folders/([a-zA-Z0-9_-]+)`, then
  `id=([a-zA-Z0-9_-]+)`, then `^([a-zA-Z0-9_-]+)$`. If none matches, it
  returns `None`. The model (`folder_id.dfy`, module `FolderIdExtraction`) writes each
  pattern as a character-level matcher:
  - `IsIdChar` is the character class.
  - `MarkerAt` means "the marker sits here and is followed by an ID character".
  - `FindMarker` finds the leftmost such position, as `re.search` does.
  - `IdRun` is the greedy `+` group.
  - `BareMatch` is the anchored pattern, including Python's `$` matching before
    one trailing newline.
  - `FirstMatch` over the `Patterns` list is the `for … return` loop.
- The embed URL is `https://drive.google.com/embeddedfolderview?id=<id>`
  followed by `#grid` for the "Grid View" selection and `#list` otherwise
  (`gallery_page.dfy`, module `GalleryPage`). The round-trip lemma shows that
  extracting from this URL gives the ID back.

`wrappers.dfy` holds the `Option` type that stands for Python's `None`-or-value result.

`extract_folder_id` does not trim whitespace (`" ABC"` gives `None`, see
`LeadingSpaceRejected`), and it returns `None` rather than raising when nothing
matches (`NoneIffNoPatternMatches`).

## Model

| member | source | states |
|---|---|---|
| FolderIdExtraction.IdRun | app.py:54-56 | the greedy group `([a-zA-Z0-9_-]+)` from position k: a block of the input at k, all ID characters, ending at the end of the input or at a non-ID character |
| FolderIdExtraction.IdRunIs | app.py:54-56 | the capture is the unique maximal run: any ID-character block at k that stops at a non-ID character or at the end is exactly what `IdRun` returns |
| FolderIdExtraction.FindMarker | app.py:59 | the left-to-right scan of `re.search`: a result is a position where the marker is followed by an ID character with no such position before it; `None` means there is no such position at all |
| FolderIdExtraction.BareMatch | app.py:56 | `^([a-zA-Z0-9_-]+)$` accepts exactly a non-empty ID string t or t followed by one newline, and captures t |
| FolderIdExtraction.CapturedAfter | app.py:61 | group 1 after a marker match is a non-empty ID string that starts right after the marker and is maximal: it ends at the end of the input or at a non-ID character |
| FolderIdExtraction.Search | app.py:59-61 | one pattern's search and `group(1)`: any capture is a non-empty ID string and a substring of the input; a marker pattern gives `None` exactly when its marker is nowhere followed by an ID character, and the bare pattern exactly when the input is neither an ID nor an ID plus one newline |
| FolderIdExtraction.SearchAtLeftmostMarker | app.py:54-61 | a marker pattern captures the maximal ID run after the leftmost position where its marker is followed by an ID character |
| FolderIdExtraction.FirstMatch | app.py:58-62 | the first-match loop returns `None` exactly when every pattern fails; any other result is a non-empty ID string found in the input |
| FolderIdExtraction.FirstMatchIsFirstHit | app.py:58-61 | a result of the loop is the capture of a pattern that matches while every pattern before it in the list fails |
| FolderIdExtraction.ExtractFolderId | app.py:51-62 | any non-`None` result is non-empty, made only of `[A-Za-z0-9_-]`, and a contiguous substring of the input |
| FolderIdExtraction.ExtractFolderIdCases | app.py:53-62 | the three patterns are tried in the order path, query, bare ID, and the first success is returned |
| FolderIdExtraction.BareIdReturnedUnchanged | app.py:56-61 | a non-empty string of ID characters is returned unchanged |
| FolderIdExtraction.ExtractFolderIdIdempotent | app.py:54-61 | extracting from an extracted ID returns the same ID |
| FolderIdExtraction.FolderPathWins | app.py:53-61 | if some `/folders/` is followed by an ID character, the result is the maximal run after the leftmost such occurrence, whatever `id=` text the input holds |
| FolderIdExtraction.IdParamFallback | app.py:55-61 | when no `/folders/` is followed by an ID character, the result is the maximal run after the leftmost `id=` followed by an ID character |
| FolderIdExtraction.NoneIffNoPatternMatches | app.py:53-62 | `None` exactly when neither marker is followed by an ID character and the input is neither an ID nor an ID plus one newline |
| FolderIdExtraction.EmptyRejected | app.py:62 | the empty reference gives `None` |
| FolderIdExtraction.LeadingSpaceRejected | app.py:56-62 | `" ABC"` gives `None`: no whitespace is trimmed |
| FolderIdExtraction.TrailingNewlineAccepted | app.py:56 | `"ABC\n"` gives `"ABC"` because `$` also matches before a final newline |
| FolderIdExtraction.QueryFormExample | app.py:55 | `"id=XYZ789"` gives `"XYZ789"` |
| FolderIdExtraction.IdInsideWordExample | app.py:55 | `id=` is a plain substring match: `"grid=Q1"` gives `"Q1"` |
| FolderIdExtraction.FolderPathBeatsEarlierIdExample | app.py:53-55 | `"id=A/folders/B"` gives `"B"`: the path pattern is tried first, wherever the `id=` sits |
| GalleryPage.ViewFragment | app.py:114-119 | the fragment is `#grid` exactly for the "Grid View" selection and `#list` for any other |
| GalleryPage.EmbedUrl | app.py:114-119 | the embed URL is the fixed `embeddedfolderview?id=` prefix, then the folder ID, then the view fragment |
| GalleryPage.DefaultFolderUrlText | app.py:77 | the default link, assembled from its pieces, is character for character the literal of the source |
| GalleryPage.DefaultFolderIdWellFormed | app.py:77 | the ID in the default link is a well-formed folder ID |
| GalleryPage.DefaultFolderUrlMarker | app.py:77 | the default link has a `/folders/` followed by an ID character right after `https://drive.google.com/drive` |
| GalleryPage.DefaultFolderUrlNoEarlierMarker | app.py:77 | no `/folders/` followed by an ID character occurs earlier in the default link |
| GalleryPage.DefaultFolderUrlId | app.py:77-87 | the default link yields exactly `1LfSwuD7WxbS0ZdDeGo0hpiviUx6vMhqs`, because the maximal run stops before `?usp=sharing` |
| GalleryPage.EmbedUrlTail | app.py:116-119 | after the prefix, an embed URL holds neither `/` nor `=` |
| GalleryPage.EmbedUrlSlashInHost | app.py:116-119 | every `/` of an embed URL lies in its `https://drive.google.com/` host part |
| GalleryPage.EmbedUrlNoFolderPathAt | app.py:116-119 | no `/folders/` followed by an ID character starts at any given position of an embed URL |
| GalleryPage.EmbedUrlHasNoFolderPath | app.py:116-119 | no `/folders/` followed by an ID character occurs in an embed URL |
| GalleryPage.EmbedUrlIdMarker | app.py:116-119 | the leftmost `id=` followed by an ID character in an embed URL is the one that ends its prefix |
| GalleryPage.EmbedUrlRoundTrip | app.py:114-119 | for any valid ID and any view mode, extracting from the embed URL gives the ID back, through the `id=` pattern |

## Left out

- Page configuration, CSS, header and info markdown, the text input, the selectbox and the success, error and info messages (app.py:7-46, 67-72, 80-84, 89-111, 122-159). These render the UI and hold no logic. The `if folder_id:` test is modelled only as the `Some`/`None` result that drives it.
- The height slider (app.py:102-109). Its value goes straight to the iframe.
- The iframe component and the "Direct Links" block. They display the URL that `EmbedUrl` builds and do nothing else with it.
- Python's `re` engine in general. Only the three fixed patterns are modelled, each as a direct matcher. `FindMarker` is a recursive function standing for the engine's left-to-right scan.
- `view_mode` is modelled as any string. The selectbox only offers "Grid View" and "List View", and every value other than "Grid View" gives `#list`, as in the source.
