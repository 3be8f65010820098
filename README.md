# Exam downloader, modelled in Dafny

`download_exams.py` walks a fixed catalog. The catalog maps each school year to
its subjects, and each subject to an ordered list of listing-page URLs, one
per quarter. For every URL it:

- fetches the listing and creates `Quarter <n>` under `<year>/<subject>`;
- takes each `attachment-title` cell's link anchor, with a stripped title and
  a stripped `href`;
- draws a random difficulty label (`easy`, `medium` or `hard`) and creates that
  directory;
- downloads the attachment and saves it as
  `~/Exams/<year>/<subject>/Quarter <n>/<difficulty>/<title>.pdf`, where
  spaces, slashes and backslashes in the title become underscores.

A failed listing fetch, a failed download and a failed save are each printed
and skipped. Any other exception escapes to the top-level handler, which
prints it and ends the run.

The model has six modules:

- `Wrappers`: the usual `Option`.
- `Text`: the parts of Python's `str` the program relies on:
  - `str.strip()`, as `Lead`, `Trail` and `Strip`;
  - one-character `str.replace`;
  - `str(int)`, as `ShowNat`.
- `Naming`:
  - the difficulty labels;
  - the file-name cleaner of line 60;
  - the directory layout built with `os.path.join`.
- `Trace`:
  - the effects a run has on the world: directories created, pages and files
    requested, files written, lines printed;
  - `Outcome`, the result of a stretch of the run: its effects, how many
    labels have been drawn after it, and whether an exception escaped it;
  - `Loop`, a generic `for` loop over such stretches that stops at the first
    exception, with lemmas about order, reach and projection.
- `Plan`:
  - the specification: pure functions that compute the trace of one cell, one
    listing, one quarter, `download_exams` and the whole run, from a `World`
    holding every answer the outside world gives;
  - lemmas stating what the program promises about that trace.
- `Crawler`: a class `Crawler` with the effect log and the number of labels
  drawn as mutable fields, and the program's functions as methods. Each
  method runs the source's loops statement by statement. Each is proved to
  append exactly the trace `Plan` computes and to leave `draws` where `Plan`
  says.

The outside world is the datatype `Plan.World`. It holds four things:

- the answer to each listing URL, either a failed request or the parsed list
  of cells;
- whether each attachment download succeeds;
- whether each file save succeeds;
- the index the k-th call of `random.choice` returns.

## Behaviour worth noting

- The code fetches a listing first and creates `Quarter <n>` only when the
  fetch succeeded (download_exams.py:24-34; `QuarterShape`).
- A link anchor without an `href` attribute makes `link_tag['href']` raise
  `KeyError`. That is not a `RequestException`, so neither handler in
  `download_exams` catches it. It escapes to the top-level `except Exception`
  (download_exams.py:133-134) and ends the whole run, including all later
  years and subjects. The model has this behaviour through `Outcome.raised`.
- BeautifulSoup's `find` returns `None` or a tag, and a tag is always true.
  So `if link_tag:` skips only cells without an anchor.

## Model

| member | source | states |
|---|---|---|
| Text.StripSlice | download_exams.py:44-45 | `strip()` keeps one contiguous slice of its input, starting right after the leading whitespace |
| Text.StripEnds | download_exams.py:44-45 | the stripped string is empty or starts and ends with a non-whitespace character |
| Text.StripDropsOnlySpace | download_exams.py:44-45 | every character dropped before and after the kept slice is whitespace |
| Text.StripIdempotent | download_exams.py:44-45 | stripping a stripped title or link changes nothing |
| Text.Replace | download_exams.py:60 | a one-character `replace` keeps the length, puts the replacement exactly where the target was and keeps every other character |
| Text.ShowNat | download_exams.py:33 | the quarter number is written as decimal digits with no leading zero |
| Text.ParseShow | download_exams.py:33 | the quarter number can be read back from its decimal name |
| Text.ShowNatInjective | download_exams.py:33 | different quarter numbers get different names |
| Naming.Difficulty | download_exams.py:9-11 | the label is `easy`, `medium` or `hard`, and is a single non-empty path component |
| Naming.DifficultyIsBijection | download_exams.py:10 | each of the three labels is drawn by exactly one index, so the draw can produce all three and nothing else |
| Naming.CleanTitle | download_exams.py:60 | the cleaned stem has the title's length; each space, slash or backslash becomes `_` and every other character is kept |
| Naming.FileNameShape | download_exams.py:60 | the file name is the title's length plus 4, ends with `.pdf`, has no space, slash or backslash in its stem, and so has no slash at all |
| Naming.CleanTitleIdempotent | download_exams.py:60 | cleaning an already cleaned stem returns it unchanged |
| Naming.FileNameCollision | download_exams.py:60-61 | two titles map to the same file name exactly when they have the same length and differ only where both hold `_`, a space, a slash or a backslash |
| Naming.QuarterDirInjective | download_exams.py:33 | the directories `Quarter m` and `Quarter n` of a subject coincide exactly when `m == n` |
| Naming.QuarterDirNotDifficultyDir | download_exams.py:51 | no difficulty directory of one quarter is the directory of a quarter of the same subject |
| Naming.DifficultyDirOf | download_exams.py:51 | the directory of a drawn label is one of the quarter's three difficulty directories |
| Plan.AttemptShape | download_exams.py:55-71 | handling a link requests it first, then only writes and prints |
| Plan.CellOutcome | download_exams.py:42-48 | a cell raises exactly when its anchor has no `href`; a cell without a link does nothing; a cell with one draws exactly one label |
| Plan.CellLayout | download_exams.py:48-61 | an anchored cell first creates the directory of the label drawn for it, then requests its stripped link, then only writes and prints. The only file it can write is its cleaned title in that same directory. |
| Plan.CellFetches | download_exams.py:42-56 | a cell requests no listing, and requests exactly its own stripped link if it has one |
| Plan.CellDirs | download_exams.py:51-52 | a cell creates only a difficulty directory of its quarter |
| Plan.CellWrites | download_exams.py:55-67 | a cell writes only its own file, at `<quarter>/<difficulty>/<cleaned title>.pdf`, from its own link, and only when the download and the save succeeded |
| Plan.CellWriteComplete | download_exams.py:55-71 | an anchored cell's file is written exactly when its download and its save succeed |
| Plan.ListingRaises | download_exams.py:40-45 | a listing's walk raises exactly when one of its anchors has no `href` |
| Plan.ListingFetches | download_exams.py:40-71 | a listing's walk requests the links of its anchored cells in document order. It requests all of them when no anchor lacks `href`, since a failed download does not stop the next. Otherwise it requests a prefix of them. |
| Plan.ListingFetchesExactly | download_exams.py:40-71 | a listing's walk requests exactly the links of its anchored cells in document order, up to its first anchor without `href`, whatever downloads or saves fail |
| Plan.ListingFetchesCut | download_exams.py:40-45 | when the first anchor without `href` is the cell at position `b`, the links requested are exactly those of the cells before `b` |
| Plan.ListingDraws | download_exams.py:40-48 | a listing with no broken anchor draws one label per anchored cell |
| Plan.ListingDirs | download_exams.py:51-52 | a listing creates only difficulty directories of its quarter |
| Plan.DirBeforeDownload | download_exams.py:40-56 | every attachment request in a listing is the request of an anchored cell at some position `i`. It comes right after the creation of the directory of the label drawn for that cell, after the draws of the cells before it, so that directory exists even when the download then fails. |
| Plan.DirBeforeWrite | download_exams.py:40-61 | every file a listing writes is the cleaned title of an anchored cell, inside the directory created two effects before it, for the label drawn for that cell; the request for that cell's link comes in between |
| Plan.CellFetchAfterDir | download_exams.py:48-56 | within a cell, the attachment request is the second effect, right after the creation of the directory of the label drawn for it |
| Plan.ListingWriteSound | download_exams.py:55-67 | a listing writes a file only for one of its anchored cells, at that cell's path and from its link, and only when the download and the save succeeded |
| Plan.ListingWriteComplete | download_exams.py:40-71 | when no anchor before position `i` lacks `href`, the cell at `i` uses the label drawn after the labels of the anchored cells before it, and its file is written exactly when its own download and save succeed, whatever fails elsewhere |
| Plan.ListingCellReached | download_exams.py:40-71 | when no anchor before position `i` lacks `href`, the cell at `i` runs after the draws of the cells before it, and all it does is in the listing's trace |
| Plan.QuarterShape | download_exams.py:23-37 | a quarter requests exactly its listing URL, and that request is its first effect. It raises exactly when the fetched listing has a broken anchor. When the fetch succeeds, its second effect creates `Quarter <index>`, before any cell. |
| Plan.QuarterFetchesExactly | download_exams.py:23-45 | a quarter whose fetch fails requests no attachment; a fetched quarter requests exactly its listing's links up to the first anchor without `href` |
| Plan.QuarterDirs | download_exams.py:33-52 | a quarter creates directories only when its fetch succeeds, and only its own directory and the difficulty directories inside it |
| Plan.QuarterWrites | download_exams.py:33-67 | a quarter writes only files of anchored cells of its fetched listing, under its own directory, when download and save succeeded |
| Plan.DownloadExamsRaises | download_exams.py:19-73 | `download_exams` raises exactly when one of the subject's fetched listings has an anchor without `href` |
| Plan.DownloadExamsFetchesInOrder | download_exams.py:21-24 | `download_exams` requests the listing URLs in list order, each once, continuing past failed fetches; if an exception escapes, it has requested a prefix of the list |
| Plan.DownloadExamsFetchesExactly | download_exams.py:19-73 | `download_exams` requests exactly its URLs in list order up to and including the first listing with an anchor without `href`, and exactly the links of those listings' anchored cells up to that anchor |
| Plan.DownloadExamsFetchesCut | download_exams.py:21-45 | when the listing at position `b` is the first with an anchor without `href`, the URLs requested are exactly those at positions `0` to `b` |
| Plan.DownloadExamsDirs | download_exams.py:21-34 | every directory `download_exams` creates belongs to the URL at some position `i` whose fetch succeeded: `Quarter <i + 1>` or a difficulty directory inside it |
| Plan.QuarterCreatedIffFetched | download_exams.py:24-34 | when no listing before position `i` has an anchor without `href`, `Quarter <i + 1>` is created exactly when the fetch of the URL at `i` succeeds |
| Plan.QuarterCreatedOnlyIfFetched | download_exams.py:24-34 | `Quarter <i + 1>` is created only if the fetch of the URL at position `i` succeeded |
| Plan.DownloadExamsQuarterReached | download_exams.py:21-37 | when no listing before position `i` has an anchor without `href`, the quarter at `i` runs as `Quarter <i + 1>` after the draws of the quarters before it, and all it does is in the subject's trace |
| Plan.QuarterReached | download_exams.py:21-34 | when no listing before position `i` has an anchor without `href` and the fetch at `i` succeeds, `Quarter <i + 1>` is created |
| Plan.DownloadExamsCellReached | download_exams.py:21-48 | when no listing before position `i` and no anchor before cell `j` of the listing at `i` is broken, that cell runs in `Quarter <i + 1>` after the draws of the quarters and anchored cells before it, and all it does is in the subject's trace |
| Plan.DownloadExamsWriteComplete | download_exams.py:21-71 | under the same conditions an anchored cell's link is requested, and its file under `Quarter <i + 1>`, with the label of the draw after those before it, is written exactly when its download and its save succeed |
| Plan.DownloadExamsWrites | download_exams.py:19-67 | every file `download_exams` writes belongs to an anchored cell of the fetched listing at some position `i`, lies under `Quarter <i + 1>`, and is written only after a successful download and save |
| Plan.SubjectsRaises | download_exams.py:130-131 | a year's subjects raise exactly when one of their fetched listings has an anchor without `href` |
| Plan.YearRaises | download_exams.py:127-131 | a year raises exactly when one of its subjects' fetched listings has an anchor without `href` |
| Plan.YearsRaises | download_exams.py:127-131 | the catalog walk raises exactly when some fetched listing in the catalog has an anchor without `href` |
| Plan.RunCrashes | download_exams.py:75-134 | the run creates `~/Exams`, walks the catalog, and ends by printing the error exactly when a fetched listing in the catalog has an anchor without `href` |
| Plan.SubjectsFetchesInOrder | download_exams.py:130-131 | a year requests its subjects' URLs in insertion order, then list order; all of them when nothing raises, a prefix otherwise |
| Plan.YearFetchesInOrder | download_exams.py:127-131 | one year requests exactly its subjects' URLs in order, a prefix of them if an exception escapes |
| Plan.YearsFetchesInOrder | download_exams.py:127-131 | the catalog walk requests the URLs in year, subject and list order; all of them when nothing raises, a prefix otherwise |
| Plan.RunFetchesInOrder | download_exams.py:75-131 | the whole run requests a prefix of the catalog's URLs in table order, and all of them when no fetched listing has a broken anchor |
| Plan.SubjectsFetchesExactly | download_exams.py:130-131 | a year requests exactly its subjects' URLs and links in insertion order, then list order, up to the first listing with an anchor without `href` |
| Plan.YearFetchesExactly | download_exams.py:127-131 | one year requests exactly its subjects' URLs and links in order, up to the first broken anchor |
| Plan.YearsFetchesExactly | download_exams.py:127-131 | the catalog walk requests exactly the URLs and links in table order, up to the first broken anchor |
| Plan.RunFetchesExactly | download_exams.py:75-134 | the run requests exactly the catalog's URLs in table order up to and including the first listing with an anchor without `href`, and exactly the links of the fetched listings' anchored cells up to that anchor |
| Plan.RunRequestsEveryLink | download_exams.py:75-131 | in a run no exception cuts short, the links requested are all the links of every fetched listing in table order, whatever downloads or saves fail |
| Plan.SubjectsWrites | download_exams.py:128-131 | a file written under a year lies under `<year>/<subject>/Quarter <i + 1>/` for a subject of that year and the URL at position `i` of it; quarter numbers restart at 1 for each subject |
| Plan.YearWrites | download_exams.py:127-131 | a file written for a year lies under that year's directory, in the quarter of one of its subjects' URLs |
| Plan.YearsWrites | download_exams.py:127-131 | every file written by the catalog walk lies at `<year>/<subject>/Quarter <i + 1>/<difficulty>/<cleaned title>.pdf` for one of its cells, after a successful download and save |
| Plan.SubjectsDirs | download_exams.py:130-131 | a year's subjects create only `<subject>/Quarter <i + 1>` for a fetched URL at position `i` of a subject, and the difficulty directories inside it |
| Plan.YearDirs | download_exams.py:128-131 | a year creates its own directory `<year>` and otherwise only its subjects' quarter and difficulty directories |
| Plan.YearsDirs | download_exams.py:127-131 | the catalog walk creates only year directories and the quarter and difficulty directories of fetched URLs |
| Plan.RunDirs | download_exams.py:77-131 | the only directories the run creates are `~/Exams`, `~/Exams/<year>` for a year of the catalog, and `~/Exams/<year>/<subject>/Quarter <i + 1>` for a fetched URL, with the difficulty directories inside it |
| Plan.RunWrites | download_exams.py:77-131 | every file written by the run lies at `~/Exams/<year>/<subject>/Quarter <i + 1>/<difficulty>/<cleaned title>.pdf` for an anchored cell of a fetched listing in the catalog, from that cell's link, and only after its download and save succeeded |
| Plan.SubjectsReached | download_exams.py:130-131 | when no subject before position `s` has a broken anchor, the subject at `s` runs after the draws of those before it, and all it does is in the year's trace |
| Plan.YearDirReached | download_exams.py:127-129 | when no year before position `y` has a broken anchor, the run creates `~/Exams/<year>` for the year at `y` |
| Plan.DownloadExamsDraws | download_exams.py:21-48 | a subject none of whose fetched listings has a broken anchor draws one label per link of its fetched listings |
| Plan.SubjectsDraws | download_exams.py:130-131 | subjects with no broken listing draw one label per link of their fetched listings |
| Plan.YearsDraws | download_exams.py:127-131 | years with no broken listing draw one label per link of their fetched listings |
| Plan.RunCellDraw | download_exams.py:19-131 | when nothing before a cell raises, the label drawn for it is the one after one draw per link of every fetched listing before it, in table order |
| Plan.YearsReached | download_exams.py:127-131 | when no year before position `y` has a broken anchor, the year at `y` runs after the draws of those before it, and all it does is in the catalog walk's trace |
| Plan.YearCellReached | download_exams.py:19-131 | a cell runs when nothing before it in the year raises: no earlier subject, no earlier listing of its subject and no earlier cell of its listing. It runs in `<year>/<subject>/Quarter <i + 1>` with the label of draw `kc`. `kc` is the number of draws made before it, as `CellDraw` counts them. All the cell does is in the year's trace. |
| Plan.RunCellReached | download_exams.py:75-131 | a cell runs when nothing before it in the run raises: no earlier year, subject, listing or cell. It runs in `~/Exams/<year>/<subject>/Quarter <i + 1>` with the label of draw `kc`, the number of draws made before it. All the cell does is in the run's trace, even if a later item crashes the run. |
| Plan.RunWriteComplete | download_exams.py:19-131 | an anchored cell that nothing before it raises on is requested. Its file `~/Exams/<year>/<subject>/Quarter <i + 1>/<difficulty>/<cleaned title>.pdf` uses the label of draw `kc`, the number of draws made before the cell. The file is written exactly when its download and the save to that path succeed. |
| Crawler.Crawler.ClassifyDifficulty | download_exams.py:9-11 | the label is the one the next draw picks; the draw count goes up by one; nothing else changes |
| Crawler.Crawler.DownloadExams | download_exams.py:19-73 | the quarter loop appends exactly the trace of `Plan.DownloadExamsPlan`, makes its draws and reports whether an exception escaped |
| Crawler.Crawler.DownloadQuarter | download_exams.py:23-37 | one quarter appends exactly the trace of `Plan.QuarterPlan` |
| Crawler.Crawler.DownloadListing | download_exams.py:40-71 | the loop over a listing's cells appends exactly the trace of `Plan.ListingPlan` and stops at the first exception |
| Crawler.Crawler.DownloadEntry | download_exams.py:42-71 | one cell appends exactly the trace of `Plan.CellPlan`, raising when its anchor has no `href` |
| Crawler.Crawler.SaveAttachment | download_exams.py:55-71 | the download-and-save `try` appends exactly the trace of `Plan.Attempt` and draws nothing |
| Crawler.Crawler.DownloadYear | download_exams.py:127-131 | one year appends exactly the trace of `Plan.YearPlan` |
| Crawler.Crawler.Run | download_exams.py:75-136 | the script appends exactly `Plan.RunPlan`: `~/Exams`, the catalog walk, and the error line when an exception escaped |

## Left out

- HTTP: the `requests` session, its `Retry` policy with backoff and the `(3, 30)` timeouts (download_exams.py:14-16, 24, 56). A listing fetch or a download is a success or a failure, given by the `World`.
- HTML parsing with BeautifulSoup (download_exams.py:30, 37, 42). A fetched listing is given as its cells, in document order, each holding an optional anchor with its text and optional `href`.
- A URL, link or save path that appears twice gets the same answer both times, because the `World` answers by URL, by link and by path: two saves to the same path both succeed or both fail. Attachment bodies are not modelled: a write records the path and the link whose body it writes.
- The randomness of `random.choice`. The k-th draw's index is an input, and `Naming.DifficultyIsBijection` shows that every label can be drawn. Uniformity is a probabilistic property and is not stated.
- The real file system. `os.makedirs(..., exist_ok=True)` is recorded as an effect and always succeeds. Its `OSError` (for example a permission failure), which would escape to the top-level handler, is not modelled. Writes fail or succeed as the `World` says. A failed save is recorded as no write at all, although a save that fails after `open(filepath, 'wb')` has succeeded (a full disk during `write`, say) leaves an empty or truncated file at that path, and when another cell's title and label lead to the same path an earlier cell's file is lost.
- `os.path.join` is modelled as joining with one `/`, with relative components. `os.path.expanduser('~')` is the `home` parameter of `Crawler.Crawler.Run`.
- Printed lines record which message was printed and with which title, subject, difficulty or URL. The exception text that Python appends to each message is not modelled.
- The literal URL table (download_exams.py:82-124). The catalog is the `years` parameter, in the table's insertion order.
- `session.close()` in the `finally` block (download_exams.py:135-136) releases the HTTP connection pool. It has no effect on the trace.
- `str.strip()` is modelled with Python's whitespace set for `str.isspace()` over single code points. `Text.ShowNat` covers only the non-negative numbers that `enumerate(..., start=1)` produces.
