/** What one run of the downloader does, as a trace of effects computed from
    what the outside world answers. `download_exams` (download_exams.py:19-73)
    and the top-level year/subject loop (download_exams.py:75-136) are
    specified here by functions; the Crawler module runs the same steps
    imperatively and is proved to produce exactly these traces. */
module Plan {
  import opened Wrappers
  import opened Text
  import opened Naming
  import opened Trace

  // ---------------------------------------------------------------------
  // Inputs: the catalog and the world's answers
  // ---------------------------------------------------------------------

  /** An `<a class="attachment-link">` element: its visible text and its
      `href` attribute, if it has one. */
  datatype Anchor = Anchor(text: string, href: Option<string>)

  /** A `<td class="attachment-title">` cell holds an anchor, or none. */
  type Cell = Option<Anchor>

  /** The answer to a listing URL: the request failed (a transport error or a
      non-2xx status after the session's retries), or the page was fetched and
      parsed into its attachment cells, in document order. */
  datatype Page = FetchFailed | Listing(cells: seq<Cell>)

  /** Everything the run depends on but does not decide: the answer to each
      listing URL, whether each attachment download succeeds, whether writing
      each file succeeds, and the index the k-th `random.choice` picks. */
  datatype World = World(
    page: string -> Page,
    download: string -> bool,
    save: string -> bool,
    pick: nat -> Draw)

  /** A subject with its listing URLs, one per quarter, in quarter order. */
  datatype Subject = Subject(name: string, urls: seq<string>)

  /** A school year with its subjects, in the table's insertion order. */
  datatype Year = Year(name: string, subjects: seq<Subject>)

  // ---------------------------------------------------------------------
  // The run, step by step
  // ---------------------------------------------------------------------

  /** Downloading one attachment into `dir` (download_exams.py:55-71): the
      request, then on success the file write, each failure printed and
      contained. */
  function Attempt(w: World, dir: string, subject: string, title: string, link: string,
                   difficulty: string): seq<Effect>
  {
    [FetchFile(link)] +
    if !w.download(link) then [Print(DownloadFailed(title))]
    else
      var path := Join(dir, FileName(title));
      if w.save(path) then [WriteFile(path, link), Print(Downloaded(title, subject, difficulty))]
      else [Print(SaveFailed(title))]
  }

  /** One attachment cell of a fetched listing whose quarter directory is
      `base`, with `k` draws made before it (download_exams.py:42-71): a cell
      without an anchor is skipped; an anchor without `href` raises KeyError,
      which no handler in `download_exams` catches; otherwise the k-th label
      is drawn, its directory created and the download attempted. */
  function CellPlan(w: World, base: string, subject: string, cell: Cell, k: nat): Outcome {
    match cell
    case None => Start(k)
    case Some(anchor) =>
      match anchor.href
      case None => Outcome([], k, true)
      case Some(href) =>
        var difficulty := Difficulty(w.pick(k));
        var dir := Join(base, difficulty);
        Outcome([MakeDirs(dir)] + Attempt(w, dir, subject, Strip(anchor.text), Strip(href), difficulty), k + 1, false)
  }

  /** The body of the loop over a listing's cells. */
  function CellStep(w: World, base: string, subject: string): (Cell, nat, nat) -> Outcome {
    (cell: Cell, at: nat, k: nat) => CellPlan(w, base, subject, cell, k)
  }

  /** The cells of one listing, in document order (download_exams.py:40). */
  function ListingPlan(w: World, base: string, subject: string, cells: seq<Cell>, k: nat): Outcome {
    Loop(CellStep(w, base, subject), cells, 0, Start(k))
  }

  /** One quarter, numbered `index` (download_exams.py:22-37, 72-73): fetch
      the listing; on failure print and go on; on success create
      `Quarter <index>` and walk its cells. */
  function QuarterPlan(w: World, subject: string, url: string, yearDir: string, index: nat, k: nat): Outcome {
    match w.page(url)
    case FetchFailed => Outcome([FetchPage(url), Print(FetchError(url))], k, false)
    case Listing(cells) =>
      var base := QuarterDir(yearDir, subject, index);
      Then(Outcome([FetchPage(url), MakeDirs(base)], k, false), ListingPlan(w, base, subject, cells, k))
  }

  /** The body of the loop over a subject's quarter URLs. */
  function QuarterStep(w: World, subject: string, yearDir: string): (string, nat, nat) -> Outcome {
    (url: string, index: nat, k: nat) => QuarterPlan(w, subject, url, yearDir, index, k)
  }

  /** `download_exams(subject, quarters_urls, year_directory)`
      (download_exams.py:19-21): the quarters in list order, numbered from 1
      as `enumerate(quarters_urls, start=1)` does. */
  function DownloadExamsPlan(w: World, subject: string, urls: seq<string>, yearDir: string, k: nat): Outcome {
    Loop(QuarterStep(w, subject, yearDir), urls, 1, Start(k))
  }

  /** The body of the loop over a year's subjects. */
  function SubjectStep(w: World, yearDir: string): (Subject, nat, nat) -> Outcome {
    (s: Subject, at: nat, k: nat) => DownloadExamsPlan(w, s.name, s.urls, yearDir, k)
  }

  /** The subjects of one year, in insertion order (download_exams.py:130-131). */
  function SubjectsPlan(w: World, yearDir: string, subjects: seq<Subject>, k: nat): Outcome {
    Loop(SubjectStep(w, yearDir), subjects, 0, Start(k))
  }

  /** One year (download_exams.py:128-131): its directory, then its subjects. */
  function YearPlan(w: World, mainDir: string, year: Year, k: nat): Outcome {
    var yearDir := Join(mainDir, year.name);
    Then(Outcome([MakeDirs(yearDir)], k, false), SubjectsPlan(w, yearDir, year.subjects, k))
  }

  /** The body of the loop over the years. */
  function YearStep(w: World, mainDir: string): (Year, nat, nat) -> Outcome {
    (y: Year, at: nat, k: nat) => YearPlan(w, mainDir, y, k)
  }

  /** The years, in insertion order (download_exams.py:127). */
  function YearsPlan(w: World, mainDir: string, years: seq<Year>, k: nat): Outcome {
    Loop(YearStep(w, mainDir), years, 0, Start(k))
  }

  /** The main directory under the home directory (download_exams.py:77-78). */
  function MainDir(home: string): string {
    Join(home, "Exams")
  }

  /** The whole run (download_exams.py:75-136): create `~/Exams`, walk the
      catalog, and print the error if an exception escaped. */
  function RunPlan(w: World, home: string, years: seq<Year>, k: nat): seq<Effect> {
    var r := YearsPlan(w, MainDir(home), years, k);
    [MakeDirs(MainDir(home))] + r.effects + (if r.raised then [Print(Crashed)] else [])
  }

  // ---------------------------------------------------------------------
  // Reference views of inputs and traces
  // ---------------------------------------------------------------------

  /** An anchor without `href`: reading `link_tag['href']` raises KeyError. */
  predicate Broken(cell: Cell) {
    cell.Some? && cell.value.href.None?
  }

  predicate HasBroken(cells: seq<Cell>) {
    exists i :: 0 <= i < |cells| && Broken(cells[i])
  }

  /** A fetched listing with an anchor without `href`. */
  predicate ListingBroken(page: Page) {
    page.Listing? && HasBroken(page.cells)
  }

  /** Some fetched listing of the subject has an anchor without `href`. */
  predicate SubjectHasBroken(w: World, urls: seq<string>) {
    exists i :: 0 <= i < |urls| && ListingBroken(w.page(urls[i]))
  }

  predicate YearHasBroken(w: World, year: Year) {
    exists s :: 0 <= s < |year.subjects| && SubjectHasBroken(w, year.subjects[s].urls)
  }

  /** Some fetched listing of the whole catalog has an anchor without `href`. */
  predicate CatalogHasBroken(w: World, years: seq<Year>) {
    exists y :: 0 <= y < |years| && YearHasBroken(w, years[y])
  }

  /** The stripped `href` of a cell whose anchor has one. */
  function LinkOf(cell: Cell): seq<string> {
    match cell
    case Some(Anchor(_, Some(h))) => [Strip(h)]
    case _ => []
  }

  /** The stripped links of a listing's anchored cells, in document order. */
  function Links(cells: seq<Cell>): seq<string> {
    Flat(LinkOf, cells)
  }

  /** A cell requests no listing. */
  function NoUrls(cell: Cell): seq<string> {
    []
  }

  /** A quarter requests its own listing URL. */
  function Single(url: string): seq<string> {
    [url]
  }

  function UrlsOf(subject: Subject): seq<string> {
    subject.urls
  }

  /** Every listing URL of a year, subjects then quarters, in table order. */
  function YearUrls(year: Year): seq<string> {
    Flat(UrlsOf, year.subjects)
  }

  /** Every listing URL of the catalog, years then subjects then quarters,
      in table order. */
  function CatalogUrls(years: seq<Year>): seq<string> {
    Flat(YearUrls, years)
  }

  /** Whether the fetched listing at a URL has an anchor without `href`. */
  function BrokenAt(w: World): string -> bool {
    (url: string) => ListingBroken(w.page(url))
  }

  /** The links a quarter requests: those of its fetched listing's anchored
      cells, up to the first anchor without `href`. */
  function QuarterLinks(w: World): string -> seq<string> {
    (url: string) => if w.page(url).Listing? then FlatUntil(LinkOf, Broken, w.page(url).cells) else []
  }

  function SubjectBroken(w: World): Subject -> bool {
    (s: Subject) => SubjectHasBroken(w, s.urls)
  }

  /** The listing URLs a subject's walk requests: its URLs in list order, up
      to and including the first whose listing has a broken anchor. */
  function SubjectRequests(w: World): Subject -> seq<string> {
    (s: Subject) => FlatUntil(Single, BrokenAt(w), s.urls)
  }

  /** The links a subject's walk requests, quarter by quarter, up to the
      first broken anchor. */
  function SubjectLinks(w: World): Subject -> seq<string> {
    (s: Subject) => FlatUntil(QuarterLinks(w), BrokenAt(w), s.urls)
  }

  function YearBroken(w: World): Year -> bool {
    (y: Year) => YearHasBroken(w, y)
  }

  function YearRequests(w: World): Year -> seq<string> {
    (y: Year) => FlatUntil(SubjectRequests(w), SubjectBroken(w), y.subjects)
  }

  function YearLinks(w: World): Year -> seq<string> {
    (y: Year) => FlatUntil(SubjectLinks(w), SubjectBroken(w), y.subjects)
  }

  /** The listing URLs the run requests: the catalog's in table order, up to
      and including the first whose listing has a broken anchor. */
  function CatalogRequests(w: World, years: seq<Year>): seq<string> {
    FlatUntil(YearRequests(w), YearBroken(w), years)
  }

  /** The links the run requests: those of the fetched listings' anchored
      cells in table order, up to the first broken anchor. */
  function CatalogLinks(w: World, years: seq<Year>): seq<string> {
    FlatUntil(YearLinks(w), YearBroken(w), years)
  }

  /** Every link of the listing fetched from a URL; none if the fetch fails. */
  function ListingLinks(w: World): string -> seq<string> {
    (url: string) => if w.page(url).Listing? then Links(w.page(url).cells) else []
  }

  function SubjectAllLinks(w: World): Subject -> seq<string> {
    (s: Subject) => Flat(ListingLinks(w), s.urls)
  }

  function YearAllLinks(w: World): Year -> seq<string> {
    (y: Year) => Flat(SubjectAllLinks(w), y.subjects)
  }

  /** Every link of every fetched listing of the catalog, in table order. */
  function CatalogAllLinks(w: World, years: seq<Year>): seq<string> {
    Flat(YearAllLinks(w), years)
  }

  /** `path` and `link` are where and from what an anchored `cell` of a
      listing with quarter directory `base` is saved. */
  predicate WrittenFor(path: string, link: string, base: string, cell: Cell) {
    cell.Some? && cell.value.href.Some? &&
    link == Strip(cell.value.href.value) && path in ExamFiles(base, Strip(cell.value.text))
  }

  /** `path` and `link` are where and from what some cell of a listing with
      quarter directory `base` is saved. */
  predicate WrittenFrom(path: string, link: string, base: string, cells: seq<Cell>) {
    exists i :: 0 <= i < |cells| && WrittenFor(path, link, base, cells[i])
  }

  // ---------------------------------------------------------------------
  // One attachment cell
  // ---------------------------------------------------------------------

  /** An attempt requests the link first; after that it only writes and
      prints. */
  lemma {:induction false} AttemptShape(w: World, dir: string, subject: string, title: string, link: string, difficulty: string)
    ensures var a := Attempt(w, dir, subject, title, link, difficulty);
            2 <= |a| <= 3 && a[0] == FetchFile(link) &&
            forall j :: 1 <= j < |a| ==> a[j].WriteFile? || a[j].Print?
  {
  }

  /** Writes and prints request nothing. */
  lemma {:induction false} NoFetches(e: seq<Effect>)
    requires forall j :: 0 <= j < |e| ==> e[j].WriteFile? || e[j].Print?
    ensures PageFetches(e) == [] && FileFetches(e) == []
  {
    if e != [] {
      NoFetches(e[1..]);
    }
  }

  /** A cell raises exactly when its anchor has no `href`; a cell without a
      link does nothing; a cell with one makes one draw. */
  lemma {:induction false} CellOutcome(w: World, base: string, subject: string, cell: Cell, k: nat)
    ensures var c := CellPlan(w, base, subject, cell, k);
            c.raised == Broken(cell) && c.next == k + |LinkOf(cell)| && (LinkOf(cell) == [] ==> c.effects == [])
  {
  }

  /** The effects of an anchored cell: the creation of the directory of
      the label drawn for it, then the request for the cell's link, then only
      writes and prints, and the only file it may write is the cleaned title
      in that same directory. */
  lemma {:induction false} CellLayout(w: World, base: string, subject: string, text: string, href: string, k: nat)
    ensures var e := CellPlan(w, base, subject, Some(Anchor(text, Some(href))), k).effects;
            3 <= |e| && e[0] == MakeDirs(Join(base, Difficulty(w.pick(k)))) && e[0].path in DifficultyDirs(base) &&
            e[1] == FetchFile(Strip(href)) &&
            (forall j :: 2 <= j < |e| ==> e[j].WriteFile? || e[j].Print?) &&
            (forall j :: 2 <= j < |e| && e[j].WriteFile? ==>
               e[j] == WriteFile(Join(e[0].path, FileName(Strip(text))), Strip(href)))
  {
    var difficulty := Difficulty(w.pick(k));
    var dir := Join(base, difficulty);
    var a := Attempt(w, dir, subject, Strip(text), Strip(href), difficulty);
    AttemptShape(w, dir, subject, Strip(text), Strip(href), difficulty);
    assert CellPlan(w, base, subject, Some(Anchor(text, Some(href))), k).effects == [MakeDirs(dir)] + a;
    DifficultyDirOf(base, w.pick(k));
  }

  /** A cell requests no listing and requests its own link, if it has one. */
  lemma {:induction false} CellFetches(w: World, base: string, subject: string, cell: Cell, k: nat)
    ensures PageFetches(CellPlan(w, base, subject, cell, k).effects) == []
    ensures FileFetches(CellPlan(w, base, subject, cell, k).effects) == LinkOf(cell)
  {
    if cell.Some? && cell.value.href.Some? {
      var e := CellPlan(w, base, subject, cell, k).effects;
      var link := Strip(cell.value.href.value);
      CellLayout(w, base, subject, cell.value.text, cell.value.href.value, k);
      assert e == e[..2] + e[2..];
      NoFetches(e[2..]);
      FlatAppend(FileLink, e[..2], e[2..]);
      FlatAppend(PageUrl, e[..2], e[2..]);
      assert e[..2][1..] == [FetchFile(link)];
    }
  }

  lemma {:induction false} CellDirs(w: World, base: string, subject: string, cell: Cell, k: nat, p: string)
    requires MakeDirs(p) in CellPlan(w, base, subject, cell, k).effects
    ensures p in DifficultyDirs(base)
  {
    var e := CellPlan(w, base, subject, cell, k).effects;
    CellOutcome(w, base, subject, cell, k);
    if cell.Some? && cell.value.href.Some? {
      CellLayout(w, base, subject, cell.value.text, cell.value.href.value, k);
      var j :| 0 <= j < |e| && e[j] == MakeDirs(p);
      assert j == 0;
    }
  }

  lemma {:induction false} CellWrites(w: World, base: string, subject: string, cell: Cell, k: nat, p: string, l: string)
    requires WriteFile(p, l) in CellPlan(w, base, subject, cell, k).effects
    ensures w.download(l) && w.save(p)
    ensures WrittenFor(p, l, base, cell)
  {
    var anchor := cell.value;
    var href := anchor.href.value;
    var difficulty := Difficulty(w.pick(k));
    var dir := Join(base, difficulty);
    var a := Attempt(w, dir, subject, Strip(anchor.text), Strip(href), difficulty);
    assert CellPlan(w, base, subject, cell, k).effects == [MakeDirs(dir)] + a;
    assert WriteFile(p, l) in a;
  }

  /** An anchored cell's file is written exactly when its download and its
      save succeed. */
  lemma {:induction false} CellWriteComplete(w: World, base: string, subject: string, text: string, href: string, k: nat)
    ensures var path := Join(Join(base, Difficulty(w.pick(k))), FileName(Strip(text)));
            WriteFile(path, Strip(href)) in CellPlan(w, base, subject, Some(Anchor(text, Some(href))), k).effects
            <==> w.download(Strip(href)) && w.save(path)
  {
    var difficulty := Difficulty(w.pick(k));
    var dir := Join(base, difficulty);
    var a := Attempt(w, dir, subject, Strip(text), Strip(href), difficulty);
    assert CellPlan(w, base, subject, Some(Anchor(text, Some(href))), k).effects == [MakeDirs(dir)] + a;
  }

  // ---------------------------------------------------------------------
  // One listing
  // ---------------------------------------------------------------------

  /** A listing raises exactly when one of its anchors has no `href`. */
  lemma {:induction false} ListingRaises(w: World, base: string, subject: string, cells: seq<Cell>, k: nat)
    ensures ListingPlan(w, base, subject, cells, k).raised <==> HasBroken(cells)
  {
    var step := CellStep(w, base, subject);
    forall x: Cell, p: nat, k': nat ensures step(x, p, k').raised == Broken(x) {
      CellOutcome(w, base, subject, x, k');
    }
    LoopRaises(step, Broken, cells, 0, Start(k));
  }

  /** Reading a listing requests no listing URL; it requests the links of
      its anchored cells in document order, all of them when no anchor lacks
      `href` (a failed download does not stop the next), and otherwise a
      prefix of them (`ListingFetchesCut` says which). */
  lemma {:induction false} ListingFetches(w: World, base: string, subject: string, cells: seq<Cell>, k: nat)
    ensures PageFetches(ListingPlan(w, base, subject, cells, k).effects) == []
    ensures FileFetches(ListingPlan(w, base, subject, cells, k).effects) <= Links(cells)
    ensures !HasBroken(cells) ==> FileFetches(ListingPlan(w, base, subject, cells, k).effects) == Links(cells)
  {
    var step := CellStep(w, base, subject);
    forall x: Cell, p: nat, k': nat
      ensures Flat(PageUrl, step(x, p, k').effects) == NoUrls(x)
      ensures Flat(FileLink, step(x, p, k').effects) == LinkOf(x)
    {
      CellFetches(w, base, subject, x, k');
    }
    LoopProject(step, PageUrl, NoUrls, cells, 0, Start(k));
    LoopProject(step, FileLink, LinkOf, cells, 0, Start(k));
    FlatNone(NoUrls, cells);
    ListingRaises(w, base, subject, cells, k);
  }

  /** A listing requests exactly the links of its anchored cells in document
      order, up to its first anchor without `href`. */
  lemma {:induction false} ListingFetchesExactly(w: World, base: string, subject: string, cells: seq<Cell>, k: nat)
    ensures FileFetches(ListingPlan(w, base, subject, cells, k).effects) == FlatUntil(LinkOf, Broken, cells)
  {
    var step := CellStep(w, base, subject);
    forall x: Cell, p: nat, k': nat
      ensures Flat(FileLink, step(x, p, k').effects) == LinkOf(x) && step(x, p, k').raised == Broken(x)
    {
      CellFetches(w, base, subject, x, k');
      CellOutcome(w, base, subject, x, k');
    }
    LoopProjectUntil(step, FileLink, LinkOf, Broken, cells, 0, Start(k));
  }

  /** When the first anchor without `href` is the cell at position `b`, the
      listing requests exactly the links of the cells before it. */
  lemma {:induction false} ListingFetchesCut(w: World, base: string, subject: string, cells: seq<Cell>, k: nat, b: nat)
    requires b < |cells| && Broken(cells[b]) && !HasBroken(cells[..b])
    ensures FileFetches(ListingPlan(w, base, subject, cells, k).effects) == Links(cells[..b])
  {
    ListingFetchesExactly(w, base, subject, cells, k);
    LinksCut(cells, b);
  }

  /** The links up to the first broken anchor, at position `b`, are the links
      of the cells before it. */
  lemma {:induction false} LinksCut(cells: seq<Cell>, b: nat)
    requires b < |cells| && Broken(cells[b]) && !HasBroken(cells[..b])
    ensures FlatUntil(LinkOf, Broken, cells) == Links(cells[..b])
  {
    forall i | 0 <= i < b ensures !Broken(cells[i]) {
      assert cells[..b][i] == cells[i];
    }
    FlatUntilCut(LinkOf, Broken, cells, b);
    assert cells[..b + 1] == cells[..b] + [cells[b]];
    FlatAppend(LinkOf, cells[..b], [cells[b]]);
    FlatOne(LinkOf, cells[b]);
  }

  /** A listing with no broken anchor draws one label per anchored cell. */
  lemma {:induction false} ListingDraws(w: World, base: string, subject: string, cells: seq<Cell>, k: nat)
    ensures !HasBroken(cells) ==> ListingPlan(w, base, subject, cells, k).next == k + |Links(cells)|
  {
    var step := CellStep(w, base, subject);
    forall x: Cell, p: nat, k': nat ensures !step(x, p, k').raised ==> step(x, p, k').next == k' + |LinkOf(x)| {
      CellOutcome(w, base, subject, x, k');
    }
    LoopDraws(step, LinkOf, cells, 0, Start(k));
    ListingRaises(w, base, subject, cells, k);
  }

  /** The effect at position `j` of a listing's trace is the effect at
      position `j - off` of the trace of the cell at position `i`, run after
      `k'` draws. */
  lemma {:induction false} ListingLocate(w: World, base: string, subject: string, cells: seq<Cell>, k: nat, j: nat)
    returns (i: nat, k': nat, off: nat)
    requires j < |ListingPlan(w, base, subject, cells, k).effects|
    ensures i < |cells| && off <= j && k' == ListingPlan(w, base, subject, cells[..i], k).next
    ensures var e := ListingPlan(w, base, subject, cells, k).effects;
            var c := CellPlan(w, base, subject, cells[i], k').effects;
            j < off + |c| <= |e| && e[off..off + |c|] == c
  {
    i, k', off := LoopLocate(CellStep(w, base, subject), cells, 0, Start(k), j);
  }

  /** The only directories a listing creates are difficulty directories of
      its quarter. */
  lemma {:induction false} ListingDirs(w: World, base: string, subject: string, cells: seq<Cell>, k: nat, p: string)
    requires MakeDirs(p) in ListingPlan(w, base, subject, cells, k).effects
    ensures p in DifficultyDirs(base)
  {
    var e := ListingPlan(w, base, subject, cells, k).effects;
    var j :| 0 <= j < |e| && e[j] == MakeDirs(p);
    var i, k', off := ListingLocate(w, base, subject, cells, k, j);
    var c := CellPlan(w, base, subject, cells[i], k').effects;
    assert c[j - off] == e[j];
    CellDirs(w, base, subject, cells[i], k', p);
  }

  /** The difficulty directory is created before the download is attempted:
      every attachment request is the request of an anchored cell at some
      position `i`, and comes right after the creation of the directory of
      the label drawn for that cell, after the draws of the cells before it,
      so that directory exists even when the download then fails. */
  lemma {:induction false} DirBeforeDownload(w: World, base: string, subject: string, cells: seq<Cell>, k: nat, j: nat)
    returns (i: nat)
    requires j < |ListingPlan(w, base, subject, cells, k).effects|
    requires ListingPlan(w, base, subject, cells, k).effects[j].FetchFile?
    ensures 0 < j && i < |cells| && cells[i].Some? && cells[i].value.href.Some?
    ensures ListingPlan(w, base, subject, cells, k).effects[j] == FetchFile(Strip(cells[i].value.href.value))
    ensures ListingPlan(w, base, subject, cells, k).effects[j - 1] ==
            MakeDirs(Join(base, Difficulty(w.pick(ListingPlan(w, base, subject, cells[..i], k).next))))
    ensures ListingPlan(w, base, subject, cells, k).effects[j - 1].path in DifficultyDirs(base)
  {
    var e := ListingPlan(w, base, subject, cells, k).effects;
    var k', off;
    i, k', off := ListingLocate(w, base, subject, cells, k, j);
    var c := CellPlan(w, base, subject, cells[i], k').effects;
    assert c[j - off] == e[j];
    CellFetchAfterDir(w, base, subject, cells[i], k', j - off);
    CellLayout(w, base, subject, cells[i].value.text, cells[i].value.href.value, k');
    assert e[j - 1] == c[0];
  }

  /** Every file a listing writes goes into the directory created two
      effects before it, right before the request of the same link: a file
      is written only into a directory that was created for it. */
  lemma {:induction false} DirBeforeWrite(w: World, base: string, subject: string, cells: seq<Cell>, k: nat, j: nat)
    returns (i: nat)
    requires j < |ListingPlan(w, base, subject, cells, k).effects|
    requires ListingPlan(w, base, subject, cells, k).effects[j].WriteFile?
    ensures 2 <= j && i < |cells| && cells[i].Some? && cells[i].value.href.Some?
    ensures var e := ListingPlan(w, base, subject, cells, k).effects;
            var d := Join(base, Difficulty(w.pick(ListingPlan(w, base, subject, cells[..i], k).next)));
            e[j - 2] == MakeDirs(d) && e[j - 1] == FetchFile(Strip(cells[i].value.href.value)) &&
            e[j] == WriteFile(Join(d, FileName(Strip(cells[i].value.text))), Strip(cells[i].value.href.value))
  {
    var e := ListingPlan(w, base, subject, cells, k).effects;
    var k', off;
    i, k', off := ListingLocate(w, base, subject, cells, k, j);
    var c := CellPlan(w, base, subject, cells[i], k').effects;
    assert c[j - off] == e[j];
    CellOutcome(w, base, subject, cells[i], k');
    var text, href := cells[i].value.text, cells[i].value.href.value;
    CellLayout(w, base, subject, text, href, k');
    assert e[j - 2] == c[0] && e[j - 1] == c[1];
  }

  /** Within a cell, the only request is the second effect, right after the
      creation of the directory of the label drawn for it. */
  lemma {:induction false} CellFetchAfterDir(w: World, base: string, subject: string, cell: Cell, k: nat, t: nat)
    requires t < |CellPlan(w, base, subject, cell, k).effects|
    requires CellPlan(w, base, subject, cell, k).effects[t].FetchFile?
    ensures t == 1
    ensures CellPlan(w, base, subject, cell, k).effects[0] == MakeDirs(Join(base, Difficulty(w.pick(k))))
    ensures CellPlan(w, base, subject, cell, k).effects[0].path in DifficultyDirs(base)
  {
    CellOutcome(w, base, subject, cell, k);
    CellLayout(w, base, subject, cell.value.text, cell.value.href.value, k);
  }

  /** A file is written only for an anchored cell of the listing whose
      download and save both succeeded, at
      `<quarter>/<difficulty>/<cleaned title>.pdf`. */
  lemma {:induction false} ListingWriteSound(w: World, base: string, subject: string, cells: seq<Cell>, k: nat, p: string, l: string)
    requires WriteFile(p, l) in ListingPlan(w, base, subject, cells, k).effects
    ensures w.download(l) && w.save(p)
    ensures WrittenFrom(p, l, base, cells)
  {
    var e := ListingPlan(w, base, subject, cells, k).effects;
    var j :| 0 <= j < |e| && e[j] == WriteFile(p, l);
    var i, k', off := ListingLocate(w, base, subject, cells, k, j);
    var c := CellPlan(w, base, subject, cells[i], k').effects;
    assert c[j - off] == e[j];
    CellWrites(w, base, subject, cells[i], k', p, l);
  }

  /** When no anchor before position `i` lacks `href`, the file of the
      anchored cell at `i`, whose label is the one drawn after those of the
      anchored cells before it, is written exactly when its download and its
      save succeed: a failure elsewhere in the listing does not affect it. */
  lemma {:induction false} ListingWriteComplete(w: World, base: string, subject: string, cells: seq<Cell>, k: nat,
                             i: nat, text: string, href: string)
    requires i < |cells| && cells[i] == Some(Anchor(text, Some(href)))
    requires !HasBroken(cells[..i])
    ensures var path := Join(Join(base, Difficulty(w.pick(k + |Links(cells[..i])|))), FileName(Strip(text)));
            WriteFile(path, Strip(href)) in ListingPlan(w, base, subject, cells, k).effects <==>
            w.download(Strip(href)) && w.save(path)
  {
    var path := Join(Join(base, Difficulty(w.pick(k + |Links(cells[..i])|))), FileName(Strip(text)));
    if WriteFile(path, Strip(href)) in ListingPlan(w, base, subject, cells, k).effects {
      ListingWriteSound(w, base, subject, cells, k, path, Strip(href));
    }
    if w.download(Strip(href)) && w.save(path) {
      ListingWriteReached(w, base, subject, cells, k, i, text, href);
    }
  }

  lemma {:induction false} ListingWriteReached(w: World, base: string, subject: string, cells: seq<Cell>, k: nat,
                            i: nat, text: string, href: string)
    requires i < |cells| && cells[i] == Some(Anchor(text, Some(href)))
    requires !HasBroken(cells[..i])
    requires var path := Join(Join(base, Difficulty(w.pick(k + |Links(cells[..i])|))), FileName(Strip(text)));
             w.download(Strip(href)) && w.save(path)
    ensures var path := Join(Join(base, Difficulty(w.pick(k + |Links(cells[..i])|))), FileName(Strip(text)));
            WriteFile(path, Strip(href)) in ListingPlan(w, base, subject, cells, k).effects
  {
    var k' := k + |Links(cells[..i])|;
    var path := Join(Join(base, Difficulty(w.pick(k'))), FileName(Strip(text)));
    var c := CellPlan(w, base, subject, cells[i], k').effects;
    assert ListingPlan(w, base, subject, cells[..i], k).next == k' by {
      ListingDraws(w, base, subject, cells[..i], k);
    }
    ListingCellReached(w, base, subject, cells, k, i);
    assert Within(c, ListingPlan(w, base, subject, cells, k).effects);
    CellWriteComplete(w, base, subject, text, href, k');
    InWithin(WriteFile(path, Strip(href)), c, ListingPlan(w, base, subject, cells, k).effects);
  }

  /** When no anchor before position `i` lacks `href`, the cell at `i` runs,
      after the draws of the cells before it, and all it does is in the
      listing's trace. */
  lemma {:induction false} ListingCellReached(w: World, base: string, subject: string, cells: seq<Cell>, k: nat, i: nat)
    requires i < |cells| && !HasBroken(cells[..i])
    ensures Within(CellPlan(w, base, subject, cells[i], ListingPlan(w, base, subject, cells[..i], k).next).effects,
                   ListingPlan(w, base, subject, cells, k).effects)
  {
    var step := CellStep(w, base, subject);
    var before := Loop(step, cells[..i], 0, Start(k));
    ListingRaises(w, base, subject, cells[..i], k);
    assert before == ListingPlan(w, base, subject, cells[..i], k);
    assert step(cells[i], 0 + i, before.next) == CellPlan(w, base, subject, cells[i], before.next);
    LoopReachAll(step, cells, 0, Start(k), i);
  }

  // ---------------------------------------------------------------------
  // One quarter
  // ---------------------------------------------------------------------

  /** A quarter requests its listing URL first, and no other; it raises
      exactly when its fetched listing has a broken anchor; when the fetch
      succeeds its directory `Quarter <index>` is created, before any cell. */
  lemma {:induction false} QuarterShape(w: World, subject: string, url: string, yearDir: string, index: nat, k: nat)
    ensures var q := QuarterPlan(w, subject, url, yearDir, index, k);
            q.raised == ListingBroken(w.page(url)) &&
            PageFetches(q.effects) == [url] &&
            2 <= |q.effects| && q.effects[0] == FetchPage(url) &&
            (w.page(url).Listing? ==> q.effects[1] == MakeDirs(QuarterDir(yearDir, subject, index)))
  {
    var q := QuarterPlan(w, subject, url, yearDir, index, k);
    match w.page(url)
    case FetchFailed =>
      FlatAppend(PageUrl, [FetchPage(url)], [Print(FetchError(url))]);
    case Listing(cells) =>
      var base := QuarterDir(yearDir, subject, index);
      var l := ListingPlan(w, base, subject, cells, k);
      ListingRaises(w, base, subject, cells, k);
      ListingFetches(w, base, subject, cells, k);
      assert q.effects == [FetchPage(url), MakeDirs(base)] + l.effects;
      FlatAppend(PageUrl, [FetchPage(url), MakeDirs(base)], l.effects);
      FlatAppend(PageUrl, [FetchPage(url)], [MakeDirs(base)]);
  }

  /** A quarter requests exactly the links of its fetched listing's anchored
      cells up to the first broken anchor, and none when its fetch fails. */
  lemma {:induction false} QuarterFetchesExactly(w: World, subject: string, url: string, yearDir: string, index: nat, k: nat)
    ensures FileFetches(QuarterPlan(w, subject, url, yearDir, index, k).effects) == QuarterLinks(w)(url)
  {
    var q := QuarterPlan(w, subject, url, yearDir, index, k);
    match w.page(url)
    case FetchFailed =>
      FlatAppend(FileLink, [FetchPage(url)], [Print(FetchError(url))]);
    case Listing(cells) =>
      var base := QuarterDir(yearDir, subject, index);
      var l := ListingPlan(w, base, subject, cells, k);
      ListingFetchesExactly(w, base, subject, cells, k);
      assert q.effects == [FetchPage(url), MakeDirs(base)] + l.effects;
      FlatAppend(FileLink, [FetchPage(url), MakeDirs(base)], l.effects);
      FlatAppend(FileLink, [FetchPage(url)], [MakeDirs(base)]);
  }

  /** With no broken anchor in its listing, a quarter's links are all the
      links of its fetched listing. */
  lemma {:induction false} QuarterLinksAll(w: World, url: string)
    requires !ListingBroken(w.page(url))
    ensures QuarterLinks(w)(url) == ListingLinks(w)(url)
  {
    if w.page(url).Listing? {
      FlatUntilNone(LinkOf, LinkOf, Broken, w.page(url).cells);
    }
  }

  /** The only directories a quarter creates are its own directory and the
      difficulty directories inside it, and only when its fetch succeeds. */
  lemma {:induction false} QuarterDirs(w: World, subject: string, url: string, yearDir: string, index: nat, k: nat, p: string)
    requires MakeDirs(p) in QuarterPlan(w, subject, url, yearDir, index, k).effects
    ensures w.page(url).Listing?
    ensures p == QuarterDir(yearDir, subject, index) || p in DifficultyDirs(QuarterDir(yearDir, subject, index))
  {
    var base := QuarterDir(yearDir, subject, index);
    if w.page(url).Listing? {
      var l := ListingPlan(w, base, subject, w.page(url).cells, k);
      assert QuarterPlan(w, subject, url, yearDir, index, k).effects == [FetchPage(url), MakeDirs(base)] + l.effects;
      if p != base {
        ListingDirs(w, base, subject, w.page(url).cells, k, p);
      }
    }
  }

  /** A quarter writes a file only for an anchored cell of its fetched
      listing, in one of its difficulty directories, and only when the
      download and the save succeeded. */
  lemma {:induction false} QuarterWrites(w: World, subject: string, url: string, yearDir: string, index: nat, k: nat,
                      p: string, l: string)
    requires WriteFile(p, l) in QuarterPlan(w, subject, url, yearDir, index, k).effects
    ensures w.download(l) && w.save(p)
    ensures w.page(url).Listing? && WrittenFrom(p, l, QuarterDir(yearDir, subject, index), w.page(url).cells)
  {
    var base := QuarterDir(yearDir, subject, index);
    if w.page(url).Listing? {
      var listing := ListingPlan(w, base, subject, w.page(url).cells, k);
      assert QuarterPlan(w, subject, url, yearDir, index, k).effects == [FetchPage(url), MakeDirs(base)] + listing.effects;
      ListingWriteSound(w, base, subject, w.page(url).cells, k, p, l);
    }
  }

  // ---------------------------------------------------------------------
  // One subject: download_exams
  // ---------------------------------------------------------------------

  /** A subject's walk raises exactly when one of its fetched listings has an
      anchor without `href`. */
  lemma {:induction false} DownloadExamsRaises(w: World, subject: string, urls: seq<string>, yearDir: string, k: nat)
    ensures DownloadExamsPlan(w, subject, urls, yearDir, k).raised <==> SubjectHasBroken(w, urls)
  {
    var step := QuarterStep(w, subject, yearDir);
    var bad := (u: string) => ListingBroken(w.page(u));
    forall x: string, p: nat, k': nat ensures step(x, p, k').raised == bad(x) {
      QuarterShape(w, subject, x, yearDir, p, k');
    }
    LoopRaises(step, bad, urls, 1, Start(k));
  }

  lemma {:induction false} FlatSingle(urls: seq<string>)
    ensures Flat(Single, urls) == urls
  {
    if urls != [] {
      FlatSingle(urls[1..]);
    }
  }

  /** The listing URLs are requested in list order, each once; a failed fetch
      does not stop the next one. If an exception escapes, the URLs requested
      are the ones up to that point. */
  lemma {:induction false} DownloadExamsFetchesInOrder(w: World, subject: string, urls: seq<string>, yearDir: string, k: nat)
    ensures var r := DownloadExamsPlan(w, subject, urls, yearDir, k);
            PageFetches(r.effects) <= urls && (!r.raised ==> PageFetches(r.effects) == urls)
  {
    var step := QuarterStep(w, subject, yearDir);
    forall x: string, p: nat, k': nat ensures Flat(PageUrl, step(x, p, k').effects) == Single(x) {
      QuarterShape(w, subject, x, yearDir, p, k');
    }
    LoopProject(step, PageUrl, Single, urls, 1, Start(k));
    FlatSingle(urls);
  }

  /** `download_exams` requests exactly its listing URLs in list order up to
      and including the first whose listing has a broken anchor, and exactly
      the links of those listings' anchored cells up to that anchor. */
  lemma {:induction false} DownloadExamsFetchesExactly(w: World, subject: string, urls: seq<string>, yearDir: string, k: nat)
    ensures PageFetches(DownloadExamsPlan(w, subject, urls, yearDir, k).effects) == FlatUntil(Single, BrokenAt(w), urls)
    ensures FileFetches(DownloadExamsPlan(w, subject, urls, yearDir, k).effects) == FlatUntil(QuarterLinks(w), BrokenAt(w), urls)
  {
    var step := QuarterStep(w, subject, yearDir);
    forall x: string, p: nat, k': nat
      ensures step(x, p, k').raised == BrokenAt(w)(x)
      ensures Flat(PageUrl, step(x, p, k').effects) == Single(x)
      ensures Flat(FileLink, step(x, p, k').effects) == QuarterLinks(w)(x)
    {
      QuarterShape(w, subject, x, yearDir, p, k');
      QuarterFetchesExactly(w, subject, x, yearDir, p, k');
    }
    LoopProjectUntil(step, PageUrl, Single, BrokenAt(w), urls, 1, Start(k));
    LoopProjectUntil(step, FileLink, QuarterLinks(w), BrokenAt(w), urls, 1, Start(k));
  }

  /** When the listing at position `b` is the first with a broken anchor,
      `download_exams` requests exactly the URLs up to and including it. */
  lemma {:induction false} DownloadExamsFetchesCut(w: World, subject: string, urls: seq<string>, yearDir: string, k: nat, b: nat)
    requires b < |urls| && ListingBroken(w.page(urls[b])) && !SubjectHasBroken(w, urls[..b])
    ensures PageFetches(DownloadExamsPlan(w, subject, urls, yearDir, k).effects) == urls[..b + 1]
  {
    DownloadExamsFetchesExactly(w, subject, urls, yearDir, k);
    forall i | 0 <= i < b ensures !BrokenAt(w)(urls[i]) {
      assert urls[..b][i] == urls[i];
    }
    FlatUntilCut(Single, BrokenAt(w), urls, b);
    FlatSingle(urls[..b + 1]);
  }

  /** The directories a subject's walk creates are, for the URL at position
      `i` whose fetch succeeded, its quarter directory `Quarter <i + 1>` and
      the difficulty directories inside it. */
  lemma {:induction false} DownloadExamsDirs(w: World, subject: string, urls: seq<string>, yearDir: string, k: nat, p: string)
    requires MakeDirs(p) in DownloadExamsPlan(w, subject, urls, yearDir, k).effects
    ensures exists i :: 0 <= i < |urls| && w.page(urls[i]).Listing? &&
              (p == QuarterDir(yearDir, subject, i + 1) || p in DifficultyDirs(QuarterDir(yearDir, subject, i + 1)))
  {
    var e := DownloadExamsPlan(w, subject, urls, yearDir, k).effects;
    var j :| 0 <= j < |e| && e[j] == MakeDirs(p);
    var i, k', off := LoopLocate(QuarterStep(w, subject, yearDir), urls, 1, Start(k), j);
    var q := QuarterPlan(w, subject, urls[i], yearDir, 1 + i, k').effects;
    assert q[j - off] == e[j];
    QuarterDirs(w, subject, urls[i], yearDir, 1 + i, k', p);
  }

  /** The URL at position `i` maps to directory `Quarter <i + 1>`, and, when
      no listing before it has a broken anchor, that directory is created
      exactly when its fetch succeeds: a failed fetch creates nothing for its
      quarter. */
  lemma {:induction false} QuarterCreatedIffFetched(w: World, subject: string, urls: seq<string>, yearDir: string, k: nat, i: nat)
    requires i < |urls| && !SubjectHasBroken(w, urls[..i])
    ensures MakeDirs(QuarterDir(yearDir, subject, i + 1)) in DownloadExamsPlan(w, subject, urls, yearDir, k).effects
            <==> w.page(urls[i]).Listing?
  {
    if MakeDirs(QuarterDir(yearDir, subject, i + 1)) in DownloadExamsPlan(w, subject, urls, yearDir, k).effects {
      QuarterCreatedOnlyIfFetched(w, subject, urls, yearDir, k, i);
    }
    if w.page(urls[i]).Listing? {
      QuarterReached(w, subject, urls, yearDir, k, i);
    }
  }

  /** The directory `Quarter <i + 1>` is created only if the fetch of the
      URL at position `i` succeeded. */
  lemma {:induction false} QuarterCreatedOnlyIfFetched(w: World, subject: string, urls: seq<string>, yearDir: string, k: nat, i: nat)
    requires i < |urls|
    requires MakeDirs(QuarterDir(yearDir, subject, i + 1)) in DownloadExamsPlan(w, subject, urls, yearDir, k).effects
    ensures w.page(urls[i]).Listing?
  {
    var target := QuarterDir(yearDir, subject, i + 1);
    DownloadExamsDirs(w, subject, urls, yearDir, k, target);
    var j :| 0 <= j < |urls| && w.page(urls[j]).Listing? &&
             (target == QuarterDir(yearDir, subject, j + 1) ||
              target in DifficultyDirs(QuarterDir(yearDir, subject, j + 1)));
    QuarterDirNotDifficultyDir(yearDir, subject, j + 1, i + 1);
    QuarterDirInjective(yearDir, subject, i + 1, j + 1);
  }

  /** When no listing before position `i` has a broken anchor, the quarter
      at `i` runs, numbered `i + 1` and after the draws of the quarters before
      it, and all it does is in the subject's trace. */
  lemma {:induction false} DownloadExamsQuarterReached(w: World, subject: string, urls: seq<string>, yearDir: string, k: nat, i: nat)
    requires i < |urls| && !SubjectHasBroken(w, urls[..i])
    ensures Within(QuarterPlan(w, subject, urls[i], yearDir, i + 1, DownloadExamsPlan(w, subject, urls[..i], yearDir, k).next).effects,
                   DownloadExamsPlan(w, subject, urls, yearDir, k).effects)
  {
    var step := QuarterStep(w, subject, yearDir);
    var before := Loop(step, urls[..i], 1, Start(k));
    DownloadExamsRaises(w, subject, urls[..i], yearDir, k);
    assert before == DownloadExamsPlan(w, subject, urls[..i], yearDir, k);
    assert step(urls[i], 1 + i, before.next) == QuarterPlan(w, subject, urls[i], yearDir, i + 1, before.next);
    LoopReachAll(step, urls, 1, Start(k), i);
  }

  /** When no listing before position `i` has a broken anchor and the fetch
      at `i` succeeds, its directory `Quarter <i + 1>` is created. */
  lemma {:induction false} QuarterReached(w: World, subject: string, urls: seq<string>, yearDir: string, k: nat, i: nat)
    requires i < |urls| && !SubjectHasBroken(w, urls[..i]) && w.page(urls[i]).Listing?
    ensures MakeDirs(QuarterDir(yearDir, subject, i + 1)) in DownloadExamsPlan(w, subject, urls, yearDir, k).effects
  {
    var kq := DownloadExamsPlan(w, subject, urls[..i], yearDir, k).next;
    DownloadExamsQuarterReached(w, subject, urls, yearDir, k, i);
    QuarterShape(w, subject, urls[i], yearDir, i + 1, kq);
  }

  /** When no listing before position `i` and no anchor before position `j`
      of the listing at `i` is broken, the cell at `j` of that listing runs,
      in `Quarter <i + 1>` and after the draws of the quarters and the
      anchored cells before it, and all it does is in the subject's trace. */
  lemma {:induction false} DownloadExamsCellReached(w: World, subject: string, urls: seq<string>, yearDir: string, k: nat,
                                                   i: nat, j: nat)
    returns (kc: nat)
    requires i < |urls| && !SubjectHasBroken(w, urls[..i]) && w.page(urls[i]).Listing?
    requires j < |w.page(urls[i]).cells| && !HasBroken(w.page(urls[i]).cells[..j])
    ensures kc == DownloadExamsPlan(w, subject, urls[..i], yearDir, k).next + |Links(w.page(urls[i]).cells[..j])|
    ensures Within(CellPlan(w, QuarterDir(yearDir, subject, i + 1), subject, w.page(urls[i]).cells[j], kc).effects,
                   DownloadExamsPlan(w, subject, urls, yearDir, k).effects)
  {
    var cells := w.page(urls[i]).cells;
    var kq := DownloadExamsPlan(w, subject, urls[..i], yearDir, k).next;
    var base := QuarterDir(yearDir, subject, i + 1);
    var listing := ListingPlan(w, base, subject, cells, kq).effects;
    var q := QuarterPlan(w, subject, urls[i], yearDir, i + 1, kq).effects;
    kc := kq + |Links(cells[..j])|;
    var c := CellPlan(w, base, subject, cells[j], kc).effects;
    assert ListingPlan(w, base, subject, cells[..j], kq).next == kc by {
      ListingDraws(w, base, subject, cells[..j], kq);
    }
    ListingCellReached(w, base, subject, cells, kq, j);
    assert Within(c, listing);
    assert q == [FetchPage(urls[i]), MakeDirs(base)] + listing;
    assert Within(listing, q);
    DownloadExamsQuarterReached(w, subject, urls, yearDir, k, i);
    assert Within(q, DownloadExamsPlan(w, subject, urls, yearDir, k).effects);
    WithinTrans(c, listing, q);
    WithinTrans(c, q, DownloadExamsPlan(w, subject, urls, yearDir, k).effects);
  }

  /** Under the same conditions, an anchored cell at `j` is requested, and its
      file, under `Quarter <i + 1>` with the label of draw `kc`, the one after
      the draws of the quarters and the anchored cells before it, is written
      exactly when its download and its save succeed. */
  lemma {:induction false} DownloadExamsWriteComplete(w: World, subject: string, urls: seq<string>, yearDir: string, k: nat,
                                                     i: nat, j: nat, text: string, href: string)
    returns (kc: nat)
    requires i < |urls| && !SubjectHasBroken(w, urls[..i]) && w.page(urls[i]).Listing?
    requires j < |w.page(urls[i]).cells| && w.page(urls[i]).cells[j] == Some(Anchor(text, Some(href)))
    requires !HasBroken(w.page(urls[i]).cells[..j])
    ensures kc == DownloadExamsPlan(w, subject, urls[..i], yearDir, k).next + |Links(w.page(urls[i]).cells[..j])|
    ensures FetchFile(Strip(href)) in DownloadExamsPlan(w, subject, urls, yearDir, k).effects
    ensures var path := Join(Join(QuarterDir(yearDir, subject, i + 1), Difficulty(w.pick(kc))), FileName(Strip(text)));
            WriteFile(path, Strip(href)) in DownloadExamsPlan(w, subject, urls, yearDir, k).effects <==>
            w.download(Strip(href)) && w.save(path)
  {
    var cells := w.page(urls[i]).cells;
    kc := DownloadExamsCellReached(w, subject, urls, yearDir, k, i, j);
    var base := QuarterDir(yearDir, subject, i + 1);
    var path := Join(Join(base, Difficulty(w.pick(kc))), FileName(Strip(text)));
    var all := DownloadExamsPlan(w, subject, urls, yearDir, k).effects;
    var c := CellPlan(w, base, subject, Some(Anchor(text, Some(href))), kc).effects;
    assert Within(c, all);
    CellLayout(w, base, subject, text, href, kc);
    assert c[1] in c;
    InWithin(FetchFile(Strip(href)), c, all);
    CellWriteComplete(w, base, subject, text, href, kc);
    if WriteFile(path, Strip(href)) in all {
      DownloadExamsWrites(w, subject, urls, yearDir, k, path, Strip(href));
    }
    if w.download(Strip(href)) && w.save(path) {
      InWithin(WriteFile(path, Strip(href)), c, all);
    }
  }

  /** A subject's walk writes a file only for an anchored cell of a fetched
      listing, under that quarter's directory, and only when its download and
      save succeeded. */
  lemma {:induction false} DownloadExamsWrites(w: World, subject: string, urls: seq<string>, yearDir: string, k: nat,
                            p: string, l: string)
    requires WriteFile(p, l) in DownloadExamsPlan(w, subject, urls, yearDir, k).effects
    ensures w.download(l) && w.save(p)
    ensures exists i :: 0 <= i < |urls| && w.page(urls[i]).Listing? &&
              WrittenFrom(p, l, QuarterDir(yearDir, subject, i + 1), w.page(urls[i]).cells)
  {
    var e := DownloadExamsPlan(w, subject, urls, yearDir, k).effects;
    var j :| 0 <= j < |e| && e[j] == WriteFile(p, l);
    var i, k', off := LoopLocate(QuarterStep(w, subject, yearDir), urls, 1, Start(k), j);
    var q := QuarterPlan(w, subject, urls[i], yearDir, 1 + i, k').effects;
    assert q[j - off] == e[j];
    QuarterWrites(w, subject, urls[i], yearDir, 1 + i, k', p, l);
  }

  // ---------------------------------------------------------------------
  // The whole catalog
  // ---------------------------------------------------------------------

  /** A year's subjects raise exactly when one of their fetched listings has
      an anchor without `href`; the exception ends the year's walk. */
  lemma {:induction false} SubjectsRaises(w: World, yearDir: string, subjects: seq<Subject>, k: nat)
    ensures SubjectsPlan(w, yearDir, subjects, k).raised <==>
            exists s :: 0 <= s < |subjects| && SubjectHasBroken(w, subjects[s].urls)
  {
    var step := SubjectStep(w, yearDir);
    var bad := (x: Subject) => SubjectHasBroken(w, x.urls);
    forall x: Subject, p: nat, k': nat ensures step(x, p, k').raised == bad(x) {
      DownloadExamsRaises(w, x.name, x.urls, yearDir, k');
    }
    LoopRaises(step, bad, subjects, 0, Start(k));
  }

  lemma {:induction false} YearRaises(w: World, mainDir: string, year: Year, k: nat)
    ensures YearPlan(w, mainDir, year, k).raised <==> YearHasBroken(w, year)
  {
    SubjectsRaises(w, Join(mainDir, year.name), year.subjects, k);
  }

  /** The walk of the catalog raises exactly when some fetched listing in it
      has an anchor without `href`. */
  lemma {:induction false} YearsRaises(w: World, mainDir: string, years: seq<Year>, k: nat)
    ensures YearsPlan(w, mainDir, years, k).raised <==> CatalogHasBroken(w, years)
  {
    var step := YearStep(w, mainDir);
    var bad := (y: Year) => YearHasBroken(w, y);
    forall y: Year, p: nat, k': nat ensures step(y, p, k').raised == bad(y) {
      YearRaises(w, mainDir, y, k');
    }
    LoopRaises(step, bad, years, 0, Start(k));
  }

  /** The run ends by printing the error exactly when an exception escaped
      the catalog walk, that is when a fetched listing has an anchor without
      `href` (download_exams.py:133-134); every other failure is contained. */
  lemma {:induction false} RunCrashes(w: World, home: string, years: seq<Year>, k: nat)
    ensures RunPlan(w, home, years, k) ==
            [MakeDirs(MainDir(home))] + YearsPlan(w, MainDir(home), years, k).effects +
            (if CatalogHasBroken(w, years) then [Print(Crashed)] else [])
  {
    YearsRaises(w, MainDir(home), years, k);
  }

  lemma {:induction false} SubjectsFetchesInOrder(w: World, yearDir: string, subjects: seq<Subject>, k: nat)
    ensures var r := SubjectsPlan(w, yearDir, subjects, k);
            PageFetches(r.effects) <= Flat(UrlsOf, subjects) &&
            (!r.raised ==> PageFetches(r.effects) == Flat(UrlsOf, subjects))
  {
    var step := SubjectStep(w, yearDir);
    forall x: Subject, p: nat, k': nat
      ensures Flat(PageUrl, step(x, p, k').effects) <= UrlsOf(x)
      ensures !step(x, p, k').raised ==> Flat(PageUrl, step(x, p, k').effects) == UrlsOf(x)
    {
      DownloadExamsFetchesInOrder(w, x.name, x.urls, yearDir, k');
    }
    LoopProject(step, PageUrl, UrlsOf, subjects, 0, Start(k));
  }

  lemma {:induction false} YearFetchesInOrder(w: World, mainDir: string, year: Year, k: nat)
    ensures var r := YearPlan(w, mainDir, year, k);
            PageFetches(r.effects) <= YearUrls(year) && (!r.raised ==> PageFetches(r.effects) == YearUrls(year))
  {
    var yearDir := Join(mainDir, year.name);
    var s := SubjectsPlan(w, yearDir, year.subjects, k);
    SubjectsFetchesInOrder(w, yearDir, year.subjects, k);
    FlatAppend(PageUrl, [MakeDirs(yearDir)], s.effects);
  }

  lemma {:induction false} YearsFetchesInOrder(w: World, mainDir: string, years: seq<Year>, k: nat)
    ensures var r := YearsPlan(w, mainDir, years, k);
            PageFetches(r.effects) <= CatalogUrls(years) && (!r.raised ==> PageFetches(r.effects) == CatalogUrls(years))
  {
    var step := YearStep(w, mainDir);
    forall y: Year, p: nat, k': nat
      ensures Flat(PageUrl, step(y, p, k').effects) <= YearUrls(y)
      ensures !step(y, p, k').raised ==> Flat(PageUrl, step(y, p, k').effects) == YearUrls(y)
    {
      YearFetchesInOrder(w, mainDir, y, k');
    }
    LoopProject(step, PageUrl, YearUrls, years, 0, Start(k));
  }

  /** The whole run requests the catalog's listing URLs in table order:
      years, then subjects, then quarters, each once. If an exception
      escapes, the requests made are a prefix of that order; otherwise all
      of it. */
  lemma {:induction false} RunFetchesInOrder(w: World, home: string, years: seq<Year>, k: nat)
    ensures PageFetches(RunPlan(w, home, years, k)) <= CatalogUrls(years)
    ensures !CatalogHasBroken(w, years) ==> PageFetches(RunPlan(w, home, years, k)) == CatalogUrls(years)
  {
    var r := YearsPlan(w, MainDir(home), years, k);
    var tail: seq<Effect> := if r.raised then [Print(Crashed)] else [];
    YearsFetchesInOrder(w, MainDir(home), years, k);
    YearsRaises(w, MainDir(home), years, k);
    FlatAppend(PageUrl, [MakeDirs(MainDir(home))] + r.effects, tail);
    FlatAppend(PageUrl, [MakeDirs(MainDir(home))], r.effects);
    assert Flat(PageUrl, tail) == [];
  }

  /** A year's subjects request exactly their listing URLs and links in
      insertion order, then list order, up to the first broken anchor. */
  lemma {:induction false} SubjectsFetchesExactly(w: World, yearDir: string, subjects: seq<Subject>, k: nat)
    ensures PageFetches(SubjectsPlan(w, yearDir, subjects, k).effects) == FlatUntil(SubjectRequests(w), SubjectBroken(w), subjects)
    ensures FileFetches(SubjectsPlan(w, yearDir, subjects, k).effects) == FlatUntil(SubjectLinks(w), SubjectBroken(w), subjects)
  {
    var step := SubjectStep(w, yearDir);
    forall x: Subject, p: nat, k': nat
      ensures step(x, p, k').raised == SubjectBroken(w)(x)
      ensures Flat(PageUrl, step(x, p, k').effects) == SubjectRequests(w)(x)
      ensures Flat(FileLink, step(x, p, k').effects) == SubjectLinks(w)(x)
    {
      DownloadExamsRaises(w, x.name, x.urls, yearDir, k');
      DownloadExamsFetchesExactly(w, x.name, x.urls, yearDir, k');
    }
    LoopProjectUntil(step, PageUrl, SubjectRequests(w), SubjectBroken(w), subjects, 0, Start(k));
    LoopProjectUntil(step, FileLink, SubjectLinks(w), SubjectBroken(w), subjects, 0, Start(k));
  }

  lemma {:induction false} YearFetchesExactly(w: World, mainDir: string, year: Year, k: nat)
    ensures PageFetches(YearPlan(w, mainDir, year, k).effects) == YearRequests(w)(year)
    ensures FileFetches(YearPlan(w, mainDir, year, k).effects) == YearLinks(w)(year)
  {
    var yearDir := Join(mainDir, year.name);
    var s := SubjectsPlan(w, yearDir, year.subjects, k);
    SubjectsFetchesExactly(w, yearDir, year.subjects, k);
    FlatAppend(PageUrl, [MakeDirs(yearDir)], s.effects);
    FlatAppend(FileLink, [MakeDirs(yearDir)], s.effects);
  }

  lemma {:induction false} YearsFetchesExactly(w: World, mainDir: string, years: seq<Year>, k: nat)
    ensures PageFetches(YearsPlan(w, mainDir, years, k).effects) == CatalogRequests(w, years)
    ensures FileFetches(YearsPlan(w, mainDir, years, k).effects) == CatalogLinks(w, years)
  {
    var step := YearStep(w, mainDir);
    forall y: Year, p: nat, k': nat
      ensures step(y, p, k').raised == YearBroken(w)(y)
      ensures Flat(PageUrl, step(y, p, k').effects) == YearRequests(w)(y)
      ensures Flat(FileLink, step(y, p, k').effects) == YearLinks(w)(y)
    {
      YearRaises(w, mainDir, y, k');
      YearFetchesExactly(w, mainDir, y, k');
    }
    LoopProjectUntil(step, PageUrl, YearRequests(w), YearBroken(w), years, 0, Start(k));
    LoopProjectUntil(step, FileLink, YearLinks(w), YearBroken(w), years, 0, Start(k));
  }

  /** The whole run requests exactly the catalog's listing URLs in table
      order up to and including the first listing with a broken anchor, and
      exactly the links of the fetched listings' anchored cells in table
      order up to that anchor; the crash line requests nothing. */
  lemma {:induction false} RunFetchesExactly(w: World, home: string, years: seq<Year>, k: nat)
    ensures PageFetches(RunPlan(w, home, years, k)) == CatalogRequests(w, years)
    ensures FileFetches(RunPlan(w, home, years, k)) == CatalogLinks(w, years)
  {
    YearsFetchesExactly(w, MainDir(home), years, k);
    RunView(PageUrl, w, home, years, k);
    RunView(FileLink, w, home, years, k);
  }

  /** A view that ignores directory creation and printing sees in the run
      what it sees in the catalog walk. */
  lemma {:induction false} RunView(h: Effect -> seq<string>, w: World, home: string, years: seq<Year>, k: nat)
    requires forall e: Effect :: (e.MakeDirs? || e.Print?) ==> h(e) == []
    ensures Flat(h, RunPlan(w, home, years, k)) == Flat(h, YearsPlan(w, MainDir(home), years, k).effects)
  {
    var r := YearsPlan(w, MainDir(home), years, k);
    var tail: seq<Effect> := if r.raised then [Print(Crashed)] else [];
    FlatAppend(h, [MakeDirs(MainDir(home))] + r.effects, tail);
    FlatAppend(h, [MakeDirs(MainDir(home))], r.effects);
    assert Flat(h, tail) == [];
    assert Flat(h, [MakeDirs(MainDir(home))]) == [];
  }

  lemma {:induction false} SubjectLinksAll(w: World, s: Subject)
    requires !SubjectHasBroken(w, s.urls)
    ensures SubjectLinks(w)(s) == SubjectAllLinks(w)(s)
  {
    forall i | 0 <= i < |s.urls|
      ensures !BrokenAt(w)(s.urls[i]) && QuarterLinks(w)(s.urls[i]) == ListingLinks(w)(s.urls[i])
    {
      QuarterLinksAll(w, s.urls[i]);
    }
    FlatUntilNone(QuarterLinks(w), ListingLinks(w), BrokenAt(w), s.urls);
  }

  lemma {:induction false} YearLinksAll(w: World, y: Year)
    requires !YearHasBroken(w, y)
    ensures YearLinks(w)(y) == YearAllLinks(w)(y)
  {
    forall i | 0 <= i < |y.subjects|
      ensures !SubjectBroken(w)(y.subjects[i]) && SubjectLinks(w)(y.subjects[i]) == SubjectAllLinks(w)(y.subjects[i])
    {
      SubjectLinksAll(w, y.subjects[i]);
    }
    FlatUntilNone(SubjectLinks(w), SubjectAllLinks(w), SubjectBroken(w), y.subjects);
  }

  /** In a run no exception cuts short, the links requested are all the links
      of every fetched listing of the catalog, in table order: every anchored
      cell is requested once, whatever downloads or saves fail. */
  lemma {:induction false} RunRequestsEveryLink(w: World, home: string, years: seq<Year>, k: nat)
    requires !CatalogHasBroken(w, years)
    ensures FileFetches(RunPlan(w, home, years, k)) == CatalogAllLinks(w, years)
  {
    RunFetchesExactly(w, home, years, k);
    forall i | 0 <= i < |years|
      ensures !YearBroken(w)(years[i]) && YearLinks(w)(years[i]) == YearAllLinks(w)(years[i])
    {
      YearLinksAll(w, years[i]);
    }
    FlatUntilNone(YearLinks(w), YearAllLinks(w), YearBroken(w), years);
  }

  /** A file written by a year's subjects sits under
      `<year>/<subject>/Quarter <i + 1>/<difficulty>/` for the URL at
      position `i` of one of them: quarter numbers restart at 1 for every
      subject. */
  lemma {:induction false} SubjectsWrites(w: World, yearDir: string, subjects: seq<Subject>, k: nat, p: string, l: string)
    requires WriteFile(p, l) in SubjectsPlan(w, yearDir, subjects, k).effects
    ensures w.download(l) && w.save(p)
    ensures exists s, i :: 0 <= s < |subjects| && 0 <= i < |subjects[s].urls| &&
              w.page(subjects[s].urls[i]).Listing? &&
              WrittenFrom(p, l, QuarterDir(yearDir, subjects[s].name, i + 1), w.page(subjects[s].urls[i]).cells)
  {
    var e := SubjectsPlan(w, yearDir, subjects, k).effects;
    var j :| 0 <= j < |e| && e[j] == WriteFile(p, l);
    var s, k', off := LoopLocate(SubjectStep(w, yearDir), subjects, 0, Start(k), j);
    var d := DownloadExamsPlan(w, subjects[s].name, subjects[s].urls, yearDir, k').effects;
    assert d[j - off] == e[j];
    DownloadExamsWrites(w, subjects[s].name, subjects[s].urls, yearDir, k', p, l);
  }

  lemma {:induction false} YearWrites(w: World, mainDir: string, year: Year, k: nat, p: string, l: string)
    requires WriteFile(p, l) in YearPlan(w, mainDir, year, k).effects
    ensures w.download(l) && w.save(p)
    ensures exists s, i :: 0 <= s < |year.subjects| && 0 <= i < |year.subjects[s].urls| &&
              w.page(year.subjects[s].urls[i]).Listing? &&
              WrittenFrom(p, l, QuarterDir(Join(mainDir, year.name), year.subjects[s].name, i + 1),
                          w.page(year.subjects[s].urls[i]).cells)
  {
    var yearDir := Join(mainDir, year.name);
    var s := SubjectsPlan(w, yearDir, year.subjects, k);
    assert YearPlan(w, mainDir, year, k).effects == [MakeDirs(yearDir)] + s.effects;
    SubjectsWrites(w, yearDir, year.subjects, k, p, l);
  }

  lemma {:induction false} YearsWrites(w: World, mainDir: string, years: seq<Year>, k: nat, p: string, l: string)
    requires WriteFile(p, l) in YearsPlan(w, mainDir, years, k).effects
    ensures w.download(l) && w.save(p)
    ensures exists y, s, i :: 0 <= y < |years| && 0 <= s < |years[y].subjects| &&
              0 <= i < |years[y].subjects[s].urls| &&
              w.page(years[y].subjects[s].urls[i]).Listing? &&
              WrittenFrom(p, l, QuarterDir(Join(mainDir, years[y].name), years[y].subjects[s].name, i + 1),
                          w.page(years[y].subjects[s].urls[i]).cells)
  {
    var e := YearsPlan(w, mainDir, years, k).effects;
    var j :| 0 <= j < |e| && e[j] == WriteFile(p, l);
    var y, k', off := LoopLocate(YearStep(w, mainDir), years, 0, Start(k), j);
    var d := YearPlan(w, mainDir, years[y], k').effects;
    assert d[j - off] == e[j];
    YearWrites(w, mainDir, years[y], k', p, l);
  }

  /** Path shape of the whole run: every file written is
      `~/Exams/<year>/<subject>/Quarter <i + 1>/<difficulty>/<cleaned title>.pdf`
      for a year and subject of the catalog, the URL at position `i` of that
      subject, a fetched listing and an anchored cell of it, and it is written
      only when that cell's download and save succeeded. */
  lemma {:induction false} RunWrites(w: World, home: string, years: seq<Year>, k: nat, p: string, l: string)
    requires WriteFile(p, l) in RunPlan(w, home, years, k)
    ensures w.download(l) && w.save(p)
    ensures exists y, s, i :: 0 <= y < |years| && 0 <= s < |years[y].subjects| &&
              0 <= i < |years[y].subjects[s].urls| &&
              w.page(years[y].subjects[s].urls[i]).Listing? &&
              WrittenFrom(p, l, QuarterDir(Join(MainDir(home), years[y].name), years[y].subjects[s].name, i + 1),
                          w.page(years[y].subjects[s].urls[i]).cells)
  {
    YearsWrites(w, MainDir(home), years, k, p, l);
  }

  /** A year's subjects create only the quarter directories of fetched URLs
      and the difficulty directories inside them, numbered per subject. */
  lemma {:induction false} SubjectsDirs(w: World, yearDir: string, subjects: seq<Subject>, k: nat, p: string)
    requires MakeDirs(p) in SubjectsPlan(w, yearDir, subjects, k).effects
    ensures exists s, i :: 0 <= s < |subjects| && 0 <= i < |subjects[s].urls| &&
              w.page(subjects[s].urls[i]).Listing? &&
              (p == QuarterDir(yearDir, subjects[s].name, i + 1) ||
               p in DifficultyDirs(QuarterDir(yearDir, subjects[s].name, i + 1)))
  {
    var e := SubjectsPlan(w, yearDir, subjects, k).effects;
    var j :| 0 <= j < |e| && e[j] == MakeDirs(p);
    var s, k', off := LoopLocate(SubjectStep(w, yearDir), subjects, 0, Start(k), j);
    var d := DownloadExamsPlan(w, subjects[s].name, subjects[s].urls, yearDir, k').effects;
    assert d[j - off] == e[j];
    DownloadExamsDirs(w, subjects[s].name, subjects[s].urls, yearDir, k', p);
  }

  /** A year creates its own directory `<year>` and otherwise only the
      directories its subjects create. */
  lemma {:induction false} YearDirs(w: World, mainDir: string, year: Year, k: nat, p: string)
    requires MakeDirs(p) in YearPlan(w, mainDir, year, k).effects
    ensures p == Join(mainDir, year.name) ||
            exists s, i :: 0 <= s < |year.subjects| && 0 <= i < |year.subjects[s].urls| &&
              w.page(year.subjects[s].urls[i]).Listing? &&
              (p == QuarterDir(Join(mainDir, year.name), year.subjects[s].name, i + 1) ||
               p in DifficultyDirs(QuarterDir(Join(mainDir, year.name), year.subjects[s].name, i + 1)))
  {
    var yearDir := Join(mainDir, year.name);
    var s := SubjectsPlan(w, yearDir, year.subjects, k);
    assert YearPlan(w, mainDir, year, k).effects == [MakeDirs(yearDir)] + s.effects;
    if p != yearDir {
      SubjectsDirs(w, yearDir, year.subjects, k, p);
    }
  }

  lemma {:induction false} YearsDirs(w: World, mainDir: string, years: seq<Year>, k: nat, p: string)
    requires MakeDirs(p) in YearsPlan(w, mainDir, years, k).effects
    ensures exists y :: 0 <= y < |years| &&
              (p == Join(mainDir, years[y].name) ||
               exists s, i :: 0 <= s < |years[y].subjects| && 0 <= i < |years[y].subjects[s].urls| &&
                 w.page(years[y].subjects[s].urls[i]).Listing? &&
                 (p == QuarterDir(Join(mainDir, years[y].name), years[y].subjects[s].name, i + 1) ||
                  p in DifficultyDirs(QuarterDir(Join(mainDir, years[y].name), years[y].subjects[s].name, i + 1))))
  {
    var e := YearsPlan(w, mainDir, years, k).effects;
    var j :| 0 <= j < |e| && e[j] == MakeDirs(p);
    var y, k', off := LoopLocate(YearStep(w, mainDir), years, 0, Start(k), j);
    var d := YearPlan(w, mainDir, years[y], k').effects;
    assert d[j - off] == e[j];
    YearDirs(w, mainDir, years[y], k', p);
  }

  /** Directory layout of the whole run: the only directories it creates are
      `~/Exams`, `~/Exams/<year>` for a year of the catalog, and
      `~/Exams/<year>/<subject>/Quarter <i + 1>` for a fetched URL at position
      `i` of a subject of that year, with the difficulty directories inside
      it. */
  lemma {:induction false} RunDirs(w: World, home: string, years: seq<Year>, k: nat, p: string)
    requires MakeDirs(p) in RunPlan(w, home, years, k)
    ensures p == MainDir(home) ||
            exists y :: 0 <= y < |years| &&
              (p == Join(MainDir(home), years[y].name) ||
               exists s, i :: 0 <= s < |years[y].subjects| && 0 <= i < |years[y].subjects[s].urls| &&
                 w.page(years[y].subjects[s].urls[i]).Listing? &&
                 (p == QuarterDir(Join(MainDir(home), years[y].name), years[y].subjects[s].name, i + 1) ||
                  p in DifficultyDirs(QuarterDir(Join(MainDir(home), years[y].name), years[y].subjects[s].name, i + 1))))
  {
    var r := YearsPlan(w, MainDir(home), years, k);
    assert RunPlan(w, home, years, k) == [MakeDirs(MainDir(home))] + r.effects + (if r.raised then [Print(Crashed)] else []);
    if p != MainDir(home) {
      YearsDirs(w, MainDir(home), years, k, p);
    }
  }

  /** A subject none of whose fetched listings has a broken anchor draws one
      label per link of its fetched listings. */
  lemma {:induction false} DownloadExamsDraws(w: World, subject: string, urls: seq<string>, yearDir: string, k: nat)
    requires !SubjectHasBroken(w, urls)
    ensures DownloadExamsPlan(w, subject, urls, yearDir, k).next == k + |Flat(ListingLinks(w), urls)|
  {
    var step := QuarterStep(w, subject, yearDir);
    forall x: string, p: nat, k': nat | !step(x, p, k').raised
      ensures step(x, p, k').next == k' + |ListingLinks(w)(x)|
    {
      if w.page(x).Listing? {
        var base := QuarterDir(yearDir, subject, p);
        ListingRaises(w, base, subject, w.page(x).cells, k');
        ListingDraws(w, base, subject, w.page(x).cells, k');
      }
    }
    LoopDraws(step, ListingLinks(w), urls, 1, Start(k));
    DownloadExamsRaises(w, subject, urls, yearDir, k);
  }

  /** Subjects none of which has a broken listing draw one label per link of
      their fetched listings. */
  lemma {:induction false} SubjectsDraws(w: World, yearDir: string, subjects: seq<Subject>, k: nat)
    requires forall s :: 0 <= s < |subjects| ==> !SubjectHasBroken(w, subjects[s].urls)
    ensures SubjectsPlan(w, yearDir, subjects, k).next == k + |Flat(SubjectAllLinks(w), subjects)|
  {
    var step := SubjectStep(w, yearDir);
    forall x: Subject, p: nat, k': nat | !step(x, p, k').raised
      ensures step(x, p, k').next == k' + |SubjectAllLinks(w)(x)|
    {
      DownloadExamsRaises(w, x.name, x.urls, yearDir, k');
      DownloadExamsDraws(w, x.name, x.urls, yearDir, k');
    }
    LoopDraws(step, SubjectAllLinks(w), subjects, 0, Start(k));
    SubjectsRaises(w, yearDir, subjects, k);
  }

  /** Years none of which has a broken listing draw one label per link of
      their fetched listings. */
  lemma {:induction false} YearsDraws(w: World, mainDir: string, years: seq<Year>, k: nat)
    requires forall y :: 0 <= y < |years| ==> !YearHasBroken(w, years[y])
    ensures YearsPlan(w, mainDir, years, k).next == k + |Flat(YearAllLinks(w), years)|
  {
    var step := YearStep(w, mainDir);
    forall x: Year, p: nat, k': nat | !step(x, p, k').raised
      ensures step(x, p, k').next == k' + |YearAllLinks(w)(x)|
    {
      YearRaises(w, mainDir, x, k');
      SubjectsRaises(w, Join(mainDir, x.name), x.subjects, k');
      SubjectsDraws(w, Join(mainDir, x.name), x.subjects, k');
    }
    LoopDraws(step, YearAllLinks(w), years, 0, Start(k));
    YearsRaises(w, mainDir, years, k);
  }

  // ---------------------------------------------------------------------
  // Completeness of the whole run
  // ---------------------------------------------------------------------

  /** When no subject before position `s` has a broken anchor, the subject at
      `s` runs, after the draws of the subjects before it, and all it does is
      in the year's trace. */
  lemma {:induction false} SubjectsReached(w: World, yearDir: string, subjects: seq<Subject>, k: nat, s: nat)
    requires s < |subjects| && forall t :: 0 <= t < s ==> !SubjectHasBroken(w, subjects[t].urls)
    ensures Within(DownloadExamsPlan(w, subjects[s].name, subjects[s].urls, yearDir, SubjectsPlan(w, yearDir, subjects[..s], k).next).effects,
                   SubjectsPlan(w, yearDir, subjects, k).effects)
  {
    var step := SubjectStep(w, yearDir);
    var before := Loop(step, subjects[..s], 0, Start(k));
    SubjectsRaises(w, yearDir, subjects[..s], k);
    forall t | 0 <= t < s ensures !SubjectHasBroken(w, subjects[..s][t].urls) {
      assert subjects[..s][t] == subjects[t];
    }
    assert before == SubjectsPlan(w, yearDir, subjects[..s], k);
    var d := step(subjects[s], 0 + s, before.next);
    assert d == DownloadExamsPlan(w, subjects[s].name, subjects[s].urls, yearDir, before.next);
    LoopReachAll(step, subjects, 0, Start(k), s);
  }

  /** When no year before position `y` has a broken anchor, the year at `y`
      runs, after the draws of the years before it, and all it does is in the
      catalog walk's trace. */
  lemma {:induction false} YearsReached(w: World, mainDir: string, years: seq<Year>, k: nat, y: nat)
    requires y < |years| && forall t :: 0 <= t < y ==> !YearHasBroken(w, years[t])
    ensures Within(YearPlan(w, mainDir, years[y], YearsPlan(w, mainDir, years[..y], k).next).effects,
                   YearsPlan(w, mainDir, years, k).effects)
  {
    var step := YearStep(w, mainDir);
    var before := Loop(step, years[..y], 0, Start(k));
    YearsRaises(w, mainDir, years[..y], k);
    forall t | 0 <= t < y ensures !YearHasBroken(w, years[..y][t]) {
      assert years[..y][t] == years[t];
    }
    assert before == YearsPlan(w, mainDir, years[..y], k);
    var d := step(years[y], 0 + y, before.next);
    assert d == YearPlan(w, mainDir, years[y], before.next);
    LoopReachAll(step, years, 0, Start(k), y);
  }
  /** When no year before position `y` has a broken anchor, the run creates
      that year's directory `~/Exams/<year>`. */
  lemma {:induction false} YearDirReached(w: World, home: string, years: seq<Year>, k: nat, y: nat)
    requires y < |years| && forall t :: 0 <= t < y ==> !YearHasBroken(w, years[t])
    ensures MakeDirs(Join(MainDir(home), years[y].name)) in RunPlan(w, home, years, k)
  {
    var mainDir := MainDir(home);
    var ky := YearsPlan(w, mainDir, years[..y], k).next;
    var yp := YearPlan(w, mainDir, years[y], ky).effects;
    var r := YearsPlan(w, mainDir, years, k);
    assert yp == [MakeDirs(Join(mainDir, years[y].name))] + SubjectsPlan(w, Join(mainDir, years[y].name), years[y].subjects, ky).effects;
    YearsReached(w, mainDir, years, k, y);
    InWithin(MakeDirs(Join(mainDir, years[y].name)), yp, r.effects);
    assert RunPlan(w, home, years, k) == [MakeDirs(mainDir)] + r.effects + (if r.raised then [Print(Crashed)] else []);
  }


  /** The number of labels drawn before the cell at position `j` of the
      fetched listing of the URL at position `i` of subject `s`, when the
      walk over `subjects` starts after `ks` draws: those of the subjects
      before `s`, of the quarters before `i`, and of the cells before `j`. */
  function CellDraw(w: World, yearDir: string, subjects: seq<Subject>, ks: nat, s: nat, i: nat, j: nat): nat
    requires s < |subjects| && i < |subjects[s].urls| && w.page(subjects[s].urls[i]).Listing?
    requires j <= |w.page(subjects[s].urls[i]).cells|
  {
    var kd := SubjectsPlan(w, yearDir, subjects[..s], ks).next;
    DownloadExamsPlan(w, subjects[s].name, subjects[s].urls[..i], yearDir, kd).next +
    |Links(w.page(subjects[s].urls[i]).cells[..j])|
  }

  /** In a run where nothing before the cell raises, the label drawn for the
      cell at position `j` of listing `i` of subject `s` of year `y` is the
      one after a draw for every link of every fetched listing before it in
      table order. */
  lemma {:induction false} RunCellDraw(w: World, home: string, years: seq<Year>, k: nat, y: nat, s: nat, i: nat, j: nat)
    requires y < |years| && forall t :: 0 <= t < y ==> !YearHasBroken(w, years[t])
    requires s < |years[y].subjects| && forall t :: 0 <= t < s ==> !SubjectHasBroken(w, years[y].subjects[t].urls)
    requires i < |years[y].subjects[s].urls| && !SubjectHasBroken(w, years[y].subjects[s].urls[..i])
    requires w.page(years[y].subjects[s].urls[i]).Listing? && j <= |w.page(years[y].subjects[s].urls[i]).cells|
    ensures CellDraw(w, Join(MainDir(home), years[y].name), years[y].subjects,
                     YearsPlan(w, MainDir(home), years[..y], k).next, s, i, j) ==
            k + |Flat(YearAllLinks(w), years[..y])| + |Flat(SubjectAllLinks(w), years[y].subjects[..s])| +
            |Flat(ListingLinks(w), years[y].subjects[s].urls[..i])| + |Links(w.page(years[y].subjects[s].urls[i]).cells[..j])|
  {
    var mainDir := MainDir(home);
    var yearDir := Join(mainDir, years[y].name);
    var subjects := years[y].subjects;
    forall t | 0 <= t < y ensures !YearHasBroken(w, years[..y][t]) {
      assert years[..y][t] == years[t];
    }
    YearsDraws(w, mainDir, years[..y], k);
    var ky := YearsPlan(w, mainDir, years[..y], k).next;
    forall t | 0 <= t < s ensures !SubjectHasBroken(w, subjects[..s][t].urls) {
      assert subjects[..s][t] == subjects[t];
    }
    SubjectsDraws(w, yearDir, subjects[..s], ky);
    var kd := SubjectsPlan(w, yearDir, subjects[..s], ky).next;
    DownloadExamsDraws(w, subjects[s].name, subjects[s].urls[..i], yearDir, kd);
  }

  /** In a year where no subject before `s`, no listing of subject `s` before
      position `i` and no cell of that listing before position `j` raises,
      the cell at `j` runs in its quarter directory
      `<year>/<subject>/Quarter <i + 1>` with the label of draw `kc`, and all
      it does is in the year's trace. */
  lemma {:induction false} YearCellReached(w: World, mainDir: string, year: Year, ky: nat, s: nat, i: nat, j: nat)
    returns (kc: nat)
    requires s < |year.subjects| && forall t :: 0 <= t < s ==> !SubjectHasBroken(w, year.subjects[t].urls)
    requires i < |year.subjects[s].urls| && !SubjectHasBroken(w, year.subjects[s].urls[..i])
    requires w.page(year.subjects[s].urls[i]).Listing?
    requires j < |w.page(year.subjects[s].urls[i]).cells| && !HasBroken(w.page(year.subjects[s].urls[i]).cells[..j])
    ensures kc == CellDraw(w, Join(mainDir, year.name), year.subjects, ky, s, i, j)
    ensures Within(CellPlan(w, QuarterDir(Join(mainDir, year.name), year.subjects[s].name, i + 1), year.subjects[s].name,
                            w.page(year.subjects[s].urls[i]).cells[j], kc).effects,
                   YearPlan(w, mainDir, year, ky).effects)
  {
    var yearDir := Join(mainDir, year.name);
    var subject := year.subjects[s];
    var cells := w.page(subject.urls[i]).cells;
    var ks := SubjectsPlan(w, yearDir, year.subjects[..s], ky).next;
    var d := DownloadExamsPlan(w, subject.name, subject.urls, yearDir, ks).effects;
    var sp := SubjectsPlan(w, yearDir, year.subjects, ky).effects;
    kc := DownloadExamsCellReached(w, subject.name, subject.urls, yearDir, ks, i, j);
    var c := CellPlan(w, QuarterDir(yearDir, subject.name, i + 1), subject.name, cells[j], kc).effects;
    assert Within(c, d);
    SubjectsReached(w, yearDir, year.subjects, ky, s);
    assert Within(d, sp);
    WithinTrans(c, d, sp);
    assert YearPlan(w, mainDir, year, ky).effects == [MakeDirs(yearDir)] + sp;
  }

  /** In a run where no year before `y`, no subject of year `y` before `s`,
      no listing of that subject before position `i` and no cell of that
      listing before position `j` raises, the cell at `j` runs in its quarter
      directory `~/Exams/<year>/<subject>/Quarter <i + 1>` with the label of
      draw `kc`, and all it does is in the run's trace. */
  lemma {:induction false} RunCellReached(w: World, home: string, years: seq<Year>, k: nat, y: nat, s: nat, i: nat, j: nat)
    returns (kc: nat)
    requires y < |years| && forall t :: 0 <= t < y ==> !YearHasBroken(w, years[t])
    requires s < |years[y].subjects| && forall t :: 0 <= t < s ==> !SubjectHasBroken(w, years[y].subjects[t].urls)
    requires i < |years[y].subjects[s].urls| && !SubjectHasBroken(w, years[y].subjects[s].urls[..i])
    requires w.page(years[y].subjects[s].urls[i]).Listing?
    requires j < |w.page(years[y].subjects[s].urls[i]).cells| && !HasBroken(w.page(years[y].subjects[s].urls[i]).cells[..j])
    ensures kc == CellDraw(w, Join(MainDir(home), years[y].name), years[y].subjects,
                           YearsPlan(w, MainDir(home), years[..y], k).next, s, i, j)
    ensures Within(CellPlan(w, QuarterDir(Join(MainDir(home), years[y].name), years[y].subjects[s].name, i + 1),
                            years[y].subjects[s].name, w.page(years[y].subjects[s].urls[i]).cells[j], kc).effects,
                   RunPlan(w, home, years, k))
  {
    var mainDir := MainDir(home);
    var ky := YearsPlan(w, mainDir, years[..y], k).next;
    var r := YearsPlan(w, mainDir, years, k);
    var yp := YearPlan(w, mainDir, years[y], ky).effects;
    kc := YearCellReached(w, mainDir, years[y], ky, s, i, j);
    YearsReached(w, mainDir, years, k, y);
    assert RunPlan(w, home, years, k) == [MakeDirs(mainDir)] + r.effects + (if r.raised then [Print(Crashed)] else []);
    WithinTrans(CellPlan(w, QuarterDir(Join(mainDir, years[y].name), years[y].subjects[s].name, i + 1),
                         years[y].subjects[s].name, w.page(years[y].subjects[s].urls[i]).cells[j], kc).effects,
                yp, RunPlan(w, home, years, k));
  }

  /** Completeness of the whole run: under the same conditions, an anchored
      cell is requested, and its file
      `~/Exams/<year>/<subject>/Quarter <i + 1>/<difficulty>/<cleaned title>.pdf`,
      with the label of draw `kc`, is written exactly when its download and
      the save to that path succeed. */
  lemma {:induction false} RunWriteComplete(w: World, home: string, years: seq<Year>, k: nat, y: nat, s: nat, i: nat, j: nat,
                                           text: string, href: string)
    returns (kc: nat)
    requires y < |years| && forall t :: 0 <= t < y ==> !YearHasBroken(w, years[t])
    requires s < |years[y].subjects| && forall t :: 0 <= t < s ==> !SubjectHasBroken(w, years[y].subjects[t].urls)
    requires i < |years[y].subjects[s].urls| && !SubjectHasBroken(w, years[y].subjects[s].urls[..i])
    requires w.page(years[y].subjects[s].urls[i]).Listing?
    requires j < |w.page(years[y].subjects[s].urls[i]).cells| && !HasBroken(w.page(years[y].subjects[s].urls[i]).cells[..j])
    requires w.page(years[y].subjects[s].urls[i]).cells[j] == Some(Anchor(text, Some(href)))
    ensures kc == CellDraw(w, Join(MainDir(home), years[y].name), years[y].subjects,
                           YearsPlan(w, MainDir(home), years[..y], k).next, s, i, j)
    ensures FetchFile(Strip(href)) in RunPlan(w, home, years, k)
    ensures var path := Join(Join(QuarterDir(Join(MainDir(home), years[y].name), years[y].subjects[s].name, i + 1),
                                  Difficulty(w.pick(kc))), FileName(Strip(text)));
            WriteFile(path, Strip(href)) in RunPlan(w, home, years, k) <==> w.download(Strip(href)) && w.save(path)
  {
    var base := QuarterDir(Join(MainDir(home), years[y].name), years[y].subjects[s].name, i + 1);
    var name := years[y].subjects[s].name;
    var run := RunPlan(w, home, years, k);
    kc := RunCellReached(w, home, years, k, y, s, i, j);
    var c := CellPlan(w, base, name, Some(Anchor(text, Some(href))), kc).effects;
    assert Within(c, run);
    CellLayout(w, base, name, text, href, kc);
    assert c[1] in c;
    InWithin(FetchFile(Strip(href)), c, run);
    CellWriteComplete(w, base, name, text, href, kc);
    var p := Join(Join(base, Difficulty(w.pick(kc))), FileName(Strip(text)));
    if WriteFile(p, Strip(href)) in run {
      RunWrites(w, home, years, k, p, Strip(href));
    }
    if w.download(Strip(href)) && w.save(p) {
      InWithin(WriteFile(p, Strip(href)), c, run);
    }
  }
}
