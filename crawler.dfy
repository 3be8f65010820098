/** The downloader as the program runs it: a crawler object that keeps the
    trace of what it has done to the outside world so far and how many
    difficulty labels it has drawn. Its methods follow `classify_difficulty`
    (download_exams.py:9-11), `download_exams` (download_exams.py:19-73) and
    the top-level walk (download_exams.py:75-136) statement by statement,
    and each is proved to append exactly the trace the Plan module
    specifies. */
module Crawler {
  import opened Text
  import opened Naming
  import opened Trace
  import opened Plan

  class Crawler {
    /** What the network, the file system and the random generator answer. */
    const web: World
    /** Everything done to the outside world so far, in order. */
    var log: seq<Effect>
    /** How many times `random.choice` has been called so far. */
    var draws: nat

    constructor(web: World)
      ensures this.web == web && log == [] && draws == 0
    {
      this.web := web;
      log := [];
      draws := 0;
    }

    /** `classify_difficulty()`: the next draw picks one of the three labels. */
    method ClassifyDifficulty() returns (difficulty: string)
      modifies this
      ensures difficulty == Difficulty(web.pick(old(draws)))
      ensures draws == old(draws) + 1 && log == old(log)
    {
      difficulty := Choices[web.pick(draws)];
      draws := draws + 1;
    }

    /** `download_exams(subject, quarters_urls, year_directory)`: appends the
        trace of `DownloadExamsPlan`, makes its draws, and reports whether an
        exception (an anchor without `href`) escaped it. */
    method DownloadExams(subject: string, quartersUrls: seq<string>, yearDirectory: string) returns (raised: bool)
      modifies this
      ensures var r := DownloadExamsPlan(web, subject, quartersUrls, yearDirectory, old(draws));
              log == old(log) + r.effects && draws == r.next && raised == r.raised
    {
      ghost var log0 := log;
      ghost var quarterStep := QuarterStep(web, subject, yearDirectory);
      ghost var done := Start(draws);
      var i := 0;
      while i < |quartersUrls|
        invariant 0 <= i <= |quartersUrls|
        invariant !done.raised && log == log0 + done.effects && draws == done.next
        invariant Loop(quarterStep, quartersUrls[i..], 1 + i, done) ==
                  DownloadExamsPlan(web, subject, quartersUrls, yearDirectory, old(draws))
      {
        var index, url := i + 1, quartersUrls[i];
        LoopNext(quarterStep, quartersUrls, i, index, done);
        ghost var quarter := QuarterPlan(web, subject, url, yearDirectory, index, draws);
        ghost var after := Then(done, quarter);
        raised := DownloadQuarter(subject, url, yearDirectory, index);
        AppendAssoc(log0, done.effects, quarter.effects);
        if raised {
          LoopExtends(quarterStep, quartersUrls[i + 1..], index + 1, after);
          return;
        }
        done := after;
        i := i + 1;
      }
      assert quartersUrls[i..] == [];
      raised := false;
    }

    /** One pass of the loop in `download_exams` (download_exams.py:23-37,
        72-73): fetch the listing; on a request failure print it and go on;
        otherwise create `Quarter <index>` and walk its attachment cells. */
    method DownloadQuarter(subject: string, url: string, yearDirectory: string, index: nat) returns (raised: bool)
      modifies this
      ensures var r := QuarterPlan(web, subject, url, yearDirectory, index, old(draws));
              log == old(log) + r.effects && draws == r.next && raised == r.raised
    {
      ghost var start := log;
      var page := web.page(url);
      log := log + [FetchPage(url)];
      if page.FetchFailed? {
        log := log + [Print(FetchError(url))];
        AppendAssoc(start, [FetchPage(url)], [Print(FetchError(url))]);
        return false;
      }
      var baseDownloadDirectory := QuarterDir(yearDirectory, subject, index);
      log := log + [MakeDirs(baseDownloadDirectory)];
      AppendAssoc(start, [FetchPage(url)], [MakeDirs(baseDownloadDirectory)]);
      ghost var listing := ListingPlan(web, baseDownloadDirectory, subject, page.cells, draws);
      raised := DownloadListing(baseDownloadDirectory, subject, page.cells);
      AppendAssoc(start, [FetchPage(url), MakeDirs(baseDownloadDirectory)], listing.effects);
    }

    /** The loop over a fetched listing's attachment cells
        (download_exams.py:37-71), in document order, stopping at the first
        exception. */
    method DownloadListing(baseDownloadDirectory: string, subject: string, examEntries: seq<Cell>) returns (raised: bool)
      modifies this
      ensures var r := ListingPlan(web, baseDownloadDirectory, subject, examEntries, old(draws));
              log == old(log) + r.effects && draws == r.next && raised == r.raised
    {
      ghost var log0 := log;
      ghost var cellStep := CellStep(web, baseDownloadDirectory, subject);
      ghost var done := Start(draws);
      var j := 0;
      while j < |examEntries|
        invariant 0 <= j <= |examEntries|
        invariant !done.raised && log == log0 + done.effects && draws == done.next
        invariant Loop(cellStep, examEntries[j..], j, done) ==
                  ListingPlan(web, baseDownloadDirectory, subject, examEntries, old(draws))
      {
        LoopNext(cellStep, examEntries, j, j, done);
        ghost var cell := CellPlan(web, baseDownloadDirectory, subject, examEntries[j], draws);
        ghost var after := Then(done, cell);
        raised := DownloadEntry(baseDownloadDirectory, subject, examEntries[j]);
        AppendAssoc(log0, done.effects, cell.effects);
        if raised {
          LoopExtends(cellStep, examEntries[j + 1..], j + 1, after);
          return;
        }
        done := after;
        j := j + 1;
      }
      assert examEntries[j..] == [];
      raised := false;
    }

    /** One attachment cell (download_exams.py:42-71): no anchor, nothing;
        an anchor without `href` raises KeyError, reported as `raised`;
        otherwise draw the label, create its directory, request the file and
        write it, each request or write failure printed and contained. */
    method DownloadEntry(baseDownloadDirectory: string, subject: string, entry: Cell) returns (raised: bool)
      modifies this
      ensures var r := CellPlan(web, baseDownloadDirectory, subject, entry, old(draws));
              log == old(log) + r.effects && draws == r.next && raised == r.raised
    {
      if entry.None? {
        return false;
      }
      var linkTag := entry.value;
      var title := Strip(linkTag.text);
      if linkTag.href.None? {
        return true;
      }
      var link := Strip(linkTag.href.value);
      ghost var log0 := log;
      var difficulty := ClassifyDifficulty();
      var downloadDirectory := Join(baseDownloadDirectory, difficulty);
      log := log + [MakeDirs(downloadDirectory)];
      SaveAttachment(downloadDirectory, subject, title, link, difficulty);
      AppendAssoc(log0, [MakeDirs(downloadDirectory)], Attempt(web, downloadDirectory, subject, title, link, difficulty));
      raised := false;
    }

    /** The inner `try` (download_exams.py:55-71): request the attachment;
        if that fails, print it; otherwise write the body to
        `<download_directory>/<cleaned title>.pdf` and print the outcome. */
    method SaveAttachment(downloadDirectory: string, subject: string, title: string, link: string, difficulty: string)
      modifies this
      ensures log == old(log) + Attempt(web, downloadDirectory, subject, title, link, difficulty)
      ensures draws == old(draws)
    {
      log := log + [FetchFile(link)];
      if web.download(link) {
        var filename := FileName(title);
        var filepath := Join(downloadDirectory, filename);
        if web.save(filepath) {
          log := log + [WriteFile(filepath, link), Print(Downloaded(title, subject, difficulty))];
        } else {
          log := log + [Print(SaveFailed(title))];
        }
      } else {
        log := log + [Print(DownloadFailed(title))];
      }
    }

    /** The top-level script (download_exams.py:75-136): create `~/Exams`,
        then walk the years in order; an exception escaping a download ends
        the walk and prints the error. */
    method Run(home: string, yearsUrls: seq<Year>)
      modifies this
      ensures log == old(log) + RunPlan(web, home, yearsUrls, old(draws))
      ensures draws == YearsPlan(web, MainDir(home), yearsUrls, old(draws)).next
    {
      ghost var start := log;
      var mainDirectory := Join(home, "Exams");
      log := log + [MakeDirs(mainDirectory)];
      ghost var log0 := log;
      ghost var yearStep := YearStep(web, mainDirectory);
      ghost var years := YearsPlan(web, mainDirectory, yearsUrls, draws);
      ghost var done := Start(draws);
      var y := 0;
      while y < |yearsUrls|
        invariant 0 <= y <= |yearsUrls|
        invariant !done.raised && log == log0 + done.effects && draws == done.next
        invariant Loop(yearStep, yearsUrls[y..], y, done) == years
      {
        LoopNext(yearStep, yearsUrls, y, y, done);
        ghost var year := YearPlan(web, mainDirectory, yearsUrls[y], draws);
        ghost var after := Then(done, year);
        var raised := DownloadYear(mainDirectory, yearsUrls[y]);
        AppendAssoc(log0, done.effects, year.effects);
        if raised {
          LoopExtends(yearStep, yearsUrls[y + 1..], y + 1, after);
          log := log + [Print(Crashed)];
          AppendAssoc(start, [MakeDirs(mainDirectory)], years.effects);
          return;
        }
        done := after;
        y := y + 1;
      }
      assert yearsUrls[y..] == [];
      AppendAssoc(start, [MakeDirs(mainDirectory)], years.effects);
    }

    /** One year of the top-level walk (download_exams.py:128-131): its
        directory, then `download_exams` for each of its subjects in order,
        stopping at the first exception. */
    method DownloadYear(mainDirectory: string, year: Year) returns (raised: bool)
      modifies this
      ensures var r := YearPlan(web, mainDirectory, year, old(draws));
              log == old(log) + r.effects && draws == r.next && raised == r.raised
    {
      ghost var start := log;
      var yearDirectory := Join(mainDirectory, year.name);
      log := log + [MakeDirs(yearDirectory)];
      ghost var log0 := log;
      ghost var subjectStep := SubjectStep(web, yearDirectory);
      ghost var subjects := SubjectsPlan(web, yearDirectory, year.subjects, draws);
      ghost var done := Start(draws);
      var s := 0;
      while s < |year.subjects|
        invariant 0 <= s <= |year.subjects|
        invariant !done.raised && log == log0 + done.effects && draws == done.next
        invariant Loop(subjectStep, year.subjects[s..], s, done) == subjects
      {
        var subject := year.subjects[s];
        LoopNext(subjectStep, year.subjects, s, s, done);
        ghost var exams := DownloadExamsPlan(web, subject.name, subject.urls, yearDirectory, draws);
        ghost var after := Then(done, exams);
        raised := DownloadExams(subject.name, subject.urls, yearDirectory);
        AppendAssoc(log0, done.effects, exams.effects);
        if raised {
          LoopExtends(subjectStep, year.subjects[s + 1..], s + 1, after);
          AppendAssoc(start, [MakeDirs(yearDirectory)], subjects.effects);
          return;
        }
        done := after;
        s := s + 1;
      }
      assert year.subjects[s..] == [];
      AppendAssoc(start, [MakeDirs(yearDirectory)], subjects.effects);
      raised := false;
    }
  }
}
