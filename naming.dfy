/** Names the downloader gives to things on disk: the difficulty tag
    (download_exams.py:9-11), the file name cleaned from an exam title
    (download_exams.py:60) and the directory layout built with
    `os.path.join` (download_exams.py:33, 51, 61, 128). */
module Naming {
  import opened Text

  // ---------------------------------------------------------------------
  // Difficulty tag
  // ---------------------------------------------------------------------

  /** The list `random.choice` draws from, in the order the source writes it. */
  const Choices: seq<string> := ["easy", "medium", "hard"]

  /** The index `random.choice` picks in `Choices`. */
  type Draw = d: nat | d < 3

  /** `classify_difficulty()` once the random index is known: always one of
      the three labels, and a tag that is a single, non-empty path
      component, so the difficulty directory sits directly inside its quarter. */
  function Difficulty(d: Draw): (tag: string)
    ensures tag == "easy" || tag == "medium" || tag == "hard"
    ensures tag != [] && '/' !in tag
  {
    Choices[d]
  }

  /** Every tag can be drawn, and by exactly one index; so a uniform draw of
      the index gives a uniform tag. */
  lemma {:induction false} DifficultyIsBijection(tag: string)
    ensures tag in {"easy", "medium", "hard"} <==> exists d: Draw :: Difficulty(d) == tag
    ensures forall d1: Draw, d2: Draw :: Difficulty(d1) == Difficulty(d2) ==> d1 == d2
  {
    if tag == "easy" {
      assert Difficulty(0) == tag;
    } else if tag == "medium" {
      assert Difficulty(1) == tag;
    } else if tag == "hard" {
      assert Difficulty(2) == tag;
    }
    forall d1: Draw, d2: Draw | Difficulty(d1) == Difficulty(d2) ensures d1 == d2 {
      assert Difficulty(d1)[0] == Difficulty(d2)[0];
    }
  }

  // ---------------------------------------------------------------------
  // File name of an exam
  // ---------------------------------------------------------------------

  /** The characters the cleaner replaces: space, slash and backslash. */
  predicate Unsafe(c: char) {
    c == ' ' || c == '/' || c == '\\'
  }

  /** `title.replace(' ', '_').replace('/', '_').replace('\\', '_')`: one
      character for one, every unsafe character becomes an underscore and
      every other character stays as it was. */
  function CleanTitle(title: string): (stem: string)
    ensures |stem| == |title|
    ensures forall i :: 0 <= i < |title| ==> stem[i] == if Unsafe(title[i]) then '_' else title[i]
  {
    Replace(Replace(Replace(title, ' ', '_'), '/', '_'), '\\', '_')
  }

  /** The file name of an exam (download_exams.py:60): the cleaned title
      followed by ".pdf". */
  function FileName(title: string): string
  {
    CleanTitle(title) + ".pdf"
  }

  /** The file name is four characters longer than the title, ends with
      ".pdf", and its stem holds no space, slash or backslash; so the name
      holds no slash at all and `os.path.join` keeps it as one component. */
  lemma {:induction false} FileNameShape(title: string)
    ensures |FileName(title)| == |title| + 4
    ensures FileName(title)[|title|..] == ".pdf"
    ensures forall i :: 0 <= i < |title| ==> !Unsafe(FileName(title)[i])
    ensures '/' !in FileName(title)
  {
    var name := FileName(title);
    assert name[..|title|] == CleanTitle(title);
    forall i | 0 <= i < |name| ensures name[i] != '/' {
      if i < |title| {
        assert name[i] == CleanTitle(title)[i];
      } else {
        assert name[i] == ".pdf"[i - |title|];
      }
    }
  }

  /** Cleaning an already clean stem changes nothing. */
  lemma {:induction false} CleanTitleIdempotent(title: string)
    ensures CleanTitle(CleanTitle(title)) == CleanTitle(title)
  {
    var once := CleanTitle(title);
    var twice := CleanTitle(once);
    forall i | 0 <= i < |title| ensures twice[i] == once[i] {
      assert !Unsafe(once[i]);
    }
  }

  /** Two titles get the same file name, so within the same quarter and
      difficulty directory the later download overwrites the earlier one,
      exactly when they have the same length and agree at every
      position except where both hold an underscore or an unsafe character. */
  lemma {:induction false} FileNameCollision(t1: string, t2: string)
    ensures FileName(t1) == FileName(t2) <==>
            |t1| == |t2| &&
            forall i :: 0 <= i < |t1| ==>
              t1[i] == t2[i] || ((t1[i] == '_' || Unsafe(t1[i])) && (t2[i] == '_' || Unsafe(t2[i])))
  {
    var n1, n2 := FileName(t1), FileName(t2);
    assert n1[..|t1|] == CleanTitle(t1);
    assert n2[..|t2|] == CleanTitle(t2);
    if n1 == n2 {
      forall i | 0 <= i < |t1|
        ensures t1[i] == t2[i] || ((t1[i] == '_' || Unsafe(t1[i])) && (t2[i] == '_' || Unsafe(t2[i])))
      {
        assert n1[i] == n2[i];
      }
    }
    if |t1| == |t2| && forall i :: 0 <= i < |t1| ==>
         t1[i] == t2[i] || ((t1[i] == '_' || Unsafe(t1[i])) && (t2[i] == '_' || Unsafe(t2[i]))) {
      assert CleanTitle(t1) == CleanTitle(t2);
    }
  }

  // ---------------------------------------------------------------------
  // Directory layout
  // ---------------------------------------------------------------------

  /** `os.path.join(dir, name)` for a relative `name`: one separator between. */
  function Join(dir: string, name: string): string {
    dir + "/" + name
  }

  /** `os.path.join(year_directory, subject, f'Quarter {index}')`
      (download_exams.py:33). */
  function QuarterDir(yearDir: string, subject: string, index: nat): string {
    Join(Join(yearDir, subject), "Quarter " + ShowNat(index))
  }

  /** Different quarters of one subject get different directories. */
  lemma {:induction false} QuarterDirInjective(yearDir: string, subject: string, m: nat, n: nat)
    ensures QuarterDir(yearDir, subject, m) == QuarterDir(yearDir, subject, n) <==> m == n
  {
    var prefix := yearDir + "/" + subject + "/" + "Quarter ";
    if QuarterDir(yearDir, subject, m) == QuarterDir(yearDir, subject, n) {
      assert QuarterDir(yearDir, subject, m) == prefix + ShowNat(m);
      assert QuarterDir(yearDir, subject, n) == prefix + ShowNat(n);
      assert ShowNat(m) == QuarterDir(yearDir, subject, m)[|prefix|..];
      assert ShowNat(n) == QuarterDir(yearDir, subject, n)[|prefix|..];
      ShowNatInjective(m, n);
    }
  }

  /** The three directories a quarter's difficulty labels can name. */
  function DifficultyDirs(base: string): set<string> {
    {Join(base, "easy"), Join(base, "medium"), Join(base, "hard")}
  }

  /** The three places an exam titled `title` can be saved in a quarter
      directory `base`: `<base>/<difficulty>/<cleaned title>.pdf`. */
  function ExamFiles(base: string, title: string): set<string> {
    {Join(Join(base, "easy"), FileName(title)),
     Join(Join(base, "medium"), FileName(title)),
     Join(Join(base, "hard"), FileName(title))}
  }

  /** The difficulty directory of a drawn label is one of the three. */
  lemma {:induction false} DifficultyDirOf(base: string, d: Draw)
    ensures Join(base, Difficulty(d)) in DifficultyDirs(base)
  {
  }

  /** No difficulty directory of one quarter is the directory of a quarter of
      the same subject: a quarter name ends in digits, with no slash. */
  lemma {:induction false} QuarterDirNotDifficultyDir(yearDir: string, subject: string, m: nat, n: nat)
    ensures QuarterDir(yearDir, subject, n) !in DifficultyDirs(QuarterDir(yearDir, subject, m))
  {
    QuarterDirNotJoin(yearDir, subject, m, n, "easy");
    QuarterDirNotJoin(yearDir, subject, m, n, "medium");
    QuarterDirNotJoin(yearDir, subject, m, n, "hard");
  }

  lemma {:induction false} QuarterDirNotJoin(yearDir: string, subject: string, m: nat, n: nat, tag: string)
    ensures Join(QuarterDir(yearDir, subject, m), tag) != QuarterDir(yearDir, subject, n)
  {
    var prefix := yearDir + "/" + subject + "/" + "Quarter ";
    var a := Join(QuarterDir(yearDir, subject, m), tag);
    var b := QuarterDir(yearDir, subject, n);
    assert a == prefix + ShowNat(m) + "/" + tag;
    assert b == prefix + ShowNat(n);
    if |a| == |b| {
      var k := |prefix| + |ShowNat(m)|;
      assert a[k] == '/';
      assert b[k] == ShowNat(n)[k - |prefix|];
      assert a[k] != b[k];
    }
  }
}
