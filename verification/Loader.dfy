/** From the build set to the task table: `TaskVariables`, `taskGenerator` and `loadConfig`.
    The parsed XML is a value; directory listings and the C++ path functions are parameters. */
module Loader {
  import opened Wrappers
  import opened TaskTable
  import opened Text

  datatype TaskVariables = TaskVariables(
    pName: string, pDir: string, sDir: string, oDir: string, wDir: string, sFile: string, oFile: string,
    sourceFile: string, sourceFileName: string, outputFile: string)
  {
    /** The replacements in the order they are made; there is none for `$(odir)`. */
    function Table(): Bindings {
      [("pname", pName), ("pdir", pDir), ("sdir", sDir), ("wdir", wDir), ("sfile", sFile), ("ofile", oFile),
       ("sourcefile", sourceFile), ("sourcefilename", sourceFileName), ("outputfile", outputFile)]
    }

    function ReplaceIn(s: string): string {
      SubstituteAll(s, Table())
    }
  }

  datatype Project = Project(path: string, workPath: string)

  datatype TaskElement = TaskElement(
    sourceFile: string, outputFile: string, application: string, params: string, workingDir: string,
    abortOnError: bool)

  datatype ProjectElement = ProjectElement(name: string, tasks: seq<TaskElement>)

  /** The file system as the loader sees it; a listing is `None` where the iterator throws. */
  datatype Disk = Disk(listing: string -> Option<seq<string>>, rawName: string -> string, lower: string -> string)

  function Backslashes(s: string): string {
    Replace(s, "/", "\\")
  }

  function Delocalise(s: string, pdir: string): string {
    if pdir == "" then s else Replace(s, pdir, PDIR)
  }

  /** `rfind` among the first `n` characters; -1 stands for `npos`. */
  function LastIndexOf(s: string, c: char, n: nat): (k: int)
    requires n <= |s|
    ensures -1 <= k < n && (k >= 0 ==> s[k] == c) && forall i | k < i < n :: s[i] != c
  {
    if n == 0 then -1 else if s[n - 1] == c then n - 1 else LastIndexOf(s, c, n - 1)
  }

  /** `out_of_range` is `None`. */
  function Substr(s: string, from: int): Option<string> {
    if 0 <= from <= |s| then Some(s[from..]) else None
  }

  function Directory(source: string): string {
    var k := LastIndexOf(source, '\\', |source|);
    if k >= 0 then source[..k] else ".\\"
  }

  /** What the source file's name leaves over; the character after the last backslash is taken to be the `*`. */
  function RawMask(source: string): Option<string> {
    var k := LastIndexOf(source, '\\', |source|);
    if k >= 0 then Substr(source, k + 2) else Some(source)
  }

  /** What has to end a file name. */
  function Mask(source: string, disk: Disk): Option<string> {
    var m := RawMask(source);
    if m.None? then None else Some(disk.lower(m.value))
  }

  /** The entries that end in `mask`; an entry shorter than the mask throws. */
  function Selected(files: seq<string>, mask: string, disk: Disk, n: nat): Option<seq<string>>
    requires n <= |files|
  {
    if n == 0 then Some([])
    else
      var front := Selected(files, mask, disk, n - 1);
      var name := disk.lower(files[n - 1]);
      var tail := Substr(name, |name| - |mask|);
      if front.None? || tail.None? then None
      else Some(front.value + if tail.value == mask then [name] else [])
  }

  predicate TooShort(files: seq<string>, mask: string, disk: Disk, i: nat)
    requires i < |files|
  {
    |disk.lower(files[i])| < |mask|
  }

  predicate HasTooShort(files: seq<string>, mask: string, disk: Disk) {
    exists i :: 0 <= i < |files| && TooShort(files, mask, disk, i)
  }

  /** The scan of a directory throws exactly when an entry is shorter than the mask. */
  lemma {:induction false} ShortNamesThrow(files: seq<string>, mask: string, disk: Disk, n: nat)
    requires n <= |files|
    ensures Selected(files, mask, disk, n).None? <==> exists i :: 0 <= i < n && TooShort(files, mask, disk, i)
  {
    if n > 0 {
      ShortNamesThrow(files, mask, disk, n - 1);
      assert TooShort(files, mask, disk, n - 1) <==> |disk.lower(files[n - 1])| < |mask|;
    }
  }

  /** The `i`-th entry, case-folded, ends in the mask. */
  predicate EndsInMask(files: seq<string>, mask: string, disk: Disk, i: nat)
    requires i < |files|
  {
    var name := disk.lower(files[i]);
    |mask| <= |name| && name[|name| - |mask|..] == mask
  }

  /** The indices of those among the first `n` entries. */
  function Matching(files: seq<string>, mask: string, disk: Disk, n: nat): (at: seq<nat>)
    requires n <= |files|
    ensures forall k | 0 <= k < |at| :: at[k] < n && EndsInMask(files, mask, disk, at[k])
    ensures forall k, l | 0 <= k < l < |at| :: at[k] < at[l]
    ensures forall i | 0 <= i < n && EndsInMask(files, mask, disk, i) :: i in at
  {
    if n == 0 then []
    else
      var front := Matching(files, mask, disk, n - 1);
      if EndsInMask(files, mask, disk, n - 1) then front + [n - 1] else front
  }

  /** A scan selects the entries that end in the mask, all of them and in order, each case-folded. */
  lemma {:induction false} SelectedAreMatching(files: seq<string>, mask: string, disk: Disk, n: nat)
    requires n <= |files| && Selected(files, mask, disk, n).Some?
    ensures var chosen, at := Selected(files, mask, disk, n).value, Matching(files, mask, disk, n);
            |chosen| == |at| && forall k | 0 <= k < |at| :: chosen[k] == disk.lower(files[at[k]])
  {
    if n > 0 { SelectedAreMatching(files, mask, disk, n - 1); }
  }

  /** Every slash becomes a backslash, and nothing else changes. */
  lemma {:induction false} SlashesTurn(s: string)
    ensures var r := Backslashes(s);
            |r| == |s| && forall i | 0 <= i < |s| :: r[i] == if s[i] == '/' then '\\' else s[i]
    decreases |s|
  {
    if s != "" {
      assert "/" <= s <==> s[0] == '/';
      assert |"/"| == 1;
      SlashesTurn(s[1..]);
    }
  }

  /** The source files one element stands for. */
  function Sources(el: TaskElement, vars: TaskVariables, disk: Disk): Option<seq<string>> {
    var raw := Backslashes(el.sourceFile);
    if '*' !in raw then Some([raw])
    else
      var source := vars.ReplaceIn(raw);
      var mask := Mask(source, disk);
      var files := disk.listing(Directory(source));
      if mask.None? || files.None? then None else Selected(files.value, mask.value, disk, |files.value|)
  }

  /** The name of the directory in a path whose last backslash is at `k`, or -1 if it has none. */
  predicate LastBackslash(source: string, k: int) {
    -1 <= k < |source| && (k >= 0 ==> source[k] == '\\') && forall i | k < i < |source| :: source[i] != '\\'
  }

  /** A source file without a star stands for itself. One with a star is expanded, and stands for the entries of
      its directory that end in its mask, case-folded: what is left of the file's name without its first character.
      It cannot be listed exactly if there is no such first character, the directory cannot be read or an entry is
      shorter than the mask. */
  lemma {:induction false} SourcesAre(el: TaskElement, vars: TaskVariables, disk: Disk, k: int)
    requires LastBackslash(vars.ReplaceIn(Backslashes(el.sourceFile)), k)
    ensures var raw, ss := Backslashes(el.sourceFile), Sources(el, vars, disk);
            var source := vars.ReplaceIn(raw);
            var files := disk.listing(if k >= 0 then source[..k] else ".\\");
            var start := if k >= 0 then k + 2 else 0;
            if '*' !in raw then ss == Some([raw])
            else if start > |source| || files.None? then ss.None?
            else
              var mask := disk.lower(source[start..]);
              && (ss.None? <==> HasTooShort(files.value, mask, disk))
              && (ss.Some? ==>
                    var at := Matching(files.value, mask, disk, |files.value|);
                    |ss.value| == |at| && forall j | 0 <= j < |at| :: ss.value[j] == disk.lower(files.value[at[j]]))
  {
    var raw := Backslashes(el.sourceFile);
    var source := vars.ReplaceIn(raw);
    assert k == LastIndexOf(source, '\\', |source|);
    var start := if k >= 0 then k + 2 else 0;
    if '*' in raw && start <= |source| && disk.listing(if k >= 0 then source[..k] else ".\\").Some? {
      var files, mask := disk.listing(Directory(source)).value, disk.lower(source[start..]);
      assert source[0..] == source;
      assert Mask(source, disk) == Some(mask);
      assert Sources(el, vars, disk) == Selected(files, mask, disk, |files|);
      ShortNamesThrow(files, mask, disk, |files|);
      if Selected(files, mask, disk, |files|).Some? { SelectedAreMatching(files, mask, disk, |files|); }
    }
  }

  datatype Job = Job(el: TaskElement, vars: TaskVariables, source: string)

  /** The variables under which a job's source file, and then its output file, are expanded. */
  function SourceVariables(job: Job): TaskVariables {
    job.vars.(sourceFile := job.source, outputFile := Backslashes(job.el.outputFile))
  }

  function OutputVariables(job: Job, disk: Disk): TaskVariables {
    var v := SourceVariables(job);
    var source := v.ReplaceIn(job.source);
    v.(sourceFile := source, sourceFileName := disk.rawName(source))
  }

  /** The variables of a job once its own files are known. */
  function JobVariables(job: Job, disk: Disk): TaskVariables {
    var v := OutputVariables(job, disk);
    v.(outputFile := v.ReplaceIn(v.outputFile))
  }

  function MessageFor(job: Job, disk: Disk, id: nat): Message {
    var v := JobVariables(job, disk);
    Message(
      id, v.pName, Delocalise(v.sourceFile, v.pDir), Delocalise(v.outputFile, v.pDir),
      v.ReplaceIn(Backslashes(job.el.application)),
      Delocalise(v.ReplaceIn(Backslashes(job.el.params)), v.pDir),
      Delocalise(v.ReplaceIn(Backslashes(job.el.workingDir)), v.pDir), job.el.abortOnError)
  }

  /** Under which project a job's message is sent, and what is taken from its element as it is. */
  lemma {:induction false} MessageNames(job: Job, disk: Disk, id: nat)
    ensures var m := MessageFor(job, disk, id);
            m.id == id && m.project == job.vars.pName && m.abortOnError == job.el.abortOnError
  {
  }

  // ---- The reference: the jobs of a build set in document order, numbered by position ----

  function ElementJobs(el: TaskElement, vars: TaskVariables, disk: Disk): Option<seq<Job>> {
    var ss := Sources(el, vars, disk);
    if ss.None? then None
    else Some(JobsFor(el, vars, ss.value))
  }

  function Joined(a: Option<seq<Job>>, b: Option<seq<Job>>): Option<seq<Job>> {
    if a.None? || b.None? then None else Some(a.value + b.value)
  }

  function ProjectJobs(els: seq<TaskElement>, vars: TaskVariables, disk: Disk, n: nat): Option<seq<Job>>
    requires n <= |els|
  {
    if n == 0 then Some([])
    else Joined(ProjectJobs(els, vars, disk, n - 1), ElementJobs(els[n - 1], vars, disk))
  }

  function ConfigJobs(
    config: seq<ProjectElement>, projects: map<string, Project>, vars: TaskVariables, disk: Disk, n: nat)
    : Option<seq<Job>>
    requires n <= |config|
  {
    if n == 0 then Some([])
    else
      var p := config[n - 1];
      var front := ConfigJobs(config, projects, vars, disk, n - 1);
      if p.name !in projects then front
      else Joined(front, ProjectJobs(p.tasks, vars.(pName := p.name, pDir := projects[p.name].path), disk, |p.tasks|))
  }

  /** `++` on a `uint32_t`. */
  function NextId(id: nat): nat {
    if id == INT_LIMIT - 1 then 0 else id + 1
  }

  /** What the counter shows after `n` increments from zero. */
  function Count(n: nat): nat {
    if n == 0 then 0 else NextId(Count(n - 1))
  }

  lemma {:induction false} CountIsExact(n: nat)
    requires n <= INT_LIMIT
    ensures Count(n) == if n == INT_LIMIT then 0 else n
  {
    if n > 0 { CountIsExact(n - 1); }
  }

  type Describer = (Job, nat) -> Message

  /** The rows of `jobs` when `base` jobs precede them: the k-th is fresh and numbered base + k + 1. */
  function Numbered<N>(jobs: seq<Job>, base: nat, describe: Describer): (rows: seq<Row<N>>)
    ensures |rows| == |jobs|
  {
    seq(|jobs|, k requires 0 <= k < |jobs| => FreshRow(describe(jobs[k], Count(base + k + 1))))
  }

  lemma {:induction false} NumberedJoins<N>(front: seq<Job>, jobs: seq<Job>, describe: Describer)
    ensures Numbered<N>(front + jobs, 0, describe)
            == Numbered<N>(front, 0, describe) + Numbered<N>(jobs, |front|, describe)
  {
  }

  predicate UniqueIds<N>(rows: seq<Row<N>>) {
    forall i, j | 0 <= i < j < |rows| :: rows[i].message.id != rows[j].message.id
  }

  /** The describer that builds the message of a job. */
  function Describing(disk: Disk): Describer {
    (job: Job, id: nat) => MessageFor(job, disk, id)
  }

  lemma {:induction false} UniqueWhileCounting<N>(jobs: seq<Job>, describe: Describer)
    requires forall job, id :: describe(job, id).id == id
    ensures var rows := Numbered<N>(jobs, 0, describe);
            && (UniqueIds(rows) <==> |jobs| <= INT_LIMIT)
            && (|jobs| < INT_LIMIT ==> forall k | 0 <= k < |rows| :: rows[k].message.id == k + 1)
  {
    var rows := Numbered<N>(jobs, 0, describe);
    forall k | 0 <= k < |rows| && k < INT_LIMIT
      ensures rows[k].message.id == if k + 1 == INT_LIMIT then 0 else k + 1
    {
      CountIsExact(k + 1);
    }
    if |jobs| > INT_LIMIT {
      CountIsExact(INT_LIMIT);
      assert rows[0].message.id == 1 && rows[INT_LIMIT].message.id == NextId(Count(INT_LIMIT));
    }
  }

  lemma {:induction false} MessageKeepsId(job: Job, disk: Disk, id: nat)
    ensures Describing(disk)(job, id).id == id
  {
  }

  /** The ids tell the rows apart exactly while the counter has not wrapped; they count from one. */
  lemma {:induction false} NumbersAreUnique<N>(jobs: seq<Job>, disk: Disk)
    ensures var rows := Numbered<N>(jobs, 0, Describing(disk));
            && (UniqueIds(rows) <==> |jobs| <= INT_LIMIT)
            && (|jobs| < INT_LIMIT ==> forall k | 0 <= k < |rows| :: rows[k].message.id == k + 1)
  {
    forall job, id ensures Describing(disk)(job, id).id == id { MessageKeepsId(job, disk, id); }
    UniqueWhileCounting<N>(jobs, Describing(disk));
  }

  // ---- Where the jobs come from ----

  /** Everything a table is loaded from. */
  datatype Setup = Setup(
    config: seq<ProjectElement>, projects: map<string, Project>, vars: TaskVariables, disk: Disk)

  /** The `i`-th source file of the `e`-th task element of the `p`-th project element. */
  datatype Place = Place(p: nat, e: nat, i: nat)

  predicate Precedes(a: Place, b: Place) {
    a.p < b.p || (a.p == b.p && (a.e < b.e || (a.e == b.e && a.i < b.i)))
  }

  /** The `e`-th task element of the `p`-th project element, whose project the console knows. */
  predicate HasElement(b: Setup, p: nat, e: nat) {
    p < |b.config| && b.config[p].name in b.projects && e < |b.config[p].tasks|
  }

  function SourcesAt(b: Setup, p: nat, e: nat): Option<seq<string>>
    requires HasElement(b, p, e)
  {
    var name := b.config[p].name;
    Sources(b.config[p].tasks[e], b.vars.(pName := name, pDir := b.projects[name].path), b.disk)
  }

  predicate IsPlace(b: Setup, a: Place) {
    HasElement(b, a.p, a.e) && SourcesAt(b, a.p, a.e).Some? && a.i < |SourcesAt(b, a.p, a.e).value|
  }

  /** The job is the one of this place: under the name and the directory of its project. */
  predicate JobOf(b: Setup, a: Place, job: Job)
    requires IsPlace(b, a)
  {
    var name := b.config[a.p].name;
    && job.el == b.config[a.p].tasks[a.e] && job.source == SourcesAt(b, a.p, a.e).value[a.i]
    && job.vars == b.vars.(pName := name, pDir := b.projects[name].path)
  }

  /** `at` lists, in document order, all places before `end`, and `jobs` their jobs. */
  ghost predicate Lists(b: Setup, at: seq<Place>, jobs: seq<Job>, end: Place) {
    && |at| == |jobs| && (forall k | 0 <= k < |at| :: ListsOne(b, at[k], jobs[k], end))
    && (forall k, l | 0 <= k < l < |at| :: Precedes(at[k], at[l]))
    && forall a | IsPlace(b, a) && Precedes(a, end) :: a in at
  }

  predicate ListsOne(b: Setup, a: Place, job: Job, end: Place) {
    IsPlace(b, a) && JobOf(b, a, job) && Precedes(a, end)
  }

  lemma {:induction false} NothingBetween(b: Setup, at: seq<Place>, jobs: seq<Job>, end: Place, end': Place)
    requires Lists(b, at, jobs, end) && (end == end' || Precedes(end, end'))
    requires forall a | IsPlace(b, a) && Precedes(a, end') :: Precedes(a, end)
    ensures Lists(b, at, jobs, end')
  {
    forall k | 0 <= k < |at| ensures ListsOne(b, at[k], jobs[k], end') { assert ListsOne(b, at[k], jobs[k], end); }
  }

  lemma {:induction false} ElementListed(b: Setup, at: seq<Place>, jobs: seq<Job>, p: nat, e: nat)
    returns (at': seq<Place>)
    requires Lists(b, at, jobs, Place(p, e, 0)) && HasElement(b, p, e) && SourcesAt(b, p, e).Some?
    ensures var name := b.config[p].name;
            var vars := b.vars.(pName := name, pDir := b.projects[name].path);
            Lists(b, at', jobs + JobsFor(b.config[p].tasks[e], vars, SourcesAt(b, p, e).value), Place(p, e + 1, 0))
  {
    var name, ss := b.config[p].name, SourcesAt(b, p, e).value;
    var vars := b.vars.(pName := name, pDir := b.projects[name].path);
    var more := seq(|ss|, i requires 0 <= i < |ss| => Place(p, e, i));
    at' := at + more;
    var jobs' := jobs + JobsFor(b.config[p].tasks[e], vars, ss);
    forall k | 0 <= k < |at'| ensures ListsOne(b, at'[k], jobs'[k], Place(p, e + 1, 0)) {
      if k < |at| { assert ListsOne(b, at[k], jobs[k], Place(p, e, 0)); }
    }
    forall k, l | 0 <= k < l < |at'| ensures Precedes(at'[k], at'[l]) {
      if k < |at| { assert ListsOne(b, at[k], jobs[k], Place(p, e, 0)); }
    }
    forall a | IsPlace(b, a) && Precedes(a, Place(p, e + 1, 0)) ensures a in at' {
      if !Precedes(a, Place(p, e, 0)) { assert a == more[a.i] == at'[|at| + a.i]; }
    }
  }

  lemma {:induction false} ProjectListed(b: Setup, at: seq<Place>, jobs: seq<Job>, p: nat, m: nat)
    returns (at': seq<Place>)
    requires Lists(b, at, jobs, Place(p, 0, 0)) && p < |b.config| && b.config[p].name in b.projects
    requires m <= |b.config[p].tasks|
    requires var name := b.config[p].name;
             ProjectJobs(
               b.config[p].tasks, b.vars.(pName := name, pDir := b.projects[name].path), b.disk, m).Some?
    ensures var name := b.config[p].name;
            var vars := b.vars.(pName := name, pDir := b.projects[name].path);
            Lists(b, at', jobs + ProjectJobs(b.config[p].tasks, vars, b.disk, m).value, Place(p, m, 0))
  {
    var els, name := b.config[p].tasks, b.config[p].name;
    var vars := b.vars.(pName := name, pDir := b.projects[name].path);
    if m == 0 {
      assert jobs + [] == jobs;
      at' := at;
    } else {
      var front := ProjectJobs(els, vars, b.disk, m - 1).value;
      at' := ProjectListed(b, at, jobs, p, m - 1);
      at' := ElementListed(b, at', jobs + front, p, m - 1);
      JobsJoin(jobs, front, ElementJobs(els[m - 1], vars, b.disk).value);
    }
  }

  lemma {:induction false} JobsJoin(x: seq<Job>, y: seq<Job>, z: seq<Job>)
    ensures x + y + z == x + (y + z)
  {
  }

  lemma {:induction false} ConfigListed(b: Setup, n: nat) returns (at: seq<Place>)
    requires n <= |b.config| && ConfigJobs(b.config, b.projects, b.vars, b.disk, n).Some?
    ensures Lists(b, at, ConfigJobs(b.config, b.projects, b.vars, b.disk, n).value, Place(n, 0, 0))
  {
    if n == 0 {
      at := [];
    } else {
      at := ConfigListed(b, n - 1);
      var front, project := ConfigJobs(b.config, b.projects, b.vars, b.disk, n - 1).value, b.config[n - 1];
      if project.name in b.projects {
        at := ProjectListed(b, at, front, n - 1, |project.tasks|);
        NothingBetween(
          b, at, ConfigJobs(b.config, b.projects, b.vars, b.disk, n).value, Place(n - 1, |project.tasks|, 0),
          Place(n, 0, 0));
      } else {
        NothingBetween(b, at, front, Place(n - 1, 0, 0), Place(n, 0, 0));
      }
    }
  }

  /** Some element of the first `n` project elements cannot be listed. */
  ghost predicate Unlisted(b: Setup, n: nat) {
    exists p: nat, e: nat :: p < n && HasElement(b, p, e) && SourcesAt(b, p, e).None?
  }

  lemma {:induction false} ProjectUnlisted(b: Setup, p: nat, m: nat)
    requires p < |b.config| && b.config[p].name in b.projects && m <= |b.config[p].tasks|
    ensures var name := b.config[p].name;
            ProjectJobs(
              b.config[p].tasks, b.vars.(pName := name, pDir := b.projects[name].path), b.disk, m).None?
            <==> exists e: nat :: e < m && HasElement(b, p, e) && SourcesAt(b, p, e).None?
  {
    if m > 0 {
      ProjectUnlisted(b, p, m - 1);
      assert HasElement(b, p, m - 1);
    }
  }

  lemma {:induction false} ConfigUnlisted(b: Setup, n: nat)
    requires n <= |b.config|
    ensures ConfigJobs(b.config, b.projects, b.vars, b.disk, n).None? <==> Unlisted(b, n)
  {
    if n > 0 {
      ConfigUnlisted(b, n - 1);
      if b.config[n - 1].name in b.projects { ProjectUnlisted(b, n - 1, |b.config[n - 1].tasks|); }
    }
  }

  /** The row as it is before any server has seen it, with the message of the job of its place: sent under the name
      of its project element, which the console knows. */
  predicate FreshAt<N>(b: Setup, r: Row<N>, a: Place, job: Job, id: nat) {
    && IsPlace(b, a) && JobOf(b, a, job) && r.message == MessageFor(job, b.disk, id)
    && r.node.None? && r.result == NO_INIT && r.exitCode == 0 && r.doneIp == ""
    && r.message.id == id && r.message.project == b.config[a.p].name
    && r.message.abortOnError == b.config[a.p].tasks[a.e].abortOnError
  }

  /** The table has one row for each place, in document order. */
  ghost predicate Loaded<N>(b: Setup, rows: seq<Row<N>>) {
    exists at, jobs ::
      Lists(b, at, jobs, Place(|b.config|, 0, 0)) && |rows| == |at|
      && forall k | 0 <= k < |at| :: FreshAt(b, rows[k], at[k], jobs[k], Count(k + 1))
  }

  lemma {:induction false} NumberedIsLoaded<N>(b: Setup)
    requires ConfigJobs(b.config, b.projects, b.vars, b.disk, |b.config|).Some?
    ensures Loaded(
              b, Numbered<N>(ConfigJobs(b.config, b.projects, b.vars, b.disk, |b.config|).value, 0, Describing(b.disk)))
  {
    var jobs := ConfigJobs(b.config, b.projects, b.vars, b.disk, |b.config|).value;
    var rows := Numbered<N>(jobs, 0, Describing(b.disk));
    var end := Place(|b.config|, 0, 0);
    var at := ConfigListed(b, |b.config|);
    forall k | 0 <= k < |at| ensures FreshAt(b, rows[k], at[k], jobs[k], Count(k + 1)) {
      assert ListsOne(b, at[k], jobs[k], end);
      MessageNames(jobs[k], b.disk, Count(k + 1));
    }
  }

  // ---- The loops ----

  /** The numbered jobs of one element: the part of `taskGenerator` that bumps the counter. */
  method ListJobs(el: TaskElement, vars: TaskVariables, disk: Disk, id: nat, ghost base: nat)
    returns (thrown: bool, out: seq<(Job, nat)>, id': nat)
    requires id == Count(base)
    ensures thrown <==> ElementJobs(el, vars, disk).None?
    ensures !thrown ==> out == Stamped(ElementJobs(el, vars, disk).value, base) && id' == Count(base + |out|)
  {
    thrown, out, id' := false, [], id;
    var raw := Backslashes(el.sourceFile);
    if '*' !in raw {
      id' := NextId(id');
      out := [(Job(el, vars, raw), id')];
      OneStamped(el, vars, raw, base);
      return;
    }
    var source := vars.ReplaceIn(raw);
    var mask, files := Mask(source, disk), disk.listing(Directory(source));
    if mask.None? || files.None? {
      thrown := true;
      return;
    }
    thrown, out, id' := ScanDirectory(el, vars, files.value, mask.value, disk, id, base);
  }

  method ScanDirectory(
    el: TaskElement, vars: TaskVariables, files: seq<string>, mask: string, disk: Disk, id: nat, ghost base: nat)
    returns (thrown: bool, out: seq<(Job, nat)>, id': nat)
    requires id == Count(base)
    ensures var chosen := Selected(files, mask, disk, |files|);
            && (thrown <==> chosen.None?)
            && (thrown <==> exists i :: 0 <= i < |files| && TooShort(files, mask, disk, i))
            && (!thrown ==>
                  out == Stamped(JobsFor(el, vars, chosen.value), base) && id' == Count(base + |out|))
  {
    thrown, out, id' := false, [], id;
    ghost var chosen: seq<string> := [];
    for n := 0 to |files|
      invariant Selected(files, mask, disk, n) == Some(chosen)
      invariant Listed(el, vars, chosen, base, out, id')
    {
      var name := disk.lower(files[n]);
      var tail := Substr(name, |name| - |mask|);
      if tail.None? {
        ShortThrows(files, mask, disk, n);
        thrown := true;
        return;
      }
      SelectedNext(files, mask, disk, n, chosen);
      if tail.value == mask {
        ListedNext(el, vars, chosen, base, out, id', name);
        id' := NextId(id');
        out := out + [(Job(el, vars, name), id')];
        chosen := chosen + [name];
      }
    }
    ShortNamesThrow(files, mask, disk, |files|);
  }

  /** The chosen files are in the list, numbered on from `base`, and the counter shows the last number. */
  ghost predicate Listed(
    el: TaskElement, vars: TaskVariables, chosen: seq<string>, base: nat, out: seq<(Job, nat)>, id: nat)
  {
    out == Stamped(JobsFor(el, vars, chosen), base) && id == Count(base + |out|)
  }

  lemma {:induction false} ListedNext(
    el: TaskElement, vars: TaskVariables, chosen: seq<string>, base: nat, out: seq<(Job, nat)>, id: nat, name: string)
    requires Listed(el, vars, chosen, base, out, id)
    ensures Listed(el, vars, chosen + [name], base, out + [(Job(el, vars, name), NextId(id))], NextId(id))
  {
    StampedJoins(el, vars, chosen, name, base);
  }

  lemma {:induction false} SelectedNext(
    files: seq<string>, mask: string, disk: Disk, n: nat, chosen: seq<string>)
    requires n < |files| && Selected(files, mask, disk, n) == Some(chosen) && |mask| <= |disk.lower(files[n])|
    ensures var name := disk.lower(files[n]);
            Selected(files, mask, disk, n + 1)
            == Some(if name[|name| - |mask|..] == mask then chosen + [name] else chosen)
  {
    assert chosen + [] == chosen;
  }

  function JobsFor(el: TaskElement, vars: TaskVariables, sources: seq<string>): seq<Job> {
    seq(|sources|, i requires 0 <= i < |sources| => Job(el, vars, sources[i]))
  }

  ghost function Stamped(jobs: seq<Job>, base: nat): seq<(Job, nat)> {
    seq(|jobs|, k requires 0 <= k < |jobs| => (jobs[k], Count(base + k + 1)))
  }

  lemma {:induction false} OneStamped(el: TaskElement, vars: TaskVariables, source: string, base: nat)
    ensures Stamped(JobsFor(el, vars, [source]), base) == [(Job(el, vars, source), Count(base + 1))]
  {
  }

  lemma {:induction false} StampedJoins(
    el: TaskElement, vars: TaskVariables, chosen: seq<string>, name: string, base: nat)
    ensures Stamped(JobsFor(el, vars, chosen + [name]), base)
            == Stamped(JobsFor(el, vars, chosen), base) + [(Job(el, vars, name), Count(base + |chosen| + 1))]
  {
  }

  lemma {:induction false} ShortThrows(files: seq<string>, mask: string, disk: Disk, n: nat)
    requires n < |files| && TooShort(files, mask, disk, n)
    ensures Selected(files, mask, disk, |files|).None?
    ensures exists i :: 0 <= i < |files| && TooShort(files, mask, disk, i)
  {
    ShortNamesThrow(files, mask, disk, |files|);
  }

  /** Steps 1 to 4 for one job: its own variables, the paths made relative to the project, the message. */
  method Describe(job: Job, id: nat, disk: Disk) returns (m: Message)
    ensures m == Describing(disk)(job, id)
    ensures m.id == id && m.project == job.vars.pName && m.abortOnError == job.el.abortOnError
  {
    var params, workingDir := Backslashes(job.el.params), Backslashes(job.el.workingDir);
    var vars := job.vars.(sourceFile := job.source, outputFile := Backslashes(job.el.outputFile));
    vars := vars.(sourceFile := vars.ReplaceIn(vars.sourceFile));
    vars := vars.(sourceFileName := disk.rawName(vars.sourceFile));
    vars := vars.(outputFile := vars.ReplaceIn(vars.outputFile));
    var commandLine, curWorkingDir := vars.ReplaceIn(params), vars.ReplaceIn(workingDir);
    var sourceFile, outputFile := Delocalise(vars.sourceFile, vars.pDir), Delocalise(vars.outputFile, vars.pDir);
    commandLine := Delocalise(commandLine, vars.pDir);
    curWorkingDir := Delocalise(curWorkingDir, vars.pDir);
    var application := vars.ReplaceIn(Backslashes(job.el.application));
    m := Message(id, vars.pName, sourceFile, outputFile, application, commandLine, curWorkingDir, job.el.abortOnError);
  }

  method TaskGenerator<N>(
    el: TaskElement, vars: TaskVariables, disk: Disk, tasks: seq<Row<N>>, id: nat)
    returns (thrown: bool, tasks': seq<Row<N>>, id': nat)
    requires id == Count(|tasks|)
    ensures thrown <==> ElementJobs(el, vars, disk).None?
    ensures !thrown ==>
              && tasks' == tasks + Numbered(ElementJobs(el, vars, disk).value, |tasks|, Describing(disk))
              && id' == Count(|tasks'|)
  {
    var out;
    thrown, out, id' := ListJobs(el, vars, disk, id, |tasks|);
    tasks' := tasks;
    if thrown {
      return;
    }
    tasks' := AppendRows(out, disk, tasks);
    StampedRows<N>(ElementJobs(el, vars, disk).value, |tasks|, Describing(disk));
  }

  ghost function RowsOf<N>(out: seq<(Job, nat)>, describe: Describer): seq<Row<N>> {
    seq(|out|, k requires 0 <= k < |out| => FreshRow(describe(out[k].0, out[k].1)))
  }

  lemma {:induction false} StampedRows<N>(jobs: seq<Job>, base: nat, describe: Describer)
    ensures RowsOf<N>(Stamped(jobs, base), describe) == Numbered<N>(jobs, base, describe)
  {
  }

  /** The second loop of `taskGenerator`. */
  method AppendRows<N>(out: seq<(Job, nat)>, disk: Disk, tasks: seq<Row<N>>)
    returns (tasks': seq<Row<N>>)
    ensures tasks' == tasks + RowsOf(out, Describing(disk))
  {
    tasks' := tasks;
    ghost var rows := RowsOf<N>(out, Describing(disk));
    for n := 0 to |out|
      invariant tasks' == tasks + rows[..n]
    {
      var message := Describe(out[n].0, out[n].1, disk);
      tasks' := tasks' + [FreshRow(message)];
      assert FreshRow(message) == rows[n] && rows[..n + 1] == rows[..n] + [rows[n]];
    }
    assert rows[..|out|] == rows;
  }

  /** One more element appends its jobs, numbered on. */
  lemma {:induction false} ProjectStep<N>(
    els: seq<TaskElement>, vars: TaskVariables, disk: Disk, front: seq<Job>, e: nat)
    requires e < |els| && ProjectJobs(els, vars, disk, e).Some?
    requires ElementJobs(els[e], vars, disk).Some?
    ensures ProjectJobs(els, vars, disk, e + 1).Some?
    ensures var describe := Describing(disk);
            var rows := Numbered<N>(front + ProjectJobs(els, vars, disk, e).value, 0, describe);
            Numbered<N>(front + ProjectJobs(els, vars, disk, e + 1).value, 0, describe)
            == rows + Numbered<N>(ElementJobs(els[e], vars, disk).value, |rows|, describe)
  {
    var earlier, jobs := ProjectJobs(els, vars, disk, e).value, ElementJobs(els[e], vars, disk).value;
    NumberedJoins<N>(front + earlier, jobs, Describing(disk));
    assert ProjectJobs(els, vars, disk, e + 1) == Some(earlier + jobs);
    JobsJoin(front, earlier, jobs);
  }

  method LoadProject<N>(
    els: seq<TaskElement>, vars: TaskVariables, disk: Disk,
    ghost front: seq<Job>, tasks: seq<Row<N>>, id: nat)
    returns (thrown: bool, tasks': seq<Row<N>>, id': nat)
    requires tasks == Numbered(front, 0, Describing(disk)) && id == Count(|tasks|)
    ensures thrown <==> ProjectJobs(els, vars, disk, |els|).None?
    ensures !thrown ==> tasks' == Numbered(front + ProjectJobs(els, vars, disk, |els|).value, 0, Describing(disk))
    ensures !thrown ==> id' == Count(|tasks'|)
  {
    thrown, tasks', id' := false, tasks, id;
    assert front + [] == front;
    for e := 0 to |els|
      invariant ProjectJobs(els, vars, disk, e).Some?
      invariant tasks' == Numbered(front + ProjectJobs(els, vars, disk, e).value, 0, Describing(disk))
      invariant id' == Count(|tasks'|)
    {
      thrown, tasks', id' := TaskGenerator(els[e], vars, disk, tasks', id');
      if thrown {
        ProjectThrows(els, vars, disk, e + 1, |els|);
        return;
      }
      ProjectStep<N>(els, vars, disk, front, e);
    }
  }

  lemma {:induction false} NumberedFromOne<N>(jobs: seq<Job>, disk: Disk)
    requires |jobs| < INT_LIMIT
    ensures var rows := Numbered<N>(jobs, 0, Describing(disk));
            forall k | 0 <= k < |jobs| :: rows[k] == FreshRow(MessageFor(jobs[k], disk, k + 1))
  {
    var rows := Numbered<N>(jobs, 0, Describing(disk));
    forall k | 0 <= k < |jobs| ensures rows[k] == FreshRow(MessageFor(jobs[k], disk, k + 1)) {
      CountIsExact(k + 1);
    }
  }

  lemma {:induction false} ConfigStep(
    config: seq<ProjectElement>, projects: map<string, Project>, vars: TaskVariables, disk: Disk, p: nat)
    requires p < |config| && ConfigJobs(config, projects, vars, disk, p).Some? && config[p].name in projects
    ensures var e := config[p];
            var jobs := ProjectJobs(
              e.tasks, vars.(pName := e.name, pDir := projects[e.name].path), disk, |e.tasks|);
            ConfigJobs(config, projects, vars, disk, p + 1)
            == Joined(ConfigJobs(config, projects, vars, disk, p), jobs)
  {
  }

  /** `loadConfig`: the table is the build set's jobs in document order, fresh, each with the message that steps
      1 to 4 give it, and numbered from one. Projects the console does not know are skipped and use up no
      numbers. It succeeds if there is a task at all. */
  method LoadConfig<N>(config: seq<ProjectElement>, projects: map<string, Project>, vars: TaskVariables, disk: Disk)
    returns (thrown: bool, ok: bool, tasks: seq<Row<N>>)
    ensures thrown <==> ConfigJobs(config, projects, vars, disk, |config|).None?
    ensures thrown <==> Unlisted(Setup(config, projects, vars, disk), |config|)
    ensures !thrown ==> Loaded(Setup(config, projects, vars, disk), tasks)
    ensures !thrown ==>
              var jobs := ConfigJobs(config, projects, vars, disk, |config|).value;
              && tasks == Numbered(jobs, 0, Describing(disk))
              && (|tasks| < INT_LIMIT ==>
                    forall k | 0 <= k < |tasks| :: tasks[k] == FreshRow(MessageFor(jobs[k], disk, k + 1)))
              && (ok <==> tasks != [])
  {
    var id := 0;
    ghost var b := Setup(config, projects, vars, disk);
    ConfigUnlisted(b, |config|);
    thrown, ok, tasks := false, false, [];
    for p := 0 to |config|
      invariant ConfigJobs(config, projects, vars, disk, p).Some?
      invariant tasks == Numbered(ConfigJobs(config, projects, vars, disk, p).value, 0, Describing(disk))
      invariant id == Count(|tasks|)
    {
      var project := config[p];
      if project.name !in projects {
        continue;
      }
      var prjVars := vars.(pName := project.name, pDir := projects[project.name].path);
      ghost var front := ConfigJobs(config, projects, vars, disk, p).value;
      ConfigStep(config, projects, vars, disk, p);
      thrown, tasks, id := LoadProject(project.tasks, prjVars, disk, front, tasks, id);
      if thrown {
        ConfigThrows(config, projects, vars, disk, p + 1, |config|);
        return;
      }
    }
    ok := tasks != [];
    NumberedIsLoaded<N>(b);
    if |tasks| < INT_LIMIT {
      NumberedFromOne<N>(ConfigJobs(config, projects, vars, disk, |config|).value, disk);
    }
  }

  lemma {:induction false} ProjectThrows(els: seq<TaskElement>, vars: TaskVariables, disk: Disk, m: nat, n: nat)
    requires m <= n <= |els| && ProjectJobs(els, vars, disk, m).None?
    ensures ProjectJobs(els, vars, disk, n).None?
  {
    if m < n { ProjectThrows(els, vars, disk, m, n - 1); }
  }

  lemma {:induction false} ConfigThrows(
    config: seq<ProjectElement>, projects: map<string, Project>, vars: TaskVariables, disk: Disk, m: nat, n: nat)
    requires m <= n <= |config| && ConfigJobs(config, projects, vars, disk, m).None?
    ensures ConfigJobs(config, projects, vars, disk, n).None?
  {
    if m < n { ConfigThrows(config, projects, vars, disk, m, n - 1); }
  }
}
