/** The road of a path through the whole system: template, substitution and de-localisation on the
    console, localisation on the daemon. */
module Paths {
  import opened Wrappers
  import opened Text
  import opened TaskTable
  import opened Loader
  import opened DaemonClient

  lemma {:induction false} ContainsBehind(u: string, r: string, t: string)
    requires t != "" && t[0] == '$' && '$' !in u && !Contains(r, t)
    ensures !Contains(u + r, t)
  {
    forall i | 0 <= i <= |u + r| ensures !(t <= (u + r)[i..]) {
      if i < |u| {
        assert (u + r)[i..][0] == u[i] && u[i] in u;
      } else {
        assert (u + r)[i..] == r[i - |u|..];
      }
    }
  }

  lemma {:induction false} LookupIsIn(env: Bindings, name: string)
    ensures Lookup(env, name).Some? ==> (name, Lookup(env, name).value) in env
  {
    if env != [] { LookupIsIn(env[1..], name); }
  }

  lemma {:induction false} NoTagExpanded(s: string, env: Bindings, name: string)
    requires Templated(s) && PlainValues(s, env) && PlainName(name)
    requires Lookup(env, name).Some? || !Mentions(s, name)
    ensures !Contains(Expand(s, env), Tag(name))
    decreases |s|
  {
    if s == "" {
    } else if s[0] != '$' {
      NoTagExpanded(s[1..], env, name);
      ContainsBehind([s[0]], Expand(s[1..], env), Tag(name));
    } else {
      var here, rest := NameAt(s), AfterToken(s);
      NoTagExpanded(rest, env, name);
      LookupIsIn(env, here);
      var r := Expand(rest, env);
      if Lookup(env, here).Some? {
        ContainsBehind(Lookup(env, here).value, r, Tag(name));
      } else {
        TagPrefix(name, here, r);
        UnboundTag(here, r, Tag(name));
      }
    }
  }

  lemma {:induction false} TagBehind(u: string, r: string, t: string)
    requires Contains(r, t)
    ensures Contains(u + r, t)
  {
    var i :| 0 <= i <= |r| && t <= r[i..];
    assert (u + r)[|u| + i..] == r[i..];
  }

  lemma {:induction false} TagKept(s: string, env: Bindings, name: string)
    requires Templated(s) && Mentions(s, name) && Lookup(env, name).None?
    ensures Contains(Expand(s, env), Tag(name))
    decreases |s|
  {
    if s[0] != '$' {
      TagKept(s[1..], env, name);
      TagBehind([s[0]], Expand(s[1..], env), Tag(name));
    } else {
      var here, r := NameAt(s), Expand(AfterToken(s), env);
      if here == name {
        assert (Tag(name) + r)[0..] == Tag(name) + r && Tag(name) <= Tag(name) + r;
      } else {
        TagKept(AfterToken(s), env, name);
        TagBehind(if Lookup(env, here).Some? then Lookup(env, here).value else Tag(here), r, Tag(name));
      }
    }
  }

  /** Expanding a template leaves no tag of a bound variable behind, and every other tag it mentions. */
  lemma {:induction false} ExpandLeavesNoTag(s: string, env: Bindings, name: string)
    requires Templated(s) && PlainValues(s, env) && PlainName(name)
    ensures Contains(Expand(s, env), Tag(name)) <==> Mentions(s, name) && Lookup(env, name).None?
  {
    if Mentions(s, name) && Lookup(env, name).None? {
      TagKept(s, env, name);
    } else {
      NoTagExpanded(s, env, name);
    }
  }

  // ---- The nine variables ----

  /** The names can be told apart by their lengths and first letters. */
  lemma {:induction false} NamesDiffer(v: TaskVariables)
    ensures var env := v.Table();
            && |env| == 9 && (forall i | 0 <= i < 9 :: PlainName(env[i].0))
            && forall i, j | 0 <= i < j < 9 :: env[i].0 != env[j].0
  {
    var env := v.Table();
    assert |env[0].0| == |env[4].0| == |env[5].0| == 5 && |env[1].0| == |env[2].0| == |env[3].0| == 4;
    assert |env[6].0| == |env[8].0| == 10 && |env[7].0| == 14;
    assert env[0].0[0] == 'p' && env[4].0[0] == 's' && env[5].0[0] == 'o';
    assert env[1].0[0] == 'p' && env[2].0[0] == 's' && env[3].0[0] == 'w';
    assert env[6].0[0] == 's' && env[8].0[0] == 'o';
  }

  /** What each of the nine names is bound to; no other name is bound. */
  lemma {:induction false} TableBinds(v: TaskVariables, name: string)
    ensures var env := v.Table();
            && Lookup(env, "pname") == Some(v.pName) && Lookup(env, "pdir") == Some(v.pDir)
            && Lookup(env, "sdir") == Some(v.sDir) && Lookup(env, "wdir") == Some(v.wDir)
            && Lookup(env, "sfile") == Some(v.sFile) && Lookup(env, "ofile") == Some(v.oFile)
            && Lookup(env, "sourcefile") == Some(v.sourceFile)
            && Lookup(env, "sourcefilename") == Some(v.sourceFileName)
            && Lookup(env, "outputfile") == Some(v.outputFile)
    ensures name !in ["pname", "pdir", "sdir", "wdir", "sfile", "ofile", "sourcefile", "sourcefilename", "outputfile"]
            ==> Lookup(v.Table(), name).None?
  {
    var env := v.Table();
    NamesDiffer(v);
    forall i | 0 <= i < 9 ensures Lookup(env, env[i].0) == Some(env[i].1) { LookupAt(env, i); }
    assert env[0].0 == "pname" && env[1].0 == "pdir" && env[2].0 == "sdir" && env[3].0 == "wdir" && env[4].0 == "sfile";
    assert env[5].0 == "ofile" && env[6].0 == "sourcefile" && env[7].0 == "sourcefilename" && env[8].0 == "outputfile";
    var names := ["pname", "pdir", "sdir", "wdir", "sfile", "ofile", "sourcefile", "sourcefilename", "outputfile"];
    if name !in names {
      forall i | 0 <= i < 9 ensures env[i].0 != name { assert env[i].0 == names[i]; }
      NotBound(env, name);
    }
  }

  /** A tag by itself becomes its field, each as long as the field has no `$` in it. */
  lemma {:induction false} TagsAreFields(v: TaskVariables)
    ensures '$' !in v.pName ==> v.ReplaceIn("$(pname)") == v.pName
    ensures '$' !in v.pDir ==> v.ReplaceIn("$(pdir)") == v.pDir
    ensures '$' !in v.sDir ==> v.ReplaceIn("$(sdir)") == v.sDir
    ensures '$' !in v.wDir ==> v.ReplaceIn("$(wdir)") == v.wDir
    ensures '$' !in v.sFile ==> v.ReplaceIn("$(sfile)") == v.sFile
    ensures '$' !in v.oFile ==> v.ReplaceIn("$(ofile)") == v.oFile
    ensures '$' !in v.sourceFile ==> v.ReplaceIn("$(sourcefile)") == v.sourceFile
    ensures '$' !in v.sourceFileName ==> v.ReplaceIn("$(sourcefilename)") == v.sourceFileName
    ensures '$' !in v.outputFile ==> v.ReplaceIn("$(outputfile)") == v.outputFile
  {
    var env := v.Table();
    TagTexts();
    FileTagTexts();
    forall i | 0 <= i < 9 && '$' !in env[i].1 ensures SubstituteAll(Tag(env[i].0), env) == env[i].1 {
      TagIsField(v, i);
    }
    assert env[0].1 == v.pName && env[1].1 == v.pDir && env[2].1 == v.sDir && env[3].1 == v.wDir;
    assert env[4].1 == v.sFile && env[5].1 == v.oFile && env[6].1 == v.sourceFile;
    assert env[7].1 == v.sourceFileName && env[8].1 == v.outputFile;
  }

  lemma {:induction false} TagIsField(v: TaskVariables, i: nat)
    requires i < 9 && '$' !in v.Table()[i].1
    ensures var env := v.Table();
            SubstituteAll(Tag(env[i].0), env) == env[i].1
  {
    NamesDiffer(v);
    TagInTable(v.Table(), i);
    PlainIsLeft(v.Table()[i].1, v.Table()[i + 1..]);
  }

  lemma {:induction false} TagTexts()
    ensures Tag("pname") == "$(pname)" && Tag("pdir") == "$(pdir)" && Tag("sdir") == "$(sdir)"
    ensures Tag("wdir") == "$(wdir)" && Tag("sfile") == "$(sfile)" && Tag("ofile") == "$(ofile)"
    ensures Tag("odir") == "$(odir)"
  {
  }

  lemma {:induction false} FileTagTexts()
    ensures Tag("sourcefile") == "$(sourcefile)" && Tag("sourcefilename") == "$(sourcefilename)"
    ensures Tag("outputfile") == "$(outputfile)"
  {
  }

  /** What the three tags of a job's own files become: the expanded source file, the raw name of that, and the
      output file expanded with these two known. */
  lemma {:induction false} JobTags(job: Job, disk: Disk)
    ensures var v, out := JobVariables(job, disk), Backslashes(job.el.outputFile);
            var source := job.vars.(sourceFile := job.source, outputFile := out).ReplaceIn(job.source);
            var name := disk.rawName(source);
            var output := job.vars.(
                sourceFile := source, sourceFileName := name, outputFile := out).ReplaceIn(out);
            && ('$' !in source ==> v.ReplaceIn("$(sourcefile)") == source)
            && ('$' !in name ==> v.ReplaceIn("$(sourcefilename)") == name)
            && ('$' !in output ==> v.ReplaceIn("$(outputfile)") == output)
            && ('$' !in job.source ==> source == job.source)
  {
    var v, out := JobVariables(job, disk), Backslashes(job.el.outputFile);
    TagsAreFields(v);
    var w := job.vars.(sourceFile := job.source, outputFile := out);
    if '$' !in job.source { PlainIsLeft(job.source, w.Table()); }
  }

  /** There is no replacement for `$(odir)`: a text has it after the replacements exactly when it had it before. */
  lemma {:induction false} OdirStays(v: TaskVariables, s: string)
    requires Templated(s) && PlainValues(s, v.Table())
    ensures Lookup(v.Table(), "odir").None?
    ensures Contains(v.ReplaceIn(s), "$(odir)") <==> Mentions(s, "odir")
  {
    var env := v.Table();
    TableBinds(v, "odir");
    NotOdir();
    SubstitutionIsSimultaneous(s, env);
    ExpandLeavesNoTag(s, env, "odir");
    TagTexts();
  }

  lemma {:induction false} NotOdir()
    ensures "odir" !in
              ["pname", "pdir", "sdir", "wdir", "sfile", "ofile", "sourcefile", "sourcefilename", "outputfile"]
  {
    assert "odir"[0] == 'o' && |"odir"| == 4;
    assert "pdir"[0] == 'p' && "sdir"[0] == 's' && "wdir"[0] == 'w';
  }

  lemma {:induction false} UnboundTag(here: string, r: string, t: string)
    requires t != "" && t[0] == '$' && PlainName(here) && !Contains(r, t) && !(t <= Tag(here) + r)
    ensures !Contains(Tag(here) + r, t)
  {
    var s := Tag(here) + r;
    var u := "(" + here + ")";
    ContainsBehind(u, r, t);
    forall i | 0 <= i <= |s| ensures !(t <= s[i..]) {
      if i == 0 {
        assert s[0..] == s;
      } else {
        assert s[i..] == (u + r)[i - 1..];
      }
    }
  }

  lemma {:induction false} ReplaceAbsent(s: string, what: string, sub: string)
    requires what != "" && !Contains(s, what)
    ensures Replace(s, what, sub) == s
    decreases |s|
  {
    if s != "" {
      assert !(what <= s[0..]);
      ContainsTail(s, what, 1);
      ReplaceAbsent(s[1..], what, sub);
    }
  }

  /** Templates that mention no variable whose value has a `$` in it. */
  ghost predicate AllPlain(templates: set<string>, v: TaskVariables) {
    forall s | s in templates :: Templated(s) && PlainValues(s, v.Table())
  }

  /** What a daemon with project directory `p` launches for a job: the templates expanded in one pass,
      with the console's project directory replaced by the daemon's work path in the command line and
      by its project path in the working directory. The application keeps the console's path. */
  lemma {:induction false} LaunchIsRelocated(job: Job, disk: Disk, id: nat, p: Project)
    ensures var v, el, l := JobVariables(job, disk), job.el, LaunchOf(MessageFor(job, disk, id), p);
            v.pDir != ""
            && AllPlain({Backslashes(el.params), Backslashes(el.workingDir), Backslashes(el.application)}, v) ==>
              && l.commandLine == Replace(Expand(Backslashes(el.params), v.Table()), v.pDir, p.workPath)
              && l.workingDir == Replace(Expand(Backslashes(el.workingDir), v.Table()), v.pDir, p.path)
              && l.application == Expand(Backslashes(el.application), v.Table())
  {
    var v, el := JobVariables(job, disk), job.el;
    var params, dir, app := Backslashes(el.params), Backslashes(el.workingDir), Backslashes(el.application);
    if v.pDir != "" && AllPlain({params, dir, app}, v) {
      Expanded(params, v);
      Expanded(dir, v);
      Expanded(app, v);
      Relocation(v.ReplaceIn(params), v.pDir, p.workPath);
      Relocation(v.ReplaceIn(dir), v.pDir, p.path);
      ReplaceAbsent(v.ReplaceIn(app), PDIR, p.path);
    }
  }

  lemma {:induction false} ContainsLater(s: string, what: string)
    requires s != "" && Contains(s, what) && !(what <= s)
    ensures Contains(s[1..], what)
  {
    var i :| 0 <= i <= |s| && what <= s[i..];
    assert s[0..] == s;
    assert s[1..][i - 1..] == s[i..];
  }

  /** Replacement by something longer, or shorter, shows in the length. */
  lemma {:induction false} ReplaceLength(s: string, what: string, sub: string)
    requires what != ""
    ensures var r := |Replace(s, what, sub)|;
            && (|sub| >= |what| ==> r >= |s|) && (|sub| <= |what| ==> r <= |s|)
            && (Contains(s, what) && |sub| != |what| ==> r != |s|)
    decreases |s|
  {
    if s == "" {
    } else if what <= s {
      ReplaceLength(s[|what|..], what, sub);
    } else {
      ReplaceLength(s[1..], what, sub);
      if Contains(s, what) { ContainsLater(s, what); }
    }
  }

  lemma {:induction false} ReplaceShows(s: string, what: string, sub: string)
    requires what != "" && Contains(s, what) && |sub| == |what| && sub != what
    ensures Replace(s, what, sub) != s
    decreases |s|
  {
    var r := Replace(s, what, sub);
    if s == "" {
    } else if what <= s {
      assert r[..|sub|] == sub && s[..|what|] == what;
    } else {
      ContainsLater(s, what);
      ReplaceShows(s[1..], what, sub);
      assert r[1..] == Replace(s[1..], what, sub);
    }
  }

  /** Replacement leaves a text alone exactly when there is nothing to replace, or it is replaced by itself. */
  lemma {:induction false} ReplaceChanges(s: string, what: string, sub: string)
    requires what != ""
    ensures Replace(s, what, sub) == s <==> !Contains(s, what) || what == sub
  {
    if !Contains(s, what) {
      ReplaceAbsent(s, what, sub);
    } else if what == sub {
      ReplaceBySame(s, what);
    } else if |what| == |sub| {
      ReplaceShows(s, what, sub);
    } else {
      ReplaceLength(s, what, sub);
    }
  }

  /** The application that is launched is the relocated one exactly when the expanded one does not contain the
      console's project directory, or the daemon has the project in the same directory. */
  lemma {:induction false} ApplicationIsRelocatedExactly(job: Job, disk: Disk, id: nat, p: Project)
    ensures var v, app := JobVariables(job, disk), Backslashes(job.el.application);
            v.pDir != "" && AllPlain({app}, v) ==>
              var expanded := Expand(app, v.Table());
              LaunchOf(MessageFor(job, disk, id), p).application == Replace(expanded, v.pDir, p.path)
              <==> !Contains(expanded, v.pDir) || v.pDir == p.path
  {
    var v, app := JobVariables(job, disk), Backslashes(job.el.application);
    if v.pDir != "" && AllPlain({app}, v) {
      Expanded(app, v);
      ReplaceAbsent(v.ReplaceIn(app), PDIR, p.path);
      ReplaceChanges(v.ReplaceIn(app), v.pDir, p.path);
    }
  }

  /** For instance an application that is the project directory itself: the daemon launches the console's path. */
  lemma {:induction false} ApplicationIsNotRelocated(job: Job, disk: Disk, id: nat, p: Project)
    requires job.el.application == PDIR && job.vars.pDir != "" && '$' !in job.vars.pDir && job.vars.pDir != p.path
    ensures LaunchOf(MessageFor(job, disk, id), p).application == job.vars.pDir
    ensures Replace(job.vars.pDir, job.vars.pDir, p.path) == p.path
  {
    var v, pDir := JobVariables(job, disk), job.vars.pDir;
    NoSlash();
    TagsAreFields(v);
    NoTagIn(pDir);
    ReplaceAbsent(pDir, PDIR, p.path);
    ReplaceWhole(pDir, p.path);
  }

  lemma {:induction false} ReplaceWhole(s: string, sub: string)
    requires s != ""
    ensures Replace(s, s, sub) == sub
  {
    assert s[|s|..] == "" && sub + "" == sub;
  }

  lemma {:induction false} NoTagIn(s: string)
    requires '$' !in s
    ensures !Contains(s, PDIR)
  {
    forall i | 0 <= i <= |s| ensures !(PDIR <= s[i..]) {
      assert PDIR[0] == '$' && |PDIR| > 0;
      assert i < |s| ==> s[i..][0] == s[i] && s[i] in s;
    }
  }

  lemma {:induction false} NoSlash()
    ensures Backslashes(PDIR) == PDIR
  {
    assert |PDIR| == 7 && forall j | 0 <= j < 7 :: PDIR[j] != '/';
    forall i | 0 <= i <= 7 ensures !("/" <= PDIR[i..]) {
      assert i < 7 ==> PDIR[i..][0] == PDIR[i];
    }
    ReplaceAbsent(PDIR, "/", "\\");
  }

  /** The same for the files: source and output file are relocated to the daemon's work path. */
  lemma {:induction false} FilesAreRelocated(job: Job, disk: Disk, id: nat, p: Project, started: bool)
    ensures var source, output, pDir := job.source, Backslashes(job.el.outputFile), job.vars.pDir;
            var v1, v2 := SourceVariables(job), OutputVariables(job, disk);
            pDir != "" && AllPlain({source}, v1) && AllPlain({output}, v2) ==>
              var t := TaskOf(MessageFor(job, disk, id), p, started);
              && t.sourceFile == Replace(Expand(source, v1.Table()), pDir, p.workPath)
              && t.outputFile == Replace(Expand(output, v2.Table()), pDir, p.workPath)
  {
    var source, output, pDir := job.source, Backslashes(job.el.outputFile), job.vars.pDir;
    var v1, v2 := SourceVariables(job), OutputVariables(job, disk);
    if pDir != "" && AllPlain({source}, v1) && AllPlain({output}, v2) {
      Expanded(source, v1);
      Expanded(output, v2);
      Relocation(v1.ReplaceIn(source), pDir, p.workPath);
      Relocation(v2.ReplaceIn(output), pDir, p.workPath);
    }
  }

  lemma {:induction false} Expanded(s: string, v: TaskVariables)
    requires Templated(s) && PlainValues(s, v.Table())
    ensures v.ReplaceIn(s) == Expand(s, v.Table()) && !Contains(v.ReplaceIn(s), PDIR)
  {
    var env := v.Table();
    TableBinds(v, "pdir");
    SubstitutionIsSimultaneous(s, env);
    ExpandLeavesNoTag(s, env, "pdir");
    PdirTag();
  }

  lemma {:induction false} PdirTag()
    ensures Tag("pdir") == PDIR
  {
  }

}
